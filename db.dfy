/** The remote history database, seen as a value: the tables the server
    lists, their column lists and their rows, and whether a connection to it
    can be opened at all. Also the two read-only queries of the history
    object, listing the tables and listing a table's columns. */
module Db {

  datatype Option<T> = None | Some(value: T)

  /** The exceptions the core raises or lets through, grouped by how the
      candidate fallback treats them. */
  datatype Error =
    | NoData    // IOError: the window holds no row
    | BadQuery  // the server rejected the SELECT; pandas re-raises it as its DatabaseError, an OSError
    | NotFound  // RuntimeError: no column matches, or no candidate yields data
    | Fault     // anything else: connection failure, a failed SHOW COLUMNS, KeyError, ValueError

  /** Python's OSError family, the only exceptions the fallback loop swallows. */
  predicate IsOSError(e: Error) {
    e.NoData? || e.BadQuery?
  }

  datatype Result<T> = Ok(value: T) | Err(error: Error)

  /** A stored row maps a column name to its value; a column the row does not
      mention is NULL. */
  type Row = map<string, Option<int>>

  datatype Table = Table(columns: seq<string>, rows: seq<Row>)

  /** `listing` is what SHOW TABLES answers, in the server's order. */
  datatype Store = Store(reachable: bool, listing: seq<string>, tables: map<string, Table>)

  /** The reserved integer timestamp column, its output name, and the raw
      timing column dropped from every result. */
  const TimeColumn := "_i_time"
  const EpochColumn := "epoch_time"
  const RawTimeColumn := "_t_time"

  /** The column get_data builds its index from; set_index moves it out of
      the columns. */
  const IndexColumn := "time"

  function Cell(row: Row, column: string): Option<int> {
    if column in row then row[column] else None
  }

  predicate Distinct<T(==)>(s: seq<T>) {
    forall i, j :: 0 <= i < j < |s| ==> s[i] != s[j]
  }

  lemma DistinctTail<T>(s: seq<T>)
    requires Distinct(s) && |s| > 0
    ensures Distinct(s[1..]) && s[0] !in s[1..]
  {
    forall i, j | 0 <= i < j < |s[1..]| ensures s[1..][i] != s[1..][j] {
      assert s[1..][i] == s[i + 1] && s[1..][j] == s[j + 1];
    }
    forall k | 0 <= k < |s[1..]| ensures s[1..][k] != s[0] {
      assert s[1..][k] == s[k + 1];
    }
  }

  /** The elements of `xs` that `keep` accepts, in their order. */
  function Filter<T(!new)>(xs: seq<T>, keep: T -> bool): (r: seq<T>)
    ensures |r| <= |xs|
  {
    if |xs| == 0 then []
    else (if keep(xs[0]) then [xs[0]] else []) + Filter(xs[1..], keep)
  }

  /** Filter keeps exactly the accepted elements. */
  lemma {:induction false} FilterMembers<T(!new)>(xs: seq<T>, keep: T -> bool)
    ensures forall x :: x in Filter(xs, keep) <==> x in xs && keep(x)
  {
    if |xs| > 0 {
      assert xs == [xs[0]] + xs[1..];
      FilterMembers(xs[1..], keep);
    }
  }

  /** Filter keeps every accepted element as often as it occurs. */
  lemma {:induction false} FilterCount<T(!new)>(xs: seq<T>, keep: T -> bool, x: T)
    ensures multiset(Filter(xs, keep))[x] == if keep(x) then multiset(xs)[x] else 0
  {
    if |xs| > 0 {
      assert xs == [xs[0]] + xs[1..];
      FilterCount(xs[1..], keep, x);
    }
  }

  /** Filtering first by a weaker test changes nothing that a stronger test
      then keeps. */
  lemma {:induction false} FilterNested<T(!new)>(xs: seq<T>, weak: T -> bool, strong: T -> bool)
    requires forall x :: strong(x) ==> weak(x)
    ensures Filter(Filter(xs, weak), strong) == Filter(xs, strong)
  {
    if |xs| > 0 {
      var rest := Filter(xs[1..], weak);
      FilterNested(xs[1..], weak, strong);
      if weak(xs[0]) {
        var w := [xs[0]] + rest;
        assert Filter(xs, weak) == w;
        assert w[0] == xs[0] && w[1..] == rest;
        assert Filter(w, strong) == (if strong(xs[0]) then [xs[0]] else []) + Filter(rest, strong);
      } else {
        assert Filter(xs, weak) == [] + rest == rest;
        assert Filter(xs, strong) == [] + Filter(xs[1..], strong);
      }
    }
  }

  // ----- Python's ordering of str: lexicographic by code point -----

  predicate Below(a: string, b: string) {
    |a| == 0 || (|b| > 0 && (a[0] < b[0] || (a[0] == b[0] && Below(a[1..], b[1..]))))
  }

  lemma {:induction false} BelowReflexive(a: string)
    ensures Below(a, a)
  {
    if |a| > 0 { BelowReflexive(a[1..]); }
  }

  lemma {:induction false} BelowTotal(a: string, b: string)
    ensures Below(a, b) || Below(b, a)
  {
    if |a| > 0 && |b| > 0 && a[0] == b[0] { BelowTotal(a[1..], b[1..]); }
  }

  lemma {:induction false} BelowAntisymmetric(a: string, b: string)
    requires Below(a, b) && Below(b, a)
    ensures a == b
  {
    if |a| > 0 {
      BelowAntisymmetric(a[1..], b[1..]);
      assert a == [a[0]] + a[1..] && b == [b[0]] + b[1..];
    }
  }

  lemma {:induction false} BelowTransitive(a: string, b: string, c: string)
    requires Below(a, b) && Below(b, c)
    ensures Below(a, c)
  {
    if |a| > 0 && a[0] == b[0] && b[0] == c[0] { BelowTransitive(a[1..], b[1..], c[1..]); }
  }

  predicate Sorted(s: seq<string>) {
    forall i, j :: 0 <= i < j < |s| ==> Below(s[i], s[j])
  }

  lemma SortedTail(s: seq<string>)
    requires Sorted(s) && |s| > 0
    ensures Sorted(s[1..]) && forall y :: y in s[1..] ==> Below(s[0], y)
  {
    forall i, j | 0 <= i < j < |s[1..]| ensures Below(s[1..][i], s[1..][j]) {
      assert s[1..][i] == s[i + 1] && s[1..][j] == s[j + 1];
    }
    forall y | y in s[1..] ensures Below(s[0], y) {
      var k :| 0 <= k < |s[1..]| && s[1..][k] == y;
      assert s[k + 1] == y;
    }
  }

  function Insert(x: string, s: seq<string>): (r: seq<string>)
    ensures multiset(r) == multiset(s) + multiset{x}
  {
    if |s| == 0 then [x]
    else if Below(x, s[0]) then [x] + s
    else
      assert s == [s[0]] + s[1..];
      [s[0]] + Insert(x, s[1..])
  }

  /** A name below every element of a sorted list can go in front of it. */
  lemma ConsSorted(h: string, t: seq<string>)
    requires Sorted(t) && forall y :: y in t ==> Below(h, y)
    ensures Sorted([h] + t)
  {
    var r := [h] + t;
    forall i, j | 0 <= i < j < |r| ensures Below(r[i], r[j]) {
      assert r[j] == t[j - 1];
      if i > 0 { assert r[i] == t[i - 1]; }
    }
  }

  lemma {:induction false} InsertSorted(x: string, s: seq<string>)
    requires Sorted(s)
    ensures Sorted(Insert(x, s))
  {
    if |s| > 0 && !Below(x, s[0]) {
      var rest := Insert(x, s[1..]);
      SortedTail(s);
      InsertSorted(x, s[1..]);
      BelowTotal(x, s[0]);
      forall y | y in rest ensures Below(s[0], y) {
        assert y in multiset(rest);
        if y != x { assert y in multiset(s[1..]); }
      }
      ConsSorted(s[0], rest);
    } else if |s| > 0 {
      forall y | y in s ensures Below(x, y) {
        var k :| 0 <= k < |s| && s[k] == y;
        if k > 0 { BelowTransitive(x, s[0], y); }
      }
      ConsSorted(x, s);
    }
  }

  lemma {:induction false} InsertDistinct(x: string, s: seq<string>)
    requires Distinct(s) && x !in s
    ensures Distinct(Insert(x, s))
  {
    if |s| > 0 && !Below(x, s[0]) {
      var rest := Insert(x, s[1..]);
      assert x !in s[1..];
      DistinctTail(s);
      InsertDistinct(x, s[1..]);
      assert s[0] !in multiset(rest) by {
        assert s[0] !in multiset(s[1..]);
        assert s[0] != x;
      }
      var r := [s[0]] + rest;
      forall i, j | 0 <= i < j < |r| ensures r[i] != r[j] {
        if i == 0 { assert r[j] == rest[j - 1] && rest[j - 1] in rest; }
        else { assert r[i] == rest[i - 1] && r[j] == rest[j - 1]; }
      }
    }
  }

  /** Python's sorted() on a list of table names (insertion sort; for a total
      order on values the result does not depend on the algorithm, see
      SortedUnique). */
  function Sort(s: seq<string>): (r: seq<string>)
    ensures multiset(r) == multiset(s)
    ensures Sorted(r)
    ensures Distinct(s) ==> Distinct(r)
  {
    if |s| == 0 then []
    else
      var rest := Sort(s[1..]);
      assert s == [s[0]] + s[1..];
      InsertSorted(s[0], rest);
      if Distinct(s) then
        DistinctTail(s);
        assert s[0] !in multiset(rest) by {
          assert s[0] !in multiset(s[1..]);
        }
        InsertDistinct(s[0], rest);
        Insert(s[0], rest)
      else
        Insert(s[0], rest)
  }

  lemma SortedHead(s: seq<string>, y: string)
    requires Sorted(s) && |s| > 0 && y in s
    ensures Below(s[0], y)
  {
    var k :| 0 <= k < |s| && s[k] == y;
    if k == 0 { BelowReflexive(y); }
  }

  /** Two sorted arrangements of the same names are the same list: sorted()
      has exactly one possible answer. */
  lemma {:induction false} SortedUnique(a: seq<string>, b: seq<string>)
    requires Sorted(a) && Sorted(b) && multiset(a) == multiset(b)
    ensures a == b
  {
    if |a| > 0 {
      assert a == [a[0]] + a[1..] && b == [b[0]] + b[1..] by {
        assert |b| == |multiset(b)| == |multiset(a)| == |a|;
      }
      assert a[0] in multiset(b) && b[0] in multiset(a);
      SortedHead(b, a[0]);
      SortedHead(a, b[0]);
      BelowAntisymmetric(a[0], b[0]);
      assert multiset(a[1..]) == multiset(a) - multiset{a[0]};
      assert multiset(b[1..]) == multiset(b) - multiset{b[0]};
      SortedTail(a);
      SortedTail(b);
      SortedUnique(a[1..], b[1..]);
    } else {
      assert |b| == |multiset(b)| == |multiset(a)| == 0;
    }
  }

  // ----- The history object's read-only queries -----

  /** get_tables: connect, SHOW TABLES, return the names sorted. */
  function GetTables(db: Store): (r: Result<seq<string>>)
    ensures r.Ok? <==> db.reachable
    ensures r.Err? ==> r.error == Fault
    ensures r.Ok? ==> Sorted(r.value) && multiset(r.value) == multiset(db.listing)
  {
    if db.reachable then Ok(Sort(db.listing)) else Err(Fault)
  }

  /** get_tables answers the one sorted arrangement of the listing. */
  lemma GetTablesUnique(db: Store, names: seq<string>)
    requires db.reachable && Sorted(names) && multiset(names) == multiset(db.listing)
    ensures GetTables(db) == Ok(names)
  {
    SortedUnique(Sort(db.listing), names);
  }

  /** get_columns: SHOW COLUMNS FROM the table. With `reconnect` it opens its
      own connection first; without it, it runs on the caller's open one. An
      unknown table makes the cursor raise, which is not an OSError. */
  function GetColumns(db: Store, table: string, reconnect: bool): (r: Result<seq<string>>)
    ensures r.Ok? <==> (db.reachable || !reconnect) && table in db.tables
    ensures r.Ok? ==> r.value == db.tables[table].columns
    ensures r.Err? ==> r.error == Fault
  {
    if reconnect && !db.reachable then Err(Fault)
    else if table in db.tables then Ok(db.tables[table].columns)
    else Err(Fault)
  }
}
