/** The name index (the module-level dictionary `names`, from measurement
    table to column list) and the resolver that maps a free-text variable
    name onto the (table, column) locations whose column name contains it. */
module Search {
  import opened Db

  /** Only tables whose name contains this marker hold measurements and are
      indexed. */
  const Marker := "measured"

  predicate IsMeasured(table: string) {
    Contains(table, Marker)
  }

  // ----- Substring test -----

  predicate OccursAt(hay: string, needle: string, i: int) {
    0 <= i && i + |needle| <= |hay| && hay[i..i + |needle|] == needle
  }

  /** Python's `needle in hay` on str; the empty needle occurs in every string. */
  predicate Contains(hay: string, needle: string) {
    exists i :: 0 <= i <= |hay| - |needle| && OccursAt(hay, needle, i)
  }

  // ----- Normalisation of the search text -----

  /** ASCII lower-casing of one character. */
  function Lower(c: char): char {
    if 'A' <= c <= 'Z' then (c as int + 32) as char else c
  }

  function LowerAll(s: string): string {
    seq(|s|, i requires 0 <= i < |s| => Lower(s[i]))
  }

  /** str.replace of one character by another. */
  function Replace(s: string, from: char, to: char): string {
    seq(|s|, i requires 0 <= i < |s| => if s[i] == from then to else s[i])
  }

  /** The search text: lower-cased, then spaces and colons turned into
      underscores. */
  function Normalize(name: string): string {
    Replace(Replace(LowerAll(name), ' ', '_'), ':', '_')
  }

  /** Each character of the search text is the lower-cased input character,
      with a space or colon replaced by '_'; so it holds no space, no colon
      and no upper-case ASCII letter. */
  lemma NormalizeSpec(name: string)
    ensures |Normalize(name)| == |name|
    ensures forall i :: 0 <= i < |name| ==>
      Normalize(name)[i] == (if Lower(name[i]) == ' ' || Lower(name[i]) == ':' then '_' else Lower(name[i]))
    ensures ' ' !in Normalize(name) && ':' !in Normalize(name)
    ensures forall c :: c in Normalize(name) ==> !('A' <= c <= 'Z')
  {
  }

  /** Normalising twice changes nothing. */
  lemma NormalizeIdempotent(name: string)
    ensures Normalize(Normalize(name)) == Normalize(name)
  {
    NormalizeSpec(name);
    NormalizeSpec(Normalize(name));
  }

  // ----- The name index -----

  /** A search result location, the dictionary {'table': ..., 'columns': [...]}. */
  datatype Location = Location(table: string, columns: seq<string>)

  /** search answers one location, or the list of all candidates. */
  datatype Found = Single(loc: Location) | Candidates(locs: seq<Location>)

  /** A Python dict from table name to column list: its keys in insertion
      (iteration) order, and the mapping. */
  datatype Dict = Dict(keys: seq<string>, vals: map<string, seq<string>>) {
    ghost predicate Wf() {
      Distinct(keys) && forall t :: t in vals <==> t in keys
    }

    /** `d[t] = cols`: a new key goes last, an existing key keeps its place. */
    function Put(t: string, cols: seq<string>): (d: Dict)
      ensures Wf() ==> d.Wf()
    {
      Dict(if t in keys then keys else keys + [t], vals[t := cols])
    }
  }

  const Empty := Dict([], map[])

  /** The loop of build_tables over `tables`, from the dictionary `d`: each
      measured table is mapped to its column list; the first SHOW COLUMNS
      that fails ends the loop (false) with what was filled so far. */
  function Fill(d: Dict, db: Store, tables: seq<string>): (Dict, bool)
    decreases |tables|
  {
    if |tables| == 0 then (d, true)
    else if !IsMeasured(tables[0]) then Fill(d, db, tables[1..])
    else match GetColumns(db, tables[0], false)
      case Err(_) => (d, false)
      case Ok(cols) => Fill(d.Put(tables[0], cols), db, tables[1..])
  }

  /** build_tables: get_tables, then fill the dictionary from its answer. The
      open connection it needs is the one get_tables just proved reachable. */
  function Build(d: Dict, db: Store): (Dict, Option<Error>) {
    match GetTables(db)
    case Err(e) => (d, Some(e))
    case Ok(tables) =>
      var (d', ok) := Fill(d, db, tables);
      (d', if ok then None else Some(Fault))
  }

  /** The fill keeps the dictionary well formed, and keys there before keep
      their places at the front. */
  lemma {:induction false} FillWf(d: Dict, db: Store, tables: seq<string>)
    requires d.Wf()
    ensures var r := Fill(d, db, tables).0;
      r.Wf() && |d.keys| <= |r.keys| && r.keys[..|d.keys|] == d.keys
    decreases |tables|
  {
    assert d.keys[..|d.keys|] == d.keys;
    if |tables| > 0 {
      var t0, rest := tables[0], tables[1..];
      if !IsMeasured(t0) {
        FillWf(d, db, rest);
      } else if t0 in db.tables {
        var d1 := d.Put(t0, db.tables[t0].columns);
        assert Fill(d, db, tables) == Fill(d1, db, rest);
        FillWf(d1, db, rest);
        var r := Fill(d1, db, rest).0;
        assert r.keys[..|d.keys|] == r.keys[..|d1.keys|][..|d.keys|];
      }
    }
  }

  /** Every entry left by the fill was there before, unchanged, or is a
      measured table of the list mapped to its own column list. */
  lemma {:induction false} FillSound(d: Dict, db: Store, tables: seq<string>)
    ensures var r := Fill(d, db, tables).0;
      forall t :: t in r.vals ==>
        (t in d.vals && r.vals[t] == d.vals[t])
        || (IsMeasured(t) && t in tables && t in db.tables && r.vals[t] == db.tables[t].columns)
    decreases |tables|
  {
    if |tables| > 0 {
      var t0, rest := tables[0], tables[1..];
      assert forall t :: t in rest ==> t in tables;
      if !IsMeasured(t0) {
        FillSound(d, db, rest);
      } else if t0 in db.tables {
        var d1 := d.Put(t0, db.tables[t0].columns);
        assert Fill(d, db, tables) == Fill(d1, db, rest);
        FillSound(d1, db, rest);
        var r := Fill(d1, db, rest).0;
        forall t | t in r.vals
          ensures (t in d.vals && r.vals[t] == d.vals[t])
               || (IsMeasured(t) && t in tables && t in db.tables && r.vals[t] == db.tables[t].columns)
        {
          if t == t0 { assert tables[0] == t0; }
        }
      }
    }
  }

  /** The fill runs to the end exactly when every measured table of the list
      has a column list on the server. */
  lemma {:induction false} FillCompletes(d: Dict, db: Store, tables: seq<string>)
    ensures Fill(d, db, tables).1 <==> forall t :: t in tables && IsMeasured(t) ==> t in db.tables
    decreases |tables|
  {
    if |tables| > 0 {
      assert tables == [tables[0]] + tables[1..];
      if IsMeasured(tables[0]) && tables[0] in db.tables {
        FillCompletes(d.Put(tables[0], db.tables[tables[0]].columns), db, tables[1..]);
      } else {
        FillCompletes(d, db, tables[1..]);
      }
    }
  }

  /** A complete fill from a dictionary holding none of the (distinct) listed
      tables appends exactly the measured ones, in list order. */
  lemma {:induction false} FillAppends(d: Dict, db: Store, tables: seq<string>)
    requires Distinct(tables) && forall t :: t in tables ==> t !in d.keys
    requires Fill(d, db, tables).1
    ensures Fill(d, db, tables).0.keys == d.keys + Filter(tables, IsMeasured)
    decreases |tables|
  {
    if |tables| > 0 {
      var t, rest := tables[0], tables[1..];
      DistinctTail(tables);
      if IsMeasured(t) {
        assert Filter(tables, IsMeasured) == [t] + Filter(rest, IsMeasured);
        var d1 := d.Put(t, db.tables[t].columns);
        assert d1.keys == d.keys + [t];
        assert Fill(d, db, tables) == Fill(d1, db, rest);
        FillAppends(d1, db, rest);
      } else {
        assert Filter(tables, IsMeasured) == Filter(rest, IsMeasured);
        FillAppends(d, db, rest);
      }
    }
  }

  lemma {:induction false} FilterSorted(xs: seq<string>, keep: string -> bool)
    requires Sorted(xs)
    ensures Sorted(Filter(xs, keep))
  {
    if |xs| > 0 {
      SortedTail(xs);
      FilterSorted(xs[1..], keep);
      var rest := Filter(xs[1..], keep);
      if keep(xs[0]) {
        var r := [xs[0]] + rest;
        assert Filter(xs, keep) == r;
        FilterMembers(xs[1..], keep);
        assert forall y :: y in rest ==> y in xs[1..];
        forall i, j | 0 <= i < j < |r| ensures Below(r[i], r[j]) {
          if i == 0 {
            assert r[j] == rest[j - 1] && rest[j - 1] in rest;
          } else {
            assert r[i] == rest[i - 1] && r[j] == rest[j - 1];
          }
        }
      } else {
        assert Filter(xs, keep) == rest;
      }
    }
  }

  lemma BuildWf(d: Dict, db: Store)
    requires d.Wf()
    ensures Build(d, db).0.Wf()
  {
    if db.reachable { FillWf(d, db, Sort(db.listing)); }
  }

  /** build_tables on the empty dictionary (distinct table names, as the
      server lists them) succeeds exactly when the server is reachable and
      every measured table has a column list. Its keys are then the measured
      tables in sorted order, each mapped to its own column list. */
  lemma BuildFromEmpty(db: Store)
    requires Distinct(db.listing)
    ensures var (d, err) := Build(Empty, db);
      && d.Wf()
      && (err == None <==> db.reachable && forall t :: t in db.listing && IsMeasured(t) ==> t in db.tables)
      && (err == None ==>
            && d.keys == Filter(Sort(db.listing), IsMeasured)
            && Sorted(d.keys)
            && forall t :: t in d.vals ==> IsMeasured(t) && t in db.listing && d.vals[t] == db.tables[t].columns)
  {
    BuildWf(Empty, db);
    if db.reachable {
      var tables := Sort(db.listing);
      FillCompletes(Empty, db, tables);
      FillSound(Empty, db, tables);
      assert forall t :: t in tables <==> t in db.listing by {
        forall t ensures t in tables <==> t in db.listing {
          assert t in tables <==> t in multiset(tables);
        }
      }
      if Fill(Empty, db, tables).1 {
        FillAppends(Empty, db, tables);
        FilterSorted(tables, IsMeasured);
      }
    }
  }

  // ----- The search -----

  /** Whether a location is one column whose name contains the text `v`. */
  predicate MatchesText(v: string, loc: Location) {
    |loc.columns| == 1 && Contains(loc.columns[0], v)
  }

  function Matcher(v: string): Location -> bool {
    loc => MatchesText(v, loc)
  }

  predicate Covered(keys: seq<string>, vals: map<string, seq<string>>) {
    forall t :: t in keys ==> t in vals
  }

  /** What the inner loop of search appends for one table: its columns that
      contain `v`, each as a one-column location, in column order. */
  function ColumnMatches(v: string, table: string, cols: seq<string>): seq<Location> {
    if |cols| == 0 then []
    else
      ColumnMatches(v, table, cols[..|cols| - 1])
      + (if Contains(cols[|cols| - 1], v) then [Location(table, [cols[|cols| - 1]])] else [])
  }

  /** found_key once the nested loop has visited the entries of `keys`. */
  function Matches(v: string, keys: seq<string>, vals: map<string, seq<string>>): seq<Location>
    requires Covered(keys, vals)
  {
    if |keys| == 0 then []
    else Matches(v, keys[..|keys| - 1], vals) + ColumnMatches(v, keys[|keys| - 1], vals[keys[|keys| - 1]])
  }

  /** Every (table, column) pair of names.items(), in iteration order and then
      column order. */
  function ColumnPairs(table: string, cols: seq<string>): seq<Location> {
    seq(|cols|, j requires 0 <= j < |cols| => Location(table, [cols[j]]))
  }

  function Pairs(keys: seq<string>, vals: map<string, seq<string>>): seq<Location>
    requires Covered(keys, vals)
  {
    if |keys| == 0 then []
    else Pairs(keys[..|keys| - 1], vals) + ColumnPairs(keys[|keys| - 1], vals[keys[|keys| - 1]])
  }

  lemma {:induction false} FilterConcat<T(!new)>(a: seq<T>, b: seq<T>, keep: T -> bool)
    ensures Filter(a + b, keep) == Filter(a, keep) + Filter(b, keep)
  {
    if |a| > 0 {
      assert (a + b)[0] == a[0] && (a + b)[1..] == a[1..] + b;
      FilterConcat(a[1..], b, keep);
      var head := if keep(a[0]) then [a[0]] else [];
      assert Filter(a + b, keep) == head + Filter(a[1..] + b, keep);
      assert Filter(a, keep) == head + Filter(a[1..], keep);
    } else {
      assert a + b == b;
    }
  }

  lemma {:induction false} ColumnMatchesInOrder(v: string, table: string, cols: seq<string>)
    ensures ColumnMatches(v, table, cols) == Filter(ColumnPairs(table, cols), Matcher(v))
    decreases |cols|
  {
    if |cols| > 0 {
      var front := cols[..|cols| - 1];
      var last := Location(table, [cols[|cols| - 1]]);
      ColumnMatchesInOrder(v, table, front);
      assert ColumnPairs(table, cols) == ColumnPairs(table, front) + [last];
      FilterConcat(ColumnPairs(table, front), [last], Matcher(v));
      assert Filter([last], Matcher(v)) == if Contains(cols[|cols| - 1], v) then [last] else [];
    }
  }

  /** Completeness and order: found_key is exactly the list of all (table,
      column) pairs of the dictionary, in iteration order and then column
      order, keeping those whose column contains the text. */
  lemma {:induction false} MatchesInOrder(v: string, keys: seq<string>, vals: map<string, seq<string>>)
    requires Covered(keys, vals)
    ensures Matches(v, keys, vals) == Filter(Pairs(keys, vals), Matcher(v))
    decreases |keys|
  {
    if |keys| > 0 {
      var front := keys[..|keys| - 1];
      var last := keys[|keys| - 1];
      MatchesInOrder(v, front, vals);
      ColumnMatchesInOrder(v, last, vals[last]);
      FilterConcat(Pairs(front, vals), ColumnPairs(last, vals[last]), Matcher(v));
    }
  }

  /** How often a pair occurs among all pairs: as often as the column occurs
      in its table's list (once, for distinct column names). */
  lemma {:induction false} PairsCount(keys: seq<string>, vals: map<string, seq<string>>, t: string, c: string)
    requires Covered(keys, vals) && Distinct(keys)
    ensures multiset(Pairs(keys, vals))[Location(t, [c])] == if t in keys then multiset(vals[t])[c] else 0
    decreases |keys|
  {
    if |keys| > 0 {
      var front := keys[..|keys| - 1];
      var last := keys[|keys| - 1];
      assert keys == front + [last];
      assert Distinct(front) by {
        forall i, j | 0 <= i < j < |front| ensures front[i] != front[j] { assert front[i] == keys[i] && front[j] == keys[j]; }
      }
      assert last !in front by {
        forall k | 0 <= k < |front| ensures front[k] != last { assert front[k] == keys[k]; }
      }
      PairsCount(front, vals, t, c);
      ColumnPairsCount(last, vals[last], t, c);
    }
  }

  lemma {:induction false} ColumnPairsCount(table: string, cols: seq<string>, t: string, c: string)
    ensures multiset(ColumnPairs(table, cols))[Location(t, [c])] == if t == table then multiset(cols)[c] else 0
    decreases |cols|
  {
    if |cols| > 0 {
      var front := cols[..|cols| - 1];
      assert cols == front + [cols[|cols| - 1]];
      assert ColumnPairs(table, cols) == ColumnPairs(table, front) + [Location(table, [cols[|cols| - 1]])];
      ColumnPairsCount(table, front, t, c);
    }
  }

  lemma {:induction false} PairsSound(keys: seq<string>, vals: map<string, seq<string>>, loc: Location)
    requires Covered(keys, vals) && loc in Pairs(keys, vals)
    ensures loc.table in keys && |loc.columns| == 1 && loc.columns[0] in vals[loc.table]
    decreases |keys|
  {
    var front := keys[..|keys| - 1];
    var last := keys[|keys| - 1];
    if loc in Pairs(front, vals) {
      PairsSound(front, vals, loc);
    } else {
      assert loc in ColumnPairs(last, vals[last]);
      var j :| 0 <= j < |vals[last]| && ColumnPairs(last, vals[last])[j] == loc;
    }
  }

  /** Soundness: every location found names a key of the dictionary, holds
      exactly one column, that column is one of the table's, and it contains
      the text. */
  lemma MatchesSound(v: string, keys: seq<string>, vals: map<string, seq<string>>, loc: Location)
    requires Covered(keys, vals) && loc in Matches(v, keys, vals)
    ensures loc.table in keys && |loc.columns| == 1 && loc.columns[0] in vals[loc.table]
    ensures Contains(loc.columns[0], v)
  {
    MatchesInOrder(v, keys, vals);
    FilterMembers(Pairs(keys, vals), Matcher(v));
    PairsSound(keys, vals, loc);
  }

  /** Each pair occurs among the matches as often as among all pairs if its
      column contains the text, and not at all otherwise: with distinct
      column names, every matching pair exactly once. */
  lemma MatchesCount(v: string, keys: seq<string>, vals: map<string, seq<string>>, t: string, c: string)
    requires Covered(keys, vals) && Distinct(keys)
    ensures multiset(Matches(v, keys, vals))[Location(t, [c])]
      == if t in keys && Contains(c, v) then multiset(vals[t])[c] else 0
  {
    MatchesInOrder(v, keys, vals);
    PairsCount(keys, vals, t, c);
    FilterCount(Pairs(keys, vals), Matcher(v), Location(t, [c]));
  }

  predicate TablesSorted(locs: seq<Location>) {
    forall i, j :: 0 <= i < j < |locs| ==> Below(locs[i].table, locs[j].table)
  }

  /** With keys in sorted order (as build_tables inserts them), the candidates
      come sorted by table name. */
  lemma {:induction false} MatchesSorted(v: string, keys: seq<string>, vals: map<string, seq<string>>)
    requires Covered(keys, vals) && Sorted(keys)
    ensures TablesSorted(Matches(v, keys, vals))
    decreases |keys|
  {
    if |keys| > 0 {
      var front := keys[..|keys| - 1];
      var last := keys[|keys| - 1];
      assert Sorted(front) by {
        forall i, j | 0 <= i < j < |front| ensures Below(front[i], front[j]) { assert front[i] == keys[i] && front[j] == keys[j]; }
      }
      MatchesSorted(v, front, vals);
      var a := Matches(v, front, vals);
      var b := ColumnMatches(v, last, vals[last]);
      var found := a + b;
      ColumnMatchesInOrder(v, last, vals[last]);
      FilterMembers(ColumnPairs(last, vals[last]), Matcher(v));
      forall j | 0 <= j < |b| ensures b[j].table == last {
        assert b[j] in ColumnPairs(last, vals[last]);
      }
      forall i, j | 0 <= i < j < |found| ensures Below(found[i].table, found[j].table) {
        if j < |a| {
          assert found[i] == a[i] && found[j] == a[j];
          assert Below(a[i].table, a[j].table);
        } else if i < |a| {
          assert found[i] == a[i] && found[j] == b[j - |a|];
          MatchesSound(v, front, vals, a[i]);
          var k :| 0 <= k < |front| && front[k] == a[i].table;
          assert keys[k] == a[i].table && Below(keys[k], keys[|keys| - 1]);
          assert b[j - |a|].table == last;
        } else {
          assert found[i] == b[i - |a|] && found[j] == b[j - |a|];
          BelowReflexive(last);
          assert b[j - |a|].table == last && b[i - |a|].table == last;
        }
      }
    }
  }

  /** The result policy of search: exactly one match is returned alone, none
      raises, several are returned as the list. */
  function Decide(found: seq<Location>): Result<Found> {
    if |found| == 1 then Ok(Single(found[0]))
    else if |found| == 0 then Err(NotFound)
    else Ok(Candidates(found))
  }

  /** What search answers once the dictionary is in place. */
  function Lookup(d: Dict, name: string): Result<Found>
    requires d.Wf()
  {
    Decide(Matches(Normalize(name), d.keys, d.vals))
  }

  /** The three outcomes of search: NotFound exactly when no column of any
      table contains the search text (never an empty list); a single match
      comes back alone; several come back as the whole list, at least two. */
  lemma LookupPolicy(d: Dict, name: string)
    requires d.Wf()
    ensures var v := Normalize(name); var found := Matches(v, d.keys, d.vals);
      && (Lookup(d, name) == Err(NotFound) <==> forall t, c :: t in d.vals && c in d.vals[t] ==> !Contains(c, v))
      && (Lookup(d, name).Err? ==> Lookup(d, name).error == NotFound)
      && (Lookup(d, name).Ok? && Lookup(d, name).value.Single? ==> found == [Lookup(d, name).value.loc])
      && (Lookup(d, name).Ok? && Lookup(d, name).value.Candidates? ==>
            Lookup(d, name).value.locs == found && |found| >= 2)
  {
    var v := Normalize(name);
    var found := Matches(v, d.keys, d.vals);
    if |found| > 0 {
      MatchesSound(v, d.keys, d.vals, found[0]);
    } else {
      forall t, c | t in d.vals && c in d.vals[t] ensures !Contains(c, v) {
        MatchesCount(v, d.keys, d.vals, t, c);
      }
    }
  }

  /** search: build the dictionary first if it is empty (a failed build
      propagates its exception), then look the name up. */
  function SearchSpec(d: Dict, db: Store, name: string): (Dict, Result<Found>)
    requires d.Wf()
  {
    if |d.keys| > 0 then (d, Lookup(d, name))
    else
      var (d', err) := Build(d, db);
      BuildWf(d, db);
      if err.Some? then (d', Err(err.value)) else (d', Lookup(d', name))
  }

  /** A non-empty dictionary is only read; an empty one is rebuilt first. */
  lemma SearchKeepsIndex(d: Dict, db: Store, name: string)
    requires d.Wf()
    ensures |d.keys| > 0 ==> SearchSpec(d, db, name) == (d, Lookup(d, name))
    ensures |d.keys| == 0 ==> SearchSpec(d, db, name).0 == Build(d, db).0
  {
  }

  /** The first search of a process (the dictionary still empty) offers its
      candidates sorted by table name, each a measured table the server
      lists, holding one of that table's columns. */
  lemma FirstSearchCandidates(db: Store, name: string)
    requires Distinct(db.listing)
    ensures var (d, r) := SearchSpec(Empty, db, name);
      r.Ok? && r.value.Candidates? ==>
        var locs := r.value.locs;
        && TablesSorted(locs)
        && forall loc :: loc in locs ==>
             IsMeasured(loc.table) && loc.table in db.listing && loc.table in db.tables
             && |loc.columns| == 1 && loc.columns[0] in db.tables[loc.table].columns
  {
    var (d, err) := Build(Empty, db);
    BuildFromEmpty(db);
    if err.None? {
      var v := Normalize(name);
      assert SearchSpec(Empty, db, name) == (d, Decide(Matches(v, d.keys, d.vals)));
      MatchesSorted(v, d.keys, d.vals);
      forall loc | loc in Matches(v, d.keys, d.vals)
        ensures IsMeasured(loc.table) && loc.table in db.listing && loc.table in db.tables
        ensures |loc.columns| == 1 && loc.columns[0] in db.tables[loc.table].columns
      {
        MatchesSound(v, d.keys, d.vals, loc);
      }
    }
  }

  /** The outer loop of search, over the dictionary's items in order. */
  method ScanTables(v: string, keys: seq<string>, vals: map<string, seq<string>>) returns (found: seq<Location>)
    requires Covered(keys, vals)
    ensures found == Matches(v, keys, vals)
  {
    found := [];
    var i := 0;
    while i < |keys|
      invariant 0 <= i <= |keys|
      invariant found == Matches(v, keys[..i], vals)
    {
      var more := ScanColumns(v, keys[i], vals[keys[i]]);
      assert keys[..i + 1][..i] == keys[..i];
      found := found + more;
      i := i + 1;
    }
    assert keys[..i] == keys;
  }

  /** The inner loop of search, over one table's columns in order. */
  method ScanColumns(v: string, table: string, columns: seq<string>) returns (found: seq<Location>)
    ensures found == ColumnMatches(v, table, columns)
  {
    found := [];
    var j := 0;
    while j < |columns|
      invariant 0 <= j <= |columns|
      invariant found == ColumnMatches(v, table, columns[..j])
    {
      assert columns[..j + 1][..j] == columns[..j];
      if Contains(columns[j], v) {
        found := found + [Location(table, [columns[j]])];
      }
      j := j + 1;
    }
    assert columns[..j] == columns;
  }

  /** The module-level dictionary `names` of the resolver. */
  class NameIndex {
    var names: Dict

    constructor ()
      ensures names == Empty
    {
      names := Empty;
    }

    /** build_tables: the dictionary after it, and the exception it raises. */
    method BuildTables(db: Store) returns (err: Option<Error>)
      modifies this
      ensures (names, err) == Build(old(names), db)
    {
      var listed := GetTables(db);
      if listed.Err? {
        return Some(listed.error);
      }
      var tables := listed.value;
      var i := 0;
      while i < |tables|
        invariant 0 <= i <= |tables|
        invariant Fill(names, db, tables[i..]) == Fill(old(names), db, tables)
      {
        var table := tables[i];
        assert tables[i..][0] == table && tables[i..][1..] == tables[i + 1..];
        if IsMeasured(table) {
          var cols := GetColumns(db, table, false);
          if cols.Err? {
            return Some(Fault);
          }
          names := names.Put(table, cols.value);
        }
        i := i + 1;
      }
      err := None;
    }

    /** search: the dictionary afterwards and the answer. */
    method Search(db: Store, name: string) returns (r: Result<Found>)
      requires names.Wf()
      modifies this
      ensures names.Wf()
      ensures (names, r) == SearchSpec(old(names), db, name)
    {
      if |names.keys| == 0 {
        var err := BuildTables(db);
        BuildWf(old(names), db);
        if err.Some? {
          return Err(err.value);
        }
      }
      var found := ScanTables(Normalize(name), names.keys, names.vals);
      if |found| == 1 {
        r := Ok(Single(found[0]));
      } else if |found| == 0 {
        r := Err(NotFound);
      } else {
        r := Ok(Candidates(found));
      }
    }
  }
}
