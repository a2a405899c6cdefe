/** The history object: get_data as a step-by-step method over its fields
    `table` and `df`, and search_data, which resolves a free-text name with
    the resolver, falls back over the candidate locations, renames the
    fetched column and, for a list of names, combines the results. */
module History {
  import opened Db
  import opened Search
  import opened Fetch

  // ----- The candidate fallback -----

  /** get_data(**location): the location's table, its one-column list. */
  function Attempt(db: Store, loc: Location, epoch1: int, epoch2: int): Result<Frame> {
    FetchData(db, loc.table, Many(loc.columns), epoch1, epoch2)
  }

  /** get_data with search_data's start and stop, as a function of the
      location. */
  function Fetcher(db: Store, epoch1: int, epoch2: int): Location -> Result<Frame> {
    loc => Attempt(db, loc, epoch1, epoch2)
  }

  /** get_data never raises the RuntimeError that ends the fallback loop. */
  lemma FetcherNeverNotFound(db: Store, epoch1: int, epoch2: int)
    ensures forall loc :: Fetcher(db, epoch1, epoch2)(loc) != Err(NotFound)
  {
    forall loc ensures Fetcher(db, epoch1, epoch2)(loc) != Err(NotFound) {
      FetchNeverNotFound(db, loc.table, Many(loc.columns), epoch1, epoch2);
    }
  }

  /** A candidate the fallback loop passes over: its fetch raised an OSError. */
  predicate Skipped(fetch: Location -> Result<Frame>, loc: Location) {
    fetch(loc).Err? && IsOSError(fetch(loc).error)
  }

  /** The loop over candidate locations: the outcome, and how many fetches it
      made. No candidate left to try is the RuntimeError of `data is None`. */
  function TryCandidates(fetch: Location -> Result<Frame>, locs: seq<Location>): (r: (Result<(Location, Frame)>, nat))
    ensures r.1 <= |locs|
  {
    if |locs| == 0 then (Err(NotFound), 0)
    else match fetch(locs[0])
      case Ok(f) => (Ok((locs[0], f)), 1)
      case Err(e) =>
        if IsOSError(e) then
          var (r, n) := TryCandidates(fetch, locs[1..]);
          (r, n + 1)
        else (Err(e), 1)
  }

  /** The first candidate that succeeds after only OSErrors is the one used,
      with its data, and no later candidate is tried. */
  lemma {:induction false} CandidateChosen(fetch: Location -> Result<Frame>, locs: seq<Location>, k: nat)
    requires k < |locs| && fetch(locs[k]).Ok?
    requires forall i :: 0 <= i < k ==> Skipped(fetch, locs[i])
    ensures TryCandidates(fetch, locs) == (Ok((locs[k], fetch(locs[k]).value)), k + 1)
  {
    if k > 0 {
      var rest := locs[1..];
      assert Skipped(fetch, locs[0]);
      forall i | 0 <= i < k - 1 ensures Skipped(fetch, rest[i]) {
        assert rest[i] == locs[i + 1];
      }
      assert rest[k - 1] == locs[k];
      CandidateChosen(fetch, rest, k - 1);
    }
  }

  /** Every outcome of the loop: all fetches but the last raised an OSError;
      success returns the last candidate tried with its data; an exception
      other than an OSError is the last fetch's and propagates. */
  lemma {:induction false} CandidateOutcome(fetch: Location -> Result<Frame>, locs: seq<Location>)
    ensures var (r, n) := TryCandidates(fetch, locs);
      && (forall i :: 0 <= i < n - 1 ==> Skipped(fetch, locs[i]))
      && (r.Ok? ==> 0 < n && r.value.0 == locs[n - 1] && fetch(locs[n - 1]) == Ok(r.value.1))
      && (r.Err? && r.error != NotFound ==> 0 < n && fetch(locs[n - 1]) == Err(r.error) && !IsOSError(r.error))
  {
    if |locs| > 0 {
      var rest := locs[1..];
      if Skipped(fetch, locs[0]) {
        CandidateOutcome(fetch, rest);
        var (r', n') := TryCandidates(fetch, rest);
        assert TryCandidates(fetch, locs) == (r', n' + 1);
        forall i | 0 <= i < n' ensures Skipped(fetch, locs[i]) {
          if i > 0 { assert locs[i] == rest[i - 1]; }
        }
        if n' > 0 { assert locs[n'] == rest[n' - 1]; }
      }
    }
  }

  /** For a fetch that never raises RuntimeError itself, the loop raises it
      exactly when every candidate raised an OSError, all of them tried. */
  lemma {:induction false} CandidatesExhausted(fetch: Location -> Result<Frame>, locs: seq<Location>)
    requires forall i :: 0 <= i < |locs| ==> fetch(locs[i]) != Err(NotFound)
    ensures TryCandidates(fetch, locs).0 == Err(NotFound) ==> TryCandidates(fetch, locs).1 == |locs|
    ensures TryCandidates(fetch, locs).0 == Err(NotFound) <==> forall i :: 0 <= i < |locs| ==> Skipped(fetch, locs[i])
  {
    if |locs| > 0 {
      var rest := locs[1..];
      if Skipped(fetch, locs[0]) {
        forall i | 0 <= i < |rest| ensures fetch(rest[i]) != Err(NotFound) {
          assert rest[i] == locs[i + 1];
        }
        CandidatesExhausted(fetch, rest);
        if forall i :: 0 <= i < |rest| ==> Skipped(fetch, rest[i]) {
          forall i | 0 <= i < |locs| ensures Skipped(fetch, locs[i]) {
            if i > 0 { assert locs[i] == rest[i - 1]; }
          }
        } else {
          var j :| 0 <= j < |rest| && !Skipped(fetch, rest[j]);
          assert locs[j + 1] == rest[j];
        }
      }
    }
  }

  // ----- search_data on one name -----

  /** The parts of the object's state that search_data changes: the
      resolver's dictionary and the object's `table` and `df`. */
  datatype State = State(index: Dict, table: Option<string>, df: Option<Frame>)

  /** The column rename of search_data: the location's first column takes the
      requested name; an empty column list would be an IndexError. */
  function Relabel(f: Frame, loc: Location, name: string, rename: bool): Result<Frame> {
    if !rename then Ok(f)
    else if |loc.columns| == 0 then Err(Fault)
    else Ok(Rename(f, loc.columns[0], name))
  }

  /** What search_data does with the resolver's answer `path`, from the
      object's `table` and `df`: the answer, and the table and frame recorded
      afterwards. Every fetch records its table; a successful one also
      records its (not renamed) frame. */
  function Follow(fetch: Location -> Result<Frame>, path: Result<Found>, table: Option<string>, df: Option<Frame>,
                  name: string, rename: bool): (Result<Frame>, Option<string>, Option<Frame>)
  {
    match path
    case Err(e) => (Err(e), table, df)
    case Ok(Single(loc)) =>
      var got := fetch(loc);
      var df' := if got.Ok? then Some(got.value) else df;
      if got.Err? then (Err(got.error), Some(loc.table), df') else (Relabel(got.value, loc, name, rename), Some(loc.table), df')
    case Ok(Candidates(locs)) =>
      var (got, n) := TryCandidates(fetch, locs);
      var table' := if n == 0 then table else Some(locs[n - 1].table);
      var df' := if got.Ok? then Some(got.value.1) else df;
      if got.Err? then (Err(got.error), table', df') else (Relabel(got.value.1, got.value.0, name, rename), table', df')
  }

  /** A location of the resolver's answer. */
  predicate Offered(path: Result<Found>, loc: Location) {
    path.Ok? && (path.value == Single(loc) || (path.value.Candidates? && loc in path.value.locs))
  }

  /** A successful search_data fetched one of the offered locations; the
      object records its table and the fetched frame, and the answer is that
      frame with the location's column renamed to the requested name. */
  lemma FollowFetched(fetch: Location -> Result<Frame>, path: Result<Found>, table: Option<string>, df: Option<Frame>,
                      name: string, rename: bool, out: Frame)
    requires Follow(fetch, path, table, df, name, rename).0 == Ok(out)
    ensures var (_, table', df') := Follow(fetch, path, table, df, name, rename);
      exists loc: Location :: Offered(path, loc) && fetch(loc).Ok? && table' == Some(loc.table) && df' == Some(fetch(loc).value)
        && Relabel(fetch(loc).value, loc, name, rename) == Ok(out)
  {
    if path.value.Candidates? {
      var locs := path.value.locs;
      CandidateOutcome(fetch, locs);
      var n := TryCandidates(fetch, locs).1;
      assert Offered(path, locs[n - 1]);
    } else {
      assert Offered(path, path.value.loc);
    }
  }

  /** search_data for a single name: resolve it, then follow the answer. */
  function SearchOne(db: Store, st: State, name: string, epoch1: int, epoch2: int, rename: bool): (r: (Result<Frame>, State))
    requires st.index.Wf()
  {
    var (index, path) := SearchSpec(st.index, db, name);
    var (answer, table, df) := Follow(Fetcher(db, epoch1, epoch2), path, st.table, st.df, name, rename);
    (answer, State(index, table, df))
  }

  /** search_data keeps the resolver's dictionary well formed. */
  lemma SearchOneWf(db: Store, st: State, name: string, epoch1: int, epoch2: int, rename: bool)
    requires st.index.Wf()
    ensures SearchOne(db, st, name, epoch1, epoch2, rename).1.index.Wf()
  {
    BuildWf(st.index, db);
  }

  /** Every location the resolver offers names a table of the dictionary it
      leaves behind, and one of that table's columns containing the search
      text. */
  lemma ResolvedSound(d: Dict, db: Store, name: string, loc: Location)
    requires d.Wf()
    requires Offered(SearchSpec(d, db, name).1, loc)
    ensures var d' := SearchSpec(d, db, name).0;
      && loc.table in d'.keys && loc.table in d'.vals && |loc.columns| == 1 && loc.columns[0] in d'.vals[loc.table]
      && Contains(loc.columns[0], Normalize(name))
  {
    var d' := SearchSpec(d, db, name).0;
    BuildWf(d, db);
    assert SearchSpec(d, db, name).1 == Lookup(d', name);
    LookupPolicy(d', name);
    MatchesSound(Normalize(name), d'.keys, d'.vals, loc);
  }

  /** A successful search_data on one name fetched, with get_data, a column
      of a table of the dictionary that contains the search text; the
      object records that table and the fetched frame, and the answer is that
      frame with the column renamed to the requested name. */
  lemma SearchOneFetched(db: Store, st: State, name: string, epoch1: int, epoch2: int, rename: bool, out: Frame)
    requires st.index.Wf()
    requires SearchOne(db, st, name, epoch1, epoch2, rename).0 == Ok(out)
    ensures var st' := SearchOne(db, st, name, epoch1, epoch2, rename).1;
      exists loc: Location, f: Frame ::
        && Attempt(db, loc, epoch1, epoch2) == Ok(f)
        && st'.table == Some(loc.table) && st'.df == Some(f)
        && loc.table in st'.index.keys && loc.table in st'.index.vals && |loc.columns| == 1 && loc.columns[0] in st'.index.vals[loc.table]
        && Contains(loc.columns[0], Normalize(name))
        && out == if rename then Rename(f, loc.columns[0], name) else f
  {
    var (index, path) := SearchSpec(st.index, db, name);
    var fetch := Fetcher(db, epoch1, epoch2);
    FollowFetched(fetch, path, st.table, st.df, name, rename, out);
    var loc :| Offered(path, loc) && fetch(loc).Ok?
      && Follow(fetch, path, st.table, st.df, name, rename).1 == Some(loc.table)
      && Follow(fetch, path, st.table, st.df, name, rename).2 == Some(fetch(loc).value)
      && Relabel(fetch(loc).value, loc, name, rename) == Ok(out);
    ResolvedSound(st.index, db, name, loc);
    var f := fetch(loc).value;
    assert Attempt(db, loc, epoch1, epoch2) == Ok(f);
  }

  /** DataFrame.rename to a new label: the renamed column keeps its values,
      no column keeps the old label, and every other column is as it was. */
  lemma RenameSpec(f: Frame, from: string, to: string)
    ensures var g := Rename(f, from, to);
      && g.height == f.height && |g.series| == |f.series|
      && (forall s :: s in f.series && s.name == from ==> Series(to, s.values) in g.series)
      && (forall s :: s in f.series && s.name != from ==> s in g.series)
      && (from != to ==> forall s :: s in g.series ==> s.name != from)
  {
    var g := Rename(f, from, to);
    forall s | s in f.series ensures (if s.name == from then Series(to, s.values) else s) in g.series {
      var j :| 0 <= j < |f.series| && f.series[j] == s;
      assert g.series[j] == if s.name == from then Series(to, s.values) else s;
    }
  }

  // ----- search_data on a list of names -----

  /** search_data's `name`: a string, or a list (or tuple or array) whose
      items are searched one by one, each of them a name or a list again. */
  datatype NameQuery = Name(name: string) | Names(items: seq<NameQuery>)

  /** One name gives a frame; a list gives the columns pd.concat lines up
      side by side. */
  datatype Output = Narrow(frame: Frame) | Wide(columns: seq<Series>)

  function ColumnsOf(o: Output): seq<Series> {
    match o
    case Narrow(f) => f.series
    case Wide(cs) => cs
  }

  function Flatten(outs: seq<Output>): seq<Series> {
    if |outs| == 0 then [] else ColumnsOf(outs[0]) + Flatten(outs[1..])
  }

  predicate NotEpoch(s: Series) {
    s.name != EpochColumn
  }

  /** pd.concat(axis='columns') followed by drop(columns='epoch_time'):
      concatenating nothing is a ValueError, dropping a label no part
      carries is a KeyError. */
  function Join(outs: seq<Output>): Result<Output> {
    if |outs| == 0 then Err(Fault)
    else if forall s :: s in Flatten(outs) ==> !IsEpoch(s) then Err(Fault)
    else Ok(Wide(Filter(Flatten(outs), NotEpoch)))
  }

  lemma {:induction false} FlattenMembers(outs: seq<Output>, s: Series)
    ensures s in Flatten(outs) <==> exists i :: 0 <= i < |outs| && s in ColumnsOf(outs[i])
  {
    if |outs| > 0 {
      FlattenMembers(outs[1..], s);
      if s in Flatten(outs[1..]) {
        var i :| 0 <= i < |outs[1..]| && s in ColumnsOf(outs[1..][i]);
        assert outs[i + 1] == outs[1..][i];
      }
      if exists i :: 0 <= i < |outs| && s in ColumnsOf(outs[i]) {
        var i :| 0 <= i < |outs| && s in ColumnsOf(outs[i]);
        if i > 0 { assert outs[1..][i - 1] == outs[i]; }
      }
    }
  }

  /** The combined result of a list: it exists exactly when the list is
      non-empty and some part carries epoch_time; it then holds no
      epoch_time column and every other column of every part. */
  lemma JoinColumns(outs: seq<Output>)
    ensures Join(outs).Ok? <==>
      |outs| > 0 && exists i, s :: 0 <= i < |outs| && s in ColumnsOf(outs[i]) && IsEpoch(s)
    ensures Join(outs).Ok? ==> forall s :: s in ColumnsOf(Join(outs).value) <==>
      NotEpoch(s) && exists i :: 0 <= i < |outs| && s in ColumnsOf(outs[i])
  {
    FilterMembers(Flatten(outs), NotEpoch);
    forall s ensures s in Flatten(outs) <==> exists i :: 0 <= i < |outs| && s in ColumnsOf(outs[i]) {
      FlattenMembers(outs, s);
    }
  }

  /** search_data on a name or a list of names. The items of a list are
      searched in order, each seeing the state the previous one left; the
      first exception propagates. */
  function SearchQuery(db: Store, st: State, q: NameQuery, epoch1: int, epoch2: int, rename: bool): (r: (Result<Output>, State))
    requires st.index.Wf()
    ensures r.1.index.Wf()
    decreases q
  {
    match q
    case Name(n) =>
      SearchOneWf(db, st, n, epoch1, epoch2, rename);
      var (r, st') := SearchOne(db, st, n, epoch1, epoch2, rename);
      (if r.Ok? then Ok(Narrow(r.value)) else Err(r.error), st')
    case Names(items) =>
      var (rs, st') := SearchEach(db, st, items, epoch1, epoch2, rename);
      (if rs.Ok? then Join(rs.value) else Err(rs.error), st')
  }

  function SearchEach(db: Store, st: State, items: seq<NameQuery>, epoch1: int, epoch2: int, rename: bool): (r: (Result<seq<Output>>, State))
    requires st.index.Wf()
    ensures r.1.index.Wf()
    ensures r.0.Ok? ==> |r.0.value| == |items|
    decreases items
  {
    if |items| == 0 then (Ok([]), st)
    else
      var (first, st1) := SearchQuery(db, st, items[0], epoch1, epoch2, rename);
      if first.Err? then (Err(first.error), st1)
      else
        var (rest, st2) := SearchEach(db, st1, items[1..], epoch1, epoch2, rename);
        if rest.Err? then (Err(rest.error), st2) else (Ok([first.value] + rest.value), st2)
  }

  /** A list answered in full: its first item answered in the given state,
      then the rest answered in the state the first one left. */
  lemma SearchEachUnfold(db: Store, st: State, items: seq<NameQuery>, epoch1: int, epoch2: int, rename: bool)
    requires st.index.Wf() && |items| > 0
    requires SearchEach(db, st, items, epoch1, epoch2, rename).0.Ok?
    ensures var (first, st1) := SearchQuery(db, st, items[0], epoch1, epoch2, rename);
      && first.Ok?
      && SearchEach(db, st1, items[1..], epoch1, epoch2, rename).0.Ok?
      && SearchEach(db, st, items, epoch1, epoch2, rename)
         == (Ok([first.value] + SearchEach(db, st1, items[1..], epoch1, epoch2, rename).0.value),
             SearchEach(db, st1, items[1..], epoch1, epoch2, rename).1)
  {
  }

  /** Part `i` of a list answered in full is what search_data answers for
      item `i` on its own, in the state the items before it left. */
  lemma {:induction false} SearchEachPart(db: Store, st: State, items: seq<NameQuery>, epoch1: int, epoch2: int, rename: bool, i: nat)
    returns (st': State)
    requires st.index.Wf() && i < |items|
    requires SearchEach(db, st, items, epoch1, epoch2, rename).0.Ok?
    ensures st'.index.Wf()
    ensures SearchEach(db, st, items[..i], epoch1, epoch2, rename) == (Ok(SearchEach(db, st, items, epoch1, epoch2, rename).0.value[..i]), st')
    ensures SearchQuery(db, st', items[i], epoch1, epoch2, rename).0 == Ok(SearchEach(db, st, items, epoch1, epoch2, rename).0.value[i])
    decreases i
  {
    SearchEachUnfold(db, st, items, epoch1, epoch2, rename);
    var (first, st1) := SearchQuery(db, st, items[0], epoch1, epoch2, rename);
    var all := SearchEach(db, st, items, epoch1, epoch2, rename).0.value;
    var rest := SearchEach(db, st1, items[1..], epoch1, epoch2, rename).0.value;
    if i == 0 {
      st' := st;
      assert items[..0] == [] && all[..0] == [];
    } else {
      st' := SearchEachPart(db, st1, items[1..], epoch1, epoch2, rename, i - 1);
      assert items[1..][i - 1] == items[i];
      assert all[i] == rest[i - 1];
      var front := items[..i];
      assert front[0] == items[0] && front[1..] == items[1..][..i - 1];
      assert all[..i] == [first.value] + rest[..i - 1];
    }
  }

  /** Part `i` of a list answered in full, for a name: a column containing
      the normalised name, fetched with get_data and, with `rename`,
      relabelled with the name. */
  lemma NamePart(db: Store, st: State, items: seq<NameQuery>, epoch1: int, epoch2: int, rename: bool, i: nat)
    requires st.index.Wf() && i < |items| && items[i].Name?
    requires SearchEach(db, st, items, epoch1, epoch2, rename).0.Ok?
    ensures var n := items[i].name;
      exists loc: Location, f: Frame ::
        && Attempt(db, loc, epoch1, epoch2) == Ok(f)
        && |loc.columns| == 1 && Contains(loc.columns[0], Normalize(n))
        && SearchEach(db, st, items, epoch1, epoch2, rename).0.value[i]
           == Narrow(if rename then Rename(f, loc.columns[0], n) else f)
  {
    var st' := SearchEachPart(db, st, items, epoch1, epoch2, rename, i);
    var n := items[i].name;
    var out := SearchOne(db, st', n, epoch1, epoch2, rename).0.value;
    SearchOneFetched(db, st', n, epoch1, epoch2, rename, out);
  }

  /** A list of names answers, if at all, columns side by side without any
      epoch_time column, one part per name of a non-empty list. */
  lemma ListHasNoEpoch(db: Store, st: State, items: seq<NameQuery>, epoch1: int, epoch2: int, rename: bool)
    requires st.index.Wf()
    requires SearchQuery(db, st, Names(items), epoch1, epoch2, rename).0.Ok?
    ensures var o := SearchQuery(db, st, Names(items), epoch1, epoch2, rename).0.value;
      && |items| > 0 && o.Wide? && forall s :: s in o.columns ==> !IsEpoch(s)
  {
    var parts := SearchEach(db, st, items, epoch1, epoch2, rename).0.value;
    JoinColumns(parts);
  }

  // ----- The object -----

  class History {
    const db: Store
    var table: Option<string>
    var df: Option<Frame>

    constructor (db: Store)
      ensures this.db == db && table == None && df == None
    {
      this.db := db;
      table := None;
      df := None;
    }

    /** get_data on resolved epochs, step by step. */
    method GetData(table: string, columns: Columns, epoch1: int, epoch2: int) returns (r: Result<Frame>)
      modifies this
      ensures this.table == Some(table)
      ensures r == FetchData(db, table, columns, epoch1, epoch2)
      ensures df == if r.Ok? then Some(r.value) else old(df)
    {
      this.table := Some(table);
      var lo, hi := epoch1, epoch2;
      if lo == hi {
        lo := lo - 24 * 3600;
      }
      var cols: seq<string>;
      match columns {
        case One(c) => cols := [c];
        case Many(cs) => cols := cs;
        case All =>
          var listed := GetColumns(db, table, true);
          if listed.Err? {
            return Err(listed.error);
          }
          cols := listed.value;
      }
      if TimeColumn !in cols {
        cols := cols + [TimeColumn];
      }
      assert Requested(db, table, columns) == Ok(cols);
      assert (lo, hi) == Window(epoch1, epoch2);
      if !db.reachable {
        return Err(Fault);
      }
      var fetched := Query(db, table, cols, lo, hi);
      if fetched.Err? {
        return Err(fetched.error);
      }
      var g := fetched.value;
      if g.height == 0 {
        return Err(NoData);
      }
      g := Rename(g, TimeColumn, EpochColumn);
      g := DropAllNull(g);
      g := Drop(g, {RawTimeColumn, TimeColumn});
      if EpochCount(g) != 1 {
        return Err(Fault);
      }
      g := Drop(g, {IndexColumn});
      df := Some(g);
      r := Ok(g);
    }

    /** search_data for one name, with the resolver's dictionary `index`. */
    method SearchName(index: NameIndex, name: string, epoch1: int, epoch2: int, rename: bool) returns (r: Result<Frame>)
      requires index.names.Wf()
      modifies this, index
      ensures index.names.Wf()
      ensures (r, State(index.names, table, df))
        == SearchOne(db, State(old(index.names), old(table), old(df)), name, epoch1, epoch2, rename)
    {
      var path := index.Search(db, name);
      r := FollowPath(path, name, epoch1, epoch2, rename);
    }

    /** The rest of search_data once the resolver has answered `path`. */
    method FollowPath(path: Result<Found>, name: string, epoch1: int, epoch2: int, rename: bool) returns (r: Result<Frame>)
      modifies this
      ensures (r, table, df) == Follow(Fetcher(db, epoch1, epoch2), path, old(table), old(df), name, rename)
    {
      if path.Err? {
        return Err(path.error);
      }
      var data: Frame;
      var loc: Location;
      match path.value {
        case Single(p) =>
          var got := GetData(p.table, Many(p.columns), epoch1, epoch2);
          if got.Err? {
            return Err(got.error);
          }
          data, loc := got.value, p;
        case Candidates(locs) =>
          var got := TryLocations(locs, epoch1, epoch2);
          if got.Err? {
            return Err(got.error);
          }
          data, loc := got.value.1, got.value.0;
      }
      if rename {
        if |loc.columns| == 0 {
          return Err(Fault);
        }
        data := Rename(data, loc.columns[0], name);
      }
      r := Ok(data);
    }

    /** The fallback loop of search_data over the resolver's candidates. */
    method TryLocations(locs: seq<Location>, epoch1: int, epoch2: int) returns (r: Result<(Location, Frame)>)
      modifies this
      ensures var (got, n) := TryCandidates(Fetcher(db, epoch1, epoch2), locs);
        && r == got
        && table == (if n == 0 then old(table) else Some(locs[n - 1].table))
        && df == (if got.Ok? then Some(got.value.1) else old(df))
    {
      var i := 0;
      while i < |locs|
        invariant 0 <= i <= |locs|
        invariant TryCandidates(Fetcher(db, epoch1, epoch2), locs).0 == TryCandidates(Fetcher(db, epoch1, epoch2), locs[i..]).0
        invariant TryCandidates(Fetcher(db, epoch1, epoch2), locs).1 == TryCandidates(Fetcher(db, epoch1, epoch2), locs[i..]).1 + i
        invariant table == if i == 0 then old(table) else Some(locs[i - 1].table)
        invariant df == old(df)
      {
        assert locs[i..][0] == locs[i] && locs[i..][1..] == locs[i + 1..];
        var got := GetData(locs[i].table, Many(locs[i].columns), epoch1, epoch2);
        assert got == Fetcher(db, epoch1, epoch2)(locs[i]);
        if got.Ok? {
          return Ok((locs[i], got.value));
        } else if !IsOSError(got.error) {
          return Err(got.error);
        }
        i := i + 1;
      }
      r := Err(NotFound);
    }

    /** search_data on a name or a list of names. */
    method SearchData(index: NameIndex, q: NameQuery, epoch1: int, epoch2: int, rename: bool) returns (r: Result<Output>)
      requires index.names.Wf()
      modifies this, index
      ensures index.names.Wf()
      ensures (r, State(index.names, table, df))
        == SearchQuery(db, State(old(index.names), old(table), old(df)), q, epoch1, epoch2, rename)
      decreases q
    {
      match q
      case Name(n) =>
        var got := SearchName(index, n, epoch1, epoch2, rename);
        r := if got.Ok? then Ok(Narrow(got.value)) else Err(got.error);
      case Names(items) =>
        var parts := SearchList(index, items, epoch1, epoch2, rename);
        r := if parts.Err? then Err(parts.error) else Join(parts.value);
    }

    /** The list comprehension of search_data: the first item, then the
        rest, each search seeing the state the previous one left. */
    method SearchList(index: NameIndex, items: seq<NameQuery>, epoch1: int, epoch2: int, rename: bool) returns (r: Result<seq<Output>>)
      requires index.names.Wf()
      modifies this, index
      ensures index.names.Wf()
      ensures (r, State(index.names, table, df))
        == SearchEach(db, State(old(index.names), old(table), old(df)), items, epoch1, epoch2, rename)
      decreases items
    {
      if |items| == 0 {
        return Ok([]);
      }
      var first := SearchData(index, items[0], epoch1, epoch2, rename);
      if first.Err? {
        return Err(first.error);
      }
      var rest := SearchList(index, items[1..], epoch1, epoch2, rename);
      if rest.Err? {
        return Err(rest.error);
      }
      r := Ok([first.value] + rest.value);
    }
  }
}
