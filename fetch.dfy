/** get_data without its I/O: the window rule, the column list it selects,
    the meaning of its query (the selected columns of the rows whose
    timestamp lies in the half-open window) and the post-processing of the
    fetched frame. */
module Fetch {
  import opened Db

  /** One column of a fetched frame. */
  datatype Series = Series(name: string, values: seq<Option<int>>)

  /** A pandas frame, column by column: `height` rows and one series per
      column, in column order. */
  datatype Frame = Frame(height: nat, series: seq<Series>)

  /** Whether a series holds a value in at least one row. */
  predicate HasValue(s: Series) {
    exists k :: 0 <= k < |s.values| && s.values[k].Some?
  }

  // ----- The window -----

  const Day := 24 * 3600

  /** Equal start and stop epochs mean the 24 hours ending at stop; any other
      pair passes through unchanged, even when start is after stop. */
  function Window(epoch1: int, epoch2: int): (w: (int, int))
    ensures w.1 == epoch2
    ensures w.1 - w.0 == if epoch1 == epoch2 then Day else epoch2 - epoch1
  {
    if epoch1 == epoch2 then (epoch2 - Day, epoch2) else (epoch1, epoch2)
  }

  // ----- The column list -----

  /** The `columns` argument: absent, a lone string, or a list. */
  datatype Columns = All | One(column: string) | Many(list: seq<string>)

  /** The timestamp column is added at the end unless already present; the
      entries given keep their order. */
  function WithTime(cols: seq<string>): (r: seq<string>)
    ensures TimeColumn in r
    ensures |cols| <= |r| && r[..|cols|] == cols
    ensures |r| == if TimeColumn in cols then |cols| else |cols| + 1
  {
    if TimeColumn in cols then cols else cols + [TimeColumn]
  }

  /** The column list get_data selects: a lone name as a one-element list,
      no columns as the table's whole list (fetched with its own connection),
      and the timestamp column added. */
  function Requested(db: Store, table: string, columns: Columns): (r: Result<seq<string>>)
    ensures columns.One? ==> r == Ok(WithTime([columns.column]))
    ensures columns.Many? ==> r == Ok(WithTime(columns.list))
    ensures columns.All? ==>
      r == if db.reachable && table in db.tables then Ok(WithTime(db.tables[table].columns)) else Err(Fault)
  {
    match columns
    case One(c) => Ok(WithTime([c]))
    case Many(cs) => Ok(WithTime(cs))
    case All =>
      match GetColumns(db, table, true)
      case Err(e) => Err(e)
      case Ok(cs) => Ok(WithTime(cs))
  }

  // ----- The query -----

  /** The WHERE clause `_i_time >= lo and _i_time < hi`; a NULL timestamp
      satisfies neither comparison. */
  predicate InWindow(row: Row, lo: int, hi: int) {
    Cell(row, TimeColumn).Some? && lo <= Cell(row, TimeColumn).value < hi
  }

  function Selected(rows: seq<Row>, lo: int, hi: int): seq<Row> {
    Filter(rows, (row: Row) => InWindow(row, lo, hi))
  }

  /** The rows fetched are those of the table inside the window, each as
      often as it is stored; no other row. */
  lemma SelectedRows(rows: seq<Row>, lo: int, hi: int, row: Row)
    ensures row in Selected(rows, lo, hi) <==> row in rows && InWindow(row, lo, hi)
    ensures multiset(Selected(rows, lo, hi))[row] == if InWindow(row, lo, hi) then multiset(rows)[row] else 0
  {
    FilterCount(rows, (row: Row) => InWindow(row, lo, hi), row);
  }

  /** The window selects nothing exactly when no stored row lies in it. */
  lemma SelectedEmpty(rows: seq<Row>, lo: int, hi: int)
    ensures |Selected(rows, lo, hi)| == 0 <==> forall row :: row in rows ==> !InWindow(row, lo, hi)
  {
    FilterMembers(rows, (row: Row) => InWindow(row, lo, hi));
    if |Selected(rows, lo, hi)| > 0 {
      assert Selected(rows, lo, hi)[0] in Selected(rows, lo, hi);
    }
  }

  function ColumnOf(rows: seq<Row>, c: string): seq<Option<int>> {
    seq(|rows|, k requires 0 <= k < |rows| => Cell(rows[k], c))
  }

  /** SELECT cols FROM table WHERE the timestamp is in [lo, hi). The server
      rejects an unknown table or column. */
  function Query(db: Store, table: string, cols: seq<string>, lo: int, hi: int): (r: Result<Frame>)
    ensures r.Err? <==> table !in db.tables || exists c :: c in cols && c !in db.tables[table].columns
    ensures r.Err? ==> r.error == BadQuery
  {
    if table !in db.tables || exists c :: c in cols && c !in db.tables[table].columns then Err(BadQuery)
    else
      var rows := Selected(db.tables[table].rows, lo, hi);
      Ok(Frame(|rows|, Project(rows, cols)))
  }

  /** The selected columns of `rows`, in the order of `cols`. */
  function Project(rows: seq<Row>, cols: seq<string>): seq<Series> {
    seq(|cols|, j requires 0 <= j < |cols| => Series(cols[j], ColumnOf(rows, cols[j])))
  }

  // ----- Post-processing -----

  /** DataFrame.rename(columns={from: to}): every column named `from`. */
  function Rename(f: Frame, from: string, to: string): Frame {
    Frame(f.height, seq(|f.series| , j requires 0 <= j < |f.series| =>
      if f.series[j].name == from then Series(to, f.series[j].values) else f.series[j]))
  }

  /** dropna(how='all', axis='columns'). */
  function DropAllNull(f: Frame): Frame {
    Frame(f.height, Filter(f.series, HasValue))
  }

  /** drop(columns=...): every column whose name is listed. */
  function Drop(f: Frame, names: set<string>): Frame {
    Frame(f.height, Filter(f.series, (s: Series) => s.name !in names))
  }

  lemma DropMembers(f: Frame, names: set<string>)
    ensures forall s :: s in Drop(f, names).series <==> s in f.series && s.name !in names
  {
    FilterMembers(f.series, (s: Series) => s.name !in names);
  }

  /** Dropping columns other than epoch_time keeps the epoch_time count. */
  lemma DropEpochCount(f: Frame, names: set<string>)
    requires EpochColumn !in names
    ensures EpochCount(Drop(f, names)) == EpochCount(f)
  {
    FilterNested(f.series, (s: Series) => s.name !in names, IsEpoch);
  }

  predicate IsEpoch(s: Series) {
    s.name == EpochColumn
  }

  /** How many columns are labelled epoch_time. */
  function EpochCount(f: Frame): nat {
    |Filter(f.series, IsEpoch)|
  }

  function PostProcess(g: Frame): Frame {
    Drop(DropAllNull(Rename(g, TimeColumn, EpochColumn)), {RawTimeColumn, TimeColumn})
  }

  /** get_data on resolved epochs. */
  function FetchData(db: Store, table: string, columns: Columns, epoch1: int, epoch2: int): Result<Frame> {
    var (lo, hi) := Window(epoch1, epoch2);
    match Requested(db, table, columns)
    case Err(e) => Err(e)
    case Ok(cols) =>
      if !db.reachable then Err(Fault)
      else match Query(db, table, cols, lo, hi)
        case Err(e) => Err(e)
        case Ok(g) => Finish(g)
  }

  /** The steps of get_data after the query, on the fetched frame `g`. */
  function Finish(g: Frame): Result<Frame> {
    if g.height == 0 then Err(NoData)
    else
      // df['epoch_time'] is a single column only when exactly one is so
      // labelled: none is a KeyError, several give a frame that
      // to_datetime rejects with ValueError
      var f := PostProcess(g);
      // df['time'] = ... replaces any fetched column labelled time, and
      // set_index('time') then moves that column out of the columns
      if EpochCount(f) == 1 then Ok(Drop(f, {IndexColumn})) else Err(Fault)
  }

  /** The steps after the query raise IOError exactly on an empty frame, and
      never RuntimeError. */
  lemma FinishErrors(g: Frame)
    ensures Finish(g) == Err(NoData) <==> g.height == 0
    ensures Finish(g) != Err(NotFound)
  {
  }

  /** get_data as written: the type test on its `start` argument reads the
      attribute `datetime` of the class `datetime` that the module imports,
      which has no such attribute, so every call raises AttributeError
      there, after recording the table and before any query. */
  function FetchAsWritten(db: Store, table: string, columns: Columns, epoch1: int, epoch2: int): Result<Frame> {
    Err(Fault)
  }

  /** A table holding one row inside the window: get_data(table) as
      intended returns it, get_data as written raises. */
  lemma AsWrittenLosesData()
    ensures var db := Store(true, ["pressure_measured"],
        map["pressure_measured" := Table([TimeColumn], [map[TimeColumn := Some(5)]])]);
      && FetchData(db, "pressure_measured", All, 0, 10).Ok?
      && FetchAsWritten(db, "pressure_measured", All, 0, 10).Err?
  {
    var row: Row := map[TimeColumn := Some(5)];
    var table := Table([TimeColumn], [row]);
    var db := Store(true, ["pressure_measured"], map["pressure_measured" := table]);
    assert Requested(db, "pressure_measured", All) == Ok([TimeColumn]);
    assert InWindow(row, 0, 10);
    assert Selected(table.rows, 0, 10) == [row];
    var epoch := Series(EpochColumn, [Some(5)]);
    var g := Frame(1, [Series(TimeColumn, [Some(5)])]);
    assert ColumnOf([row], TimeColumn) == [Some(5)];
    assert Project([row], [TimeColumn]) == g.series;
    assert !exists c :: c in [TimeColumn] && c !in table.columns;
    assert Query(db, "pressure_measured", [TimeColumn], 0, 10) == Ok(g);
    assert Rename(g, TimeColumn, EpochColumn).series == [epoch];
    assert epoch.values[0].Some?;
    assert PostProcess(g).series == [epoch];
  }

  /** A column survives post-processing exactly when, after the rename, it
      holds a value and is not a timing column. */
  lemma PostProcessMembers(g: Frame, s: Series)
    ensures s in PostProcess(g).series <==>
      s in Rename(g, TimeColumn, EpochColumn).series && HasValue(s) && s.name != RawTimeColumn && s.name != TimeColumn
  {
    var kept := DropAllNull(Rename(g, TimeColumn, EpochColumn));
    FilterMembers(Rename(g, TimeColumn, EpochColumn).series, HasValue);
    DropMembers(kept, {RawTimeColumn, TimeColumn});
  }

  /** The rename on the fetched columns touches only the timestamp column. */
  lemma RenamedColumn(rows: seq<Row>, cols: seq<string>, j: int)
    requires 0 <= j < |cols|
    ensures Rename(Frame(|rows|, Project(rows, cols)), TimeColumn, EpochColumn).series[j]
      == Series(if cols[j] == TimeColumn then EpochColumn else cols[j], ColumnOf(rows, cols[j]))
  {
  }

  /** Post-processing of the fetched columns: the timestamp column comes out
      as epoch_time when it holds a value; any other column is kept exactly
      when it holds a value and is not _t_time; no _i_time or _t_time and no
      all-NULL column is left. */
  lemma PostProcessed(rows: seq<Row>, cols: seq<string>)
    requires TimeColumn in cols
    ensures var f := PostProcess(Frame(|rows|, Project(rows, cols)));
      && (HasValue(Series(TimeColumn, ColumnOf(rows, TimeColumn))) ==> Series(EpochColumn, ColumnOf(rows, TimeColumn)) in f.series)
      && (forall s :: s in f.series ==> s.name != TimeColumn && s.name != RawTimeColumn && HasValue(s))
      && (forall c :: c in cols && c != TimeColumn && c != RawTimeColumn ==>
           (Series(c, ColumnOf(rows, c)) in f.series <==> HasValue(Series(c, ColumnOf(rows, c)))))
      && forall s :: s in f.series ==>
           s == Series(EpochColumn, ColumnOf(rows, TimeColumn))
           || exists c :: c in cols && c != TimeColumn && c != RawTimeColumn && s == Series(c, ColumnOf(rows, c))
  {
    var g := Frame(|rows|, Project(rows, cols));
    var renamed := Rename(g, TimeColumn, EpochColumn);
    var f := PostProcess(g);
    var t :| 0 <= t < |cols| && cols[t] == TimeColumn;
    RenamedColumn(rows, cols, t);
    PostProcessMembers(g, Series(EpochColumn, ColumnOf(rows, TimeColumn)));
    forall c | c in cols && c != TimeColumn && c != RawTimeColumn
      ensures Series(c, ColumnOf(rows, c)) in f.series <==> HasValue(Series(c, ColumnOf(rows, c)))
    {
      var j :| 0 <= j < |cols| && cols[j] == c;
      RenamedColumn(rows, cols, j);
      PostProcessMembers(g, Series(c, ColumnOf(rows, c)));
    }
    forall s | s in f.series ensures s.name != TimeColumn && s.name != RawTimeColumn && HasValue(s) {
      PostProcessMembers(g, s);
    }
    forall s | s in f.series
      ensures s == Series(EpochColumn, ColumnOf(rows, TimeColumn))
           || exists c :: c in cols && c != TimeColumn && c != RawTimeColumn && s == Series(c, ColumnOf(rows, c))
    {
      PostProcessMembers(g, s);
      var j :| 0 <= j < |renamed.series| && renamed.series[j] == s;
      RenamedColumn(rows, cols, j);
      if cols[j] != TimeColumn {
        assert cols[j] in cols && s == Series(cols[j], ColumnOf(rows, cols[j]));
      }
    }
  }

  /** The columns after the query steps: the timestamp column as the only
      epoch_time, a fetched column kept exactly when it holds a value in
      some row, no other column, and never _i_time, _t_time or the column
      `time` that becomes the index. */
  lemma FinishedFrame(rows: seq<Row>, cols: seq<string>, f: Frame)
    requires TimeColumn in cols && |rows| > 0 && forall k :: 0 <= k < |rows| ==> Cell(rows[k], TimeColumn).Some?
    requires Finish(Frame(|rows|, Project(rows, cols))) == Ok(f)
    ensures f.height == |rows|
    ensures Series(EpochColumn, ColumnOf(rows, TimeColumn)) in f.series
    ensures EpochCount(f) == 1
    ensures forall s :: s in f.series ==>
      s.name != TimeColumn && s.name != RawTimeColumn && s.name != IndexColumn && HasValue(s)
    ensures forall c :: c in cols && c != TimeColumn && c != RawTimeColumn && c != IndexColumn ==>
      (Series(c, ColumnOf(rows, c)) in f.series <==> HasValue(Series(c, ColumnOf(rows, c))))
    ensures forall s :: s in f.series ==>
      s == Series(EpochColumn, ColumnOf(rows, TimeColumn))
      || exists c :: c in cols && c != TimeColumn && c != RawTimeColumn && c != IndexColumn && s == Series(c, ColumnOf(rows, c))
  {
    var p := PostProcess(Frame(|rows|, Project(rows, cols)));
    assert f == Drop(p, {IndexColumn}) && EpochCount(p) == 1;
    assert ColumnOf(rows, TimeColumn)[0].Some?;
    PostProcessed(rows, cols);
    DropMembers(p, {IndexColumn});
    DropEpochCount(p, {IndexColumn});
    forall s | s in f.series
      ensures s == Series(EpochColumn, ColumnOf(rows, TimeColumn))
           || exists c :: c in cols && c != TimeColumn && c != RawTimeColumn && c != IndexColumn && s == Series(c, ColumnOf(rows, c))
    {
      if s != Series(EpochColumn, ColumnOf(rows, TimeColumn)) {
        var c :| c in cols && c != TimeColumn && c != RawTimeColumn && s == Series(c, ColumnOf(rows, c));
        assert c == s.name;
      }
    }
  }

  /** What a successful get_data returns: one row per stored row inside the
      window (at least one), every timestamp inside the window, and the
      columns that `FinishedFrame` describes. */
  lemma FetchedFrame(db: Store, table: string, columns: Columns, epoch1: int, epoch2: int, f: Frame)
    requires FetchData(db, table, columns, epoch1, epoch2) == Ok(f)
    ensures db.reachable && table in db.tables && Requested(db, table, columns).Ok?
    ensures var (lo, hi) := Window(epoch1, epoch2);
      var rows := Selected(db.tables[table].rows, lo, hi);
      var cols := Requested(db, table, columns).value;
      && f.height == |rows| > 0
      && (forall k :: 0 <= k < |rows| ==> InWindow(rows[k], lo, hi))
      && Series(EpochColumn, ColumnOf(rows, TimeColumn)) in f.series
      && EpochCount(f) == 1
      && (forall s :: s in f.series ==>
            s.name != TimeColumn && s.name != RawTimeColumn && s.name != IndexColumn && HasValue(s))
      && (forall c :: c in cols && c != TimeColumn && c != RawTimeColumn && c != IndexColumn ==>
            (Series(c, ColumnOf(rows, c)) in f.series <==> HasValue(Series(c, ColumnOf(rows, c)))))
      && forall s :: s in f.series ==>
           s == Series(EpochColumn, ColumnOf(rows, TimeColumn))
           || exists c :: c in cols && c != TimeColumn && c != RawTimeColumn && c != IndexColumn && s == Series(c, ColumnOf(rows, c))
  {
    var (lo, hi) := Window(epoch1, epoch2);
    var cols := Requested(db, table, columns).value;
    var rows := Selected(db.tables[table].rows, lo, hi);
    assert Finish(Frame(|rows|, Project(rows, cols))) == Ok(f);
    forall k | 0 <= k < |rows| ensures InWindow(rows[k], lo, hi) {
      assert rows[k] in rows;
      SelectedRows(db.tables[table].rows, lo, hi, rows[k]);
    }
    FinishedFrame(rows, cols, f);
  }

  /** get_data never raises the resolver's RuntimeError. */
  lemma FetchNeverNotFound(db: Store, table: string, columns: Columns, epoch1: int, epoch2: int)
    ensures FetchData(db, table, columns, epoch1, epoch2) != Err(NotFound)
  {
  }

  /** get_data raises IOError (no data) exactly when the query runs and no
      stored row lies in the window. */
  lemma FetchErrors(db: Store, table: string, columns: Columns, epoch1: int, epoch2: int)
    ensures var (lo, hi) := Window(epoch1, epoch2);
      FetchData(db, table, columns, epoch1, epoch2) == Err(NoData) <==>
        && db.reachable && table in db.tables && Requested(db, table, columns).Ok?
        && (forall c :: c in Requested(db, table, columns).value ==> c in db.tables[table].columns)
        && forall row :: row in db.tables[table].rows ==> !InWindow(row, lo, hi)
  {
    var (lo, hi) := Window(epoch1, epoch2);
    if db.reachable && table in db.tables && Requested(db, table, columns).Ok? {
      var cols := Requested(db, table, columns).value;
      var q := Query(db, table, cols, lo, hi);
      if q.Ok? {
        FinishErrors(q.value);
        SelectedEmpty(db.tables[table].rows, lo, hi);
        assert q.value.height == |Selected(db.tables[table].rows, lo, hi)|;
      }
    }
  }
}
