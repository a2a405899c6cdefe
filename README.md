# ucnhistory in Dafny

A model of the core of ucnhistory, a small Python client that fetches
MIDAS history records from a MySQL database. There are two parts.

- **Variable-name resolver** (`ucnhistory/search.py`). `build_tables` fills a
  module-level dictionary. It maps every table whose name contains
  `measured` to that table's column list. `search` lower-cases a free-text
  name and replaces spaces and colons by `_`. It then collects, in
  dictionary order and then column order, every (table, column) pair whose
  column contains the text. It answers one location, raises, or returns
  the whole list, depending on how many pairs it found.
- **Fetch pipeline** (`ucnhistory/ucnhistory.py`).
  - `get_tables` returns the table names sorted.
  - `get_data` does the following, in order:
    - widens equal start and stop epochs to the 24 hours before the stop;
    - prepares the column list, appending `_i_time` when it is absent;
    - selects the rows with `epoch1 <= _i_time < epoch2`;
    - raises IOError when there are none;
    - renames `_i_time` to `epoch_time`, drops all-NULL columns, and drops
      `_t_time` and `_i_time`;
    - builds the `time` index from `epoch_time`. This overwrites any fetched
      column labelled `time`, and `set_index` then moves it out of the
      columns.
  - `search_data` resolves a name. It tries the candidate locations in
    order, passing over those that raise an OSError. It renames the fetched
    column to the requested name. A list of names is searched item by item
    and combined without `epoch_time`.

The database is a value (`Db.Store`):
- whether a connection can be opened;
- what SHOW TABLES lists;
- per table, its column list and its rows.

A row maps column names to optional integers; a column it does not mention
is NULL. Python exceptions become `Db.Error`:
- `NoData` is the IOError of an empty window.
- `BadQuery` is the server rejecting the SELECT. pandas re-raises this as
  its `DatabaseError`, which is an OSError.
- `NotFound` is RuntimeError.
- `Fault` is everything else: a failed connection, a failed SHOW COLUMNS,
  KeyError, ValueError, IndexError.

`Db.IsOSError` is the set of errors the candidate loop passes over.

A pandas frame is column-major: `Fetch.Frame(height, series)`. So rename,
`dropna(axis='columns')` and `drop(columns=...)` act on the list of
columns, and duplicate labels behave as in pandas.

Modules and files:
- `db.dfy`: the store, errors, Python's `str` ordering, `sorted`, `get_tables` and `get_columns`.
- `search.dfy`: normalisation, the ordered dictionary and its build, the matching and the result policy. The class `Search.NameIndex` holds the module-level dictionary. Its methods `BuildTables` and `Search` are the two Python functions with their loops, proved equal to `Search.Build` and `Search.SearchSpec`. The nested loop of `search` is the pair of methods `Search.ScanTables` and `Search.ScanColumns`, one per loop.
- `fetch.dfy`: the window, the column list, the query, the post-processing and `Fetch.FetchData`.
- `history.dfy`: the candidate fallback, `search_data` for a name and for a list, and the class `History.History`. Its fields `table` and `df` are the object's attributes, and its methods are `get_data` and `search_data` step by step, each proved equal to its specification function. The one-name path of `search_data` is split into the resolver call (`SearchName`), what follows it (`FollowPath`) and the fallback loop (`TryLocations`). The fallback is specified over any fetch function (`History.TryCandidates`), and `History.Fetcher` binds it to get_data.

## Model

| member | source | states |
|---|---|---|
| Db.Below | ucnhistory/ucnhistory.py:222 | Python's order on `str`, compared code point by code point; `Db.BelowReflexive`, `Db.BelowTotal`, `Db.BelowAntisymmetric` and `Db.BelowTransitive` prove it a total order |
| Db.GetTables | ucnhistory/ucnhistory.py:203-222 | succeeds exactly when a connection opens; the answer is sorted and is a permutation of the tables the server lists |
| Db.Sort | ucnhistory/ucnhistory.py:222 | `sorted()`: a permutation of its input, ordered, and without duplicates when the input has none |
| Db.SortedUnique | ucnhistory/ucnhistory.py:222 | two sorted permutations of the same names are equal, so `sorted()` has one possible answer |
| Db.GetTablesUnique | ucnhistory/ucnhistory.py:217-222 | any sorted permutation of the listing is exactly what get_tables answers |
| Db.GetColumns | ucnhistory/ucnhistory.py:102-123 | answers the table's column list exactly when the table exists and, with `_reconnect`, a connection opens; otherwise a non-OSError fault |
| Search.Contains | ucnhistory/search.py:38 | Python's `needle in hay` on `str`: the needle occurs as a contiguous run at some position of the string; the empty needle occurs in every string, at position 0 |
| Search.IsMeasured | ucnhistory/search.py:16 | `'measured' in table`: the table name contains `measured` somewhere |
| Search.Normalize | ucnhistory/search.py:30-32 | the search text: lower-cased, then spaces and colons replaced by `_`, as `Search.NormalizeSpec` states |
| Search.NormalizeSpec | ucnhistory/search.py:30-32 | the search text has the input's length; each character is the lower-cased input character, with space and colon turned into `_`; no space, colon or upper-case letter remains |
| Search.NormalizeIdempotent | ucnhistory/search.py:30-32 | normalising twice is normalising once |
| Search.Dict.Put | ucnhistory/search.py:17 | assigning a key keeps the dictionary well formed: keys distinct, key list and map agree |
| Search.Fill | ucnhistory/search.py:15-17 | the loop of build_tables: each measured table mapped to its column list, stopping at the first failed SHOW COLUMNS; `Search.FillWf`, `Search.FillSound`, `Search.FillCompletes` and `Search.FillAppends` state its properties |
| Search.Build | ucnhistory/search.py:11-18 | get_tables, then the loop; a failed get_tables or SHOW COLUMNS is the exception raised; `Search.BuildWf` and `Search.BuildFromEmpty` state its properties |
| Search.FillWf | ucnhistory/search.py:15-17 | after the loop the dictionary is well formed, and the keys there before keep their places at the front |
| Search.FillSound | ucnhistory/search.py:15-17 | after the loop every entry is either an old entry, unchanged, or a measured table of the loop's list mapped to that table's column list |
| Search.FillCompletes | ucnhistory/search.py:15-17 | the loop finishes exactly when every measured table of its list exists in the store |
| Search.FillAppends | ucnhistory/search.py:15-17 | a finished loop over distinct tables that are not yet keys appends the measured ones, in list order, to the key order |
| Search.BuildWf | ucnhistory/search.py:11-18 | build_tables, finished or interrupted, leaves a well-formed dictionary |
| Search.BuildFromEmpty | ucnhistory/search.py:13-17 | from an empty dictionary, build_tables succeeds exactly when a connection opens and every listed measured table exists; its keys are then the listed measured tables in sorted order, each mapped to its column list |
| Search.ColumnMatches | ucnhistory/search.py:37-39 | what the inner loop appends for one table, in column order; `Search.ColumnMatchesInOrder` equates it to filtering that table's pairs |
| Search.Matches | ucnhistory/search.py:35-39 | `found_key` after the nested loop; `Search.MatchesInOrder`, `Search.MatchesCount`, `Search.MatchesSound` and `Search.MatchesSorted` state its properties |
| Search.MatchesInOrder | ucnhistory/search.py:35-39 | the nested loop's list is the (table, [column]) pairs in dictionary order, then column order, restricted to columns containing the text |
| Search.MatchesCount | ucnhistory/search.py:35-39 | a pair appears exactly as often as the column occurs in its table's list when the column contains the text, and never otherwise |
| Search.MatchesSound | ucnhistory/search.py:36-39 | every match names a key of the dictionary, holds exactly one column of that table, and that column contains the text |
| Search.MatchesSorted | ucnhistory/search.py:35-39 | with sorted keys, the matches are ordered by table name |
| Search.ScanColumns | ucnhistory/search.py:37-39 | the inner loop appends, in column order, one location per column of the table that contains the text, as `Search.ColumnMatches` describes |
| Search.ScanTables | ucnhistory/search.py:35-39 | the nested loop collects the list that `Search.Matches` describes, which `Search.MatchesInOrder`, `Search.MatchesCount` and `Search.MatchesSound` characterise |
| Search.Decide | ucnhistory/search.py:42-47 | one match alone, none as RuntimeError, several as the list |
| Search.Lookup | ucnhistory/search.py:29-47 | the search on a built dictionary; `Search.LookupPolicy` states its three outcomes |
| Search.SearchSpec | ucnhistory/search.py:21-47 | search: build when the dictionary is empty, then look up; `Search.SearchKeepsIndex` and `Search.FirstSearchCandidates` state its properties |
| Search.LookupPolicy | ucnhistory/search.py:42-47 | RuntimeError exactly when no column of any table contains the text; one match comes back alone; several come back as the whole list, at least two; nothing else is raised |
| Search.SearchKeepsIndex | ucnhistory/search.py:26-27 | a non-empty dictionary is only read, and an empty one is rebuilt |
| Search.FirstSearchCandidates | ucnhistory/search.py:13-17 | on a first search, the candidates are sorted by table name; each is a listed measured table and one of its columns |
| Search.NameIndex.constructor | ucnhistory/search.py:9 | the dictionary starts empty |
| Search.NameIndex.BuildTables | ucnhistory/search.py:11-18 | the loop leaves the dictionary and the exception that `Search.Build` describes |
| Search.NameIndex.Search | ucnhistory/search.py:21-47 | the build when the dictionary is empty, the nested loop and the policy give the dictionary and the answer that `Search.SearchSpec` describes; the dictionary stays well formed |
| Fetch.Window | ucnhistory/ucnhistory.py:152-158 | the window ends at stop; it is 24 hours long when the epochs are equal, otherwise exactly stop minus start, with no reordering |
| Fetch.WithTime | ucnhistory/ucnhistory.py:167-168 | `_i_time` is in the list; the given entries keep their order at the front; at most one entry is added, exactly when `_i_time` was absent |
| Fetch.Requested | ucnhistory/ucnhistory.py:141-168 | a lone name becomes a one-element list; a list is used as given; no columns means the table's full list, fetched with its own connection; `_i_time` is added in each case |
| Fetch.SelectedRows | ucnhistory/ucnhistory.py:175-176 | a row is fetched exactly when it is stored and its `_i_time` is not NULL and lies in the half-open window; it is fetched as often as it is stored |
| Fetch.Selected | ucnhistory/ucnhistory.py:174-176 | the rows the WHERE clause selects; `Fetch.SelectedRows` and `Fetch.SelectedEmpty` state which |
| Fetch.Project | ucnhistory/ucnhistory.py:174-176 | the selected columns of the fetched rows, in the order asked for; `Fetch.RenamedColumn` and `Fetch.PostProcessed` use it |
| Fetch.SelectedEmpty | ucnhistory/ucnhistory.py:175-181 | the window selects no row exactly when no stored row lies in it |
| Fetch.Query | ucnhistory/ucnhistory.py:174-176 | the SELECT fails, with an OSError, exactly when the table or a requested column is unknown |
| Fetch.Rename | ucnhistory/ucnhistory.py:184 | `rename(columns={from: to})` on every column so labelled; `Fetch.RenamedColumn` and `History.RenameSpec` state its effect |
| Fetch.DropAllNull | ucnhistory/ucnhistory.py:187 | `dropna(how='all', axis='columns')`; `Fetch.PostProcessMembers` states which columns it keeps |
| Fetch.Drop | ucnhistory/ucnhistory.py:190 | `drop(columns=...)`; `Fetch.DropMembers` states which columns it keeps |
| Fetch.PostProcess | ucnhistory/ucnhistory.py:184-190 | the rename and the two drops in order; `Fetch.PostProcessMembers` and `Fetch.PostProcessed` state the result |
| Fetch.RenamedColumn | ucnhistory/ucnhistory.py:184 | the rename relabels the timestamp column `epoch_time` and leaves every other fetched column as it was |
| Fetch.DropMembers | ucnhistory/ucnhistory.py:190 | `drop(columns=...)` keeps exactly the columns whose label is not listed |
| Fetch.PostProcessMembers | ucnhistory/ucnhistory.py:184-190 | a column survives post-processing exactly when, after the rename, it holds a value and is labelled neither `_t_time` nor `_i_time` |
| Fetch.PostProcessed | ucnhistory/ucnhistory.py:184-190 | `_i_time` comes out as `epoch_time`; another column is kept exactly when it holds a value; no `_t_time`, `_i_time` or all-NULL column remains, and no column other than these |
| Fetch.DropEpochCount | ucnhistory/ucnhistory.py:193-196 | dropping columns other than `epoch_time` leaves the number of `epoch_time` columns as it was |
| Fetch.FinishErrors | ucnhistory/ucnhistory.py:179-199 | the steps after the query raise IOError exactly on an empty frame, and never RuntimeError |
| Fetch.FinishedFrame | ucnhistory/ucnhistory.py:179-199 | after the query steps: exactly one `epoch_time` column holding the timestamps; a fetched column other than `_i_time`, `_t_time` and `time` is kept exactly when it holds a value; no other column; no `_i_time`, `_t_time`, `time` or all-NULL column |
| Fetch.FetchedFrame | ucnhistory/ucnhistory.py:175-199 | a successful get_data has one row per stored row in the window (at least one), every timestamp in the window, exactly one `epoch_time` column holding the timestamps, a requested column other than `time` exactly when it holds a value, no other column, and no timing or `time` column |
| Fetch.Finish | ucnhistory/ucnhistory.py:179-199 | the steps after the query; `Fetch.FinishErrors` and `Fetch.FinishedFrame` state its outcomes |
| Fetch.FetchData | ucnhistory/ucnhistory.py:125-201 | get_data on resolved epochs; `Fetch.FetchNeverNotFound`, `Fetch.FetchErrors` and `Fetch.FetchedFrame` state its outcomes |
| Fetch.FetchNeverNotFound | ucnhistory/ucnhistory.py:125-201 | get_data never raises RuntimeError |
| Fetch.FetchErrors | ucnhistory/ucnhistory.py:179-181 | get_data raises IOError exactly when the connection opens, the table and every requested column exist, and no stored row lies in the window |
| Fetch.FetchAsWritten | ucnhistory/ucnhistory.py:145-148 | get_data as written, which raises on every call; `Fetch.AsWrittenLosesData` contrasts it with `Fetch.FetchData` |
| Fetch.AsWrittenLosesData | ucnhistory/ucnhistory.py:145-148 | for a one-row table, get_data as intended returns data while get_data as written raises |
| History.Attempt | ucnhistory/ucnhistory.py:250-260 | `self.get_data(**p, start=start, stop=stop)`: get_data on the location's table and its column list with the two resolved epochs, as `Fetch.FetchData` describes |
| History.CandidateChosen | ucnhistory/ucnhistory.py:248-256 | the first candidate that succeeds after only OSErrors is used with its data, and no later candidate is tried |
| History.FetcherNeverNotFound | ucnhistory/ucnhistory.py:250-252 | no get_data call of the loop raises RuntimeError itself |
| History.CandidateOutcome | ucnhistory/ucnhistory.py:248-256 | every attempt before the last raised an OSError; success is the last attempt's location and data; any other exception is the last attempt's, and not an OSError |
| History.CandidatesExhausted | ucnhistory/ucnhistory.py:248-264 | when no fetch raises RuntimeError itself, the loop ends in RuntimeError exactly when every candidate raised an OSError, and then it tried all of them |
| History.TryCandidates | ucnhistory/ucnhistory.py:248-256 | the loop makes at most one get_data call per candidate |
| History.Follow | ucnhistory/ucnhistory.py:246-270 | search_data once the resolver has answered: the fetch or the fallback, then the rename, with the table and frame recorded; `History.FollowFetched` states a success |
| History.FollowFetched | ucnhistory/ucnhistory.py:246-270 | once the resolver has answered, a successful search_data fetched one of the offered locations; the object records its table and the fetched frame; the answer is that frame relabelled |
| History.SearchOne | ucnhistory/ucnhistory.py:243-270 | search_data for one name; `History.SearchOneWf`, `History.ResolvedSound` and `History.SearchOneFetched` state its properties |
| History.SearchOneWf | ucnhistory/ucnhistory.py:244 | search_data keeps the resolver's dictionary well formed |
| History.ResolvedSound | ucnhistory/ucnhistory.py:244-260 | every location search_data fetches is a table of the resolver's dictionary and one of its columns containing the search text |
| History.SearchOneFetched | ucnhistory/ucnhistory.py:244-270 | a successful search_data fetched a matching column with get_data; the object records that table and the fetched frame; the answer is that frame with the column renamed to the requested name |
| History.Relabel | ucnhistory/ucnhistory.py:266-268 | with `rename_column`, the location's first column relabelled with the requested name, an IndexError when it has no column; otherwise the frame as is |
| History.RenameSpec | ucnhistory/ucnhistory.py:267-268 | the renamed column keeps its values; no column keeps the old label; other columns are unchanged |
| History.Join | ucnhistory/ucnhistory.py:239-240 | `pd.concat` of the parts and the drop of `epoch_time`; `History.JoinColumns` states the result |
| History.JoinColumns | ucnhistory/ucnhistory.py:239-240 | combining succeeds exactly when the list is non-empty and some part has `epoch_time`; the result then holds every other column of every part and no `epoch_time` |
| History.ListHasNoEpoch | ucnhistory/ucnhistory.py:237-241 | a list of names, when answered, is a non-empty list whose combined columns contain no `epoch_time` |
| History.SearchQuery | ucnhistory/ucnhistory.py:224-270 | search_data on a name or a list keeps the resolver's dictionary well formed |
| History.SearchEach | ucnhistory/ucnhistory.py:238 | a list answered in full gives one result per item; `History.SearchEachPart` and `History.NamePart` state what each result is |
| History.SearchEachUnfold | ucnhistory/ucnhistory.py:238 | a list answered in full is its first item answered in the given state, followed by the rest answered in the state the first item left |
| History.SearchEachPart | ucnhistory/ucnhistory.py:238 | part `i` of a list answered in full is exactly what search_data answers for item `i` alone, in the state left by the items before it, and those items were answered in full with parts `0..i-1` |
| History.NamePart | ucnhistory/ucnhistory.py:238-270 | part `i` of a list answered in full, for a name item, is a frame that get_data fetched for one column containing the normalised name, relabelled with the name under `rename_column` |
| History.History.constructor | ucnhistory/ucnhistory.py:52-65 | a new object has recorded no table and no frame |
| History.History.GetData | ucnhistory/ucnhistory.py:125-201 | the step-by-step get_data answers what `Fetch.FetchData` describes; it records the table on every call and the frame only on success |
| History.History.TryLocations | ucnhistory/ucnhistory.py:248-256 | the fallback loop gives the outcome `History.TryCandidates` describes; the object records the table of the last attempt, and the frame only on success |
| History.History.FollowPath | ucnhistory/ucnhistory.py:246-270 | after the resolver has answered, the fetch, the fallback and the rename give the answer, table and frame that `History.Follow` describes |
| History.History.SearchName | ucnhistory/ucnhistory.py:243-270 | the resolver call followed by `History.History.FollowPath` gives the answer, dictionary, table and frame that `History.SearchOne` describes |
| History.History.SearchData | ucnhistory/ucnhistory.py:236-241 | a name or a list of names gives what `History.SearchQuery` describes |
| History.History.SearchList | ucnhistory/ucnhistory.py:238 | the comprehension, written as a recursion over the items: the items searched in order, each seeing the state the previous one left, give what `History.SearchEach` describes, so `History.SearchEachPart` and `History.NamePart` describe each of its parts |

## Left out

- The SSH tunnel, the pymysql connection, keyring and getpass (ucnhistory/ucnhistory.py:52-100). These are network and credential I/O. Whether a connection opens is the flag `Store.reachable`.
- Connection scoping: the code leaves a connection open after a failed query. The model has no connection state.
- Date parsing with dateutil, `datetime.now()`, and the float-to-int truncation of `timestamp()` (ucnhistory/ucnhistory.py:67-76, 145-153). These take foreign, clock-dependent and floating-point input. get_data takes its two epochs as integers, already resolved. When neither start nor stop is given, get_data reads the clock twice (ucnhistory/ucnhistory.py:146 and 149, each through line 74). If a second boundary passes between the two reads, the epochs differ by one, the 24-hour fallback at lines 156-158 does not apply, and the window is one second wide (not executed; as written, the AttributeError at line 145 comes first). The model's single pair of resolved epochs abstracts this.
- The SQL text and its execution (ucnhistory/ucnhistory.py:118, 174-176) are modelled by their meaning only: the column list and the window predicate.
- MySQL's case-insensitive column names are not modelled. Column names compare exactly.
- Row order: a SELECT without ORDER BY has no guaranteed order. The model keeps the stored order.
- `pd.to_datetime`, the `time` index and the timezone conversion (ucnhistory/ucnhistory.py:193-197) are pandas and timezone library calls. The index values are not modelled. Two effects on the columns are modelled: line 193 fails unless exactly one column is labelled `epoch_time`, and a fetched column labelled `time` leaves the columns.
- Fetch.Finish: when several fetched columns are labelled `time`, the model drops them all. What pandas does with such a duplicate label at lines 193 and 196 is not modelled.
- History.Join: the index alignment of `pd.concat` is not modelled. A combined result is the list of its columns, without row alignment or NaN filling.
- The in-place append of `_i_time` to the caller's column list (ucnhistory/ucnhistory.py:168) is not modelled as aliasing. search_data only reads the first entry of that list afterwards, which the append leaves alone.
- `to_csv` (ucnhistory/ucnhistory.py:272-290) and the command-line interface in `ucnhistory/__init__.py` are file output and printing.
- The tqdm progress bar (ucnhistory/search.py:15).
- `str.lower()` is modelled as ASCII lower-casing only. Unicode case mapping is not modelled.
- The module-level resolver in `ucnhistory/search.py` uses its own history object. The model gives it the same store but not that object's attributes, which it never reads.

## Findings

| source | as written | input that shows it | evidently intended | confidence | as-written member | corrected member |
|---|---|---|---|---|---|---|
| ucnhistory/ucnhistory.py:145-148 | `isinstance(start, datetime.datetime)` reads the attribute `datetime` of the class `datetime` imported at line 5. The class has no such attribute, so every get_data call raises AttributeError after recording the table. search_data does not pass over that exception, so it fails too | `get_data('pressure_measured')` on a table with one row in the window | use a datetime argument as the date; parse anything else | high (not executed) | Fetch.FetchAsWritten, Fetch.AsWrittenLosesData | Fetch.FetchData, Fetch.FetchedFrame, History.History.GetData |
