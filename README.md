# Candle chart scripts: a Dafny model

Two scripts draw BTC-USDT-SWAP candles with a charting widget.

- `Chart-static.py` loads every 1-minute day file from 2021-10-01 to 2021-10-03. It combines them into one table sorted by time and shows it.
- `Chart-realtime.py` loads the day files of 2021-10-01 and 2021-10-02 as a list of day tables. It then does four things:
  - draws the first day;
  - marks the trades of the fill history that fall up to the first day's last candle;
  - replays the later candles one at a time, marking each trade whose time is exactly that candle's time;
  - stops early if the user closes the window.

This project models the logic under the pandas and widget calls and proves what it does.

- **`prelude.dfy`**: `Option`, `Result`, and `Filter`. `Filter` is a boolean mask over a sequence. Its lemmas cover membership, order, idempotence, composition and partition.
- **`dates.dfy`**: proleptic Gregorian dates, years 1 to 9999, as Python's `datetime` keeps them. It covers:
  - date comparison and the day number (`toordinal`);
  - `date + timedelta(days=1)`, which raises after 9999-12-31;
  - the range of calendar days from a start date to an end date;
  - `strftime('%Y-%m-%d')` and its inverse.
- **`tables.dfy`**: data frames, as distinct column labels and rows keyed by label. It covers:
  - the per-day clean-up: drop `volume_ccy`, `volCcyQuote` and `timestamp`, then rename the timestamp column to `time`;
  - `pd.concat(..., ignore_index=True)`: union of labels in order of first appearance, missing cells `NaN`;
  - `sort_values('time').reset_index(drop=True)`;
  - `min` and `max` of the `time` column.
- **`loader.dfy`**: `load_date_range` with its timeframe parameter, as in `Chart-realtime.py`. The static script's loop is the same loop at timeframe `1m`: the same file name, the same time column `timestamp_1m`. The disk is a map from path to the table `pd.read_csv` would make of that file.
  - The loop is the method `WalkDays`. It goes date by date, as the source does, and is proved to visit exactly `DayRange(start, end)`.
  - `LoadDateRange` adds the `OverflowError` past 9999-12-31 and the `ValueError` when no file was found.
- **`markers.dfy`**: the trade classification. Role and side decide the marker's position, shape, colour and text. Quantity and price are printed as fixed-point text, and the text is proved to read back.
- **`fills.dfy`**: the fill masks:
  - the time window of the candles;
  - the split at the first day's last candle;
  - the lookup of the fills at one candle's time.
- **`widget.dfy`**: the chart as a class with an event log and an `alive` flag. Every call the scripts make is appended to the log.
- **`realtime.dfy`**: the realtime script's `__main__`:
  - `AddMarkers` is the marker loop;
  - `Replay` is the live-update loop, where an oracle `closes(i)` says whether the user has closed the window by candle `i`;
  - `Present` draws and replays;
  - `Run` is the whole script from loading to the end of the replay.

  The log a run leaves is proved to contain:
  - the first day's table;
  - the markers of exactly the window fills up to the boundary, or exactly at a replayed candle's time;
  - the later candles in order, up to where the user closed the window.
- **`static.dfy`**: the static script's `load_date_range` (loop, concat and sort) and its `__main__`.

Timestamps are integers. The fill history is already converted to naive millisecond integers. Present and missing day files are the keys of the file map. `FilePathInjective` shows that each day is probed under its own path, so presence is a property of the day.

## Model

| member | source | states |
|---|---|---|
| Prelude.FilterMembers | Chart-realtime.py:116 | a boolean mask keeps only elements of the input that satisfy it, and keeps every element that does |
| Prelude.FilterAppend | Chart-realtime.py:116 | masking keeps relative order: the mask of `a + b` is the mask of `a` followed by the mask of `b` |
| Prelude.FilterIdempotent | Chart-realtime.py:116 | applying the same mask twice selects nothing more |
| Prelude.FilterFilter | Chart-realtime.py:116 | two masks in a row select what the conjunction of the masks selects |
| Prelude.FilterPartition | Chart-realtime.py:133 | a mask and its complement (the `<=` mask here and the `>` mask of line 183) together hold every element exactly as often as the input (multisets) |
| Dates.Le | Chart-realtime.py:48 | definition: the loop test `current_date <= end_date`, year, then month, then day; `OrdinalOrder` ties it to the day number |
| Dates.Ordinal | Chart-realtime.py:66 | definition: the day number of a date, 1 for 0001-01-01, as `toordinal`; `NextDay` and `OrdinalOrder` state its use |
| Dates.DayRange | Chart-realtime.py:45-66 | definition: the days the loop visits, by repeated `NextDay` from `start` while not past `end`; `DayRangeSpec`, `DayRangeMembers`, `DayRangeNext` and `DayRangeAscending` state what they are |
| Dates.NextDay | Chart-realtime.py:66 | the day after a valid date is valid and has the next day number; there is none exactly after 9999-12-31, where Python raises `OverflowError` |
| Dates.YearLength | Chart-realtime.py:66 | a year has 366 days when it is a Gregorian leap year and 365 otherwise |
| Dates.OrdinalOrder | Chart-realtime.py:48 | `current_date <= end_date` holds exactly when the day numbers compare the same way |
| Dates.OrdinalInjective | Chart-realtime.py:48 | distinct valid dates have distinct day numbers |
| Dates.DayRangeSpec | Chart-realtime.py:45-66 | the days from start to end number `end - start + 1` (none when start is after end), and day `i` has day number `start + i` |
| Dates.DayRangeMembers | Chart-realtime.py:48 | a valid date is in the range exactly when `start <= d <= end`, and then at position `d - start` |
| Dates.DayRangeFirst | Chart-realtime.py:45-48 | the range is non-empty exactly when `start <= end`, and then begins with `start` |
| Dates.DayRangeNext | Chart-realtime.py:48-66 | each day of the range is followed by its next day; the day after the last lies beyond `end`, or does not exist |
| Dates.DayRangeAscending | Chart-realtime.py:45-66 | the range is strictly ascending, so no day is visited twice |
| Dates.IsoFormat | Chart-realtime.py:49 | the date text has ten characters with `-` at positions 4 and 7 |
| Dates.IsoRoundTrip | Chart-realtime.py:49 | reading the `YYYY-MM-DD` text back gives the date |
| Dates.IsoInjective | Chart-realtime.py:49-50 | distinct dates give distinct texts |
| Dates.IsoExample | Chart-realtime.py:49 | 2021-10-01 prints as `2021-10-01` |
| Tables.Clean | Chart-realtime.py:56-58 | definition: the per-day clean-up, `drop` of the housekeeping columns then `rename` of the timestamp column to `time`; `CleanOutcome`, `CleanColumns` and `CleanRows` state its errors and result |
| Tables.MissingHousekeeping | Chart-realtime.py:56 | the labels `drop` fails on are exactly the housekeeping columns the table lacks; none exactly when all three are there |
| Tables.CleanOutcome | Chart-realtime.py:56-57 | the clean-up fails on a missing housekeeping column, on two `time` columns after the rename, and on none; it succeeds exactly otherwise |
| Tables.CleanColumns | Chart-realtime.py:56-57 | a cleaned table has the file's columns without the housekeeping ones and the timestamp column, plus `time` |
| Tables.CleanRows | Chart-realtime.py:56-57 | a cleaned table has the file's rows in order; `time` holds the renamed timestamp cell, and every other cell is unchanged |
| Tables.CleanRowsKept | Chart-realtime.py:56-57 | when the file already has `time` and no timestamp column, `time` and the other cells are kept as they are |
| Tables.CleanRowsRenamed | Chart-realtime.py:56-57 | when the file has no `time`, the new `time` cell of each row is that row's timestamp cell |
| Tables.CleanedColumns | Chart-static.py:37-38 | a cleaned table has `time` and neither the timestamp column nor any housekeeping column |
| Tables.DropColumns | Chart-realtime.py:56 | `drop` removes exactly the named columns from the labels and from every row |
| Tables.RenameLabels | Chart-realtime.py:57 | renaming a label keeps the labels distinct and swaps one name for the other |
| Tables.RenameColumn | Chart-realtime.py:57 | `rename` swaps the label and the key of every row, and changes nothing else |
| Tables.AppendNew | Chart-static.py:53 | the column union starts with the first labels, stays distinct and holds the labels of both |
| Tables.UnionColumns | Chart-static.py:53 | the labels of `concat` are distinct, include every input's labels and hold no other |
| Tables.Widen | Chart-static.py:53 | a row widened to the union keeps its cells and gets `NaN` for the columns it lacks |
| Tables.ConcatRows | Chart-static.py:53 | `concat` has as many rows as the inputs together, each with exactly the union's columns |
| Tables.Concat | Chart-static.py:53 | `concat` keeps the row count and every input column |
| Tables.ConcatSameColumns | Chart-static.py:53 | when all inputs share their columns, `concat` keeps them and appends the rows unchanged |
| Tables.SameColumnsUnion | Chart-static.py:53 | inputs with the same columns have those columns as their union |
| Tables.SameColumnsRows | Chart-static.py:53 | rows already having the union's columns are not widened |
| Tables.ConcatColumns | Chart-static.py:53 | a column of `concat` is a column of some input, and every input column is there |
| Tables.InsertByTime | Chart-static.py:56 | inserting a row into a time-sorted sequence adds exactly that row and keeps it sorted |
| Tables.SortRowsByTime | Chart-static.py:56 | the sort is a permutation of the rows, sorted by time with missing times last |
| Tables.SortByTime | Chart-static.py:56 | `sort_values('time')` keeps the columns, permutes the rows and sorts them by time |
| Tables.MaxTime | Chart-realtime.py:115 | `max` (also taken at line 132) is an existing timestamp no other timestamp exceeds; `NaT` exactly when every timestamp is missing |
| Tables.MinTime | Chart-realtime.py:114 | `min` is an existing timestamp no other timestamp undercuts; `NaT` exactly when every timestamp is missing |
| Tables.TimedConcat | Chart-realtime.py:96-99 | concatenating tables that all have `time` gives rows that all have a time cell |
| Tables.MissingPrice | Chart-realtime.py:104 | the price print fails with `KeyError` on `low` when the table lacks it, else on `high` when that is missing, and succeeds exactly when both are there |
| Tables.ConcatPrice | Chart-realtime.py:99-104 | the concatenated days lack `low` exactly when no day has it, lack only `high` exactly when some day has `low` and none `high`, and pass exactly when some day has each |
| Loader.FileName | Chart-realtime.py:49-50 | definition: `BTC-USDT-SWAP-candle{timeframe}-{date_str}.csv`; `FileNameShape` states its shape and that the date reads back |
| Loader.JoinPath | Chart-realtime.py:50 | definition: `os.path.join` of the directory and a plain file name, adding `/` unless the directory is empty or already ends with one; an absolute name is taken as it is |
| Loader.FilePath | Chart-realtime.py:50 | definition: the path probed for a day; `FilePathInjective` shows that distinct days give distinct paths |
| Loader.LoadDay | Chart-realtime.py:52-64 | definition: a day whose file is missing yields nothing; a present one yields its clean-up or the clean-up's error; `ProbeMasks` and `ProbeYield` state this |
| Loader.Probe | Chart-realtime.py:52-64 | definition: `LoadDay` for a fixed directory and timeframe, as a function of the day |
| Loader.Walk | Chart-realtime.py:48-66 | definition: the day results in order, stopping at the first error; `WalkTables`, `WalkErr`, `WalkSkips` and `WalkNothing` state what it returns |
| Loader.LoadRange | Chart-realtime.py:45-71 | definition: the walk over the range with `OverflowError` past 9999-12-31 and `ValueError` on no table; `LoadDaysTables` and `NoDataWhenNothingFound` state its result |
| Loader.TimeColumn | Chart-realtime.py:42 | the timestamp column is `timestamp_1s` exactly for timeframe `1s` and `timestamp_1m` otherwise |
| Loader.FileNameShape | Chart-realtime.py:49-50 | the file name is the prefix, the timeframe verbatim, `-`, the zero-padded date and `.csv`, and the date reads back from it |
| Loader.FilePathInjective | Chart-realtime.py:50 | distinct days are probed under distinct paths |
| Loader.FileNameExample | Chart-realtime.py:50 | the 1-minute file of 2021-10-01 is `BTC-USDT-SWAP-candle1m-2021-10-01.csv` |
| Loader.FilePathExample | Chart-realtime.py:50 | that file is probed under `./Data/Storage/BTCUSDTSWAP_candle1m/` |
| Loader.WalkDays | Chart-realtime.py:45-66 | the loop visits exactly the days from start to end in order and collects the day results; on an error it has visited a prefix of the range whose last day failed with that error and whose earlier days all succeeded; it reports the overflow past 9999-12-31 and the skipped days |
| Loader.LoadDays | Chart-realtime.py:45-66 | definition: the walk of the loop over given days with the day probe; `LoadDaysTables`, `MissingDaySkipped` and `LoadedColumns` state what it returns |
| Loader.DayStep | Chart-realtime.py:48-66 | one iteration extends the visited days by the next day of the range, and the step to the next date stays in the range or leaves it |
| Loader.LoadDateRange | Chart-realtime.py:22-71 | the loader returns `LoadRange`: the tables of the present days, or the first bad file, `OverflowError` or `ValueError`; it visits the whole range unless a file fails, and then stops at that file with every earlier day loaded or skipped; it warns exactly on the missing days it visited |
| Loader.SkippedAreMissing | Chart-realtime.py:52-64 | the days the loop skips are exactly the days whose file is missing |
| Loader.WalkPrefixErr | Chart-realtime.py:54-57 | a failure on some day is the failure of the whole load |
| Loader.WalkTables | Chart-realtime.py:62 | a successful walk returns one table per yielding day, in day order |
| Loader.WalkErr | Chart-realtime.py:54-57 | the walk fails exactly when some day fails, and with the first failing day's error |
| Loader.WalkSkips | Chart-realtime.py:63-64 | a day that yields nothing leaves the rest of the walk unchanged |
| Loader.WalkNothing | Chart-realtime.py:63-64 | days that all yield nothing walk to no table and no error |
| Loader.ProbeMasks | Chart-realtime.py:52 | a day yields a table or an error exactly when its file exists |
| Loader.PresentDaysYield | Chart-realtime.py:52 | the days whose file exists are the days that yield a table or an error |
| Loader.ProbeYield | Chart-realtime.py:52-62 | a day that yields a table has its file, and the table is that file cleaned up |
| Loader.LoadDaysTables | Chart-realtime.py:45-71 | a successful load returns one table per present day, in day order, each the clean-up of that day's file |
| Loader.MissingDaySkipped | Chart-realtime.py:63-64 | a missing day changes nothing: the later days load as if it were not in the range |
| Loader.NoDataWhenNothingFound | Chart-realtime.py:68-69 | `ValueError` is raised exactly when no day of the range has a file and the walk does not run past 9999-12-31 |
| Loader.EmptyRangeNoData | Chart-static.py:49-50 | a start after the end raises `ValueError` |
| Loader.LoadedColumns | Chart-realtime.py:56-57 | every loaded table has `time` and has lost the housekeeping columns and the timestamp column |
| Loader.LoadRangeColumns | Chart-realtime.py:56-71 | a successful load returns at least one table, each with `time` and without the dropped columns |
| Loader.DayTableColumns | Chart-realtime.py:56-57 | a day's table has `time` and none of the dropped columns |
| Markers.KindOf | Chart-realtime.py:137-159 | definition: `open` is an entry, long on `BUY`; any other role is an exit, closing a long on `SELL`; `KindCases` states all four cases |
| Markers.LabelText | Chart-realtime.py:145 | definition: the words, `.2f` quantity, `@` and `.1f` price; `LabelRoundTrip` shows it reads back |
| Markers.MarkerOf | Chart-realtime.py:137-176 | definition: the arguments of `chart.marker` for a fill; `MarkerStyle` states them kind by kind |
| Markers.KindCases | Chart-realtime.py:137-176 | each of the four kinds of trade holds exactly for its combination of role and side, over all strings |
| Markers.MarkerStyle | Chart-realtime.py:137-176 | each kind of trade is drawn at the fill's time with its position, shape, colour and text |
| Markers.ExitsAreCircles | Chart-realtime.py:158-176 | a marker is a circle exactly when the role is not `open`, and an up arrow exactly for `open` with `BUY` |
| Markers.ColorIdentifiesKind | Chart-realtime.py:144-174 | derived from `MarkerStyle`: two kinds have the same colour exactly when they are the same kind |
| Markers.PositionFollowsKind | Chart-realtime.py:140-175 | derived from `MarkerStyle`: a marker sits below the candle exactly for `open` with `BUY` and for a non-`open` role without `SELL` |
| Markers.NatText | Chart-realtime.py:145 | the decimal text of a natural number is non-empty and all digits |
| Markers.NatTextRoundTrip | Chart-realtime.py:145 | reading the decimal text back gives the number |
| Markers.Fixed2 | Chart-realtime.py:145 | the `.2f` text holds neither `@` nor a space |
| Markers.Fixed1 | Chart-realtime.py:145 | the `.1f` text holds neither `@` nor a space |
| Markers.Fixed2RoundTrip | Chart-realtime.py:145 | reading the `.2f` text back gives the quantity in hundredths |
| Markers.Fixed1RoundTrip | Chart-realtime.py:145 | reading the `.1f` text back gives the price in tenths |
| Markers.LabelRoundTrip | Chart-realtime.py:145 | every marker text (here and at lines 154, 166 and 175) splits back into its words, quantity and price, whatever the exit tag holds |
| Markers.LongLabelExample | Chart-realtime.py:145 | a long entry of 1.00 at 100.0 is labelled exactly `LONG 1.00@100.0` |
| Markers.ShortLabelExample | Chart-realtime.py:154 | a short entry of 2.50 at 47.5 is labelled exactly `SHORT 2.50@47.5` |
| Markers.ExitLongLabelExample | Chart-realtime.py:166 | a `SELL` exit tagged `tp1` of 0.05 at 1234.5 is labelled exactly `EXIT tp1 0.05@1234.5` |
| Markers.ExitShortLabelExample | Chart-realtime.py:175 | a `BUY` exit tagged `sl` of 12.34 at 0.9 is labelled exactly `EXIT sl 12.34@0.9` |
| Markers.NegativeExamples | Chart-realtime.py:145 | a negative amount keeps its sign in front: `-1.50` and `-0.5` |
| Fills.Window | Chart-realtime.py:116 | definition: the fills with `start_time <= time <= end_time`; `WindowMembers` states what it keeps |
| Fills.InitialFills | Chart-realtime.py:133 | definition: the fills with `time <= df1_max_time`; `SplitPartition` and `SplitOfWindow` state the split |
| Fills.ReplayFills | Chart-realtime.py:183 | definition: the fills with `time > df1_max_time`; `SplitPartition` and `SplitOfWindow` state the split |
| Fills.FillsAt | Chart-realtime.py:197 | definition: the fills with `time == current_time`; `FillsAtMembers` states what it keeps |
| Fills.WindowMembers | Chart-realtime.py:114-116 | the window keeps exactly the fills with `start <= time <= end`, bounds included, and nothing when a bound is `NaT` |
| Fills.MaskMembers | Chart-realtime.py:116 | a fill mask keeps exactly the fills that satisfy it |
| Fills.WindowIdempotent | Chart-realtime.py:116 | filtering the window again changes nothing |
| Fills.WindowKeepsOrder | Chart-realtime.py:116 | the window keeps file order across any split of the history |
| Fills.SplitPartition | Chart-realtime.py:132-133 | the initial fills and the replay fills of line 183 are disjoint, and together they are the fills (as a multiset) when the boundary is a time |
| Fills.SplitOfWindow | Chart-realtime.py:116-133 | the initial fills are the window fills up to the boundary, and the replay fills of line 183 are those after it |
| Fills.FillsAtMembers | Chart-realtime.py:197 | the lookup keeps exactly the fills at the candle's time, and nothing for a `NaT` candle |
| Fills.ReplayLookupComplete | Chart-realtime.py:197 | for a candle after the boundary, the replay fills at its time are all the fills at its time |
| Fills.ReplayLookupEmpty | Chart-realtime.py:197 | for a candle up to the boundary, the replay holds no fill at its time |
| Widget.Chart.constructor | Chart-realtime.py:79 | a new chart is open and has been sent nothing |
| Widget.Chart.Set | Chart-realtime.py:121 | `set` appends the table to the log |
| Widget.Chart.Legend | Chart-realtime.py:124-129 | `legend` appends the legend call to the log |
| Widget.Chart.AddMarker | Chart-realtime.py:140-146 | `marker` appends the marker to the log |
| Widget.Chart.ShowWindow | Chart-realtime.py:179 | `show` appends the show call to the log |
| Widget.Chart.UpdateBar | Chart-realtime.py:193 | `update` appends the candle to the log |
| Widget.Chart.Close | Chart-realtime.py:188 | the user closing the window makes it not alive and sends nothing |
| ChartRealtime.MarkEvents | Chart-realtime.py:135-176 | definition: one marker call per fill, in order; `MarkEventsProject` states what it draws |
| ChartRealtime.CandleEvents | Chart-realtime.py:193-241 | definition: the push of one candle, then the marker calls of the fills at its time; `CandleProject` states what it draws |
| ChartRealtime.ReplayEvents | Chart-realtime.py:186-241 | definition: the calls of the first `n` candles, candle after candle; `ReplayUpdates`, `ReplayMarkers` and `ReplayPrefix` state what they are |
| ChartRealtime.MarkersOfMembers | Chart-realtime.py:135-176 | a marker is drawn for the fills exactly when some fill calls for it |
| ChartRealtime.MarkEventsProject | Chart-realtime.py:135-176 | the marker loop places the markers of the fills in order and pushes no candle |
| ChartRealtime.AddMarkers | Chart-realtime.py:135-176 | the loop appends one marker call per fill, in order, and leaves the window state alone |
| ChartRealtime.FirstClosed | Chart-realtime.py:186-191 | the stopping index is the first candle at which the window is closed, or the end |
| ChartRealtime.Replay | Chart-realtime.py:185-244 | the replay pushes candles up to the first closed check, each followed by the markers at its time; it reports `window_closed` exactly when it stopped early |
| ChartRealtime.ReplayUpdates | Chart-realtime.py:186-193 | the replay pushes exactly the first `n` candles, in order |
| ChartRealtime.CandleProject | Chart-realtime.py:193-241 | one candle's calls push that candle and mark the fills at its time |
| ChartRealtime.ReplayMarkers | Chart-realtime.py:193-241 | the replay places the markers of the fills at the replayed candles' times, candle after candle |
| ChartRealtime.ReplayedFillsMembers | Chart-realtime.py:196-207 | the replay marks exactly the fills whose time equals a replayed candle's time |
| ChartRealtime.ReplayPrefix | Chart-realtime.py:186-191 | a replay cut short made the same calls as a longer one, up to where it stopped |
| ChartRealtime.SetupProject | Chart-realtime.py:121-179 | before the replay, the script places the markers of the initial fills and pushes no candle |
| ChartRealtime.SessionProject | Chart-realtime.py:121-244 | a session places the initial markers, then the replayed ones, and pushes the replayed candles in order |
| ChartRealtime.SessionPrefix | Chart-realtime.py:185-191 | a session cut short is a prefix of a longer one |
| ChartRealtime.WindowOf | Chart-realtime.py:114-116 | definition: the fills between the first and last candle time of all days; `WindowMembers` states what it keeps |
| ChartRealtime.Boundary | Chart-realtime.py:132 | definition: the last candle time of the first day, `NaT` when it has none |
| ChartRealtime.RunLog | Chart-realtime.py:121-244 | definition: the calls of a drawing and a replay stopped after `n` candles; `RunMarkers`, `DrawnFillsMembers`, `RunUpdates` and `RunPrefix` state what they are |
| ChartRealtime.Remaining | Chart-realtime.py:96 | the candles for the live updates all have a time cell |
| ChartRealtime.ConfiguredDays | Chart-realtime.py:82-83 | the configured range visits exactly 2021-10-01 and 2021-10-02 |
| ChartRealtime.Present | Chart-realtime.py:93-244 | on a fresh chart, day tables that pass the price print of line 104 and a readable fill history, drawing and replaying leaves `RunLog`, with the replay stopped at the first closed check; the chart stays open exactly when the replay was not cut short |
| ChartRealtime.Run | Chart-realtime.py:78-244 | the configured 2021-10-01 to 2021-10-02 range is loaded; a load error, fewer than two day tables, days without `low` or `high`, or an unreadable fill history stop the script with nothing drawn; otherwise the chart's log is `RunLog` up to the first closed check, and the chart stays open exactly when the replay was not cut short |
| ChartRealtime.RunMarkers | Chart-realtime.py:131-241 | the markers of a run are those of the drawn fills, in order |
| ChartRealtime.DrawnFillsMembers | Chart-realtime.py:114-197 | a run marks exactly the window fills up to the boundary or exactly at a replayed candle's time |
| ChartRealtime.RunUpdates | Chart-realtime.py:121-193 | a run first sets the first day's table, then pushes the later candles in order up to where it stopped |
| ChartRealtime.RunPrefix | Chart-realtime.py:185-191 | a run the user cut short made the same calls as the complete run, up to where it stopped |
| ChartStatic.Combined | Chart-static.py:53-56 | definition: the day tables concatenated and sorted by time; `LoadedTable`, `CombinedColumns` and `CombinedSameColumns` state what it holds |
| ChartStatic.CombinedSameColumns | Chart-static.py:53-56 | when the day files share their columns, the combined table has them, and its rows are the loaded rows reordered |
| ChartStatic.CombinedColumns | Chart-static.py:53 | a column of the combined table comes from some day table, and every day table's columns are there |
| ChartStatic.LoadDateRange | Chart-static.py:7-58 | the static loader returns the load's error, or the day tables concatenated and sorted by time; it visits the range and warns on the missing days |
| ChartStatic.LoadedTable | Chart-static.py:25-58 | the loaded table has `time` and none of the dropped columns, has as many rows as the day files together as a permutation of their concatenation, and is sorted by time |
| ChartStatic.CombinedPrice | Chart-static.py:77 | the combined table lacks `low` exactly when no day table has it, and passes the price print exactly when some day has `low` and some day has `high` |
| ChartStatic.Display | Chart-static.py:61-81 | the script opens a chart; on a load error, or a loaded table without `low` or `high` (line 77), it sends nothing; otherwise it sets the loaded table and shows the window |

## Left out

- Reading the disk: `os.path.exists` and `pd.read_csv` are a map from path to table. Only the keys decide presence, and the table is what the CSV would parse to.
- `datetime.strptime` on the date strings: both scripts pass fixed, valid dates, so the model takes `Date` values.
- `pd.to_datetime` and the timezone stripping (Chart-realtime.py:58-61, 108-111; Chart-static.py:39-42): timestamps are integers that are already naive.
- Floating point: prices, quantities and timestamps are integers. `qty` is in hundredths and `price` in tenths, the precision the marker text prints.
- Markers.Fixed2: does not model Python's rounding of a float to two decimals; the value is already a count of hundredths.
- Markers.Fixed1: does not model Python's rounding of a float to one decimal; the value is already a count of tenths.
- Dates.IsoFormat: always pads the year to four digits. The platform's `strftime('%Y')` may print years below 1000 without padding.
- Tables.SortByTime: does not fix the order of rows with equal times, because pandas' default sort is not stable.
- Tables.ConcatRows: does not state the order of the concatenated rows beyond their number and columns. `ConcatSameColumns` states it for tables that share their columns, which the day files do.
- Console output is not modelled, apart from the warned days and the failures below:
  - the `Loading`, `Warning`, `[LIVE]` and summary prints;
  - the text of the price-range prints (Chart-static.py:75-77, Chart-realtime.py:101-104, 118). Their `KeyError` on a table without `low` or `high` is modelled (`MissingPrice`).
- ChartRealtime.Present: requires day tables that have `low` and `high` between them; the source raises `KeyError` at line 104 otherwise, and `Run` models that failure. It also takes the fill history as read, with the columns `ts`, `side`, `role`, `qty`, `price` and `tag`.
- ChartRealtime.Run: the fill history is a parameter, `None` when `./fill_historys.csv` is missing (`FileNotFoundError` at Chart-realtime.py:107) or has no `ts` column (`KeyError` at line 108). Either is caught at line 256 with nothing drawn, which `Run` models as `HistoryUnreadable`.
- ChartRealtime.Run: a history file without `role`, `side`, `qty` or `price` is assumed away. In the source, every fill reads these four, so the first fill the loops of lines 135-176 or 207-241 reach raises `KeyError`. By then `SetData` and `ShowLegend` have been sent, and no marker has been drawn. When neither loop reaches a fill, nothing is raised.
- ChartRealtime.Run: a history file without `tag` is assumed away. In the source, only exit fills read `tag` (lines 166, 175, 232 and 240), so the first exit fill reached raises `KeyError`, after the markers of the entry fills before it were drawn. When no exit fill is reached, nothing is raised.
- ChartRealtime.Run: fill roles are strings, so a missing role cell (`NaN`) cannot occur. In the source, `trade['role'].upper()` in the `[LIVE]` print (Chart-realtime.py:242) then raises `AttributeError`, which ends the replay after that fill's marker.
- ChartRealtime.Replay: the same missing-role `AttributeError` at Chart-realtime.py:242 is not modelled; the replay only stops when the window is closed or the candles run out.
- ChartStatic.Display: the `KeyError` at Chart-static.py:77 is an outcome of the model, not an uncaught traceback.
- Widget internals: what the chart draws from the calls, `show_async`, and `exit`.
- `sleep(0.05)` and `asyncio.run(chart.show_async())`.
- The SIGINT handler (Chart-realtime.py:11-19) and `KeyboardInterrupt`.
- The check that an exception's name or message says "disposed" (Chart-realtime.py:198-205, 256-261). A closed window is modelled only through the `closes` oracle read at the top of each replay step.
- The exit status: the `finally` block's `os._exit(0)` replaces the `sys.exit(1)` of the fewer-than-two-days guard, so the model reports the outcome (`TooFewDays`) without an exit code.
- NaN fill times: fill times are integers. Candle times may be missing (`NaN`), and such a candle matches no fill.
