/** The static chart script: every 1-minute day file of a date range combined
    into one table sorted by time, set on a chart and shown. */
module ChartStatic {
  import opened Prelude
  import opened Dates
  import opened Tables
  import opened Loader
  import opened Widget

  /** The static loader reads 1-minute files only: its file name prefix
      `BTC-USDT-SWAP-candle1m-` and its time column `timestamp_1m` are those of
      the shared loader's `1m` timeframe. */
  const Timeframe := "1m"

  /** The range the script draws. */
  const StartDate := Date(2021, 10, 1)
  const EndDate := Date(2021, 10, 3)

  /** `pd.concat(dfs, ignore_index=True).sort_values('time').reset_index(drop=True)`
      on the loaded day tables. */
  function Combined(ts: seq<Table>): Table
    requires Timed(ts) && |ts| > 0
  {
    assert Time in ColumnSet(ts[0].columns);
    SortByTime(Concat(ts))
  }

  /** When the day files share their columns, the combined table has those
      columns and its rows are exactly the loaded rows, reordered. */
  lemma CombinedSameColumns(ts: seq<Table>, cols: seq<string>)
    requires Timed(ts) && |ts| > 0
    requires forall i :: 0 <= i < |ts| ==> ts[i].columns == cols
    ensures Combined(ts).columns == cols
    ensures multiset(Combined(ts).rows) == multiset(AllRows(ts))
  {
    ConcatSameColumns(ts, cols);
  }

  /** A column of the combined table is a column of some day table, and every
      column of every day table is there. */
  lemma CombinedColumns(ts: seq<Table>, c: string)
    requires Timed(ts) && |ts| > 0
    ensures c in Combined(ts).columns <==> exists i :: 0 <= i < |ts| && c in ts[i].columns
  {
    ConcatColumns(ts, c);
  }

  /** `load_date_range(start_date, end_date, data_dir)`: the day-by-day load of
      the 1-minute files, then the tables combined and sorted. Errors are those
      of the shared loader. */
  method LoadDateRange(fs: FileSystem, dataDir: string, start: Date, end: Date)
    returns (r: Result<Table, LoadError>, visited: seq<Date>, warned: seq<Date>)
    requires Valid(start) && Valid(end)
    ensures var loaded := LoadRange(fs, dataDir, Timeframe, start, end);
      && (loaded.Err? ==> r == Err(loaded.error))
      && (loaded.Ok? ==> Timed(loaded.value) && |loaded.value| > 0 && r == Ok(Combined(loaded.value)))
    ensures !(r.Err? && r.error.BadFile?) ==> visited == DayRange(start, end)
    ensures warned == MissingDays(fs, dataDir, Timeframe, visited)
  {
    var loaded;
    loaded, visited, warned := Loader.LoadDateRange(fs, dataDir, Timeframe, start, end);
    if loaded.Err? {
      r := Err(loaded.error);
      return;
    }
    LoadRangeColumns(fs, dataDir, Timeframe, start, end);
    var combined := Concat(loaded.value);
    assert Time in ColumnSet(loaded.value[0].columns);
    r := Ok(SortByTime(combined));
  }

  /** What a successful static load returns: a table with a `time` column and
      without the housekeeping columns or `timestamp_1m`, holding as many rows
      as the day files together, sorted by time. */
  lemma LoadedTable(fs: FileSystem, dataDir: string, start: Date, end: Date)
    requires Valid(start) && Valid(end)
    requires LoadRange(fs, dataDir, Timeframe, start, end).Ok?
    ensures var ts := LoadRange(fs, dataDir, Timeframe, start, end).value;
      Timed(ts) && |ts| > 0 &&
      var r := Combined(ts);
      && Time in r.columns
      && "timestamp_1m" !in r.columns
      && (forall i :: 0 <= i < |Housekeeping| ==> Housekeeping[i] !in r.columns)
      && r.columns == UnionColumns(ts)
      && |r.rows| == RowCount(ts)
      && multiset(r.rows) == multiset(ConcatRows(ts, UnionColumns(ts)))
      && HasTime(r.rows) && SortedByTime(r.rows)
  {
    var ts := LoadRange(fs, dataDir, Timeframe, start, end).value;
    LoadRangeColumns(fs, dataDir, Timeframe, start, end);
    assert TimeColumn(Timeframe) == "timestamp_1m";
    CombinedColumns(ts, Time);
    CombinedColumns(ts, "timestamp_1m");
    forall i | 0 <= i < |Housekeeping| ensures Housekeeping[i] !in Combined(ts).columns {
      CombinedColumns(ts, Housekeeping[i]);
    }
  }

  /** The combined table lacks a price column exactly when no day table has
      it, so the price print fails only on day files without `low` or `high`. */
  lemma CombinedPrice(ts: seq<Table>)
    requires Timed(ts) && |ts| > 0
    ensures MissingPrice(Combined(ts)) == Some(Low) <==> forall i :: 0 <= i < |ts| ==> Low !in ts[i].columns
    ensures MissingPrice(Combined(ts)).None? <==>
      (exists i :: 0 <= i < |ts| && Low in ts[i].columns) && (exists i :: 0 <= i < |ts| && High in ts[i].columns)
  {
    CombinedColumns(ts, Low);
    CombinedColumns(ts, High);
  }

  /** How the script ends. */
  datatype Outcome =
    | LoadFailed(error: LoadError)       // `load_date_range` raised
    | PriceColumnMissing(column: string)  // the price print raised `KeyError`
    | Shown(table: Table)                // the table was set and the window shown

  /** The script: create the chart, load 2021-10-01 to 2021-10-03 from the
      default directory, print the price range, set the table and show the
      window. A load error, or a table without `low` or `high`, ends the script
      with an uncaught exception before anything is sent to the chart. */
  method Display(fs: FileSystem) returns (outcome: Outcome, chart: Chart)
    ensures fresh(chart) && chart.alive
    ensures var loaded := LoadRange(fs, DefaultDataDir, Timeframe, StartDate, EndDate);
      && (loaded.Err? ==> outcome == LoadFailed(loaded.error) && chart.log == [])
      && (loaded.Ok? ==>
            && Timed(loaded.value) && |loaded.value| > 0
            && var df := Combined(loaded.value);
               && (MissingPrice(df).Some? ==> outcome == PriceColumnMissing(MissingPrice(df).value) && chart.log == [])
               && (MissingPrice(df).None? ==> outcome == Shown(df) && chart.log == [SetData(df.rows), Show]))
  {
    chart := new Chart();
    var r, visited, warned := LoadDateRange(fs, DefaultDataDir, StartDate, EndDate);
    if r.Err? {
      outcome := LoadFailed(r.error);
      return;
    }
    var df := r.value;
    var missing := MissingPrice(df);
    if missing.Some? {
      outcome := PriceColumnMissing(missing.value);
      return;
    }
    chart.Set(df.rows);
    chart.ShowWindow();
    outcome := Shown(df);
  }
}
