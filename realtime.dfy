/** The realtime script: load the configured days, draw the first day with the
    markers of its fills, then replay the later candles one by one, marking the
    fills at each candle's time, until the candles run out or the user closes
    the window. */
module ChartRealtime {
  import opened Prelude
  import opened Dates
  import opened Tables
  import opened Loader
  import opened Markers
  import opened Fills
  import opened Widget

  /** Lines 82-83: the date range the script is configured with. */
  const StartDate := Date(2021, 10, 1)
  const EndDate := Date(2021, 10, 2)

  /** The configured range visits two days. */
  lemma ConfiguredDays()
    ensures DayRange(StartDate, EndDate) == [StartDate, EndDate]
  {
    var next := NextDay(StartDate);
    assert next == Some(EndDate);
    assert DayRange(EndDate, EndDate) == [EndDate];
  }

  /** How a run of the script ends. */
  datatype Outcome =
    | LoadFailed(error: LoadError)              // the loader raised; the error is reported
    | TooFewDays(days: nat)                     // fewer than two day tables: `sys.exit(1)`
    | PriceColumnMissing(column: string)         // the price print raised `KeyError`; the error is reported
    | HistoryUnreadable                         // the fill history is missing or has no `ts`; the error is reported
    | Replayed(pushed: nat, windowClosed: bool) // `pushed` candles replayed; `window_closed`

  // ---------------------------------------------------------------------------
  // Markers

  /** The calls of the marker loop over `fills`: one marker per fill, in order. */
  function MarkEvents(fills: seq<Fill>): seq<Event>
  {
    seq(|fills|, i requires 0 <= i < |fills| => Mark(MarkerOf(fills[i])))
  }

  /** The markers of `fills`, in order. */
  function MarkersOf(fills: seq<Fill>): seq<Marker>
  {
    seq(|fills|, i requires 0 <= i < |fills| => MarkerOf(fills[i]))
  }

  /** A marker is among those of `fills` exactly when some fill of `fills` calls for it. */
  lemma MarkersOfMembers(fills: seq<Fill>)
    ensures forall m :: m in MarkersOf(fills) <==> exists f :: f in fills && m == MarkerOf(f)
  {
    var ms := MarkersOf(fills);
    forall m | m in ms ensures exists f :: f in fills && m == MarkerOf(f) {
      var i :| 0 <= i < |ms| && ms[i] == m;
      assert fills[i] in fills;
    }
    forall f | f in fills ensures MarkerOf(f) in ms {
      var i :| 0 <= i < |fills| && fills[i] == f;
      assert ms[i] == MarkerOf(f);
    }
  }

  lemma MarkersOfAppend(a: seq<Fill>, b: seq<Fill>)
    ensures MarkersOf(a + b) == MarkersOf(a) + MarkersOf(b)
  {
    assert forall i :: 0 <= i < |a + b| ==> (a + b)[i] == if i < |a| then a[i] else b[i - |a|];
  }

  /** The marker loop places the markers of `fills` and pushes no bar. */
  lemma {:induction false} MarkEventsProject(fills: seq<Fill>)
    ensures MarkersIn(MarkEvents(fills)) == MarkersOf(fills)
    ensures UpdatesIn(MarkEvents(fills)) == []
  {
    if fills != [] {
      var init := fills[..|fills| - 1];
      var last := fills[|fills| - 1];
      assert MarkEvents(fills) == MarkEvents(init) + [Mark(MarkerOf(last))];
      assert MarkersOf(fills) == MarkersOf(init) + [MarkerOf(last)];
      MarkEventsProject(init);
      ProjectAppend(MarkEvents(init), [Mark(MarkerOf(last))]);
      ProjectSingle(Mark(MarkerOf(last)));
    }
  }

  /** Lines 135-176 and 207-241: place the marker of every fill of `fills`. */
  method AddMarkers(chart: Chart, fills: seq<Fill>)
    modifies chart
    ensures chart.log == old(chart.log) + MarkEvents(fills)
    ensures chart.alive == old(chart.alive)
  {
    var i := 0;
    while i < |fills|
      invariant 0 <= i <= |fills|
      invariant chart.log == old(chart.log) + MarkEvents(fills[..i])
      invariant chart.alive == old(chart.alive)
    {
      chart.AddMarker(MarkerOf(fills[i]));
      assert MarkEvents(fills[..i + 1]) == MarkEvents(fills[..i]) + [Mark(MarkerOf(fills[i]))];
      i := i + 1;
    }
    assert fills[..i] == fills;
  }

  // ---------------------------------------------------------------------------
  // The replay

  /** The calls for one replayed candle: push it, then mark the fills at its time. */
  function CandleEvents(row: Row, fills: seq<Fill>): seq<Event>
    requires Time in row
  {
    [Update(row)] + MarkEvents(FillsAt(fills, row[Time]))
  }

  /** The calls of replaying the first `n` candles of `rows` against `fills`. */
  function ReplayEvents(rows: seq<Row>, fills: seq<Fill>, n: nat): seq<Event>
    requires HasTime(rows) && n <= |rows|
  {
    if n == 0 then [] else ReplayEvents(rows, fills, n - 1) + CandleEvents(rows[n - 1], fills)
  }

  /** The index at which the window is first found closed, from candle `from`
      on; `len` when it stays open. */
  function FirstClosed(closes: nat -> bool, from: nat, len: nat): (r: nat)
    requires from <= len
    ensures from <= r <= len
    ensures forall k :: from <= k < r ==> !closes(k)
    ensures r < len ==> closes(r)
    decreases len - from
  {
    if from == len then len
    else if closes(from) then from
    else FirstClosed(closes, from + 1, len)
  }

  /** Lines 185-244: for each candle of `rows` in turn, stop if the window is
      closed, otherwise push the candle and mark the fills at its time.
      `closes(i)` says whether the user has closed the window by the time
      candle `i` is reached. */
  method Replay(chart: Chart, rows: seq<Row>, fills: seq<Fill>, closes: nat -> bool)
    returns (windowClosed: bool, pushed: nat)
    requires HasTime(rows)
    modifies chart
    ensures pushed == (if old(chart.alive) then FirstClosed(closes, 0, |rows|) else 0)
    ensures windowClosed <==> pushed < |rows|
    ensures chart.log == old(chart.log) + ReplayEvents(rows, fills, pushed)
    ensures chart.alive <==> old(chart.alive) && !windowClosed
  {
    windowClosed := false;
    var i := 0;
    while i < |rows|
      invariant 0 <= i <= |rows|
      invariant chart.log == old(chart.log) + ReplayEvents(rows, fills, i)
      invariant chart.alive == old(chart.alive)
      invariant !chart.alive ==> i == 0
      invariant chart.alive ==> FirstClosed(closes, i, |rows|) == FirstClosed(closes, 0, |rows|)
    {
      if closes(i) {
        chart.Close();
      }
      if !chart.alive {
        windowClosed := true;
        break;
      }
      chart.UpdateBar(rows[i]);
      AddMarkers(chart, FillsAt(fills, rows[i][Time]));
      ReplayStep(rows, fills, i + 1);
      Associate(old(chart.log), ReplayEvents(rows, fills, i), [Update(rows[i])], MarkEvents(FillsAt(fills, rows[i][Time])));
      assert CandleEvents(rows[i], fills) == [Update(rows[i])] + MarkEvents(FillsAt(fills, rows[i][Time]));
      i := i + 1;
    }
    pushed := i;
  }

  /** One more replayed candle appends its calls to the log. */
  lemma ReplayStep(rows: seq<Row>, fills: seq<Fill>, n: nat)
    requires HasTime(rows) && 0 < n <= |rows|
    ensures ReplayEvents(rows, fills, n) == ReplayEvents(rows, fills, n - 1) + CandleEvents(rows[n - 1], fills)
  {
  }

  lemma Associate<T>(a: seq<T>, b: seq<T>, c: seq<T>, d: seq<T>)
    ensures a + (b + (c + d)) == a + b + c + d
  {
  }

  /** The candles are pushed in order, each once, and nothing else is pushed. */
  lemma {:induction false} ReplayUpdates(rows: seq<Row>, fills: seq<Fill>, n: nat)
    requires HasTime(rows) && n <= |rows|
    ensures UpdatesIn(ReplayEvents(rows, fills, n)) == rows[..n]
  {
    if n > 0 {
      var m := n - 1;
      ReplayStep(rows, fills, n);
      ReplayUpdates(rows, fills, m);
      CandleProject(rows[m], fills);
      TakeSnoc(rows, n);
      UpdatesStep(ReplayEvents(rows, fills, m), CandleEvents(rows[m], fills), rows[..m], rows[m]);
    }
  }

  /** The inductive step of `ReplayUpdates`, on plain sequences. */
  lemma UpdatesStep(before: seq<Event>, candle: seq<Event>, pushed: seq<Row>, row: Row)
    requires UpdatesIn(before) == pushed && UpdatesIn(candle) == [row]
    ensures UpdatesIn(before + candle) == pushed + [row]
  {
    ProjectAppend(before, candle);
  }

  /** One candle's calls push that candle and mark the fills at its time. */
  lemma CandleProject(row: Row, fills: seq<Fill>)
    requires Time in row
    ensures UpdatesIn(CandleEvents(row, fills)) == [row]
    ensures MarkersIn(CandleEvents(row, fills)) == MarkersOf(FillsAt(fills, row[Time]))
  {
    var at := FillsAt(fills, row[Time]);
    assert CandleEvents(row, fills) == [Update(row)] + MarkEvents(at);
    ProjectAppend([Update(row)], MarkEvents(at));
    ProjectSingle(Update(row));
    MarkEventsProject(at);
  }

  /** A prefix one longer is the shorter prefix and the next element. */
  lemma TakeSnoc<T>(s: seq<T>, n: nat)
    requires 0 < n <= |s|
    ensures s[..n] == s[..n - 1] + [s[n - 1]]
  {
  }

  /** The fills the replay of the first `n` candles marks, candle after candle,
      each candle's in fill order. */
  function ReplayedFills(rows: seq<Row>, fills: seq<Fill>, n: nat): seq<Fill>
    requires HasTime(rows) && n <= |rows|
  {
    if n == 0 then [] else ReplayedFills(rows, fills, n - 1) + FillsAt(fills, rows[n - 1][Time])
  }

  /** The replay places the markers of the replayed fills, in that order. */
  lemma {:induction false} ReplayMarkers(rows: seq<Row>, fills: seq<Fill>, n: nat)
    requires HasTime(rows) && n <= |rows|
    ensures MarkersIn(ReplayEvents(rows, fills, n)) == MarkersOf(ReplayedFills(rows, fills, n))
  {
    if n > 0 {
      var m := n - 1;
      var at := FillsAt(fills, rows[m][Time]);
      ReplayStep(rows, fills, n);
      assert ReplayedFills(rows, fills, n) == ReplayedFills(rows, fills, m) + at;
      ReplayMarkers(rows, fills, m);
      CandleProject(rows[m], fills);
      MarkersStep(ReplayEvents(rows, fills, m), CandleEvents(rows[m], fills), ReplayedFills(rows, fills, m), at);
    }
  }

  /** The inductive step of `ReplayMarkers`, on plain sequences. */
  lemma MarkersStep(before: seq<Event>, candle: seq<Event>, marked: seq<Fill>, at: seq<Fill>)
    requires MarkersIn(before) == MarkersOf(marked) && MarkersIn(candle) == MarkersOf(at)
    ensures MarkersIn(before + candle) == MarkersOf(marked + at)
  {
    ProjectAppend(before, candle);
    MarkersOfAppend(marked, at);
  }

  /** The replay marks exactly the fills whose time is that of a replayed
      candle; a fill between two candle times is never marked. */
  lemma {:induction false} ReplayedFillsMembers(rows: seq<Row>, fills: seq<Fill>, n: nat)
    requires HasTime(rows) && n <= |rows|
    ensures forall f :: f in ReplayedFills(rows, fills, n) <==>
      f in fills && exists k :: 0 <= k < n && rows[k][Time] == Num(f.time)
  {
    if n > 0 {
      var m := n - 1;
      var at := FillsAt(fills, rows[m][Time]);
      assert ReplayedFills(rows, fills, n) == ReplayedFills(rows, fills, m) + at;
      ReplayedFillsMembers(rows, fills, m);
      FillsAtMembers(fills, rows[m][Time]);
      forall f | f in fills && (exists k :: 0 <= k < n && rows[k][Time] == Num(f.time))
        ensures f in ReplayedFills(rows, fills, n)
      {
        var k :| 0 <= k < n && rows[k][Time] == Num(f.time);
        if k < m {
          assert f in ReplayedFills(rows, fills, m);
        } else {
          assert f in at;
        }
      }
    }
  }

  /** Replaying fewer candles gives a prefix of the calls: a replay the user cut
      short made the same calls as a complete one, up to where it stopped. */
  lemma {:induction false} ReplayPrefix(rows: seq<Row>, fills: seq<Fill>, k: nat, n: nat)
    requires HasTime(rows) && k <= n <= |rows|
    ensures |ReplayEvents(rows, fills, k)| <= |ReplayEvents(rows, fills, n)|
    ensures ReplayEvents(rows, fills, n)[..|ReplayEvents(rows, fills, k)|] == ReplayEvents(rows, fills, k)
  {
    if k < n {
      var m := n - 1;
      ReplayPrefix(rows, fills, k, m);
      ReplayStep(rows, fills, n);
      PrefixOfLonger(ReplayEvents(rows, fills, k), ReplayEvents(rows, fills, m), CandleEvents(rows[m], fills));
    }
  }

  /** A prefix of `b` is a prefix of `b + c`. */
  lemma PrefixOfLonger<T>(a: seq<T>, b: seq<T>, c: seq<T>)
    requires |a| <= |b| && b[..|a|] == a
    ensures |a| <= |b + c| && (b + c)[..|a|] == a
  {
    assert (b + c)[..|a|] == b[..|a|];
  }

  /** The calls of a session on the chart: the first day's candles, the
      legend, the markers of `initial`, the window shown, then the replay of
      the first `n` candles of `rows` against `replay`. */
  function SessionEvents(first: seq<Row>, initial: seq<Fill>, rows: seq<Row>, replay: seq<Fill>, n: nat): seq<Event>
    requires HasTime(rows) && n <= |rows|
  {
    [SetData(first), ShowLegend] + MarkEvents(initial) + [Show] + ReplayEvents(rows, replay, n)
  }

  /** The calls before the replay place the markers of `initial` and push no bar. */
  lemma SetupProject(first: seq<Row>, initial: seq<Fill>)
    ensures MarkersIn([SetData(first), ShowLegend] + MarkEvents(initial) + [Show]) == MarkersOf(initial)
    ensures UpdatesIn([SetData(first), ShowLegend] + MarkEvents(initial) + [Show]) == []
  {
    var setData, legend, show := SetData(first), ShowLegend, Show;
    var head := [setData, legend];
    var marks := MarkEvents(initial);
    assert head == [setData] + [legend];
    ProjectSingle(setData);
    ProjectSingle(legend);
    ProjectAppend([setData], [legend]);
    assert MarkersIn(head) == [] && UpdatesIn(head) == [];
    MarkEventsProject(initial);
    ProjectAppend(head, marks);
    AppendEmpty(MarkersOf(initial));
    assert MarkersIn(head + marks) == MarkersOf(initial) && UpdatesIn(head + marks) == [];
    ProjectSingle(show);
    ProjectAppend(head + marks, [show]);
  }

  /** A session places the markers of `initial` and then those of the replayed
      fills, and pushes the replayed candles in order. */
  lemma SessionProject(first: seq<Row>, initial: seq<Fill>, rows: seq<Row>, replay: seq<Fill>, n: nat)
    requires HasTime(rows) && n <= |rows|
    ensures MarkersIn(SessionEvents(first, initial, rows, replay, n)) == MarkersOf(initial + ReplayedFills(rows, replay, n))
    ensures UpdatesIn(SessionEvents(first, initial, rows, replay, n)) == rows[..n]
  {
    var setup := [SetData(first), ShowLegend] + MarkEvents(initial) + [Show];
    var replayed := ReplayEvents(rows, replay, n);
    assert SessionEvents(first, initial, rows, replay, n) == setup + replayed;
    SetupProject(first, initial);
    ProjectAppend(setup, replayed);
    ReplayMarkers(rows, replay, n);
    ReplayUpdates(rows, replay, n);
    MarkersOfAppend(initial, ReplayedFills(rows, replay, n));
    AppendEmpty(UpdatesIn(replayed));
  }

  lemma AppendEmpty<T>(s: seq<T>)
    ensures [] + s == s
  {
  }

  /** A session the user cut short made the same calls as a longer one, up to
      where it stopped. */
  lemma SessionPrefix(first: seq<Row>, initial: seq<Fill>, rows: seq<Row>, replay: seq<Fill>, k: nat, n: nat)
    requires HasTime(rows) && k <= n <= |rows|
    ensures |SessionEvents(first, initial, rows, replay, k)| <= |SessionEvents(first, initial, rows, replay, n)|
    ensures SessionEvents(first, initial, rows, replay, n)[..|SessionEvents(first, initial, rows, replay, k)|]
      == SessionEvents(first, initial, rows, replay, k)
  {
    var setup := [SetData(first), ShowLegend] + MarkEvents(initial) + [Show];
    ReplayPrefix(rows, replay, k, n);
    PrefixUnderAppend(setup, ReplayEvents(rows, replay, k), ReplayEvents(rows, replay, n));
  }

  /** Putting the same sequence in front keeps a prefix a prefix. */
  lemma PrefixUnderAppend<T>(s: seq<T>, a: seq<T>, b: seq<T>)
    requires |a| <= |b| && b[..|a|] == a
    ensures (s + b)[..|s + a|] == s + a
  {
    assert (s + b)[..|s + a|] == s + b[..|a|];
  }

  // ---------------------------------------------------------------------------
  // The whole run

  /** Lines 114-116: the fills between the first and the last candle time of
      all days. */
  function WindowOf(dfs: seq<Table>, history: seq<Fill>): seq<Fill>
    requires Timed(dfs)
  {
    TimedConcat(dfs);
    var all := Concat(dfs).rows;
    Window(history, MinTime(all), MaxTime(all))
  }

  /** Line 132: the last candle time of the first day. */
  function Boundary(dfs: seq<Table>): Option<int>
    requires Timed(dfs) && |dfs| > 0
  {
    TimedRows(dfs[0]);
    MaxTime(dfs[0].rows)
  }

  /** Line 96: the candles of the later days, for the replay. */
  function Remaining(dfs: seq<Table>): (rows: seq<Row>)
    requires Timed(dfs) && |dfs| > 0
    ensures HasTime(rows)
  {
    assert Timed(dfs[1..]) by {
      forall k | 0 <= k < |dfs[1..]| ensures Time in dfs[1..][k].columns {
        assert dfs[1..][k] == dfs[k + 1];
      }
    }
    TimedConcat(dfs[1..]);
    Concat(dfs[1..]).rows
  }

  /** The calls of a run on the day tables `dfs` whose replay pushed `n`
      candles: lines 121-179 draw the first day with the markers of the window
      fills up to the boundary, lines 183-244 replay the later candles against
      the window fills after it. */
  function RunLog(dfs: seq<Table>, history: seq<Fill>, n: nat): seq<Event>
    requires Timed(dfs) && |dfs| > 0 && n <= |Remaining(dfs)|
  {
    var window := WindowOf(dfs, history);
    var bound := Boundary(dfs);
    SessionEvents(dfs[0].rows, InitialFills(window, bound), Remaining(dfs), ReplayFills(window, bound), n)
  }

  /** Lines 93-244 on an open chart that has been sent nothing, for day tables
      that have the price columns line 104 prints: draw the first day with the
      markers of its fills, show the window, and replay the candles of the
      later days. */
  method Present(chart: Chart, dfs: seq<Table>, history: seq<Fill>, closes: nat -> bool)
    returns (windowClosed: bool, pushed: nat)
    requires Timed(dfs) && |dfs| >= 2 && MissingPrice(Concat(dfs)).None?
    requires chart.alive && chart.log == []
    modifies chart
    ensures pushed == FirstClosed(closes, 0, |Remaining(dfs)|)
    ensures windowClosed <==> pushed < |Remaining(dfs)|
    ensures chart.log == RunLog(dfs, history, pushed)
    ensures chart.alive <==> !windowClosed
  {
    var df1 := dfs[0];
    var remaining := Remaining(dfs);
    var fills := WindowOf(dfs, history);
    chart.Set(df1.rows);
    chart.Legend();
    var bound := Boundary(dfs);
    var initial := InitialFills(fills, bound);
    AddMarkers(chart, initial);
    chart.ShowWindow();
    SetupShape(SetData(df1.rows), ShowLegend, MarkEvents(initial), Show);
    ghost var setup := chart.log;
    var replay := ReplayFills(fills, bound);
    windowClosed, pushed := Replay(chart, remaining, replay, closes);
    assert chart.log == setup + ReplayEvents(remaining, replay, pushed);
  }

  lemma SetupShape<T>(a: T, b: T, c: seq<T>, d: T)
    ensures [] + [a] + [b] + c + [d] == [a, b] + c + [d]
  {
  }

  /** Lines 78-244: the chart is created and the configured days are loaded;
      with fewer than two day tables the script stops before drawing, and so
      it does when the days together lack a price column (the `KeyError` of
      line 104) or when the fill history cannot be read (lines 107-108,
      `history` is `None`); otherwise the first day is drawn and the rest
      replayed. */
  method Run(fs: FileSystem, history: Option<seq<Fill>>, closes: nat -> bool)
    returns (outcome: Outcome, chart: Chart)
    ensures chart.alive <==> !(outcome.Replayed? && outcome.windowClosed)
    ensures var loaded := LoadRange(fs, DefaultDataDir, DefaultTimeframe, StartDate, EndDate);
      && (loaded.Err? ==> outcome == LoadFailed(loaded.error) && chart.log == [])
      && (loaded.Ok? && |loaded.value| < 2 ==> outcome == TooFewDays(|loaded.value|) && chart.log == [])
      && (loaded.Ok? && |loaded.value| >= 2 ==>
            && Timed(loaded.value)
            && var missing := MissingPrice(Concat(loaded.value));
               && (missing.Some? ==> outcome == PriceColumnMissing(missing.value) && chart.log == [])
               && (missing.None? && history.None? ==> outcome == HistoryUnreadable && chart.log == [])
               && (missing.None? && history.Some? ==>
                     var n := FirstClosed(closes, 0, |Remaining(loaded.value)|);
                     && outcome == Replayed(n, n < |Remaining(loaded.value)|)
                     && chart.log == RunLog(loaded.value, history.value, n)))
  {
    chart := new Chart();
    var loaded, visited, warned := LoadDateRange(fs, DefaultDataDir, DefaultTimeframe, StartDate, EndDate);
    if loaded.Err? {
      outcome := LoadFailed(loaded.error);
      return;
    }
    var dfs := loaded.value;
    if |dfs| < 2 {
      outcome := TooFewDays(|dfs|);
      return;
    }
    LoadRangeColumns(fs, DefaultDataDir, DefaultTimeframe, StartDate, EndDate);
    var missing := MissingPrice(Concat(dfs));
    if missing.Some? {
      outcome := PriceColumnMissing(missing.value);
      return;
    }
    if history.None? {
      outcome := HistoryUnreadable;
      return;
    }
    var windowClosed, pushed := Present(chart, dfs, history.value, closes);
    outcome := Replayed(pushed, windowClosed);
  }

  /** Whether a run whose replay pushed `n` candles marks a fill of the window
      at its time: up to the boundary, or exactly at a replayed candle. */
  predicate Drawn(dfs: seq<Table>, f: Fill, n: nat)
    requires Timed(dfs) && |dfs| > 0 && n <= |Remaining(dfs)|
  {
    var bound := Boundary(dfs);
    bound.Some? &&
      (f.time <= bound.value ||
       exists k :: 0 <= k < n && Remaining(dfs)[k][Time] == Num(f.time))
  }

  /** The fills a run marks: first those of the window up to the boundary, then
      those the replay marks. */
  function DrawnFills(dfs: seq<Table>, history: seq<Fill>, n: nat): seq<Fill>
    requires Timed(dfs) && |dfs| > 0 && n <= |Remaining(dfs)|
  {
    var window := WindowOf(dfs, history);
    InitialFills(window, Boundary(dfs)) + ReplayedFills(Remaining(dfs), ReplayFills(window, Boundary(dfs)), n)
  }

  /** The markers on the chart are those of the drawn fills, in that order. */
  lemma RunMarkers(dfs: seq<Table>, history: seq<Fill>, n: nat)
    requires Timed(dfs) && |dfs| > 0 && n <= |Remaining(dfs)|
    ensures MarkersIn(RunLog(dfs, history, n)) == MarkersOf(DrawnFills(dfs, history, n))
  {
    var window := WindowOf(dfs, history);
    var bound := Boundary(dfs);
    SessionProject(dfs[0].rows, InitialFills(window, bound), Remaining(dfs), ReplayFills(window, bound), n);
  }

  /** The drawn fills are exactly the fills inside the candles' span that are
      no later than the first day's last candle or fall exactly on the time of
      a replayed candle. A fill of a later day between two candle times is
      never drawn. */
  lemma DrawnFillsMembers(dfs: seq<Table>, history: seq<Fill>, n: nat)
    requires Timed(dfs) && |dfs| > 0 && n <= |Remaining(dfs)|
    ensures forall f :: f in DrawnFills(dfs, history, n) <==>
      f in WindowOf(dfs, history) && Drawn(dfs, f, n)
  {
    var window := WindowOf(dfs, history);
    var bound := Boundary(dfs);
    var replay := ReplayFills(window, bound);
    MaskMembers(window, NotAfter(bound));
    MaskMembers(window, Later(bound));
    ReplayedFillsMembers(Remaining(dfs), replay, n);
  }

  /** What a run pushes: the first day is set as a whole, then the later
      candles are pushed one by one in order, up to where the replay stopped. */
  lemma RunUpdates(dfs: seq<Table>, history: seq<Fill>, n: nat)
    requires Timed(dfs) && |dfs| > 0 && n <= |Remaining(dfs)|
    ensures RunLog(dfs, history, n)[0] == SetData(dfs[0].rows)
    ensures UpdatesIn(RunLog(dfs, history, n)) == Remaining(dfs)[..n]
  {
    var window := WindowOf(dfs, history);
    var bound := Boundary(dfs);
    SessionProject(dfs[0].rows, InitialFills(window, bound), Remaining(dfs), ReplayFills(window, bound), n);
  }

  /** A run the user cut short made the same calls as the complete run, up to
      where it stopped. */
  lemma RunPrefix(dfs: seq<Table>, history: seq<Fill>, k: nat, n: nat)
    requires Timed(dfs) && |dfs| > 0 && k <= n <= |Remaining(dfs)|
    ensures |RunLog(dfs, history, k)| <= |RunLog(dfs, history, n)|
    ensures RunLog(dfs, history, n)[..|RunLog(dfs, history, k)|] == RunLog(dfs, history, k)
  {
    var window := WindowOf(dfs, history);
    var bound := Boundary(dfs);
    SessionPrefix(dfs[0].rows, InitialFills(window, bound), Remaining(dfs), ReplayFills(window, bound), k, n);
  }
}
