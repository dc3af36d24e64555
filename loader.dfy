/** `load_date_range`: walk the calendar days from the start date to the end
    date inclusive, probe one candle file per day, skip the days whose file is
    missing (with a warning) and clean each file that is there. The two scripts
    carry the same loop; the static one is this loader at timeframe "1m". */
module Loader {
  import opened Prelude
  import opened Dates
  import opened Tables

  const DefaultDataDir := "./Data/Storage/BTCUSDTSWAP_candle1m/"
  const DefaultTimeframe := "1m"
  const FilePrefix := "BTC-USDT-SWAP-candle"

  /** What the loader sees of the disk: every existing path, with the table
      `pd.read_csv` makes of that file. */
  datatype FileSystem = FileSystem(files: map<string, Table>)

  datatype LoadError =
    | BadFile(path: string, reason: CleanError)  // a day file whose columns do not fit
    | NoData                                     // `ValueError`: no day file in the range
    | DateOverflow                               // `OverflowError`: no day after 9999-12-31

  /** The timestamp column of the day files of a timeframe. */
  function TimeColumn(timeframe: string): (c: string)
    ensures c != Time && c !in Housekeeping
    ensures c == "timestamp_1s" <==> timeframe == "1s"
    ensures c != "timestamp_1s" ==> c == "timestamp_1m"
  {
    if timeframe == "1s" then "timestamp_1s" else "timestamp_1m"
  }

  /** `BTC-USDT-SWAP-candle{timeframe}-{YYYY-MM-DD}.csv` */
  function FileName(timeframe: string, d: Date): string
    requires Valid(d)
  {
    FilePrefix + timeframe + "-" + IsoFormat(d) + ".csv"
  }

  /** `os.path.join(dir, name)` on a POSIX system. */
  function JoinPath(dir: string, name: string): string
  {
    if |name| > 0 && name[0] == '/' then name
    else if dir == [] || dir[|dir| - 1] == '/' then dir + name
    else dir + "/" + name
  }

  function FilePath(dataDir: string, timeframe: string, d: Date): string
    requires Valid(d)
  {
    JoinPath(dataDir, FileName(timeframe, d))
  }

  /** The file name of 2021-10-01 at the default timeframe. */
  lemma FileNameExample(d: Date)
    requires d == Date(2021, 10, 1)
    ensures FileName(DefaultTimeframe, d) == "BTC-USDT-SWAP-candle1m-2021-10-01.csv"
  {
    IsoExample();
  }

  /** The path the scripts probe for 2021-10-01: the file name under
      `./Data/Storage/BTCUSDTSWAP_candle1m/`. */
  lemma FilePathExample(d: Date)
    requires d == Date(2021, 10, 1)
    ensures FilePath(DefaultDataDir, DefaultTimeframe, d)
      == DefaultDataDir + "BTC-USDT-SWAP-candle1m-2021-10-01.csv"
  {
    var name := FileName(DefaultTimeframe, d);
    FileNameExample(d);
    JoinSlash(DefaultDataDir, name);
  }

  /** Joining onto a directory that ends with `/` appends a relative name. */
  lemma JoinSlash(dir: string, name: string)
    requires |dir| > 0 && dir[|dir| - 1] == '/' && |name| > 0 && name[0] != '/'
    ensures JoinPath(dir, name) == dir + name
  {
  }

  /** The file name embeds the timeframe verbatim and the zero-padded date, and
      the date can be read back from the name. */
  lemma FileNameShape(timeframe: string, d: Date)
    requires Valid(d)
    ensures var n := FileName(timeframe, d);
      && var k := |FilePrefix| + |timeframe| + 1;
      && |n| == k + 14
      && n[..|FilePrefix|] == FilePrefix
      && n[|FilePrefix|..k - 1] == timeframe
      && n[k - 1] == '-'
      && n[k..k + 10] == IsoFormat(d)
      && n[k + 10..] == ".csv"
      && IsoDecode(n[k..k + 10]) == d
  {
    IsoRoundTrip(d);
  }

  /** Distinct days are probed under distinct paths, so each day is looked up on
      its own file. */
  lemma FilePathInjective(dataDir: string, timeframe: string, a: Date, b: Date)
    requires Valid(a) && Valid(b)
    requires FilePath(dataDir, timeframe, a) == FilePath(dataDir, timeframe, b)
    ensures a == b
  {
    var na, nb := FileName(timeframe, a), FileName(timeframe, b);
    var pa, pb := FilePath(dataDir, timeframe, a), FilePath(dataDir, timeframe, b);
    var head := if dataDir == [] || dataDir[|dataDir| - 1] == '/' then dataDir else dataDir + "/";
    assert na[0] == 'B' && nb[0] == 'B';
    assert pa == head + na && pb == head + nb;
    assert na == pa[|head|..] && nb == pb[|head|..];
    FileNameShape(timeframe, a);
    FileNameShape(timeframe, b);
  }

  /** One day of the loop: `Ok(None)` when the file is missing (the warning
      case), the cleaned table when it is there, or the clean-up's error. */
  function LoadDay(fs: FileSystem, dataDir: string, timeframe: string, d: Date): Result<Option<Table>, LoadError>
    requires Valid(d)
  {
    var path := FilePath(dataDir, timeframe, d);
    if path !in fs.files then Ok(None)
    else
      match Clean(fs.files[path], TimeColumn(timeframe))
      case Err(e) => Err(BadFile(path, e))
      case Ok(t) => Ok(Some(t))
  }

  /** `LoadDay` as a value, for every date the loop can reach. */
  function Probe(fs: FileSystem, dataDir: string, timeframe: string): Date -> Result<Option<Table>, LoadError>
  {
    d => if Valid(d) then LoadDay(fs, dataDir, timeframe, d) else Ok(None)
  }

  /** The walk over the days: the day outcomes of `probe` in turn, collecting the
      tables and stopping at the first error. */
  function Walk<D, T, E>(days: seq<D>, probe: D -> Result<Option<T>, E>): Result<seq<T>, E>
  {
    if days == [] then Ok([])
    else
      match Walk(days[..|days| - 1], probe)
      case Err(e) => Err(e)
      case Ok(ts) =>
        match probe(days[|days| - 1])
        case Err(e) => Err(e)
        case Ok(None) => Ok(ts)
        case Ok(Some(t)) => Ok(ts + [t])
  }

  /** The mask "this day yields a table or an error", i.e. its file is there. */
  function Yields<D, T, E>(probe: D -> Result<Option<T>, E>): D -> bool
  {
    d => probe(d).Err? || probe(d).value.Some?
  }

  /** The mask "this day yields nothing". */
  function Skips<D, T, E>(probe: D -> Result<Option<T>, E>): D -> bool
  {
    d => probe(d).Ok? && probe(d).value.None?
  }

  /** The days of `days` in turn: the tables of the days whose file is there, or
      the first error. */
  function LoadDays(fs: FileSystem, dataDir: string, timeframe: string, days: seq<Date>): Result<seq<Table>, LoadError>
  {
    Walk(days, Probe(fs, dataDir, timeframe))
  }

  /** Does the day's file exist? */
  predicate Present(fs: FileSystem, dataDir: string, timeframe: string, d: Date)
  {
    Valid(d) && FilePath(dataDir, timeframe, d) in fs.files
  }

  /** The mask "this day's file exists". */
  function IsPresent(fs: FileSystem, dataDir: string, timeframe: string): Date -> bool
  {
    d => Present(fs, dataDir, timeframe, d)
  }

  /** The mask "this day's file is missing". */
  function IsMissing(fs: FileSystem, dataDir: string, timeframe: string): Date -> bool
  {
    d => !Present(fs, dataDir, timeframe, d)
  }

  /** The days of `days` whose file exists, in order. */
  function PresentDays(fs: FileSystem, dataDir: string, timeframe: string, days: seq<Date>): seq<Date>
  {
    Filter(days, IsPresent(fs, dataDir, timeframe))
  }

  /** The days of `days` whose file is missing, in order: the warnings. */
  function MissingDays(fs: FileSystem, dataDir: string, timeframe: string, days: seq<Date>): seq<Date>
  {
    Filter(days, IsMissing(fs, dataDir, timeframe))
  }

  /** Whether walking `days` ends on 9999-12-31, after which the step to the next
      day overflows. */
  predicate EndsOnLastDate(days: seq<Date>)
  {
    |days| > 0 && days[|days| - 1] == LastDate
  }

  /** What `load_date_range(start, end, dataDir, timeframe)` returns or raises. */
  function LoadRange(fs: FileSystem, dataDir: string, timeframe: string, start: Date, end: Date): Result<seq<Table>, LoadError>
    requires Valid(start) && Valid(end)
  {
    var days := DayRange(start, end);
    match LoadDays(fs, dataDir, timeframe, days)
    case Err(e) => Err(e)
    case Ok(ts) =>
      if EndsOnLastDate(days) then Err(DateOverflow)
      else if ts == [] then Err(NoData)
      else Ok(ts)
  }

  /** The loop of `load_date_range`: one iteration per calendar day from `start`
      to `end`, ascending, each day handled by `probe`. It stops at the first
      day that fails. `visited` lists the days it went through, `skipped` those
      that yielded nothing, and `overflow` says whether it stepped past
      9999-12-31 after handling that day. */
  method WalkDays<T, E>(start: Date, end: Date, probe: Date -> Result<Option<T>, E>)
    returns (r: Result<seq<T>, E>, visited: seq<Date>, skipped: seq<Date>, overflow: bool)
    requires Valid(start) && Valid(end)
    ensures r.Ok? ==> visited == DayRange(start, end) && r == Walk(visited, probe)
    ensures overflow <==> r.Ok? && EndsOnLastDate(visited)
    ensures r.Err? ==>
      && r == Walk(DayRange(start, end), probe)
      && 0 < |visited| <= |DayRange(start, end)|
      && visited == DayRange(start, end)[..|visited|]
      && probe(visited[|visited| - 1]).Err? && probe(visited[|visited| - 1]).error == r.error
      && forall j :: 0 <= j < |visited| - 1 ==> probe(visited[j]).Ok?
    ensures skipped == Filter(visited, Skips(probe))
  {
    ghost var days := DayRange(start, end);
    var ts: seq<T> := [];
    var current := start;
    visited, skipped, overflow := [], [], false;
    DayRangeFirst(start, end);
    while Le(current, end)
      invariant Valid(current)
      invariant |visited| <= |days| && visited == days[..|visited|]
      invariant |visited| < |days| ==> current == days[|visited|]
      invariant Le(current, end) <==> |visited| < |days|
      invariant Walk(visited, probe) == Ok(ts)
      invariant !EndsOnLastDate(visited)
      invariant skipped == Filter(visited, Skips(probe))
      decreases |days| - |visited|
    {
      ghost var before := visited;
      DayStep(start, end, before);
      visited := visited + [current];
      WalkSnoc(before, current, probe);
      FilterSnoc(before, current, Skips(probe));
      var outcome := probe(current);
      match outcome {
        case Err(e) =>
          r := Err(e);
          WalkPrefixErr(days, |visited|, probe);
          WalkOkAll(before, probe);
          return;
        case Ok(None) =>
          skipped := skipped + [current];
        case Ok(Some(t)) =>
          ts := ts + [t];
      }
      var next := NextDay(current);
      if next.None? {
        r, overflow := Ok(ts), true;
        return;
      }
      current := next.value;
    }
    PrefixWhole(days, visited);
    r := Ok(ts);
  }

  /** A walk that succeeds had no failing day. */
  lemma WalkOkAll<D, T, E>(days: seq<D>, probe: D -> Result<Option<T>, E>)
    requires Walk(days, probe).Ok?
    ensures forall j :: 0 <= j < |days| ==> probe(days[j]).Ok?
  {
    WalkErr(days, probe);
  }

  /** One day of the walk over `DayRange(start, end)`: the visited days grow by
      the next day of the range, and the day after it is the one after that in
      the range, or lies beyond `end`, or does not exist at the end of the range. */
  lemma DayStep(start: Date, end: Date, before: seq<Date>)
    requires Valid(start) && Valid(end)
    requires |before| < |DayRange(start, end)| && before == DayRange(start, end)[..|before|]
    ensures var days := DayRange(start, end);
      var current := days[|before|];
      var next := NextDay(current);
      var visited := before + [current];
      && visited == days[..|visited|]
      && (next.None? ==> visited == days && EndsOnLastDate(visited))
      && (next.Some? ==>
            && !EndsOnLastDate(visited)
            && (Le(next.value, end) <==> |visited| < |days|)
            && (|visited| < |days| ==> next.value == days[|visited|]))
  {
    var days := DayRange(start, end);
    var k := |before|;
    DayRangeNext(start, end, k);
    PrefixSnoc(days, before);
    if NextDay(days[k]).None? {
      PrefixWhole(days, before + [days[k]]);
    }
  }

  /** A prefix as long as the sequence is the sequence. */
  lemma PrefixWhole<T>(s: seq<T>, prefix: seq<T>)
    requires |prefix| == |s| && prefix == s[..|prefix|]
    ensures prefix == s
  {
  }

  /** `load_date_range(start, end, dataDir, timeframe)`: the walk over the days
      with the per-day step of the loader, then the overflow and the empty
      result turned into errors. `visited` lists the days the loop went
      through and `warned` the days whose file was not found. */
  method LoadDateRange(fs: FileSystem, dataDir: string, timeframe: string, start: Date, end: Date)
    returns (r: Result<seq<Table>, LoadError>, visited: seq<Date>, warned: seq<Date>)
    requires Valid(start) && Valid(end)
    ensures r == LoadRange(fs, dataDir, timeframe, start, end)
    ensures !(r.Err? && r.error.BadFile?) ==> visited == DayRange(start, end)
    ensures r.Err? && r.error.BadFile? ==>
      && 0 < |visited| <= |DayRange(start, end)|
      && visited == DayRange(start, end)[..|visited|]
      && r.error.path == FilePath(dataDir, timeframe, visited[|visited| - 1])
      && forall j :: 0 <= j < |visited| - 1 ==> LoadDay(fs, dataDir, timeframe, visited[j]).Ok?
    ensures warned == MissingDays(fs, dataDir, timeframe, visited)
  {
    var walked, overflow;
    walked, visited, warned, overflow := WalkDays(start, end, Probe(fs, dataDir, timeframe));
    SkippedAreMissing(fs, dataDir, timeframe, visited);
    if walked.Err? {
      ProbeMeaning(fs, dataDir, timeframe, visited[|visited| - 1]);
      DayRangeSpec(start, end);
      r := Err(walked.error);
    } else if overflow {
      r := Err(DateOverflow);
    } else if walked.value == [] {
      r := Err(NoData);
    } else {
      r := Ok(walked.value);
    }
  }

  /** The days the loader's probe skips are the days whose file is missing. */
  lemma SkippedAreMissing(fs: FileSystem, dataDir: string, timeframe: string, days: seq<Date>)
    ensures Filter(days, Skips(Probe(fs, dataDir, timeframe))) == MissingDays(fs, dataDir, timeframe, days)
  {
    forall i | 0 <= i < |days|
      ensures Skips(Probe(fs, dataDir, timeframe))(days[i]) == IsMissing(fs, dataDir, timeframe)(days[i])
    {
      ProbeMasks(fs, dataDir, timeframe, days[i]);
    }
    FilterCongruent(days, Skips(Probe(fs, dataDir, timeframe)), IsMissing(fs, dataDir, timeframe));
  }

  /** A prefix extended by the next element is the next prefix. */
  lemma PrefixSnoc<T>(s: seq<T>, prefix: seq<T>)
    requires |prefix| < |s| && prefix == s[..|prefix|]
    ensures prefix + [s[|prefix|]] == s[..|prefix| + 1]
  {
  }

  /** How one more day extends the walk. */
  lemma WalkSnoc<D, T, E>(days: seq<D>, d: D, probe: D -> Result<Option<T>, E>)
    ensures Walk(days + [d], probe) ==
      if Walk(days, probe).Err? then Walk(days, probe)
      else if probe(d).Err? then Err(probe(d).error)
      else if probe(d).value.None? then Walk(days, probe)
      else Ok(Walk(days, probe).value + [probe(d).value.value])
  {
    assert (days + [d])[..|days|] == days;
  }

  /** An error on a prefix of the days is the error of all the days. */
  lemma {:induction false} WalkPrefixErr<D, T, E>(days: seq<D>, k: nat, probe: D -> Result<Option<T>, E>)
    requires k <= |days| && Walk(days[..k], probe).Err?
    ensures Walk(days, probe) == Walk(days[..k], probe)
    decreases |days| - k
  {
    if k < |days| {
      var next := k + 1;
      assert days[..next][..k] == days[..k];
      WalkPrefixErr(days, next, probe);
    } else {
      assert days[..k] == days;
    }
  }

  /** On success the walk returns one table per day that yields one, in day
      order. */
  lemma {:induction false} WalkTables<D, T, E>(days: seq<D>, probe: D -> Result<Option<T>, E>)
    requires Walk(days, probe).Ok?
    ensures var ts := Walk(days, probe).value;
      var yielding := Filter(days, Yields(probe));
      && |ts| == |yielding|
      && forall i :: 0 <= i < |ts| ==> probe(yielding[i]) == Ok(Some(ts[i]))
  {
    if days != [] {
      var init, last := days[..|days| - 1], days[|days| - 1];
      assert days == init + [last];
      WalkSnoc(init, last, probe);
      FilterSnoc(init, last, Yields(probe));
      WalkTables(init, probe);
      var ts0, ys0 := Walk(init, probe).value, Filter(init, Yields(probe));
      var ts, ys := Walk(days, probe).value, Filter(days, Yields(probe));
      if probe(last).value.Some? {
        assert ts == ts0 + [probe(last).value.value];
        assert ys == ys0 + [last];
        forall i | 0 <= i < |ts| ensures probe(ys[i]) == Ok(Some(ts[i])) {
          if i < |ts0| {
            assert ts[i] == ts0[i] && ys[i] == ys0[i];
          }
        }
      } else {
        assert ts == ts0 && ys == ys0;
      }
    }
  }

  /** The walk fails exactly when some day fails, and with the first such day's
      error. */
  lemma {:induction false} WalkErr<D, T, E>(days: seq<D>, probe: D -> Result<Option<T>, E>)
    ensures Walk(days, probe).Err? <==> exists i :: 0 <= i < |days| && probe(days[i]).Err?
    ensures Walk(days, probe).Err? ==>
      exists i :: 0 <= i < |days|
        && probe(days[i]).Err?
        && Walk(days, probe).error == probe(days[i]).error
        && forall j :: 0 <= j < i ==> probe(days[j]).Ok?
  {
    if days != [] {
      var init := days[..|days| - 1];
      WalkErr(init, probe);
      assert forall i :: 0 <= i < |init| ==> init[i] == days[i];
      if Walk(init, probe).Err? {
        var i :| 0 <= i < |init| && probe(init[i]).Err?
          && Walk(init, probe).error == probe(init[i]).error
          && forall j :: 0 <= j < i ==> probe(init[j]).Ok?;
        assert probe(days[i]).Err?;
      } else if probe(days[|days| - 1]).Err? {
        var i := |days| - 1;
        assert forall j :: 0 <= j < i ==> probe(days[j]).Ok? by {
          forall j | 0 <= j < i ensures probe(days[j]).Ok? {
            assert init[j] == days[j];
          }
        }
      } else {
        forall i | 0 <= i < |days| ensures probe(days[i]).Ok? {
          if i < |init| { assert init[i] == days[i]; }
        }
      }
    }
  }

  /** A day that yields nothing changes nothing: the days after it are walked as
      if it were not there. */
  lemma {:induction false} WalkSkips<D, T, E>(a: seq<D>, d: D, b: seq<D>, probe: D -> Result<Option<T>, E>)
    requires probe(d).Ok? && probe(d).value.None?
    ensures Walk(a + [d] + b, probe) == Walk(a + b, probe)
    decreases |b|
  {
    if b == [] {
      assert (a + [d] + b)[..|a|] == a && a + b == a;
    } else {
      var b' := b[..|b| - 1];
      assert (a + [d] + b)[..|a + [d] + b| - 1] == a + [d] + b';
      assert (a + b)[..|a + b| - 1] == a + b';
      WalkSkips(a, d, b', probe);
    }
  }

  /** Days that all yield nothing walk to no table and no error. */
  lemma {:induction false} WalkNothing<D, T, E>(days: seq<D>, probe: D -> Result<Option<T>, E>)
    requires forall i :: 0 <= i < |days| ==> probe(days[i]).Ok? && probe(days[i]).value.None?
    ensures Walk(days, probe) == Ok([])
  {
    if days != [] {
      WalkNothing(days[..|days| - 1], probe);
    }
  }

  /** What a day's probe means: nothing when its file is missing; the clean-up of
      the file, or the clean-up's error naming the file, when it is there. */
  lemma ProbeMeaning(fs: FileSystem, dataDir: string, timeframe: string, d: Date)
    requires Valid(d)
    ensures var probe := Probe(fs, dataDir, timeframe);
      var path := FilePath(dataDir, timeframe, d);
      && (path !in fs.files ==> probe(d) == Ok(None))
      && (path in fs.files ==>
            var c := Clean(fs.files[path], TimeColumn(timeframe));
            probe(d) == if c.Ok? then Ok(Some(c.value)) else Err(BadFile(path, c.error)))
  {
  }

  /** A day yields a table or an error exactly when its file exists, and
      nothing exactly when it is missing. */
  lemma ProbeMasks(fs: FileSystem, dataDir: string, timeframe: string, d: Date)
    ensures Yields(Probe(fs, dataDir, timeframe))(d) == IsPresent(fs, dataDir, timeframe)(d)
    ensures Skips(Probe(fs, dataDir, timeframe))(d) == IsMissing(fs, dataDir, timeframe)(d)
  {
  }

  /** The days whose file exists are the days that yield a table or an error. */
  lemma PresentDaysYield(fs: FileSystem, dataDir: string, timeframe: string, days: seq<Date>)
    ensures PresentDays(fs, dataDir, timeframe, days) == Filter(days, Yields(Probe(fs, dataDir, timeframe)))
  {
    forall i | 0 <= i < |days|
      ensures IsPresent(fs, dataDir, timeframe)(days[i]) == Yields(Probe(fs, dataDir, timeframe))(days[i])
    {
      ProbeMasks(fs, dataDir, timeframe, days[i]);
    }
    FilterCongruent(days, IsPresent(fs, dataDir, timeframe), Yields(Probe(fs, dataDir, timeframe)));
  }

  /** A day that yields a table has its file, and the table is that file
      cleaned up. */
  lemma ProbeYield(fs: FileSystem, dataDir: string, timeframe: string, d: Date, t: Table)
    requires Probe(fs, dataDir, timeframe)(d) == Ok(Some(t))
    ensures Present(fs, dataDir, timeframe, d)
    ensures Clean(fs.files[FilePath(dataDir, timeframe, d)], TimeColumn(timeframe)) == Ok(t)
  {
  }

  /** On success, the loader returns one table per day whose file exists, in day
      order, each the clean-up of that day's file. */
  lemma LoadDaysTables(fs: FileSystem, dataDir: string, timeframe: string, days: seq<Date>)
    requires LoadDays(fs, dataDir, timeframe, days).Ok?
    ensures var ts := LoadDays(fs, dataDir, timeframe, days).value;
      var present := PresentDays(fs, dataDir, timeframe, days);
      && |ts| == |present|
      && forall i :: 0 <= i < |ts| ==>
           && Present(fs, dataDir, timeframe, present[i])
           && Clean(fs.files[FilePath(dataDir, timeframe, present[i])], TimeColumn(timeframe)) == Ok(ts[i])
  {
    var probe := Probe(fs, dataDir, timeframe);
    var ts := LoadDays(fs, dataDir, timeframe, days).value;
    var present := PresentDays(fs, dataDir, timeframe, days);
    WalkTables(days, probe);
    PresentDaysYield(fs, dataDir, timeframe, days);
    forall i | 0 <= i < |ts|
      ensures Present(fs, dataDir, timeframe, present[i])
      ensures Clean(fs.files[FilePath(dataDir, timeframe, present[i])], TimeColumn(timeframe)) == Ok(ts[i])
    {
      ProbeYield(fs, dataDir, timeframe, present[i], ts[i]);
    }
  }

  /** A day whose file is missing changes nothing: the days after it load as if
      it were not in the range. */
  lemma MissingDaySkipped(fs: FileSystem, dataDir: string, timeframe: string, a: seq<Date>, d: Date, b: seq<Date>)
    requires Valid(d) && FilePath(dataDir, timeframe, d) !in fs.files
    ensures LoadDays(fs, dataDir, timeframe, a + [d] + b) == LoadDays(fs, dataDir, timeframe, a + b)
  {
    ProbeMeaning(fs, dataDir, timeframe, d);
    WalkSkips(a, d, b, Probe(fs, dataDir, timeframe));
  }

  /** `ValueError` is raised exactly when no day from start to end has a file
      (an empty range included) and the walk does not run past 9999-12-31. */
  lemma NoDataWhenNothingFound(fs: FileSystem, dataDir: string, timeframe: string, start: Date, end: Date)
    requires Valid(start) && Valid(end)
    ensures LoadRange(fs, dataDir, timeframe, start, end) == Err(NoData) <==>
      && PresentDays(fs, dataDir, timeframe, DayRange(start, end)) == []
      && !EndsOnLastDate(DayRange(start, end))
  {
    var days := DayRange(start, end);
    var probe := Probe(fs, dataDir, timeframe);
    PresentDaysYield(fs, dataDir, timeframe, days);
    if Filter(days, Yields(probe)) == [] {
      FilterEmpty(days, Yields(probe));
      WalkNothing(days, probe);
    } else if Walk(days, probe).Ok? {
      WalkTables(days, probe);
      assert Walk(days, probe).value != [];
    } else {
      WalkErr(days, probe);
      var i :| 0 <= i < |days| && probe(days[i]).Err? && Walk(days, probe).error == probe(days[i]).error;
      ProbeMeaning(fs, dataDir, timeframe, days[i]);
      assert Walk(days, probe).error.BadFile?;
    }
  }

  /** A start after the end raises `ValueError`. */
  lemma EmptyRangeNoData(fs: FileSystem, dataDir: string, timeframe: string, start: Date, end: Date)
    requires Valid(start) && Valid(end) && !Le(start, end)
    ensures LoadRange(fs, dataDir, timeframe, start, end) == Err(NoData)
  {
    OrdinalOrder(start, end);
  }

  /** Every table the loader returns has lost the housekeeping columns and the
      timeframe's timestamp column, and has a `time` column. */
  lemma LoadedColumns(fs: FileSystem, dataDir: string, timeframe: string, days: seq<Date>)
    requires LoadDays(fs, dataDir, timeframe, days).Ok?
    ensures var ts := LoadDays(fs, dataDir, timeframe, days).value;
      forall k :: 0 <= k < |ts| ==>
        && Time in ts[k].columns
        && TimeColumn(timeframe) !in ts[k].columns
        && forall i :: 0 <= i < |Housekeeping| ==> Housekeeping[i] !in ts[k].columns
  {
    var probe := Probe(fs, dataDir, timeframe);
    var ts := LoadDays(fs, dataDir, timeframe, days).value;
    var ys := Filter(days, Yields(probe));
    WalkTables(days, probe);
    forall k | 0 <= k < |ts|
      ensures Time in ts[k].columns && TimeColumn(timeframe) !in ts[k].columns
      ensures forall i :: 0 <= i < |Housekeeping| ==> Housekeeping[i] !in ts[k].columns
    {
      DayTableColumns(fs, dataDir, timeframe, ys[k], ts[k]);
    }
  }

  /** A successful load returns at least one table, and every one has a `time`
      column and has lost the housekeeping columns and the timeframe's
      timestamp column. */
  lemma LoadRangeColumns(fs: FileSystem, dataDir: string, timeframe: string, start: Date, end: Date)
    requires Valid(start) && Valid(end)
    requires LoadRange(fs, dataDir, timeframe, start, end).Ok?
    ensures var ts := LoadRange(fs, dataDir, timeframe, start, end).value;
      && |ts| > 0
      && forall k :: 0 <= k < |ts| ==>
        && Time in ts[k].columns
        && TimeColumn(timeframe) !in ts[k].columns
        && forall i :: 0 <= i < |Housekeeping| ==> Housekeeping[i] !in ts[k].columns
  {
    LoadedColumns(fs, dataDir, timeframe, DayRange(start, end));
  }

  /** The table a day yields has a `time` column and neither the timeframe's
      timestamp column nor a housekeeping column. */
  lemma DayTableColumns(fs: FileSystem, dataDir: string, timeframe: string, d: Date, t: Table)
    requires Probe(fs, dataDir, timeframe)(d) == Ok(Some(t))
    ensures Time in t.columns && TimeColumn(timeframe) !in t.columns
    ensures forall i :: 0 <= i < |Housekeeping| ==> Housekeeping[i] !in t.columns
  {
    ProbeYield(fs, dataDir, timeframe, d, t);
    CleanedColumns(fs.files[FilePath(dataDir, timeframe, d)], TimeColumn(timeframe));
  }
}
