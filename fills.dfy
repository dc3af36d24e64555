/** The fill selections of the realtime script, all boolean masks over the fill
    history: the window between the first and the last candle time, the fills
    up to the last candle of the first day (drawn at once), the fills after it
    (replayed), and the fills at one candle's time. A bound that is `None`
    stands for pandas' `NaT`, against which every comparison is false. */
module Fills {
  import opened Prelude
  import opened Tables
  import opened Markers

  /** `(fills['time'] >= start) & (fills['time'] <= end)` */
  function Within(start: Option<int>, end: Option<int>): Fill -> bool
  {
    (f: Fill) => start.Some? && end.Some? && start.value <= f.time <= end.value
  }

  /** `fills['time'] <= bound` */
  function NotAfter(bound: Option<int>): Fill -> bool
  {
    (f: Fill) => bound.Some? && f.time <= bound.value
  }

  /** `fills['time'] > bound` */
  function Later(bound: Option<int>): Fill -> bool
  {
    (f: Fill) => bound.Some? && f.time > bound.value
  }

  /** `fills['time'] == t` for a candle time `t`. */
  function At(t: Cell): Fill -> bool
  {
    (f: Fill) => t.Num? && f.time == t.n
  }

  /** The fills of the candles' time span, in file order. */
  function Window(fills: seq<Fill>, start: Option<int>, end: Option<int>): seq<Fill>
  {
    Filter(fills, Within(start, end))
  }

  /** The fills drawn with the first day's candles. */
  function InitialFills(fills: seq<Fill>, bound: Option<int>): seq<Fill>
  {
    Filter(fills, NotAfter(bound))
  }

  /** The fills kept for the replay. */
  function ReplayFills(fills: seq<Fill>, bound: Option<int>): seq<Fill>
  {
    Filter(fills, Later(bound))
  }

  /** The fills at the time of one candle. */
  function FillsAt(fills: seq<Fill>, t: Cell): seq<Fill>
  {
    Filter(fills, At(t))
  }

  /** The window keeps exactly the fills with `start <= time <= end`, the bounds
      included, and keeps nothing when either bound is `NaT`. */
  lemma WindowMembers(fills: seq<Fill>, start: Option<int>, end: Option<int>)
    ensures forall f :: f in Window(fills, start, end) <==>
      f in fills && start.Some? && end.Some? && start.value <= f.time <= end.value
    ensures |Window(fills, start, end)| <= |fills|
  {
    MaskMembers(fills, Within(start, end));
  }

  /** What a mask keeps, as membership. */
  lemma MaskMembers(fills: seq<Fill>, p: Fill -> bool)
    ensures forall f :: f in Filter(fills, p) <==> f in fills && p(f)
  {
    FilterMembers(fills, p);
    var r := Filter(fills, p);
    forall f | f in r ensures f in fills && p(f) {
      var i :| 0 <= i < |r| && r[i] == f;
    }
    forall f | f in fills && p(f) ensures f in r {
      var i :| 0 <= i < |fills| && fills[i] == f;
    }
  }

  /** Filtering the window again changes nothing. */
  lemma WindowIdempotent(fills: seq<Fill>, start: Option<int>, end: Option<int>)
    ensures Window(Window(fills, start, end), start, end) == Window(fills, start, end)
  {
    FilterIdempotent(fills, Within(start, end));
  }

  /** The window keeps the file order: the window of a history split in two is
      the window of the first part followed by that of the second. */
  lemma WindowKeepsOrder(a: seq<Fill>, b: seq<Fill>, start: Option<int>, end: Option<int>)
    ensures Window(a + b, start, end) == Window(a, start, end) + Window(b, start, end)
  {
    FilterAppend(a, b, Within(start, end));
  }

  /** The initial fills and the replayed fills share no fill, and together they
      hold every fill of `fills` exactly as often as `fills` does when the
      bound is a time; when it is `NaT` both are empty. */
  lemma SplitPartition(fills: seq<Fill>, bound: Option<int>)
    ensures forall f :: !(f in InitialFills(fills, bound) && f in ReplayFills(fills, bound))
    ensures bound.Some? ==>
      multiset(InitialFills(fills, bound)) + multiset(ReplayFills(fills, bound)) == multiset(fills)
    ensures bound.None? ==> InitialFills(fills, bound) == [] && ReplayFills(fills, bound) == []
  {
    MaskMembers(fills, NotAfter(bound));
    MaskMembers(fills, Later(bound));
    if bound.Some? {
      FilterPartition(fills, NotAfter(bound), Later(bound));
    } else {
      FilterEmpty(fills, NotAfter(bound));
      FilterEmpty(fills, Later(bound));
    }
  }

  /** Splitting the window: the initial part is the fills from the window's
      start up to the bound, and the replay part those after the bound up to
      the window's end. */
  lemma SplitOfWindow(fills: seq<Fill>, start: Option<int>, end: Option<int>, bound: Option<int>)
    ensures forall f :: f in InitialFills(Window(fills, start, end), bound) <==>
      f in fills && start.Some? && end.Some? && bound.Some? && start.value <= f.time <= end.value && f.time <= bound.value
    ensures forall f :: f in ReplayFills(Window(fills, start, end), bound) <==>
      f in fills && start.Some? && end.Some? && bound.Some? && start.value <= f.time <= end.value && f.time > bound.value
  {
    WindowMembers(fills, start, end);
    MaskMembers(Window(fills, start, end), NotAfter(bound));
    MaskMembers(Window(fills, start, end), Later(bound));
  }

  /** The lookup at a candle time keeps exactly the fills at that time, in file
      order; a `NaT` candle time matches nothing. */
  lemma FillsAtMembers(fills: seq<Fill>, t: Cell)
    ensures forall f :: f in FillsAt(fills, t) <==> f in fills && t.Num? && f.time == t.n
    ensures t.NaN? ==> FillsAt(fills, t) == []
  {
    MaskMembers(fills, At(t));
    if t.NaN? {
      FilterEmpty(fills, At(t));
    }
  }

  /** For a candle later than the bound, the replay fills at its time are all
      the fills at its time: the split loses no fill of a replayed candle. */
  lemma ReplayLookupComplete(fills: seq<Fill>, bound: int, t: int)
    requires t > bound
    ensures FillsAt(ReplayFills(fills, Some(bound)), Num(t)) == FillsAt(fills, Num(t))
  {
    FilterFilter(fills, Later(Some(bound)), At(Num(t)), At(Num(t)));
  }

  /** For a candle no later than the bound, the replay holds no fill at its
      time: such fills were drawn with the first day. */
  lemma ReplayLookupEmpty(fills: seq<Fill>, bound: int, t: int)
    requires t <= bound
    ensures FillsAt(ReplayFills(fills, Some(bound)), Num(t)) == []
  {
    var replay := ReplayFills(fills, Some(bound));
    MaskMembers(fills, Later(Some(bound)));
    forall i | 0 <= i < |replay| ensures !At(Num(t))(replay[i]) {
      assert replay[i] in replay;
    }
    FilterEmpty(replay, At(Num(t)));
  }
}
