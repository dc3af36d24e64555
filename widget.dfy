/** The charting widget as the scripts see it: every call is recorded in an
    event log, and the window is alive until the user closes it. What the
    widget draws from these calls is not part of this model. */
module Widget {
  import opened Tables
  import opened Markers

  /** One call on the chart. */
  datatype Event =
    | SetData(rows: seq<Row>)  // `chart.set(df)`
    | ShowLegend               // `chart.legend(visible=True, ohlc=True, percent=True, color_based_on_candle=True)`
    | Mark(marker: Marker)     // `chart.marker(time=..., position=..., shape=..., color=..., text=...)`
    | Show                     // `chart.show(block=False)`
    | Update(row: Row)         // `chart.update(series)`

  class Chart {
    /** The calls made on this chart, oldest first. */
    var log: seq<Event>
    /** `chart.is_alive`: the window has not been closed. */
    var alive: bool

    /** `Chart(toolbox=True)`: an open window that has been sent nothing. */
    constructor()
      ensures log == [] && alive
    {
      log := [];
      alive := true;
    }

    method Set(rows: seq<Row>)
      modifies this
      ensures log == old(log) + [SetData(rows)] && alive == old(alive)
    {
      log := log + [SetData(rows)];
    }

    method Legend()
      modifies this
      ensures log == old(log) + [ShowLegend] && alive == old(alive)
    {
      log := log + [ShowLegend];
    }

    method AddMarker(m: Marker)
      modifies this
      ensures log == old(log) + [Mark(m)] && alive == old(alive)
    {
      log := log + [Mark(m)];
    }

    method ShowWindow()
      modifies this
      ensures log == old(log) + [Show] && alive == old(alive)
    {
      log := log + [Show];
    }

    method UpdateBar(row: Row)
      modifies this
      ensures log == old(log) + [Update(row)] && alive == old(alive)
    {
      log := log + [Update(row)];
    }

    /** The user closes the window; no call is recorded. */
    method Close()
      modifies this
      ensures log == old(log) && !alive
    {
      alive := false;
    }
  }

  /** The markers placed by a log, in order. */
  function MarkersIn(log: seq<Event>): seq<Marker>
  {
    if log == [] then []
    else MarkersIn(log[..|log| - 1]) + (if log[|log| - 1].Mark? then [log[|log| - 1].marker] else [])
  }

  /** The bars pushed by a log, in order. */
  function UpdatesIn(log: seq<Event>): seq<Row>
  {
    if log == [] then []
    else UpdatesIn(log[..|log| - 1]) + (if log[|log| - 1].Update? then [log[|log| - 1].row] else [])
  }

  /** The projections of a log of one event. */
  lemma ProjectSingle(e: Event)
    ensures MarkersIn([e]) == (if e.Mark? then [e.marker] else [])
    ensures UpdatesIn([e]) == (if e.Update? then [e.row] else [])
  {
    assert [e][..0] == [];
  }

  /** Both projections of a log distribute over concatenation. */
  lemma {:induction false} ProjectAppend(a: seq<Event>, b: seq<Event>)
    ensures MarkersIn(a + b) == MarkersIn(a) + MarkersIn(b)
    ensures UpdatesIn(a + b) == UpdatesIn(a) + UpdatesIn(b)
  {
    if b == [] {
      assert a + b == a;
    } else {
      var init := b[..|b| - 1];
      assert (a + b)[..|a + b| - 1] == a + init;
      ProjectAppend(a, init);
    }
  }
}
