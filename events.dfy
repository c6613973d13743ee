/**
 * The resize handling of x11_backend_handle_events: every pending
 * ConfigureNotify sets the window rectangle's size and recomputes the
 * viewport; every other event is read and ignored.
 */
module Events {
  import opened Wrappers
  import opened Geometry

  /** A pending X event: a ConfigureNotify carrying the window's new size, or any other event. */
  datatype Event = ConfigureNotify(width: nat, height: nat) | OtherEvent(kind: int)

  /** What the drain updates: x11->rect and gl->viewport. */
  datatype Output = Output(rect: Rect, viewport: Rect)

  /** The X server reports windows at least one pixel wide and high. */
  predicate WellFormed(events: seq<Event>) {
    forall i | 0 <= i < |events| :: events[i].ConfigureNotify? ==> events[i].width > 0 && events[i].height > 0
  }

  /** The rectangle `rect` resized to the size an event reports. */
  function Resized(rect: Rect, e: Event): Rect
    requires e.ConfigureNotify?
  {
    rect.(width := e.width, height := e.height)
  }

  /** The effect of one event of the loop. */
  function Apply(cfg: Size, o: Output, e: Event): Output
    requires PositiveSize(cfg)
    requires e.ConfigureNotify? ==> e.width > 0 && e.height > 0
  {
    match e
    case ConfigureNotify(_, _) =>
      var rect := Resized(o.rect, e);
      Output(rect, ComputeBoundingBox(cfg, rect))
    case OtherEvent(_) => o
  }

  /** The effect of draining `events`, oldest first. */
  function Drain(cfg: Size, o: Output, events: seq<Event>): Output
    requires PositiveSize(cfg) && WellFormed(events)
    decreases |events|
  {
    if events == [] then o
    else
      var n := |events| - 1;
      assert WellFormed(events[..n]);
      Apply(cfg, Drain(cfg, o, events[..n]), events[n])
  }

  /** The most recent ConfigureNotify among `events`, if any. */
  function LastConfigure(events: seq<Event>): (r: Option<Event>)
    ensures r.Some? ==> r.value.ConfigureNotify? && r.value in events
    ensures r.Some? ==>
      exists i | 0 <= i < |events| :: events[i] == r.value && forall j | i < j < |events| :: !events[j].ConfigureNotify?
    ensures r.None? ==> forall i | 0 <= i < |events| :: !events[i].ConfigureNotify?
    decreases |events|
  {
    if events == [] then None
    else if events[|events| - 1].ConfigureNotify? then Some(events[|events| - 1])
    else
      var n := |events| - 1;
      var r := LastConfigure(events[..n]);
      assert r.Some? ==> r.value in events[..n];
      assert r.Some? ==>
        exists i | 0 <= i < |events| :: events[i] == r.value && forall j | i < j < |events| :: !events[j].ConfigureNotify? by {
        if r.Some? {
          var i :| 0 <= i < n && events[..n][i] == r.value
            && forall j | i < j < n :: !events[..n][j].ConfigureNotify?;
          assert forall j | i < j < |events| :: !events[j].ConfigureNotify? by {
            forall j | i < j < |events| ensures !events[j].ConfigureNotify? {
              if j < n { assert events[j] == events[..n][j]; }
            }
          }
        }
      }
      r
  }

  /** The ConfigureNotify events of `events`, in order. */
  function Configures(events: seq<Event>): (r: seq<Event>)
    ensures forall i | 0 <= i < |r| :: r[i].ConfigureNotify? && r[i] in events
    decreases |events|
  {
    if events == [] then []
    else
      var n := |events| - 1;
      var prefix := Configures(events[..n]);
      assert forall i | 0 <= i < |prefix| :: prefix[i] in events;
      if events[n].ConfigureNotify? then prefix + [events[n]] else prefix
  }

  /**
   * Draining keeps the window's position; with no ConfigureNotify it
   * changes nothing, and otherwise the rectangle takes the size the last
   * one reports and the viewport is the bounding box for that rectangle.
   */
  lemma {:induction false} DrainResult(cfg: Size, o: Output, events: seq<Event>)
    requires PositiveSize(cfg) && WellFormed(events)
    ensures Drain(cfg, o, events).rect.x == o.rect.x && Drain(cfg, o, events).rect.y == o.rect.y
    ensures LastConfigure(events).None? ==> Drain(cfg, o, events) == o
    ensures LastConfigure(events).Some? ==>
      var e := LastConfigure(events).value;
      var d := Drain(cfg, o, events);
      e.width > 0 && e.height > 0 && d.rect == Resized(o.rect, e) && d.viewport == ComputeBoundingBox(cfg, d.rect)
    decreases |events|
  {
    if events != [] {
      var n := |events| - 1;
      assert WellFormed(events[..n]);
      DrainResult(cfg, o, events[..n]);
    }
  }

  /** Events other than ConfigureNotify have no effect on the outcome. */
  lemma {:induction false} DrainIgnoresOtherEvents(cfg: Size, o: Output, events: seq<Event>)
    requires PositiveSize(cfg) && WellFormed(events)
    ensures WellFormed(Configures(events))
    ensures Drain(cfg, o, events) == Drain(cfg, o, Configures(events))
  {
    var c := Configures(events);
    assert WellFormed(c) by {
      forall i | 0 <= i < |c| ensures c[i].width > 0 && c[i].height > 0 {
        var j :| 0 <= j < |events| && events[j] == c[i];
      }
    }
    SameLastConfigure(events);
    DrainResult(cfg, o, events);
    DrainResult(cfg, o, c);
  }

  lemma {:induction false} SameLastConfigure(events: seq<Event>)
    ensures LastConfigure(Configures(events)) == LastConfigure(events)
    decreases |events|
  {
    if events != [] {
      var n := |events| - 1;
      SameLastConfigure(events[..n]);
      var prefix := Configures(events[..n]);
      if events[n].ConfigureNotify? {
        assert (prefix + [events[n]])[..|prefix|] == prefix;
      }
    }
  }
}
