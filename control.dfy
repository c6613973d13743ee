/**
 * do_control: the answer of the gles2 display to each control query of
 * the VLC core, and the viewport it leaves behind.
 */
module Control {
  import opened Geometry
  import opened Events
  import opened Vlc

  /** The queries do_control distinguishes; any other query code is OtherQuery. */
  datatype Query =
    | HideMouse                      // VOUT_DISPLAY_HIDE_MOUSE
    | ChangeFullscreen               // VOUT_DISPLAY_CHANGE_FULLSCREEN
    | ChangeWindowState(state: nat)  // VOUT_DISPLAY_CHANGE_WINDOW_STATE
    | ChangeDisplaySize(cfg: Size)   // VOUT_DISPLAY_CHANGE_DISPLAY_SIZE, with cfg->display
    | ChangeSourceAspect(cfg: Size)  // VOUT_DISPLAY_CHANGE_SOURCE_ASPECT, with cfg->display
    | OtherQuery(code: int)

  datatype Outcome = Outcome(status: Status, viewport: Rect)

  /** The two queries that carry a configuration and recompute the viewport. */
  predicate Recomputes(q: Query) {
    q.ChangeDisplaySize? || q.ChangeSourceAspect?
  }

  /**
   * do_control(query) with the window rectangle `rect` and the current
   * viewport: every query it knows succeeds, any other fails; only the
   * two configuration queries touch the viewport, which becomes the
   * bounding box of the query's display size in the window rectangle
   * (which the query does not change).
   */
  function DoControl(q: Query, rect: Rect, viewport: Rect): (r: Outcome)
    requires Recomputes(q) ==> PositiveSize(q.cfg) && PositiveRect(rect)
    ensures r.status == (if q.OtherQuery? then GenericError else Success)
    ensures !Recomputes(q) ==> r.viewport == viewport
    ensures Recomputes(q) ==> r.viewport == ComputeBoundingBox(q.cfg, rect)
    ensures Recomputes(q) ==>
      r.viewport.x + r.viewport.width <= rect.width && r.viewport.y + r.viewport.height <= rect.height
  {
    match q
    case HideMouse => Outcome(Success, viewport)
    case ChangeFullscreen => Outcome(Success, viewport)
    case ChangeWindowState(_) => Outcome(Success, viewport)
    case ChangeDisplaySize(cfg) => Outcome(Success, ComputeBoundingBox(cfg, rect))
    case ChangeSourceAspect(cfg) => Outcome(Success, ComputeBoundingBox(cfg, rect))
    case OtherQuery(_) => Outcome(GenericError, viewport)
  }

  /**
   * A configuration query leaves the viewport the event drain would
   * compute for a ConfigureNotify of the current window size, whatever
   * the viewport was before; issuing it twice is the same as once.
   */
  lemma RecomputeAgreesWithDrain(q: Query, rect: Rect, viewport: Rect)
    requires Recomputes(q) && PositiveSize(q.cfg) && PositiveRect(rect)
    ensures WellFormed([ConfigureNotify(rect.width, rect.height)])
    ensures DoControl(q, rect, viewport).viewport
         == Drain(q.cfg, Output(rect, viewport), [ConfigureNotify(rect.width, rect.height)]).viewport
    ensures DoControl(q, rect, DoControl(q, rect, viewport).viewport) == DoControl(q, rect, viewport)
  {
    var events := [ConfigureNotify(rect.width, rect.height)];
    assert events[..0] == [];
    assert Resized(rect, events[0]) == rect;
  }
}
