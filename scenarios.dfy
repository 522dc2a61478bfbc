/**
 * Client-side consequences of the contracts: what a caller of the library
 * can rely on across several calls.
 */
module Scenarios {
  import opened Optional
  import WindowHelper
  import opened VisualTapCore
  import opened EventInterception

  /** Two consecutive reads of `VisualTap.shared` yield the same object. */
  method SharedTwice(slot: SharedSlot) returns (first: VisualTap, second: VisualTap)
    requires slot.Valid()
    modifies slot
    ensures first == second && slot.instance == Some(first)
  {
    first := slot.Shared();
    second := slot.Shared();
  }

  /** After `stop`, `VisualTap.shared` yields a fresh, disabled tracker with no markers. */
  method StopThenShared(slot: SharedSlot) returns (stopped: VisualTap, next: VisualTap)
    requires slot.Valid()
    modifies slot, if slot.instance.Some? then {slot.instance.value} else {}
    ensures stopped != next && fresh(next)
    ensures !next.isEnabled && next.tapViews == map[] && slot.instance == Some(next)
  {
    stopped := slot.Shared();
    var _ := stopped.Stop(slot);
    next := slot.Shared();
  }

  /**
   * One finger: it begins at `a` (one marker there), moves to `b` (the
   * marker follows), and ends (no marker left, and the ended marker fades).
   */
  method OneFinger(vt: VisualTap, id: TouchId, a: Point, b: Point) returns (ended: seq<Marker>)
    requires vt.Valid() && vt.isEnabled && vt.tapViews == map[]
    modifies vt
    ensures vt.tapViews == map[]
    ensures ended == [Marker(id, b, Fading)]
  {
    var _ := vt.HandleEvent(Event(Touches, [Touch(id, Began, a)]));
    assert vt.tapViews == map[id := Marker(id, a, Shown)];
    var _ := vt.HandleEvent(Event(Touches, [Touch(id, Moved, b)]));
    assert vt.tapViews == map[id := Marker(id, b, Shown)];
    ended := vt.HandleEvent(Event(Touches, [Touch(id, Ended, b)]));
  }

  /**
   * After `stop`, touch events reach no tracker and leave the stopped one
   * without markers. Restarting through `shared` gives a new tracker which,
   * once `start` has installed the hook, tracks touches again.
   */
  method StopThenRestart(slot: SharedSlot, hook: WindowHelper.SwizzleState, original: OriginalSendEvent,
                         id: TouchId, p: Point)
    returns (stopped: VisualTap, restarted: VisualTap)
    requires slot.Valid() && hook.Valid()
    modifies slot, hook, original
    modifies if slot.instance.Some? then {slot.instance.value} else {}
    ensures stopped != restarted && restarted.isEnabled && !stopped.isEnabled
    ensures stopped.tapViews == map[]
    ensures restarted.tapViews == map[id := Marker(id, p, Shown)]
    ensures slot.instance == Some(restarted)
  {
    var began := Event(Touches, [Touch(id, Began, p)]);
    var windows := [WindowHelper.Window(false, true, 0)];
    assert WindowHelper.VisibleKey(windows[0]);
    stopped := slot.Shared();
    var _ := stopped.Stop(slot);
    var _ := SendEvent(hook, slot, original, began);
    assert stopped.tapViews == map[];
    restarted := slot.Shared();
    var _ := restarted.Start(DefaultConfiguration, windows, hook, true, true);
    assert hook.Hooked() && restarted.isEnabled && restarted.tapViews == map[];
    DeliverFirstTouch(hook, slot, original, restarted, id, p);
  }

  /** With the hook installed, a began touch reaches the enabled shared tracker. */
  method DeliverFirstTouch(hook: WindowHelper.SwizzleState, slot: SharedSlot, original: OriginalSendEvent,
                           vt: VisualTap, id: TouchId, p: Point)
    requires hook.Hooked() && slot.Valid() && slot.instance == Some(vt)
    requires vt.isEnabled && vt.tapViews == map[]
    modifies original, vt
    ensures vt.isEnabled && vt.tapViews == map[id := Marker(id, p, Shown)]
  {
    var t := Touch(id, Began, p);
    var _ := SendEvent(hook, slot, original, Event(Touches, [t]));
    assert vt.tapViews == Replay(map[], [t]) == Step(map[], t);
  }

  /**
   * `start` does not store the tracker back in the shared slot: a reference
   * kept across `stop` and then started again is enabled but no longer
   * receives events from the dispatch hook.
   */
  method KeptInstanceRestart(slot: SharedSlot, hook: WindowHelper.SwizzleState, original: OriginalSendEvent,
                             id: TouchId, p: Point)
    returns (kept: VisualTap)
    requires slot.Valid() && hook.Valid()
    modifies slot, hook, original
    modifies if slot.instance.Some? then {slot.instance.value} else {}
    ensures kept.isEnabled && kept.tapViews == map[] && slot.instance == None
  {
    var windows := [WindowHelper.Window(false, true, 0)];
    assert WindowHelper.VisibleKey(windows[0]);
    kept := slot.Shared();
    var _ := kept.Stop(slot);
    var _ := kept.Start(DefaultConfiguration, windows, hook, true, true);
    var _ := SendEvent(hook, slot, original, Event(Touches, [Touch(id, Began, p)]));
  }
}
