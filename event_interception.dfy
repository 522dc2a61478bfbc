/**
 * Model of the swizzled event dispatch: once the hook is installed, every
 * event sent to a window first reaches the shared tracker (if there is one)
 * and is then forwarded to the host's original implementation.
 */
module EventInterception {
  import opened Optional
  import WindowHelper
  import opened VisualTapCore

  /** The host's original `sendEvent` implementation, seen through the events it has delivered. */
  class OriginalSendEvent {
    var delivered: seq<Event>

    constructor ()
      ensures delivered == []
    {
      delivered := [];
    }

    method Deliver(event: Event)
      modifies this
      ensures delivered == old(delivered) + [event]
    {
      delivered := delivered + [event];
    }
  }

  /**
   * `swizzledSendEvent`: hand the event to the shared instance when one
   * exists, then forward it to the original implementation.
   */
  method SwizzledSendEvent(slot: SharedSlot, original: OriginalSendEvent, event: Event)
    returns (ended: seq<Marker>)
    requires slot.Valid()
    modifies original, if slot.instance.Some? then {slot.instance.value} else {}
    ensures slot.Valid()
    ensures original.delivered == old(original.delivered) + [event]
    ensures slot.instance.None? ==> ended == []
    ensures slot.instance.Some? ==>
              var vt := slot.instance.value;
              && vt.isEnabled == old(vt.isEnabled)
              && vt.configuration == old(vt.configuration)
              && (old(vt.isEnabled) && event.kind == Touches ==>
                    && vt.tapViews == Replay(old(vt.tapViews), event.allTouches)
                    && ended == Faded(old(vt.tapViews), event.allTouches)
                    && vt.history == old(vt.history) + event.allTouches)
              && (!old(vt.isEnabled) || event.kind != Touches ==>
                    vt.tapViews == old(vt.tapViews) && ended == [] && vt.history == old(vt.history))
  {
    ended := [];
    if slot.instance.Some? {
      ended := slot.instance.value.HandleEvent(event);
    }
    original.Deliver(event);
  }

  /**
   * An event sent to a window: it runs the swizzled implementation when the
   * implementations have been exchanged, and the original one otherwise.
   * Either way the original implementation receives it exactly once.
   */
  method SendEvent(hook: WindowHelper.SwizzleState, slot: SharedSlot, original: OriginalSendEvent, event: Event)
    returns (ended: seq<Marker>)
    requires slot.Valid()
    modifies original, if slot.instance.Some? then {slot.instance.value} else {}
    ensures slot.Valid()
    ensures original.delivered == old(original.delivered) + [event]
    ensures !hook.Hooked() || slot.instance.None? ==> ended == []
    ensures !hook.Hooked() && slot.instance.Some? ==> unchanged(slot.instance.value)
    ensures hook.Hooked() && slot.instance.Some? ==>
              var vt := slot.instance.value;
              && vt.isEnabled == old(vt.isEnabled)
              && vt.configuration == old(vt.configuration)
              && (old(vt.isEnabled) && event.kind == Touches ==>
                    && vt.tapViews == Replay(old(vt.tapViews), event.allTouches)
                    && ended == Faded(old(vt.tapViews), event.allTouches)
                    && vt.history == old(vt.history) + event.allTouches)
              && (!old(vt.isEnabled) || event.kind != Touches ==>
                    vt.tapViews == old(vt.tapViews) && ended == [] && vt.history == old(vt.history))
  {
    if hook.Hooked() {
      ended := SwizzledSendEvent(slot, original, event);
    } else {
      ended := [];
      original.Deliver(event);
    }
  }
}
