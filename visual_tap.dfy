/**
 * Model of the touch tracker: the `VisualTap` singleton, its enabled flag,
 * its configuration and the table from each live touch to its marker view.
 *
 * Touches are identified by number. A marker view (`TapView`) is an abstract
 * record: the touch it shows, its centre and whether it is on screen, fading
 * out after `end()`, or detached by `removeFromSuperview()`.
 */
module VisualTapCore {
  import opened Optional
  import WindowHelper

  type TouchId = nat

  datatype Point = Point(x: int, y: int)

  /** `UITouch.Phase`, with `UnknownPhase` for the `@unknown default` case. */
  datatype Phase =
    | Began | Moved | Stationary | Ended | Cancelled
    | RegionEntered | RegionMoved | RegionExited | UnknownPhase

  /** One touch of an event: its identity, its phase and its location in the top-most window. */
  datatype Touch = Touch(id: TouchId, phase: Phase, location: Point)

  /** `UIEvent.EventType`. */
  datatype EventType = Touches | Motion | RemoteControl | Presses | Scroll | Hover | Transform

  /**
   * A `UIEvent`. The host hands over `allTouches` as a set; here it is a
   * sequence (an absent set is the empty sequence). For distinct touches the
   * order does not matter: see `ReplayOrderIrrelevant`.
   */
  datatype Event = Event(kind: EventType, allTouches: seq<Touch>)

  datatype MarkerState = Shown | Fading | Detached

  /** A marker view (`TapView`). */
  datatype Marker = Marker(touch: TouchId, center: Point, state: MarkerState) {
    /** `TapView.moveTo`: recentre on the touch's new location. */
    function MoveTo(p: Point): Marker {
      this.(center := p)
    }

    /** `TapView.end`: start the fade-out. */
    function End(): Marker {
      this.(state := Fading)
    }

    function RemoveFromSuperview(): Marker {
      this.(state := Detached)
    }
  }

  /** `TapView()` followed by `begin(touch)`: a marker shown at the touch. */
  function Begin(t: Touch): Marker {
    Marker(t.id, t.location, Shown)
  }

  /**
   * `VisualTap.Configuration`, held as an opaque value: the tint colour is a
   * colour number, the image a system image name, the size integral.
   */
  datatype Configuration = Configuration(tintColor: nat, image: Option<string>, width: int, height: int, showsTimer: bool)

  /** `Configuration.default`: system fill tint, the "smallcircle.fill.circle" image, 60 x 60, no timer. */
  const DefaultConfiguration := Configuration(0, Some("smallcircle.fill.circle"), 60, 60, false)

  /** The `tapViews` dictionary. */
  type Table = map<TouchId, Marker>

  /** Dictionary lookup, `tapViews[touch]`. */
  function Entry(m: Table, k: TouchId): Option<Marker> {
    if k in m then Some(m[k]) else None
  }

  predicate EndsTouch(p: Phase) {
    p == Ended || p == Cancelled
  }

  /** The phases that open or close a touch's entry. */
  predicate IsLifecycle(p: Phase) {
    p == Began || EndsTouch(p)
  }

  // ---------------------------------------------------------------------------
  // The table update of `handleEvent`, one touch at a time, as functions.
  // ---------------------------------------------------------------------------

  /** The effect of one touch on the table (one case of the `switch`). */
  function Step(m: Table, t: Touch): (r: Table)
    ensures t.phase == Began ==> r.Keys == m.Keys + {t.id} && r[t.id] == Begin(t)
    ensures t.phase == Moved && t.id !in m ==> r == m
    ensures t.phase == Moved && t.id in m ==> r.Keys == m.Keys && r[t.id] == m[t.id].MoveTo(t.location)
    ensures EndsTouch(t.phase) ==> r.Keys == m.Keys - {t.id}
    ensures !IsLifecycle(t.phase) && t.phase != Moved ==> r == m
    ensures forall k :: k != t.id ==> Entry(r, k) == Entry(m, k)
  {
    match t.phase
    case Began => m[t.id := Begin(t)]
    case Moved => if t.id in m then m[t.id := m[t.id].MoveTo(t.location)] else m
    case Ended | Cancelled => m - {t.id}
    case _ => m
  }

  /** The marker whose `end()` one touch triggers, if any. */
  function Finishing(m: Table, t: Touch): seq<Marker> {
    if EndsTouch(t.phase) && t.id in m then [m[t.id].End()] else []
  }

  /** The table after the touches `ts`, processed in order from `m`. */
  function Replay(m: Table, ts: seq<Touch>): Table
    decreases ts
  {
    if ts == [] then m else Replay(Step(m, ts[0]), ts[1..])
  }

  /** The markers whose `end()` the touches `ts` trigger, in order. */
  function Faded(m: Table, ts: seq<Touch>): seq<Marker>
    decreases ts
  {
    if ts == [] then [] else Finishing(m, ts[0]) + Faded(Step(m, ts[0]), ts[1..])
  }

  /** Processing `a` then `b` is processing `a + b`. */
  lemma {:induction false} ReplayAppend(m: Table, a: seq<Touch>, b: seq<Touch>)
    ensures Replay(m, a + b) == Replay(Replay(m, a), b)
    ensures Faded(m, a + b) == Faded(m, a) + Faded(Replay(m, a), b)
    decreases a
  {
    if a == [] {
      assert a + b == b;
    } else {
      assert (a + b)[1..] == a[1..] + b;
      ReplayAppend(Step(m, a[0]), a[1..], b);
    }
  }

  lemma ReplayLast(m: Table, ts: seq<Touch>)
    requires ts != []
    ensures Replay(m, ts) == Step(Replay(m, ts[..|ts| - 1]), ts[|ts| - 1])
  {
    var n := |ts| - 1;
    assert ts == ts[..n] + [ts[n]];
    ReplayAppend(m, ts[..n], [ts[n]]);
  }

  // ---------------------------------------------------------------------------
  // Independent characterisations of the table.
  // ---------------------------------------------------------------------------

  /** The phase of the last touch of `k` in `ts` that began, ended or cancelled it. */
  function LastLifecycle(ts: seq<Touch>, k: TouchId): Option<Phase> {
    if ts == [] then None
    else
      var t := ts[|ts| - 1];
      if t.id == k && IsLifecycle(t.phase) then Some(t.phase) else LastLifecycle(ts[..|ts| - 1], k)
  }

  /** The location of the last touch of `k` in `ts` that began or moved it. */
  function LastPosition(ts: seq<Touch>, k: TouchId): Option<Point> {
    if ts == [] then None
    else
      var t := ts[|ts| - 1];
      if t.id == k && (t.phase == Began || t.phase == Moved) then Some(t.location)
      else LastPosition(ts[..|ts| - 1], k)
  }

  /** The touches that began in `ts` and were not ended or cancelled after. */
  ghost function LiveTouches(ts: seq<Touch>): set<TouchId> {
    set t | t in ts && LastLifecycle(ts, t.id) == Some(Began) :: t.id
  }

  /** Every entry shows its own touch and is on screen. */
  ghost predicate WellFormed(m: Table) {
    forall k :: k in m ==> m[k].touch == k && m[k].state == Shown
  }

  /**
   * A touch is in the table exactly when its last began/ended/cancelled
   * phase is `began`, or it has none and was in the table before.
   */
  lemma {:induction false} ReplayKeys(m: Table, ts: seq<Touch>, k: TouchId)
    ensures k in Replay(m, ts) <==>
            LastLifecycle(ts, k) == Some(Began) || (LastLifecycle(ts, k) == None && k in m)
  {
    if ts != [] {
      ReplayLast(m, ts);
      ReplayKeys(m, ts[..|ts| - 1], k);
    }
  }

  /**
   * A tracked marker shows its own touch, is on screen, and sits at the last
   * location at which that touch began or moved (or where it was, if it did
   * neither).
   */
  lemma {:induction false} ReplayMarker(m: Table, ts: seq<Touch>, k: TouchId)
    requires WellFormed(m)
    requires k in Replay(m, ts)
    ensures Replay(m, ts)[k].touch == k && Replay(m, ts)[k].state == Shown
    ensures LastPosition(ts, k).Some? ==> Replay(m, ts)[k].center == LastPosition(ts, k).value
    ensures LastPosition(ts, k).None? ==> k in m && Replay(m, ts)[k] == m[k]
  {
    if ts != [] {
      var n := |ts| - 1;
      var t := ts[n];
      ReplayLast(m, ts);
      var before := Replay(m, ts[..n]);
      if t.id != k {
        assert Entry(before, k) == Entry(Replay(m, ts), k);
        ReplayMarker(m, ts[..n], k);
      } else if t.phase == Moved {
        ReplayMarker(m, ts[..n], k);
      } else if t.phase != Began {
        ReplayMarker(m, ts[..n], k);
      }
    }
  }

  /** Replaying from a well-formed table keeps it well-formed. */
  lemma ReplayWellFormed(m: Table, ts: seq<Touch>)
    requires WellFormed(m)
    ensures WellFormed(Replay(m, ts))
  {
    forall k | k in Replay(m, ts) ensures Replay(m, ts)[k].touch == k && Replay(m, ts)[k].state == Shown {
      ReplayMarker(m, ts, k);
    }
  }

  lemma LastLifecycleHasTouch(ts: seq<Touch>, k: TouchId)
    requires LastLifecycle(ts, k).Some?
    ensures exists t :: t in ts && t.id == k
  {
    var n := |ts| - 1;
    if !(ts[n].id == k && IsLifecycle(ts[n].phase)) {
      LastLifecycleHasTouch(ts[..n], k);
      var t :| t in ts[..n] && t.id == k;
      assert t in ts;
    }
  }

  /**
   * From an empty table, the keys are exactly the touches that began and
   * have not ended or been cancelled since, and every marker is on screen at
   * its touch's last location.
   */
  lemma TableOfHistory(ts: seq<Touch>)
    ensures Replay(map[], ts).Keys == LiveTouches(ts)
    ensures WellFormed(Replay(map[], ts))
    ensures forall k :: k in Replay(map[], ts) ==>
              LastPosition(ts, k).Some? && Replay(map[], ts)[k].center == LastPosition(ts, k).value
  {
    var r := Replay(map[], ts);
    forall k ensures k in r <==> k in LiveTouches(ts) {
      ReplayKeys(map[], ts, k);
      if LastLifecycle(ts, k) == Some(Began) {
        LastLifecycleHasTouch(ts, k);
      }
    }
    forall k | k in r
      ensures r[k].touch == k && r[k].state == Shown
      ensures LastPosition(ts, k).Some? && r[k].center == LastPosition(ts, k).value
    {
      ReplayMarker(map[], ts, k);
    }
  }

  /** Every marker `handleEvent` ends is fading and was tracked before. */
  lemma {:induction false} FadedMarkers(m: Table, ts: seq<Touch>)
    requires WellFormed(m)
    ensures forall f :: f in Faded(m, ts) ==> f.state == Fading
    ensures forall f :: f in Faded(m, ts) ==> exists t :: t in ts && EndsTouch(t.phase) && t.id == f.touch
    decreases ts
  {
    if ts != [] {
      var t := ts[0];
      FadedMarkers(Step(m, t), ts[1..]);
      forall f | f in Faded(m, ts)
        ensures f.state == Fading
        ensures exists u :: u in ts && EndsTouch(u.phase) && u.id == f.touch
      {
        if f in Finishing(m, t) {
          assert t in ts;
        } else {
          assert f in Faded(Step(m, t), ts[1..]);
          var u :| u in ts[1..] && EndsTouch(u.phase) && u.id == f.touch;
          assert u in ts;
        }
      }
    }
  }

  /**
   * Once a touch has ended or been cancelled, any later end or cancel of the
   * same touch changes nothing and ends no marker.
   */
  lemma RepeatedEndIsNoOp(m: Table, t: Touch, u: Touch)
    requires EndsTouch(t.phase) && EndsTouch(u.phase) && u.id == t.id
    ensures Step(Step(m, t), u) == Step(m, t)
    ensures Finishing(Step(m, t), u) == []
  {
  }

  // ---------------------------------------------------------------------------
  // The touches of one event are a set: their order does not matter.
  // ---------------------------------------------------------------------------

  predicate Distinct(ts: seq<Touch>) {
    forall i, j :: 0 <= i < j < |ts| ==> ts[i].id != ts[j].id
  }

  lemma StepLocal(m1: Table, m2: Table, t: Touch)
    requires Entry(m1, t.id) == Entry(m2, t.id)
    ensures Entry(Step(m1, t), t.id) == Entry(Step(m2, t), t.id)
  {
  }

  /**
   * For distinct touches, each touch's entry is what its own phase makes of
   * the entry before, and every other entry is unchanged.
   */
  lemma {:induction false} ReplayDistinct(m: Table, ts: seq<Touch>)
    requires Distinct(ts)
    ensures forall j :: 0 <= j < |ts| ==> Entry(Replay(m, ts), ts[j].id) == Entry(Step(m, ts[j]), ts[j].id)
    ensures forall k :: (forall t :: t in ts ==> t.id != k) ==> Entry(Replay(m, ts), k) == Entry(m, k)
    decreases ts
  {
    if ts != [] {
      var t0 := ts[0];
      var m1 := Step(m, t0);
      var rest := ts[1..];
      assert Distinct(rest);
      ReplayDistinct(m1, rest);
      forall j | 0 <= j < |ts|
        ensures Entry(Replay(m, ts), ts[j].id) == Entry(Step(m, ts[j]), ts[j].id)
      {
        if j == 0 {
          assert forall t :: t in rest ==> t.id != t0.id;
        } else {
          assert rest[j - 1] == ts[j];
          assert ts[j].id != t0.id;
          StepLocal(m1, m, ts[j]);
        }
      }
      forall k | forall t :: t in ts ==> t.id != k
        ensures Entry(Replay(m, ts), k) == Entry(m, k)
      {
        assert t0 in ts;
        assert forall t :: t in rest ==> t in ts;
      }
    }
  }

  lemma EntriesDetermineTable(a: Table, b: Table)
    requires forall k :: Entry(a, k) == Entry(b, k)
    ensures a == b
  {
    assert a.Keys == b.Keys by {
      forall k ensures k in a <==> k in b {
        assert Entry(a, k).Some? <==> Entry(b, k).Some?;
      }
    }
    forall k | k in a ensures a[k] == b[k] {
      assert Entry(a, k) == Entry(b, k);
    }
  }

  /**
   * For distinct touches, a marker is ended exactly when it is the marker of
   * a tracked touch that ends or is cancelled in the event.
   */
  lemma {:induction false} FadedDistinct(m: Table, ts: seq<Touch>, f: Marker)
    requires Distinct(ts)
    ensures f in Faded(m, ts) <==> exists t :: t in ts && EndsTouch(t.phase) && t.id in m && f == m[t.id].End()
    decreases ts
  {
    if ts != [] {
      var t0 := ts[0];
      var m1 := Step(m, t0);
      var rest := ts[1..];
      assert Distinct(rest);
      FadedDistinct(m1, rest, f);
      assert forall t :: t in rest ==> t.id != t0.id && Entry(m1, t.id) == Entry(m, t.id) by {
        forall t | t in rest ensures t.id != t0.id && Entry(m1, t.id) == Entry(m, t.id) {
          var i :| 0 <= i < |rest| && rest[i] == t;
          assert ts[i + 1] == t;
        }
      }
      if exists t :: t in ts && EndsTouch(t.phase) && t.id in m && f == m[t.id].End() {
        var t :| t in ts && EndsTouch(t.phase) && t.id in m && f == m[t.id].End();
        if t != t0 {
          assert t in rest;
        }
      }
      assert forall t :: t in rest ==> t in ts;
    }
  }

  /**
   * Any two orders of the same distinct touches give the same table and end
   * the same markers.
   */
  lemma ReplayOrderIrrelevant(m: Table, ts: seq<Touch>, us: seq<Touch>)
    requires Distinct(ts) && Distinct(us) && multiset(ts) == multiset(us)
    ensures Replay(m, ts) == Replay(m, us)
    ensures forall f :: f in Faded(m, ts) <==> f in Faded(m, us)
  {
    ReplayDistinct(m, ts);
    ReplayDistinct(m, us);
    assert forall t :: t in ts <==> t in us by {
      forall t ensures t in ts <==> t in us {
        assert t in ts <==> t in multiset(ts);
        assert t in us <==> t in multiset(us);
      }
    }
    forall k ensures Entry(Replay(m, ts), k) == Entry(Replay(m, us), k) {
      if j :| 0 <= j < |ts| && ts[j].id == k {
        assert ts[j] in us;
        var j' :| 0 <= j' < |us| && us[j'] == ts[j];
      } else {
        assert forall t :: t in ts ==> t.id != k;
      }
    }
    EntriesDetermineTable(Replay(m, ts), Replay(m, us));
    forall f ensures f in Faded(m, ts) <==> f in Faded(m, us) {
      FadedDistinct(m, ts, f);
      FadedDistinct(m, us, f);
    }
  }

  // ---------------------------------------------------------------------------
  // The tracker object.
  // ---------------------------------------------------------------------------

  /** The `VisualTap` class. */
  class VisualTap {
    var configuration: Configuration
    var isEnabled: bool
    var tapViews: Table
    /** The touches `handleEvent` has applied since the table was last emptied. */
    ghost var history: seq<Touch>

    /**
     * The table is the replay of the touches since the last clear: its keys
     * are exactly the live touches and each marker shows its own touch.
     */
    ghost predicate Valid()
      reads this
    {
      && tapViews == Replay(map[], history)
      && tapViews.Keys == LiveTouches(history)
      && WellFormed(tapViews)
    }

    /** `VisualTap()`: disabled, default configuration, no markers. */
    constructor ()
      ensures Valid()
      ensures !isEnabled && tapViews == map[] && history == [] && configuration == DefaultConfiguration
    {
      configuration := DefaultConfiguration;
      isEnabled := false;
      tapViews := map[];
      history := [];
    }

    /**
     * `start`: install the dispatch hook on the top-most window (if there is
     * one and the hook is not installed yet), enable, adopt `config`, and
     * clear leftover markers. The runtime's two method lookups are inputs.
     */
    method Start(config: Configuration, windows: seq<WindowHelper.Window>, hook: WindowHelper.SwizzleState,
                 sendEventFound: bool, swizzledSendEventFound: bool)
      returns (detached: seq<Marker>)
      requires hook.Valid()
      modifies this, hook
      ensures Valid() && hook.Valid()
      ensures isEnabled && configuration == config && tapViews == map[] && history == []
      ensures |detached| == |old(tapViews)|
      ensures forall k :: k in old(tapViews) ==> old(tapViews)[k].RemoveFromSuperview() in detached
      ensures hook.isSwizzled == (old(hook.isSwizzled) ||
                (WindowHelper.TopMostWindow(windows).Some? && sendEventFound && swizzledSendEventFound))
      ensures old(hook.isSwizzled) ==> hook.exchanges == old(hook.exchanges)
    {
      if WindowHelper.TopMostWindow(windows).Some? {
        hook.Swizzle(sendEventFound, swizzledSendEventFound);
      }
      isEnabled := true;
      configuration := config;
      detached := ClearAllTapViews();
    }

    /** `stop`: disable, clear all markers, and release the shared instance. */
    method Stop(slot: SharedSlot) returns (detached: seq<Marker>)
      modifies this, slot
      ensures Valid() && slot.Valid()
      ensures !isEnabled && configuration == old(configuration) && tapViews == map[] && history == []
      ensures |detached| == |old(tapViews)|
      ensures forall k :: k in old(tapViews) ==> old(tapViews)[k].RemoveFromSuperview() in detached
      ensures slot.instance == None
    {
      isEnabled := false;
      detached := ClearAllTapViews();
      slot.instance := None;
    }

    /**
     * `handleEvent`: while enabled, apply each touch of a touches event to
     * the table; otherwise change nothing. Returns the markers it ended.
     */
    method HandleEvent(event: Event) returns (ended: seq<Marker>)
      requires Valid()
      modifies this
      ensures Valid()
      ensures isEnabled == old(isEnabled) && configuration == old(configuration)
      ensures old(isEnabled) && event.kind == Touches ==>
                && tapViews == Replay(old(tapViews), event.allTouches)
                && ended == Faded(old(tapViews), event.allTouches)
                && history == old(history) + event.allTouches
      ensures !old(isEnabled) || event.kind != Touches ==>
                tapViews == old(tapViews) && ended == [] && history == old(history)
    {
      ended := [];
      if !isEnabled || event.kind != Touches {
        return;
      }
      var touches := event.allTouches;
      var i := 0;
      while i < |touches|
        invariant 0 <= i <= |touches|
        invariant tapViews == Replay(old(tapViews), touches[..i])
        invariant ended == Faded(old(tapViews), touches[..i])
        invariant isEnabled == old(isEnabled) && configuration == old(configuration) && history == old(history)
      {
        var touch := touches[i];
        ReplayAppend(old(tapViews), touches[..i], [touch]);
        match touch.phase {
          case Began =>
            tapViews := tapViews[touch.id := Begin(touch)];
          case Moved =>
            if touch.id in tapViews {
              tapViews := tapViews[touch.id := tapViews[touch.id].MoveTo(touch.location)];
            }
          case Ended | Cancelled =>
            if touch.id in tapViews {
              ended := ended + [tapViews[touch.id].End()];
            }
            tapViews := tapViews - {touch.id};
          case _ =>
        }
        assert touches[..i + 1] == touches[..i] + [touch];
        i := i + 1;
      }
      assert touches[..i] == touches;
      ReplayAppend(map[], history, touches);
      history := history + touches;
      TableOfHistory(history);
    }

    /**
     * `clearAllTapViews`: detach every marker from the screen, then empty
     * the table. Returns the detached markers.
     */
    method ClearAllTapViews() returns (detached: seq<Marker>)
      modifies this
      ensures Valid()
      ensures tapViews == map[] && history == []
      ensures isEnabled == old(isEnabled) && configuration == old(configuration)
      ensures |detached| == |old(tapViews)|
      ensures forall k :: k in old(tapViews) ==> old(tapViews)[k].RemoveFromSuperview() in detached
      ensures forall d :: d in detached ==> d.state == Detached
      ensures forall d :: d in detached ==> exists k :: k in old(tapViews) && d == old(tapViews)[k].RemoveFromSuperview()
    {
      detached := [];
      var pending := tapViews.Keys;
      while pending != {}
        invariant pending <= tapViews.Keys
        invariant |detached| + |pending| == |tapViews|
        invariant forall k :: k in tapViews && k !in pending ==> tapViews[k].RemoveFromSuperview() in detached
        invariant forall d :: d in detached ==> exists k :: k in tapViews && k !in pending && d == tapViews[k].RemoveFromSuperview()
        decreases pending
      {
        var k :| k in pending;
        detached := detached + [tapViews[k].RemoveFromSuperview()];
        pending := pending - {k};
      }
      tapViews := map[];
      history := [];
    }

    /** The orientation-change observer registered by the initializer. */
    method OrientationDidChange() returns (detached: seq<Marker>)
      modifies this
      ensures Valid()
      ensures tapViews == map[]
      ensures isEnabled == old(isEnabled) && configuration == old(configuration)
      ensures |detached| == |old(tapViews)|
      ensures forall k :: k in old(tapViews) ==> old(tapViews)[k].RemoveFromSuperview() in detached
    {
      detached := ClearAllTapViews();
    }
  }

  /** The static `VisualTap.instance` slot. */
  class SharedSlot {
    var instance: Option<VisualTap>

    ghost predicate Valid()
      reads this, if instance.Some? then {instance.value} else {}
    {
      instance.Some? ==> instance.value.Valid()
    }

    /** The slot at process start: empty. */
    constructor ()
      ensures Valid() && instance == None
    {
      instance := None;
    }

    /** `VisualTap.shared`: the stored instance, or a fresh one that is stored. */
    method Shared() returns (vt: VisualTap)
      requires Valid()
      modifies this
      ensures Valid() && vt.Valid()
      ensures instance == Some(vt)
      ensures old(instance).Some? ==> vt == old(instance).value
      ensures old(instance).None? ==>
                fresh(vt) && !vt.isEnabled && vt.tapViews == map[] && vt.configuration == DefaultConfiguration
    {
      if instance.Some? {
        vt := instance.value;
      } else {
        vt := new VisualTap();
        instance := Some(vt);
      }
    }
  }
}
