/**
 * Model of the window helpers: the rule that picks the window touch markers
 * are drawn on, and the once-only exchange of the event dispatch
 * implementation ("swizzling").
 */
module WindowHelper {
  import opened Optional

  /**
   * A top-level window as the selection rule sees it. The host's
   * floating-point window level is an integer here: only its order matters.
   */
  datatype Window = Window(isHidden: bool, isKeyWindow: bool, windowLevel: int)

  /** The filter of `topMostWindow`: visible and the key window. */
  predicate VisibleKey(w: Window) {
    !w.isHidden && w.isKeyWindow
  }

  /** The `filter` step: keeps exactly the visible key windows, in order. */
  function VisibleKeyWindows(windows: seq<Window>): (r: seq<Window>)
    ensures forall w :: w in r <==> w in windows && VisibleKey(w)
    ensures |r| <= |windows|
  {
    if windows == [] then []
    else (if VisibleKey(windows[0]) then [windows[0]] else []) + VisibleKeyWindows(windows[1..])
  }

  ghost predicate SortedByLevel(s: seq<Window>) {
    forall i, j :: 0 <= i < j < |s| ==> s[i].windowLevel <= s[j].windowLevel
  }

  /** Inserts `w` into a level-sorted sequence. */
  function InsertByLevel(w: Window, s: seq<Window>): (r: seq<Window>)
    requires SortedByLevel(s)
    ensures SortedByLevel(r)
    ensures multiset(r) == multiset(s) + multiset{w}
    ensures |r| == |s| + 1 && (r[0] == w || (|s| > 0 && r[0] == s[0]))
  {
    if s == [] || w.windowLevel <= s[0].windowLevel then [w] + s
    else
      assert s == [s[0]] + s[1..];
      [s[0]] + InsertByLevel(w, s[1..])
  }

  /**
   * The `sorted { $0.windowLevel < $1.windowLevel }` step: a permutation of
   * the input in ascending level order. Which of several windows with equal
   * levels comes last is not specified by the host's sort, and nothing
   * below depends on it.
   */
  function SortByLevel(s: seq<Window>): (r: seq<Window>)
    ensures SortedByLevel(r)
    ensures multiset(r) == multiset(s)
  {
    if s == [] then []
    else
      assert s == [s[0]] + s[1..];
      InsertByLevel(s[0], SortByLevel(s[1..]))
  }

  lemma SameElements(a: seq<Window>, b: seq<Window>)
    requires multiset(a) == multiset(b)
    ensures forall x :: x in a <==> x in b
  {
    forall x ensures x in a <==> x in b {
      assert x in a <==> x in multiset(a);
      assert x in b <==> x in multiset(b);
    }
  }

  lemma LastIsHighest(s: seq<Window>)
    requires SortedByLevel(s) && |s| > 0
    ensures forall w :: w in s ==> w.windowLevel <= s[|s| - 1].windowLevel
  {
    forall w | w in s ensures w.windowLevel <= s[|s| - 1].windowLevel {
      var i :| 0 <= i < |s| && s[i] == w;
      assert i <= |s| - 1;
    }
  }

  /**
   * `UIWindow.topMostWindow`: the last of the visible key windows sorted by
   * level, or none when there is no visible key window.
   */
  function TopMostWindow(windows: seq<Window>): (r: Option<Window>)
    ensures r.None? <==> forall w :: w in windows ==> !VisibleKey(w)
    ensures r.Some? ==> r.value in windows && VisibleKey(r.value)
    ensures r.Some? ==> forall w :: w in windows && VisibleKey(w) ==> w.windowLevel <= r.value.windowLevel
  {
    var candidates := VisibleKeyWindows(windows);
    var sorted := SortByLevel(candidates);
    SameElements(sorted, candidates);
    if |sorted| == 0 then
      None
    else
      LastIsHighest(sorted);
      var top := sorted[|sorted| - 1];
      Some(top)
  }

  /**
   * The process-wide `isSwizzled` flag, together with the number of times
   * the implementations of `sendEvent` and `swizzledSendEvent` have been
   * exchanged (each exchange swaps them, so an odd count means the hook is
   * installed).
   */
  class SwizzleState {
    var isSwizzled: bool
    var exchanges: nat

    /** The flag is raised exactly when one exchange has happened. */
    ghost predicate Valid()
      reads this
    {
      exchanges == if isSwizzled then 1 else 0
    }

    /** Whether event dispatch currently runs the swizzled implementation. */
    predicate Hooked()
      reads this
    {
      exchanges % 2 == 1
    }

    /** The flag's initial value at process start. */
    constructor ()
      ensures Valid() && !isSwizzled && exchanges == 0 && !Hooked()
    {
      isSwizzled := false;
      exchanges := 0;
    }

    /**
     * `UIWindow.swizzle`. The two method lookups of the runtime are inputs:
     * each either finds its method or fails.
     */
    method Swizzle(sendEventFound: bool, swizzledSendEventFound: bool)
      requires Valid()
      modifies this
      ensures Valid()
      ensures isSwizzled == (old(isSwizzled) || (sendEventFound && swizzledSendEventFound))
      ensures old(isSwizzled) || !sendEventFound || !swizzledSendEventFound ==> exchanges == old(exchanges)
      ensures exchanges <= 1 && Hooked() == isSwizzled
    {
      if isSwizzled || !sendEventFound || !swizzledSendEventFound {
        return;
      }
      exchanges := exchanges + 1;
      isSwizzled := true;
    }
  }
}
