# VisualTap touch tracking, modelled in Dafny

VisualTap is an iOS library that draws a marker at every finger on the screen.
It hooks the window's event dispatch by exchanging the `sendEvent`
implementation once per process ("swizzling"). A singleton tracker then keeps
a table from each live touch to its marker view. `began` inserts an entry,
`moved` recentres the marker if the touch is tracked, and `ended`/`cancelled`
fade the marker out and drop the entry. Every other phase is ignored. Markers
are drawn on the top-most window, which is the visible key window with the
highest level.

The project models this core:

- `window_helper.dfy`, module `WindowHelper`. It holds the window record, the
  `topMostWindow` selection rule (a filter, a sort by level and the last
  element) and the process-wide `isSwizzled` guard as a class. The guard also
  counts the implementation exchanges it has made.
- `visual_tap.dfy`, module `VisualTapCore`. It holds touches, phases, events,
  markers and the configuration as datatypes. It has the table update as
  functions (`Step` for one touch, `Replay` for a sequence of touches) and
  independent characterisations of the result. The `VisualTap` class has the
  `configuration`, `isEnabled` and `tapViews` fields. Its invariant is that the
  table is the replay of the touches since the last clear. Its keys are then
  exactly the touches that began and have not ended or been cancelled since.
  The static `instance` slot is the class `SharedSlot`.
- `event_interception.dfy`, module `EventInterception`. It models
  `swizzledSendEvent` and the dispatch of an event before and after the
  exchange. This is a separate module because the tracker's `start` uses the
  window helpers, while the swizzled dispatch uses the tracker.
- `scenarios.dfy`, module `Scenarios`. These are client methods that prove
  multi-call consequences from the contracts alone.
- `optional.dfy`, module `Optional`. It defines `Option`, used for Swift optionals.

A marker view is an abstract record: the touch it shows, its centre, and
whether it is shown, fading (after `end()`), or detached (after
`removeFromSuperview()`). `HandleEvent` returns the markers it ended.
`ClearAllTapViews` returns the markers it detached.

The touches of an event arrive as a set. The model takes them as a sequence.
`ReplayOrderIrrelevant` proves that any order of the same distinct touches
gives the same table and ends the same markers.

The code does not end the old marker when `began` arrives for a touch that is
already tracked. It overwrites the dictionary entry and nothing more. The model
does the same.

`start` does not put the tracker back into the shared slot, and only the
tracker in that slot receives events from the hook. A tracker reference kept
across `stop` and then started again is therefore enabled but sees no further
events (`Scenarios.KeptInstanceRestart`). Restarting through `shared` gives a
new tracker that does see them (`Scenarios.StopThenRestart`).

## Model

| member | source | states |
|---|---|---|
| `WindowHelper.VisibleKeyWindows` | Source/VisualTap/Helpers/UIWindow+Helper.swift:41 | the filter keeps a window exactly when it is in the input, not hidden and the key window |
| `WindowHelper.InsertByLevel` | Source/VisualTap/Helpers/UIWindow+Helper.swift:42 | inserting into a level-sorted sequence keeps it sorted and adds exactly that window (as a multiset) |
| `WindowHelper.SortByLevel` | Source/VisualTap/Helpers/UIWindow+Helper.swift:42 | the sort step returns a permutation of its input in ascending window level |
| `WindowHelper.TopMostWindow` | Source/VisualTap/Helpers/UIWindow+Helper.swift:39-44 | the result is none exactly when no window is both visible and key; otherwise it is one of the windows, visible and key, and its level is at least that of every visible key window |
| `WindowHelper.SwizzleState.constructor` | Source/VisualTap/Helpers/UIWindow+Helper.swift:13 | the process starts with `isSwizzled` false and no exchange made |
| `WindowHelper.SwizzleState.Swizzle` | Source/VisualTap/Helpers/UIWindow+Helper.swift:19-26 | the flag becomes true exactly when it was true or both method lookups succeed; once it is set, or if a lookup fails, no exchange happens; at most one exchange is ever made and the hook is installed exactly when the flag is set |
| `VisualTapCore.Step` | Sources/VisualTap/VisualTap.swift:103-121 | `began` maps the touch to a new shown marker at its location, replacing any old entry; `moved` on an untracked touch changes nothing and on a tracked one recentres only that marker and keeps the key set; `ended`/`cancelled` remove exactly that key; every other phase changes nothing; entries of other touches never change |
| `VisualTapCore.ReplayAppend` | Sources/VisualTap/VisualTap.swift:102-122 | applying touches one after another composes: the table and the ended markers after `a + b` are those after `a`, then `b` |
| `VisualTapCore.ReplayKeys` | Sources/VisualTap/VisualTap.swift:102-122 | a touch is in the table after a sequence of touches exactly when its last began/ended/cancelled phase is `began`, or it has none and it was in the table before |
| `VisualTapCore.ReplayMarker` | Sources/VisualTap/VisualTap.swift:104-111 | every tracked marker shows its own touch, is on screen and sits at the location where that touch last began or moved |
| `VisualTapCore.ReplayWellFormed` | Sources/VisualTap/VisualTap.swift:102-122 | processing touches keeps every entry's marker tied to its own touch and on screen |
| `VisualTapCore.TableOfHistory` | Sources/VisualTap/VisualTap.swift:98-130 | starting from an empty table, the keys are exactly the touches that began and were not ended or cancelled since, so the number of markers equals the number of live touches, and each marker is at its touch's last location |
| `VisualTapCore.FadedMarkers` | Sources/VisualTap/VisualTap.swift:113-116 | for any touch sequence, every marker `handleEvent` ends is fading and belongs to a touch that ended or was cancelled in that event; the converse for the distinct touches of one event is `FadedDistinct` |
| `VisualTapCore.RepeatedEndIsNoOp` | Sources/VisualTap/VisualTap.swift:113-116 | after a touch has ended or been cancelled, any later `ended`/`cancelled` of the same touch, at any location, changes nothing and ends no marker |
| `VisualTapCore.ReplayDistinct` | Sources/VisualTap/VisualTap.swift:102-122 | for distinct touches, each touch's entry is what its own phase makes of its previous entry, and entries of touches not in the event are unchanged |
| `VisualTapCore.FadedDistinct` | Sources/VisualTap/VisualTap.swift:102-116 | for the distinct touches of one event, a marker is ended exactly when it is the marker of a tracked touch that ends or is cancelled in the event |
| `VisualTapCore.ReplayOrderIrrelevant` | Sources/VisualTap/VisualTap.swift:102-122 | any two orders of the same distinct touches yield the same table and end the same markers, so iterating the event's touch set in any order is equivalent |
| `VisualTapCore.VisualTap.constructor` | Sources/VisualTap/VisualTap.swift:44-51 | a new tracker is disabled, has the default configuration and tracks no touches |
| `VisualTapCore.VisualTap.Start` | Sources/VisualTap/VisualTap.swift:79-84 | afterwards the tracker is enabled, its configuration is the argument and the table is empty, every old marker detached; the hook is installed when a top-most window exists, both lookups succeed and it was not installed before, and is never installed twice |
| `VisualTapCore.VisualTap.Stop` | Sources/VisualTap/VisualTap.swift:87-91 | afterwards the tracker is disabled, the table is empty, every old marker was detached and the shared slot is empty |
| `VisualTapCore.VisualTap.HandleEvent` | Sources/VisualTap/VisualTap.swift:98-123 | when disabled or for a non-touches event nothing changes; otherwise the table becomes the replay of the event's touches over the old table, the ended markers are those the replay ends, and the class invariant holds |
| `VisualTapCore.VisualTap.ClearAllTapViews` | Sources/VisualTap/VisualTap.swift:127-130 | every old marker is detached exactly once and the table is left empty; the enabled flag and configuration are unchanged |
| `VisualTapCore.VisualTap.OrientationDidChange` | Sources/VisualTap/VisualTap.swift:57-60 | an orientation change empties the table and detaches every marker |
| `VisualTapCore.SharedSlot.constructor` | Sources/VisualTap/VisualTap.swift:32 | the process starts with no shared instance |
| `VisualTapCore.SharedSlot.Shared` | Sources/VisualTap/VisualTap.swift:19-27 | returns the stored instance when there is one; otherwise it creates a fresh, disabled, empty tracker with the default configuration, stores it and returns it |
| `EventInterception.SwizzledSendEvent` | Source/VisualTap/Helpers/UIWindow+Helper.swift:28-31 | the shared tracker, when it exists, handles the event as `handleEvent` does: same table, same ended markers, flag and configuration unchanged; without a shared tracker nothing is ended; the event is always forwarded exactly once to the original implementation |
| `EventInterception.SendEvent` | Source/VisualTap/Helpers/UIWindow+Helper.swift:24-31 | before the exchange the tracker object is entirely unchanged and nothing is ended; after it the shared tracker handles the event as `handleEvent` does (table, ended markers, flag, configuration); in both cases the original implementation receives it exactly once |
| `Scenarios.SharedTwice` | Sources/VisualTap/VisualTap.swift:19-27 | two consecutive reads of `shared` yield the same object |
| `Scenarios.StopThenShared` | Sources/VisualTap/VisualTap.swift:87-91 | after `stop`, `shared` yields a new tracker that is disabled and empty |
| `Scenarios.StopThenRestart` | Sources/VisualTap/VisualTap.swift:79-91 | after `stop`, an event leaves the stopped tracker without markers; `shared` then gives a different tracker which, once started on a window with a visible key window, tracks a began touch delivered through the hook |
| `Scenarios.DeliverFirstTouch` | Source/VisualTap/Helpers/UIWindow+Helper.swift:28-31 | with the hook installed and an enabled, empty shared tracker, a began touch sent to the window leaves exactly that touch's marker in the table |
| `Scenarios.KeptInstanceRestart` | Sources/VisualTap/VisualTap.swift:79-91 | a tracker kept across `stop` and started again is enabled, but the slot stays empty and an event sent through the hook leaves its table empty |
| `Scenarios.OneFinger` | Sources/VisualTap/VisualTap.swift:104-116 | began at `a`, moved to `b`, then ended: the table is empty again and the one ended marker is the fading marker at `b` |

## Left out

- Objective-C runtime calls (`class_getInstanceMethod`, `object_getClass`, `method_exchangeImplementations`) are foreign. Each lookup is a boolean input, and an exchange is an increment of `SwizzleState.exchanges`.
- `TapView` internals are UI. That covers the image, tint and size, the timer label, the roughly 60 Hz duration timer, the fade-out animation and its completion. `begin`, `moveTo`, `end` and `removeFromSuperview` are abstract updates of a marker record. Their early return when no top-most window exists is not modelled.
- Converting a touch location into window coordinates is a host call. Each touch carries its location as an input.
- Touch locations (`CGPoint`, floating point) are integer `Point`s. Only equality of locations is used.
- `start`'s default argument (`= .default`) is not modelled as a default. Callers pass `DefaultConfiguration` explicitly.
- Configuration propagation to live markers is left out. This is the Combine `@Published` subscriptions in the marker views. The configuration is an opaque value that `start` stores. `VisualTap+Configuration.swift` is a holder of defaults; only its default values appear, as `DefaultConfiguration`.
- The orientation-notification registration and teardown (`NotificationCenter`, `UIDevice`, `deinit`) is observation plumbing. Only its effect is kept, `OrientationDidChange`, which clears the table.
- `CGFloat` window levels are integers. The host's sort makes no promise about ties, and no contract depends on which of several equal-level windows is returned.
- The window list (`UIApplication.shared.windows`) is a parameter.
- `Example/VisualTapExample/ViewController.swift` is a demo app and is not part of this model.
- Memory management is not modelled. That covers `weak` references, deallocation of the released instance, and the view hierarchy itself.
