# ChetaPlayer overlay state machine, in Dafny

ChetaPlayer is a one-screen SwiftUI video player. On top of the native
player view, the `Home` screen draws a custom overlay: a play/pause button,
±10 second skip buttons, a draggable progress thumb, and controls that hide
themselves while the video plays, 3.5 seconds after the last tap, press of
play, or drag end. The skip buttons do not restart that countdown.

This project models the state behind that overlay. The screen's `@State` and
`@GestureState` fields (`showPlayerControls`, `isPlaying`, `isDragging`,
`isSeeking`, `progress`, `lastDraggedProgress` and the pending auto-hide
`timeoutTask`) form one immutable record, `Overlay.State`. Every handler is a
pure transition over that record: the tap on the video, the play/pause button,
the skip buttons (`seek(by:)`), the drag's change and end, the periodic time
observer, and the deadlines of the deferred blocks.

- `clamp.dfy` (module `Clamping`) holds the `max(min(x, hi), lo)` idiom that
  the seek and the drag both use.
- `timer.dfy` (module `DispatchTimer`) models the main queue's deferred work
  items. Each auto-hide `DispatchWorkItem` gets a token: its index in the
  history of submitted items. It is Waiting, Cancelled or Finished.
  `cancel()` marks it dead. Reaching its deadline is an explicit event, and
  the block runs only if the item is still live.
- `overlay.dfy` (module `Overlay`) holds the state record, the handlers, the
  `Event` type, a one-step `Apply` and a fold `Run` over event sequences. It
  also defines the invariant `Inv`: progress and drag anchor in [0, 1], plus
  its timer part `TimerInv`: the only live auto-hide item is the held one,
  and none is live while paused.
- `properties.dfy` (module `OverlayProperties`) proves properties of event
  sequences and concrete sessions.

The media engine is abstract. Each event carries what its handler reads from
the player at that moment, as a `Media` value: no player, a player without a
current item, or a loaded item with its current time and duration. Calls on
the player come out of a step as `Command`s: `Play`, `Pause` or
`SeekTo(seconds)`. Positions and durations are exact `real`s.

The model follows the handlers as written in `ChetaPlayer/Home.swift`.
Behaviours of the handlers worth knowing:

- The time observer writes `progress := current / duration` on every tick. It
  does not check `isDragging`, and it does not clamp.
- A tap restarts the auto-hide countdown whenever the video plays, even when
  the tap hides the controls. It never merely cancels the countdown.
- The ±10 s buttons only issue a seek. They do not restart the auto-hide
  countdown, so a skip pressed shortly after a tap does not delay the hide.
  `OverlayProperties.SkipDoesNotRestartCountdown` proves it.
- Ticks never update `lastDraggedProgress`. A new drag therefore starts from
  where the previous drag ended, not from the playback position. On a fresh
  screen with a 100 s video, a tick at 25 s followed by a drag of 50 points
  over a 500-point track gives 0.1 and a seek to 10 s, because the drag
  starts from 0. A drag anchored on the tick would have given 0.35.
  `OverlayProperties.DragAnchoredToPreviousDrag` proves these values.
- A drag end issues the seek and restarts the countdown only when the player
  has a current item. It restarts the countdown if and only if the item
  exists and the video plays.
- `isSeeking` is cleared by a 0.2 s block queued at every drag end. These
  blocks are never cancelled; the model counts the pending ones.

## Model

| member | source | states |
|---|---|---|
| `Clamping.Clamp` | ChetaPlayer/Home.swift:123 | The result of `max(min(x, hi), lo)` is at least `lo`. It is at most `hi` when the bounds are ordered. It equals `x` inside the bounds and the crossed bound outside them. When the bounds cross, it is `lo`. |
| `DispatchTimer.Submit` | ChetaPlayer/Home.swift:104-113 | A submitted work item gets a token never issued before. It becomes live, and no other item's liveness changes. |
| `DispatchTimer.Cancel` | ChetaPlayer/Home.swift:101-103 | Cancelling removes exactly that token from the live set. Cancelling a finished or cancelled item changes nothing. |
| `DispatchTimer.Fire` | ChetaPlayer/Home.swift:110-112 | At an item's deadline its block runs if and only if the item is live. Afterwards the item is no longer live. |
| `Overlay.CancelHeld` | ChetaPlayer/Home.swift:156-158 | `timeoutTask?.cancel()` makes the held item dead. Every other item keeps its liveness. |
| `Overlay.TimeoutControls` | ChetaPlayer/Home.swift:100-114 | The previous item is cancelled before a fresh, never-issued one is held and submitted. Under the discipline, the held item is then the only live one. No other field changes. |
| `Overlay.HandleTap` | ChetaPlayer/Home.swift:90-97 | The tap toggles `showPlayerControls`. While playing it holds a never-issued token, the sole live item, whatever the new visibility. When paused it leaves the timer untouched. Nothing else changes. It preserves `Inv`. |
| `Overlay.PlayPauseAction` | ChetaPlayer/Home.swift:152-167 | `isPlaying` flips in both branches. Pausing issues `Pause` (if there is a player) and leaves no live auto-hide item. Playing issues `Play` and holds a never-issued token, the sole live item. No other field changes. It preserves `Inv`. |
| `Overlay.SeekBy` | ChetaPlayer/Home.swift:117-126 | With no player or no current item it issues nothing. Otherwise it issues one seek. The target is within [0, duration]. It equals current + delta inside that range and the crossed bound outside it. The overlay state is unchanged. |
| `Overlay.OnDragChanged` | ChetaPlayer/Home.swift:219-227 | `progress` is `lastDraggedProgress + translation / (width − 15)` clamped to [0, 1], so it lies in [0, 1]. The gesture is marked dragging, so the play/pause controls are not drawn, and `isSeeking` is set. The held item is cancelled, and under the discipline no item is live. `isPlaying`, visibility, the anchor and the held token are unchanged. It preserves `Inv`. |
| `Overlay.OnDragEnded` | ChetaPlayer/Home.swift:228-236 | The anchor becomes `progress`. With a current item it issues exactly `SeekTo(duration * progress)`, otherwise nothing. It holds a new, never-issued token if and only if there is an item and the video plays. One `isSeeking` reset is queued. Playing state and visibility are unchanged. It preserves `Inv`. |
| `Overlay.ObserveTick` | ChetaPlayer/Home.swift:73-87 | With a current item the new `progress` times the duration equals the current time. It is in [0, 1] when the position lies within the duration. Only `progress` changes, even during a drag. Without an item nothing changes. |
| `Overlay.HideTaskFires` | ChetaPlayer/Home.swift:104-108 | At an auto-hide deadline the controls are hidden if the item is live. A cancelled or already finished item changes nothing but its own queue entry. It preserves `Inv`. |
| `Overlay.SeekResetFires` | ChetaPlayer/Home.swift:235 | A pending 0.2 s block clears `isSeeking` and is consumed. With none pending nothing changes. |
| `Overlay.Apply` | ChetaPlayer/Home.swift:131-201 | Dispatching one event, including the ±10 s buttons, preserves `TimerInv` for every event and `Inv` when the engine readings are plausible. |
| `Overlay.Run` | ChetaPlayer/Home.swift:24-33 | Handling any sequence of plausible events from a state satisfying `Inv` ends in a state satisfying `Inv`. |
| `OverlayProperties.AtMostOneLiveTask` | ChetaPlayer/Home.swift:100-114 | Under cancel-before-reschedule at most one auto-hide item is live, and it is the one held in `timeoutTask`. |
| `OverlayProperties.ReachableStatesSatisfyInv` | ChetaPlayer/Home.swift:24-33 | From the initial field values, every session with plausible readings keeps `progress` in [0, 1] and at most one live auto-hide item. |
| `OverlayProperties.TapTwiceRestoresVisibility` | ChetaPlayer/Home.swift:90-97 | Two taps restore `showPlayerControls`. When paused they restore the whole state. |
| `OverlayProperties.PausedControlsStayPinned` | ChetaPlayer/Home.swift:152-159 | While paused, no event other than a tap or play/pause can hide visible controls or start playback, whatever the engine reports. |
| `OverlayProperties.PauseKeepsControlsVisible` | ChetaPlayer/Home.swift:152-167 | After pausing with the controls visible, no later event other than a tap or play/pause hides them, whatever the engine reports. |
| `OverlayProperties.RescheduleOutlivesOldDeadline` | ChetaPlayer/Home.swift:228-234 | After a drag ends while playing, the old item's deadline leaves the controls visible. The new item's deadline hides them. |
| `OverlayProperties.SkipDoesNotRestartCountdown` | ChetaPlayer/Home.swift:117-126 | While playing, after a tap shows the controls, a skip keeps the tap's work item held and live, so its deadline still hides the controls. |
| `OverlayProperties.TickDuringDragOverridesThumb` | ChetaPlayer/Home.swift:76-85 | A tick during a drag sets `progress` to position over duration. The gesture stays active and the drag anchor is untouched. |
| `OverlayProperties.DragAnchoredToPreviousDrag` | ChetaPlayer/Home.swift:221-232 | A tick at 25 s of 100 s gives 0.25. A following drag of 50 points over a 500-point track gives 0.1, anchor 0.1 and the single command `SeekTo(10)`. |
| `OverlayProperties.SecondTapWhilePlayingReschedules` | ChetaPlayer/Home.swift:90-97 | While playing, a first tap shows the controls and a second hides them. After the second tap the first tap's item is dead, and a new item is the only live one. |

## Left out

- `setupPlayer` (ChetaPlayer/Home.swift:65-71): looking up the bundled file and building the `AVPlayer` are I/O and foreign calls. Only "no player" survives, as `Media.NoPlayer`.
- ChetaPlayer/VideoPlayer.swift and ChetaPlayer/ContentView.swift: a wrapper around the native player view and the layout bootstrap. They contain no state logic.
- Rendering and animation: opacities, `withAnimation`, and the geometry of the seeker bar and thumb. Only the derived predicate `Overlay.ControlsShown` (visible and not dragging), which decides whether the play/pause controls are drawn, is kept. Whether a fully transparent button still receives taps is a rendering question, so the model allows every event in every state.
- Real time: the 3.5 s and 0.2 s delays and the observer's 1 s interval are not modelled. Their deadlines are explicit events (`HideDeadline`, `SeekResetDeadline`, `PeriodicTick`).
- The screen builds the tap target, the buttons and the seeker only when a player exists (ChetaPlayer/Home.swift:41-54), and the player is set once (ChetaPlayer/Home.swift:22). The model still accepts taps, button presses and drags without a player, and lets the player's presence vary between events. These runs cannot happen on the screen; they only widen the set of runs the invariant lemmas cover.
- The registration of the time observer in `onAppear` and its lifetime: the source never removes it. A tick without a player is a no-op.
- The engine's own behaviour: the readings in later events do not follow from earlier `Play`, `Pause` or `SeekTo` commands. Each event carries whatever the player reports.
- `@GestureState` reset mechanics beyond the drag's change and end events.
- Floating point: NaN or infinite durations before the item loads, `CGFloat`/`Double` rounding, and the whole-second `CMTime` built with `preferredTimescale: 1`. `SeekTo` carries the exact target, not the target rounded to a second.
- Overlay.ObserveTick: requires a positive duration when an item is present. The source divides without a guard, and exact reals have no NaN or infinity to stand for the result.
- Overlay.OnDragChanged: requires the seeker to be wider or narrower than the thumb (`width != 15`). The source divides by `width - 15` without a guard.
