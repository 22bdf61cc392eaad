/**
 The interaction state of the `Home` player screen: its `@State` and
 `@GestureState` fields as one immutable record, and one pure transition per
 handler. The media engine is abstract: each event carries what the handler
 reads from the player at that moment (`Media`), and what the handler asks of
 the player comes out as `Command`s.
 */
module Overlay {
  import opened Clamping
  import DispatchTimer

  datatype Option<T> = None | Some(value: T)

  /** Width of the seeker's thumb, in points. */
  const ThumbWidth: real := 15.0

  /** Seconds skipped by the backward and forward buttons. */
  const SkipSeconds: real := 10.0

  /** What a handler can read from the player when it runs. */
  datatype Media =
    | NoPlayer                                   // the bundled video was not found
    | NoItem                                     // a player without a current item
    | Loaded(currentTime: real, duration: real)  // `currentTime().seconds`, `currentItem.duration.seconds`

  /** Readings a loaded item can actually report: a known length and a position inside it. */
  predicate Plausible(m: Media)
  {
    m.Loaded? ==> 0.0 < m.duration && 0.0 <= m.currentTime <= m.duration
  }

  /** Calls the overlay makes on the player. */
  datatype Command = Play | Pause | SeekTo(seconds: real)

  datatype State = State(
    showPlayerControls: bool,
    isPlaying: bool,
    isDragging: bool,
    isSeeking: bool,
    progress: real,
    lastDraggedProgress: real,
    timeoutTask: Option<nat>,       // token of the work item held in `timeoutTask`
    queue: DispatchTimer.Queue,     // every auto-hide work item submitted so far
    pendingSeekResets: nat)         // `isSeeking = false` blocks still waiting for their 0.2s deadline

  /** The field initialisers of `Home`. */
  const Initial: State := State(
    showPlayerControls := false,
    isPlaying := false,
    isDragging := false,
    isSeeking := false,
    progress := 0.0,
    lastDraggedProgress := 0.0,
    timeoutTask := None,
    queue := DispatchTimer.Empty,
    pendingSeekResets := 0)

  datatype Step = Step(state: State, commands: seq<Command>)

  /** Tokens held in `timeoutTask` (none or one). */
  function Held(t: Option<nat>): set<nat>
  {
    if t.Some? then {t.value} else {}
  }

  /** The play/pause controls are drawn: visible and no drag in progress. */
  predicate ControlsShown(s: State)
  {
    s.showPlayerControls && !s.isDragging
  }

  /**
   Cancel-before-reschedule: the only work item that can still hide the
   controls is the one held in `timeoutTask`, and that token was issued.
   */
  predicate TimerDiscipline(s: State)
  {
    && DispatchTimer.LiveIds(s.queue) <= Held(s.timeoutTask)
    && (s.timeoutTask.Some? ==> s.timeoutTask.value < |s.queue|)
  }

  /** The timer part of the invariant: the discipline, and no live work item while paused. */
  predicate TimerInv(s: State)
  {
    && TimerDiscipline(s)
    && (!s.isPlaying ==> DispatchTimer.LiveIds(s.queue) == {})
  }

  /** What every reachable state satisfies (given plausible engine readings). */
  predicate Inv(s: State)
  {
    && 0.0 <= s.progress <= 1.0
    && 0.0 <= s.lastDraggedProgress <= 1.0
    && TimerInv(s)
  }

  /** `timeoutTask?.cancel()`: the held work item, if any, stops being live. */
  function CancelHeld(s: State): (q: DispatchTimer.Queue)
    ensures |q| == |s.queue|
    ensures DispatchTimer.LiveIds(q) == DispatchTimer.LiveIds(s.queue) - Held(s.timeoutTask)
  {
    if s.timeoutTask.Some? then DispatchTimer.Cancel(s.queue, s.timeoutTask.value) else s.queue
  }

  /**
   `timeoutControls`: cancel the held work item, then create, hold and submit a
   fresh one that will hide the controls 3.5s later.
   */
  function TimeoutControls(s: State): (r: State)
    ensures r.timeoutTask.Some?
    ensures r.timeoutTask.value !in DispatchTimer.LiveIds(s.queue)
    ensures |s.queue| <= r.timeoutTask.value
    ensures DispatchTimer.LiveIds(r.queue)
            == (DispatchTimer.LiveIds(s.queue) - Held(s.timeoutTask)) + Held(r.timeoutTask)
    ensures TimerDiscipline(s) ==> TimerDiscipline(r) && DispatchTimer.LiveIds(r.queue) == Held(r.timeoutTask)
    ensures r.(timeoutTask := s.timeoutTask, queue := s.queue) == s
  {
    var submitted := DispatchTimer.Submit(CancelHeld(s));
    s.(timeoutTask := Some(submitted.token), queue := submitted.queue)
  }

  /** `handleTap`: toggle visibility; while playing, restart the auto-hide countdown. */
  function HandleTap(s: State): (r: State)
    ensures r.showPlayerControls == !s.showPlayerControls
    ensures s.isPlaying ==> r.timeoutTask.Some? && DispatchTimer.LiveIds(r.queue) >= Held(r.timeoutTask)
    ensures s.isPlaying ==> |s.queue| <= r.timeoutTask.value
    ensures s.isPlaying && TimerDiscipline(s) ==> DispatchTimer.LiveIds(r.queue) == Held(r.timeoutTask)
    ensures !s.isPlaying ==> r.timeoutTask == s.timeoutTask && r.queue == s.queue
    ensures r.(showPlayerControls := s.showPlayerControls, timeoutTask := s.timeoutTask, queue := s.queue) == s
    ensures Inv(s) ==> Inv(r)
  {
    var toggled := s.(showPlayerControls := !s.showPlayerControls);
    if s.isPlaying then TimeoutControls(toggled) else toggled
  }

  /**
   The play/pause button. Pausing calls `pause()` and cancels the held work
   item; playing calls `play()` and restarts the countdown. Either way
   `isPlaying` flips. The calls on the player are optional chains
   (`player?.pause()`, `player?.play()`), so they are issued only when a
   player exists.
   */
  function PlayPauseAction(s: State, m: Media): (r: Step)
    ensures r.state.isPlaying == !s.isPlaying
    ensures s.isPlaying ==> r.commands == (if m.NoPlayer? then [] else [Pause])
    ensures !s.isPlaying ==> r.commands == (if m.NoPlayer? then [] else [Play])
    ensures s.isPlaying && TimerDiscipline(s) ==> DispatchTimer.LiveIds(r.state.queue) == {}
    ensures !s.isPlaying ==> r.state.timeoutTask.Some? && |s.queue| <= r.state.timeoutTask.value
    ensures !s.isPlaying && TimerDiscipline(s) ==>
              DispatchTimer.LiveIds(r.state.queue) == Held(r.state.timeoutTask)
    ensures s.isPlaying ==> r.state.timeoutTask == s.timeoutTask
    ensures TimerDiscipline(s) ==> TimerDiscipline(r.state)
    ensures r.state.(isPlaying := s.isPlaying, timeoutTask := s.timeoutTask, queue := s.queue) == s
    ensures Inv(s) ==> Inv(r.state)
  {
    if s.isPlaying then
      Step(s.(queue := CancelHeld(s), isPlaying := false), if m.NoPlayer? then [] else [Pause])
    else
      Step(TimeoutControls(s).(isPlaying := true), if m.NoPlayer? then [] else [Play])
  }

  /**
   `seek(by:)`: with a player and a current item, seek to the current time
   moved by `seconds`, kept inside [0, duration]; otherwise nothing happens.
   The overlay state itself never changes.
   */
  function SeekBy(s: State, seconds: real, m: Media): (r: Step)
    ensures r.state == s
    ensures !m.Loaded? ==> r.commands == []
    ensures m.Loaded? ==> |r.commands| == 1 && r.commands[0].SeekTo?
    ensures m.Loaded? ==> 0.0 <= r.commands[0].seconds
    ensures m.Loaded? && 0.0 <= m.duration ==> r.commands[0].seconds <= m.duration
    ensures m.Loaded? && 0.0 <= m.currentTime + seconds <= m.duration ==>
              r.commands[0].seconds == m.currentTime + seconds
    ensures m.Loaded? && m.currentTime + seconds < 0.0 ==> r.commands[0].seconds == 0.0
    ensures m.Loaded? && 0.0 <= m.duration < m.currentTime + seconds ==> r.commands[0].seconds == m.duration
  {
    match m
    case Loaded(current, duration) => Step(s, [SeekTo(Clamp(current + seconds, 0.0, duration))])
    case _ => Step(s, [])
  }

  /** The progress a drag by `translation` points asks for, before clamping. */
  function DraggedProgress(s: State, translation: real, width: real): real
    requires width != ThumbWidth
  {
    translation / (width - ThumbWidth) + s.lastDraggedProgress
  }

  /**
   The drag gesture's `updating` and `onChanged`: the gesture is marked active,
   the held work item is cancelled, the thumb follows the finger from where the
   previous drag left it, and `isSeeking` is raised. `width` is the seeker's
   width; the thumb travels over `width - ThumbWidth` points.
   */
  function OnDragChanged(s: State, translation: real, width: real): (r: State)
    requires width != ThumbWidth
    ensures 0.0 <= r.progress <= 1.0
    ensures 0.0 <= DraggedProgress(s, translation, width) <= 1.0 ==> r.progress == DraggedProgress(s, translation, width)
    ensures DraggedProgress(s, translation, width) < 0.0 ==> r.progress == 0.0
    ensures DraggedProgress(s, translation, width) > 1.0 ==> r.progress == 1.0
    ensures r.isDragging && r.isSeeking
    ensures !ControlsShown(r)
    ensures DispatchTimer.LiveIds(r.queue) == DispatchTimer.LiveIds(s.queue) - Held(s.timeoutTask)
    ensures TimerDiscipline(s) ==> DispatchTimer.LiveIds(r.queue) == {}
    ensures r.isPlaying == s.isPlaying && r.showPlayerControls == s.showPlayerControls
    ensures r.lastDraggedProgress == s.lastDraggedProgress && r.timeoutTask == s.timeoutTask
    ensures r.pendingSeekResets == s.pendingSeekResets
    ensures Inv(s) ==> Inv(r)
  {
    s.(isDragging := true,
       queue := CancelHeld(s),
       progress := Clamp(DraggedProgress(s, translation, width), 0.0, 1.0),
       isSeeking := true)
  }

  /**
   The drag gesture's end: the gesture state resets, the anchor for the next
   drag becomes the current progress, and, when the player has a current item,
   a seek to that fraction of the duration is issued and, while playing, the
   countdown restarts. A 0.2s block that clears `isSeeking` is always queued.
   */
  function OnDragEnded(s: State, m: Media): (r: Step)
    ensures !r.state.isDragging
    ensures r.state.lastDraggedProgress == s.progress && r.state.progress == s.progress
    ensures r.state.pendingSeekResets == s.pendingSeekResets + 1
    ensures m.Loaded? ==> r.commands == [SeekTo(m.duration * s.progress)]
    ensures !m.Loaded? ==> r.commands == []
    ensures TimerDiscipline(s) ==> (m.Loaded? && s.isPlaying <==> r.state.timeoutTask != s.timeoutTask)
    ensures m.Loaded? && s.isPlaying ==> r.state.timeoutTask.Some? && |s.queue| <= r.state.timeoutTask.value
    ensures m.Loaded? && s.isPlaying && TimerDiscipline(s) ==>
              DispatchTimer.LiveIds(r.state.queue) == Held(r.state.timeoutTask)
    ensures !(m.Loaded? && s.isPlaying) ==> r.state.queue == s.queue && r.state.timeoutTask == s.timeoutTask
    ensures r.state.isPlaying == s.isPlaying && r.state.showPlayerControls == s.showPlayerControls
    ensures r.state.isSeeking == s.isSeeking
    ensures Inv(s) ==> Inv(r.state)
  {
    var ended := s.(isDragging := false,
                    lastDraggedProgress := s.progress,
                    pendingSeekResets := s.pendingSeekResets + 1);
    if m.Loaded? then
      Step(if s.isPlaying then TimeoutControls(ended) else ended, [SeekTo(m.duration * s.progress)])
    else
      Step(ended, [])
  }

  /**
   The body of the periodic time observer: with a current item, `progress`
   becomes position over duration. Nothing else is consulted or written: a tick
   during a drag overrides the thumb, and the drag anchor is left alone.
   */
  function ObserveTick(s: State, m: Media): (r: State)
    requires m.Loaded? ==> m.duration > 0.0
    ensures !m.Loaded? ==> r == s
    ensures m.Loaded? ==> r.progress * m.duration == m.currentTime
    ensures r.(progress := s.progress) == s
    ensures m.Loaded? && Plausible(m) ==> 0.0 <= r.progress <= 1.0
    ensures Inv(s) && Plausible(m) ==> Inv(r)
  {
    match m
    case Loaded(current, duration) => s.(progress := current / duration)
    case _ => s
  }

  /**
   The deadline of auto-hide work item `id` is reached: its block hides the
   controls only if it was not cancelled.
   */
  function HideTaskFires(s: State, id: nat): (r: State)
    ensures id in DispatchTimer.LiveIds(s.queue) ==> !r.showPlayerControls
    ensures id !in DispatchTimer.LiveIds(s.queue) ==> r.showPlayerControls == s.showPlayerControls
    ensures DispatchTimer.LiveIds(r.queue) == DispatchTimer.LiveIds(s.queue) - {id}
    ensures r.(showPlayerControls := s.showPlayerControls, queue := s.queue) == s
    ensures Inv(s) ==> Inv(r)
  {
    var fired := DispatchTimer.Fire(s.queue, id);
    s.(queue := fired.queue, showPlayerControls := if fired.ran then false else s.showPlayerControls)
  }

  /** The deadline of one queued 0.2s block after a drag end: it clears `isSeeking`. */
  function SeekResetFires(s: State): (r: State)
    ensures s.pendingSeekResets > 0 ==> !r.isSeeking && r.pendingSeekResets == s.pendingSeekResets - 1
    ensures s.pendingSeekResets == 0 ==> r == s
    ensures r.(isSeeking := s.isSeeking, pendingSeekResets := s.pendingSeekResets) == s
    ensures Inv(s) ==> Inv(r)
  {
    if s.pendingSeekResets > 0 then s.(isSeeking := false, pendingSeekResets := s.pendingSeekResets - 1) else s
  }

  /** Everything that can happen to the screen. */
  datatype Event =
    | Tap                                        // tap on the video
    | PlayPauseButton(media: Media)
    | SkipButton(forward: bool, media: Media)    // the backward and forward buttons
    | DragChange(translation: real, width: real)
    | DragEnd(media: Media)
    | PeriodicTick(media: Media)
    | HideDeadline(id: nat)
    | SeekResetDeadline

  /** The handler of `e` is defined (no division by zero). */
  predicate Defined(e: Event)
  {
    && (e.DragChange? ==> e.width != ThumbWidth)
    && (e.PeriodicTick? && e.media.Loaded? ==> e.media.duration > 0.0)
  }

  /** `e` is defined and any engine reading it carries is plausible. */
  predicate PlausibleEvent(e: Event)
  {
    && Defined(e)
    && (e.PlayPauseButton? || e.SkipButton? || e.DragEnd? || e.PeriodicTick? ==> Plausible(e.media))
  }

  function Apply(s: State, e: Event): (r: Step)
    requires Defined(e)
    ensures TimerInv(s) ==> TimerInv(r.state)
    ensures Inv(s) && PlausibleEvent(e) ==> Inv(r.state)
  {
    match e
    case Tap => Step(HandleTap(s), [])
    case PlayPauseButton(m) => PlayPauseAction(s, m)
    case SkipButton(forward, m) => SeekBy(s, if forward then SkipSeconds else -SkipSeconds, m)
    case DragChange(translation, width) => Step(OnDragChanged(s, translation, width), [])
    case DragEnd(m) => OnDragEnded(s, m)
    case PeriodicTick(m) => Step(ObserveTick(s, m), [])
    case HideDeadline(id) => Step(HideTaskFires(s, id), [])
    case SeekResetDeadline => Step(SeekResetFires(s), [])
  }

  /** Handle `events` in order; the commands of all steps, in order. */
  function Run(s: State, events: seq<Event>): (r: Step)
    requires forall i :: 0 <= i < |events| ==> Defined(events[i])
    ensures |events| == 0 ==> r == Step(s, [])
    ensures Inv(s) && (forall i :: 0 <= i < |events| ==> PlausibleEvent(events[i])) ==> Inv(r.state)
    decreases |events|
  {
    if |events| == 0 then Step(s, [])
    else
      var first := Apply(s, events[0]);
      var rest := Run(first.state, events[1..]);
      Step(rest.state, first.commands + rest.commands)
  }
}
