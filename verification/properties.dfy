/**
 Properties of the overlay over several events: the invariant every reachable
 state keeps, the auto-hide discipline, and the behaviour of the screen in a
 few concrete sessions, as the handlers are written.
 */
module OverlayProperties {
  import opened Overlay
  import DispatchTimer

  predicate AllPlausible(events: seq<Event>)
  {
    forall i :: 0 <= i < |events| ==> PlausibleEvent(events[i])
  }

  predicate AllDefined(events: seq<Event>)
  {
    forall i :: 0 <= i < |events| ==> Defined(events[i])
  }

  /** The cancel-before-reschedule discipline leaves at most one live auto-hide work item. */
  lemma AtMostOneLiveTask(s: State)
    requires TimerDiscipline(s)
    ensures |DispatchTimer.LiveIds(s.queue)| <= 1
    ensures forall id :: id in DispatchTimer.LiveIds(s.queue) ==> s.timeoutTask == Some(id)
  {
    var live := DispatchTimer.LiveIds(s.queue);
    if s.timeoutTask.Some? && s.timeoutTask.value in live {
      assert live == {s.timeoutTask.value};
    } else {
      assert live == {};
    }
  }

  /** From the initial field values, any session with plausible engine readings keeps the invariant. */
  lemma ReachableStatesSatisfyInv(events: seq<Event>)
    requires AllPlausible(events)
    ensures Inv(Run(Initial, events).state)
    ensures |DispatchTimer.LiveIds(Run(Initial, events).state.queue)| <= 1
    ensures 0.0 <= Run(Initial, events).state.progress <= 1.0
  {
    assert DispatchTimer.LiveIds(Initial.queue) == {};
    AtMostOneLiveTask(Run(Initial, events).state);
  }

  /** Two taps restore the visibility; when not playing they restore the whole state. */
  lemma TapTwiceRestoresVisibility(s: State)
    ensures HandleTap(HandleTap(s)).showPlayerControls == s.showPlayerControls
    ensures !s.isPlaying ==> HandleTap(HandleTap(s)) == s
  {
  }

  /**
   While paused, nothing but a tap or the play/pause button changes the
   visibility: no auto-hide work item is live, and no other event schedules one.
   */
  lemma {:induction false} PausedControlsStayPinned(s: State, events: seq<Event>)
    requires TimerInv(s) && !s.isPlaying && s.showPlayerControls
    requires AllDefined(events)
    requires forall i :: 0 <= i < |events| ==> !events[i].Tap? && !events[i].PlayPauseButton?
    ensures Run(s, events).state.showPlayerControls
    ensures !Run(s, events).state.isPlaying
    decreases |events|
  {
    if |events| > 0 {
      var next := Apply(s, events[0]).state;
      assert next.showPlayerControls && !next.isPlaying;
      PausedControlsStayPinned(next, events[1..]);
    }
  }

  /** Pausing while the controls are visible pins them: no later deadline can hide them. */
  lemma PauseKeepsControlsVisible(s: State, m: Media, events: seq<Event>)
    requires TimerDiscipline(s) && s.isPlaying && s.showPlayerControls
    requires AllDefined(events)
    requires forall i :: 0 <= i < |events| ==> !events[i].Tap? && !events[i].PlayPauseButton?
    ensures Run(PlayPauseAction(s, m).state, events).state.showPlayerControls
  {
    PausedControlsStayPinned(PlayPauseAction(s, m).state, events);
  }

  /**
   Rescheduling replaces the countdown: after a drag ends while playing, the
   deadline of the previously held work item leaves the controls visible, and
   only the new work item's deadline hides them.
   */
  lemma RescheduleOutlivesOldDeadline(s: State, m: Media)
    requires Inv(s) && s.isPlaying && s.showPlayerControls && s.timeoutTask.Some?
    requires m.Loaded?
    ensures var ended := OnDragEnded(s, m).state;
            var oldDeadline := HideTaskFires(ended, s.timeoutTask.value);
            && oldDeadline.showPlayerControls
            && !HideTaskFires(oldDeadline, ended.timeoutTask.value).showPlayerControls
  {
    var ended := OnDragEnded(s, m).state;
    assert DispatchTimer.LiveIds(ended.queue) == {ended.timeoutTask.value};
    assert s.timeoutTask.value != ended.timeoutTask.value;
  }

  /**
   The skip buttons do not restart the countdown: a tap while playing, then a
   skip, and the tap's work item still hides the controls at its deadline.
   */
  lemma SkipDoesNotRestartCountdown(s: State, forward: bool, m: Media)
    requires TimerDiscipline(s) && s.isPlaying && !s.showPlayerControls
    ensures var tapped := HandleTap(s);
            var skipped := Apply(tapped, SkipButton(forward, m)).state;
            && skipped.showPlayerControls
            && skipped.timeoutTask == tapped.timeoutTask
            && !HideTaskFires(skipped, tapped.timeoutTask.value).showPlayerControls
  {
    var tapped := HandleTap(s);
    assert tapped.timeoutTask.value in DispatchTimer.LiveIds(tapped.queue);
  }

  /** A tick during a drag moves the thumb to the player's position: the drag does not own `progress`. */
  lemma TickDuringDragOverridesThumb(s: State, translation: real, width: real, current: real, duration: real)
    requires width != ThumbWidth && duration > 0.0
    ensures var ticked := ObserveTick(OnDragChanged(s, translation, width), Loaded(current, duration));
            && ticked.isDragging
            && ticked.progress == current / duration
            && ticked.lastDraggedProgress == s.lastDraggedProgress
  {
  }

  /**
   A fresh screen, a 100s video. A tick at 25s puts the thumb at a quarter;
   a drag of 50 points over a 500-point track then starts from the previous
   drag's end (0, since there was none), not from the tick, and ends with a
   seek to 10s.
   */
  lemma DragAnchoredToPreviousDrag()
    ensures var ticked := ObserveTick(Initial, Loaded(25.0, 100.0));
            ticked.progress == 0.25
    ensures var session := Run(Initial, [PeriodicTick(Loaded(25.0, 100.0)),
                                         DragChange(50.0, 500.0 + ThumbWidth),
                                         DragEnd(Loaded(25.0, 100.0))]);
            && session.state.progress == 0.1
            && session.state.lastDraggedProgress == 0.1
            && session.commands == [SeekTo(10.0)]
  {
    var events := [PeriodicTick(Loaded(25.0, 100.0)), DragChange(50.0, 500.0 + ThumbWidth), DragEnd(Loaded(25.0, 100.0))];
    var ticked := ObserveTick(Initial, Loaded(25.0, 100.0));
    var dragged := OnDragChanged(ticked, 50.0, 500.0 + ThumbWidth);
    assert DraggedProgress(ticked, 50.0, 500.0 + ThumbWidth) == 0.1;
    assert dragged.progress == 0.1;
    var ended := OnDragEnded(dragged, Loaded(25.0, 100.0));
    assert ended.commands == [SeekTo(10.0)];
    assert Run(ended.state, events[3..]) == Step(ended.state, []);
    assert Run(dragged, events[2..]) == Step(ended.state, ended.commands);
    assert Run(ticked, events[1..]) == Step(ended.state, ended.commands);
  }

  /**
   Playing with the controls hidden: a tap shows them and holds a live work
   item; a second tap hides them and, because the video is still playing,
   holds yet another live work item rather than none.
   */
  lemma SecondTapWhilePlayingReschedules()
    ensures var playing := PlayPauseAction(Initial, Loaded(0.0, 100.0)).state;
            var shown := HandleTap(playing);
            var hidden := HandleTap(shown);
            && shown.showPlayerControls
            && !hidden.showPlayerControls
            && hidden.timeoutTask.Some?
            && DispatchTimer.LiveIds(hidden.queue) == {hidden.timeoutTask.value}
            && shown.timeoutTask.value !in DispatchTimer.LiveIds(hidden.queue)
  {
    var playing := PlayPauseAction(Initial, Loaded(0.0, 100.0)).state;
    assert DispatchTimer.LiveIds(Initial.queue) == {};
  }
}
