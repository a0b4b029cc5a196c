/** Which frame of which event the stream is on after a check, a command or some turns of the loop,
    told by event contents and constants alone. */
module StreamFrames {
  import opened SetEventMessage
  import opened StreamState
  import opened Wrappers
  import FrameTable

  // ---------------------------------------------------------------- checks

  /** The check has to do something, and not only to read the event again. */
  predicate AtEnd(s: State)
  {
    || s.Holding()
    || s.play.frame <= 0
    || (s.play.frame > |s.event.frames| && s.event.endTime != 0)
  }

  /** A held stream leaves the way it was going when the wait began. */
  predicate Back(s: State)
  {
    if s.Holding() then s.ending.waitPrev else s.play.frame <= 0
  }

  /** The page has told for the event playing what follows in the direction the stream leaves in. */
  predicate Answered(s: State)
  {
    var h := if Back(s) then s.hints.prev else s.hints.next;
    h.have && h.sourceId == s.event.id % 0x1_0000_0000_0000
  }

  /** Where that is, by the page or by the same-monitor query; 0 for nowhere. */
  function Follows(s: State, db: Db): nat
  {
    if Answered(s) then (if Back(s) then s.hints.prev else s.hints.next).eventId
    else if s.hints.managed then 0
    else if Back(s) then db.prevId
    else db.nextId
  }

  predicate PlaysOneEvent(s: State)
  {
    !s.forceEventChange && (s.mode == Single || s.mode == Plain)
  }

  /** Whether there is still something to wait for. */
  predicate Awaits(s: State, now: int)
  {
    && s.hints.managed && !Answered(s)
    && (s.Holding() ==> now < s.ending.waitStart.value + 10_000_000)
  }

  lemma CheckInsideEvent(s: State, now: int, db: Db)
    requires Enabled(s, Check(now, db)) && s.Resting() && 1 <= s.play.frame <= |s.event.frames|
    ensures After(s, Check(now, db)) == s.(clock := now)
  {
  }

  /** Reading the event again keeps the frame if the event now has it, and otherwise goes to its
      last one; everything else stays. */
  lemma CheckReadsAgain(s: State, now: int, db: Db)
    requires Enabled(s, Check(now, db))
    requires s.Resting() && s.play.frame > |s.event.frames| && s.event.endTime == 0
    ensures
      var t, n := After(s, Check(now, db)), |db.events[s.event.id].frames|;
      && t.event == db.Loaded(s.event.id)
      && t.play.frame == (if s.play.frame <= n then s.play.frame else if n > 0 then n else 1)
      && t == s.(event := t.event, play := s.play.(frame := t.play.frame, frameMod := db.frameMod), clock := now)
  {
  }

  /** In the modes that play one event the stream pauses at the end, on the first frame of the event
      if it went back and on the last if it went forward. */
  lemma CheckPauses(s: State, now: int, db: Db)
    requires Enabled(s, Check(now, db)) && AtEnd(s) && PlaysOneEvent(s)
    ensures
      var frame := if Back(s) || s.event.frames == [] then 1 else |s.event.frames|;
      After(s, Check(now, db)) ==
        s.(ending := s.ending.(waitStart := None), play := s.play.(frame := frame, paused := true), clock := now)
  {
  }

  /** Otherwise it goes on exactly when something follows that is still there: to its first frame,
      or to its last one in reverse. */
  lemma CheckGoesOn(s: State, now: int, db: Db)
    requires Enabled(s, Check(now, db)) && AtEnd(s) && !PlaysOneEvent(s)
    ensures MovesOn(s, now, db) <==> Follows(s, db) != 0 && Follows(s, db) in db.events
    ensures MovesOn(s, now, db) ==>
      var e := db.Loaded(Follows(s, db));
      var frame := if s.play.rate < 0 && e.frames != [] then |e.frames| else 1;
      After(s, Check(now, db)) ==
        s.(event := e, forceEventChange := false, ending := s.ending.(waitStart := None),
           play := s.play.(frame := frame, frameMod := db.frameMod), clock := now)
  {
  }

  /** With nothing to go on to it waits on its last frame for the page, or stops there, or the same
      at the first frame if it went back. */
  lemma CheckHoldsOrStops(s: State, now: int, db: Db)
    requires Enabled(s, Check(now, db)) && AtEnd(s) && !PlaysOneEvent(s) && !MovesOn(s, now, db)
    ensures
      var frame := if Back(s) || s.event.frames == [] then 1 else |s.event.frames|;
      After(s, Check(now, db)) ==
        if Awaits(s, now) && s.Holding() then s.(clock := now)
        else if Awaits(s, now) then
          s.(ending := s.ending.(waitStart := Some(now), waitPrev := Back(s)),
             play := s.play.(frame := frame), clock := now)
        else
          s.(forceEventChange := false, ending := Ending(None, s.ending.waitPrev, s.hints.managed, Back(s)),
             play := s.play.(frame := frame, paused := true), clock := now)
  {
  }

  /** What a check at the end of a run leaves the stream on, which before it was in state s. */
  ghost predicate OnRightFrame(s: State, t: State)
  {
    && (t.Holding() || (t.ending.endStop && !s.ending.endStop) || (AtEnd(s) && PlaysOneEvent(s)) ==>
          t.event == s.event && t.play.frame == if Back(s) then 1 else |t.event.frames|)
    && (AtEnd(s) && PlaysOneEvent(s) ==> t.play.paused && t.Resting())
    && (t.event.id != s.event.id ==>
          && t.Resting() && !t.forceEventChange
          && t.play.frame == if s.play.rate >= 0 then 1 else |t.event.frames|)
  }

  /** In any run over events that have frames: a stream that a check leaves waiting, stopped or
      paused at an end is on the first frame if it went back and on the last if it went forward, and
      one that a check moves to another event is on its first frame, or its last in reverse. */
  lemma RunIsOnRightFrame(mode: Mode, event: Event, frame: int, rate: int, start: int, steps: seq<Step>)
    requires event.frames != [] && Possible(Start(mode, event, frame, rate, start), steps)
    requires forall i :: 0 <= i < |steps| ==> StepFramed(steps[i])
    requires steps != [] && steps[|steps| - 1].Check?
    ensures
      var s := Start(mode, event, frame, rate, start);
      OnRightFrame(Run(s, steps[..|steps| - 1]), Run(s, steps))
  {
    var earlier, last := steps[..|steps| - 1], steps[|steps| - 1];
    RunKeepsEnd(Start(mode, event, frame, rate, start), earlier);
    assert StepFramed(last);
    CheckIsOnRightFrame(Run(Start(mode, event, frame, rate, start), earlier), last.now, last.db);
  }

  lemma CheckIsOnRightFrame(s: State, now: int, db: Db)
    requires EndInv(s) && Enabled(s, Check(now, db)) && Framed(db)
    ensures OnRightFrame(s, After(s, Check(now, db)))
  {
    if !AtEnd(s) {
      if s.play.frame > |s.event.frames| { CheckReadsAgain(s, now, db); }
    } else if PlaysOneEvent(s) {
      CheckPauses(s, now, db);
    } else if MovesOn(s, now, db) {
      CheckGoesOn(s, now, db);
    } else {
      CheckHoldsOrStops(s, now, db);
    }
  }

  // ---------------------------------------------------------------- commands

  /** The state after a command and a turn of the loop that sends or moves. */
  ghost function ThenTurn(s: State, c: Command, now: int, frameMod: int, keepalive: bool): State
    requires s.clock <= now && 1 <= frameMod
  {
    After(After(s, Process(c, now, frameMod)), Body(false, keepalive))
  }

  predicate IsTurn(step: Step)
  {
    step.Body?
  }

  /** While the stream is paused, stopped or waiting, no number of turns moves it from a frame of its
      event. */
  lemma {:induction false} RestKeepsFrame(s: State, steps: seq<Step>)
    requires Possible(s, steps) && forall i :: 0 <= i < |steps| ==> IsTurn(steps[i])
    requires 1 <= s.play.frame <= |s.event.frames|
    requires s.play.paused || s.play.stopped || s.Holding()
    ensures Run(s, steps) == s.(play := s.play.(step := Run(s, steps).play.step))
  {
    if steps != [] {
      RestKeepsFrame(s, steps[..|steps| - 1]);
      assert IsTurn(steps[|steps| - 1]);
    }
  }

  /** Pause and stop bring the stream to that. */
  lemma PauseAndStopRest(s: State, c: Command, now: int, frameMod: int, steps: seq<Step>)
    requires c.Pause? || c.Stop?
    requires s.clock <= now && 1 <= frameMod && 1 <= s.play.frame <= |s.event.frames|
    requires
      var t := After(s, Process(c, now, frameMod));
      Possible(t, steps) && forall i :: 0 <= i < |steps| ==> IsTurn(steps[i])
    ensures
      var t := Run(After(s, Process(c, now, frameMod)), steps);
      && t.event == s.event && t.play.frame == s.play.frame && t.play.rate == s.play.rate
      && (c.Pause? ==> t.play.paused && !t.play.stopped)
      && (c.Stop? ==> t.play.stopped && !t.play.paused && !Sends(t.play, t.Holding(), true))
  {
    RestKeepsFrame(After(s, Process(c, now, frameMod)), steps);
  }

  /** A single step forward or back shows the frame beside this one, if there is one, and stays
      there. */
  lemma StepMovesOneFrame(s: State, c: Command, now: int, frameMod: int, steps: seq<Step>)
    requires c.SlowFwd? || c.SlowRev?
    requires s.clock <= now && 1 <= frameMod && 1 <= s.play.frame <= |s.event.frames|
    requires
      var t := After(s, Process(c, now, frameMod));
      Possible(t, steps) && forall i :: 0 <= i < |steps| ==> IsTurn(steps[i])
    ensures
      var t, n := Run(After(s, Process(c, now, frameMod)), steps), |s.event.frames|;
      && t.event == s.event && t.play.paused && !t.play.stopped && t.play.rate == 100
      && (c.SlowFwd? ==> t.play.frame == if s.play.frame == n then n else s.play.frame + 1)
      && (c.SlowRev? ==> t.play.frame == if s.play.frame == 1 then 1 else s.play.frame - 1)
  {
    RestKeepsFrame(After(s, Process(c, now, frameMod)), steps);
  }

  /** A single step, and a change of view or a seek while paused, is shown by the next turn, and after
      that only when it is time to keep the connection alive. */
  lemma StepIsShownOnce(s: State, c: Command, now: int, frameMod: int)
    requires s.clock <= now && 1 <= frameMod && s.event.frames != []
    requires
      || c.SlowFwd? || c.SlowRev?
      || ((c.View? || (c.Seek? && c.offset >= 0)) && s.play.paused && !s.play.stopped)
    ensures
      var t := After(s, Process(c, now, frameMod));
      && Sends(t.play, t.Holding(), false)
      && !Sends(Turn(t, false).play, t.Holding(), false)
      && Sends(Turn(t, false).play, t.Holding(), true)
  {
  }

  /** While it counts down to the next event, a stream that plays stays where it is. */
  lemma CountdownKeepsFrame(s: State, keepalive: bool)
    requires Enabled(s, Body(true, keepalive)) && !s.play.paused && s.Resting()
    ensures After(s, Body(true, keepalive)) == s
  {
  }

  /** Play goes on at normal speed from the frame the stream is on, or from the first one where a
      mode that plays one event is at its last. */
  lemma PlayGoesOn(s: State, now: int, frameMod: int, keepalive: bool)
    requires s.clock <= now && 1 <= frameMod && 1 <= s.play.frame <= |s.event.frames|
    ensures
      var n := |s.event.frames|;
      var from := if (s.mode == Single || s.mode == Plain) && s.play.frame == n then 1 else s.play.frame;
      var t := ThenTurn(s, Play, now, frameMod, keepalive);
      && t.play.rate == 100 && !t.play.paused && !t.play.stopped && t.Resting() && !t.ending.endStop
      && t.play.frame == if s.mode == Single && from + frameMod > n then 1 else from + frameMod
  {
  }

  /** A change of speed plays on forwards or backwards by its sign; in the mode that repeats one
      event it starts again at frame 1 past either end. */
  lemma SpeedGoesOn(s: State, c: Command, now: int, frameMod: int, keepalive: bool)
    requires c.FastFwd? || c.FastRev? || c.VarPlay?
    requires s.clock <= now && 1 <= frameMod && 1 <= s.play.frame <= |s.event.frames|
    ensures
      var t := ThenTurn(s, c, now, frameMod, keepalive);
      var f := s.play.frame + if t.play.rate > 0 then frameMod else -frameMod;
      && !t.play.paused && !t.play.stopped && t.Resting()
      && (c.FastFwd? ==> t.play.rate > 0) && (c.FastRev? ==> t.play.rate < 0)
      && t.play.frame == if s.mode == Single && !(1 <= f <= |s.event.frames|) then 1 else f
  {
  }

  /** The rate after a number of presses of fast forward, or fast reverse. */
  ghost function Presses(s: State, c: Command, k: nat): int
    requires c.FastFwd? || c.FastRev?
  {
    if k == 0 then s.play.rate
    else ProcessCommand(s.(play := s.play.(rate := Presses(s, c, k - 1))), c, 0).play.rate
  }

  /** Fast forward from normal speed goes to 2, 5, 10, 25 and 50 times that; fast reverse to 1, 2,
      5, 10, 25 and 50 times backwards; both stay there. */
  lemma {:induction false} FastPresses(s: State, k: nat)
    requires s.play.rate == 100
    ensures Presses(s, FastFwd, k) ==
      if k == 0 then 100 else if k == 1 then 200 else if k == 2 then 500 else if k == 3 then 1000
      else if k == 4 then 2500 else 5000
    ensures Presses(s, FastRev, k) ==
      if k == 0 then 100 else if k == 1 then -100 else if k == 2 then -200 else if k == 3 then -500
      else if k == 4 then -1000 else if k == 5 then -2500 else -5000
  {
    if k > 0 { FastPresses(s, k - 1); }
  }

  /** Variable speed is taken as asked for up to fifty times, and cut to that. */
  lemma VarPlayRate(s: State, rate: int, now: int)
    ensures
      var r := ProcessCommand(s, VarPlay(rate), now).play.rate;
      && -5000 <= r <= 5000
      && (-5000 <= rate <= 5000 ==> r == rate) && (rate > 5000 ==> r == 5000) && (rate < -5000 ==> r == -5000)
  {
  }

  /** A seek goes to the last frame at or before the offset, cut to the event's length. */
  lemma SeekGoesTo(s: State, offset: int, now: int)
    requires s.event.frames != [] && FrameTable.Sorted(s.event.frames)
    ensures
      var t := ProcessCommand(s, Seek(offset), now);
      var target := if offset > s.event.duration then s.event.duration else offset;
      && (offset < 0 ==> t.play == s.play)
      && (offset >= 0 ==>
            && FrameTable.IsSeekTarget(s.event.frames, target, t.play.frame - 1)
            && t.play.rate == s.play.rate && t.play.paused == s.play.paused)
  {
    var target := if offset > s.event.duration then s.event.duration else offset;
    FramesUpToSplits(s.event.frames, target);
  }

  /** In an ordered table the frames up to an offset come first. */
  lemma {:induction false} FramesUpToSplits(frames: seq<FrameTable.FrameData>, offset: int)
    requires FrameTable.Sorted(frames)
    ensures FramesUpTo(frames, offset) <= |frames|
    ensures forall i :: 0 <= i < |frames| ==>
      (frames[i].offset <= offset <==> i < FramesUpTo(frames, offset))
  {
    if frames != [] {
      FramesUpToSplits(frames[..|frames| - 1], offset);
    }
  }

  /** Next and previous, taken up by the next check: on to the event that follows that way, in the
      direction of playback. */
  lemma PressGoesOn(s: State, c: Command, now: int, frameMod: int, db: Db)
    requires (c.Next? || c.Prev?) && s.clock <= now && 1 <= frameMod && s.event.endTime != 0
    requires Serves(db, After(s, Process(c, now, frameMod)))
    ensures
      var pressed := After(s, Process(c, now, frameMod));
      var t := After(pressed, Check(now, db));
      var forward := c.Next? <==> s.play.rate >= 0;
      && AtEnd(pressed) && (Back(pressed) <==> !forward) && !PlaysOneEvent(pressed)
      && (t.forceEventChange ==> t.Holding())
      && (!s.hints.managed && !Answered(pressed) ==>
            var to := if forward then db.nextId else db.prevId;
            && (to != 0 ==>
                  && t.event == db.Loaded(to) && t.Resting() && !t.play.paused
                  && t.play.frame == if s.play.rate < 0 && t.event.frames != [] then |t.event.frames| else 1)
            && (to == 0 ==> t.event == s.event && t.play.paused))
  {
    var pressed := After(s, Process(c, now, frameMod));
    if MovesOn(pressed, now, db) {
      CheckGoesOn(pressed, now, db);
    } else {
      CheckHoldsOrStops(pressed, now, db);
    }
  }

  /** A stream stopped at an end is woken by exactly the messages about the event it is on that name
      an event in the direction it stopped in. */
  lemma HintWakesIff(s: State, ev: SetEvent, now: int)
    requires s.ending.endStop && s.Resting()
    ensures
      var t := ProcessCommand(s, SetNeighbour(ev), now);
      && t.play.frame == s.play.frame && t.event == s.event
      && (t.Holding() <==>
            ev.sourceId == s.event.id % 0x1_0000_0000_0000 && ev.eventId != 0 && ev.prev == s.ending.endStopPrev)
      && (t.Holding() ==> t.ending == Ending(Some(now), ev.prev, false, ev.prev) && !t.play.paused)
      && (!t.Holding() ==> t.ending == s.ending && t.play == s.play)
  {
  }
}
