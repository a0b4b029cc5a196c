/** The event stream object, with the fields its two threads share. */
module EventPlayback {
  import opened Planes
  import opened SetEventMessage
  import opened StreamState
  import opened Wrappers
  import FrameTable

  /** A command that ends a wait, put together from its parts. */
  lemma CommandParts(s: State, c: Command, now: int, rateFrameMod: int, t: State)
    requires !c.Query? && !c.SetNeighbour?
    requires t.mode == s.mode && t.event == s.event && t.hints == s.hints && t.clock == now
    requires t.ending == s.ending.(waitStart := None, endStop := false)
    requires t.forceEventChange == (s.forceEventChange || c.Prev? || c.Next?)
    requires t.play == Obey(s.play, c, s.mode, s.event).(frameMod := rateFrameMod)
    ensures t == SetClock(StreamState.ProcessCommand(s, c, now), now, rateFrameMod)
  {
  }

  class EventStream {
    const mode: Mode
    var eventData: Event
    var forceEventChange: bool
    var uiNextHint: Hint
    var uiPrevHint: Hint
    var uiManaged: bool
    var hintWaitStart: Option<int>
    var hintWaitPrev: bool
    var endStop: bool
    var endStopPrev: bool
    var currFrameId: int
    var replayRate: int
    var paused: bool
    var stopped: bool
    var step: int
    var frameMod: int
    ghost var clock: int

    ghost predicate Valid()
      reads this
    {
      FrameTable.Sorted(eventData.frames)
    }

    ghost function Player(): Playback
      reads this
    {
      Playback(currFrameId, replayRate, paused, stopped, step, frameMod)
    }

    ghost function Snapshot(): State
      reads this
    {
      State(mode, eventData, forceEventChange, Hints(uiManaged, uiNextHint, uiPrevHint),
            Ending(hintWaitStart, hintWaitPrev, endStop, endStopPrev), Player(), clock)
    }

    constructor (mode: Mode, event: Event, frame: int, rate: int, ghost now: int)
      requires FrameTable.Sorted(event.frames)
      ensures Valid() && Snapshot() == Start(mode, event, frame, rate, now)
    {
      this.mode, eventData, forceEventChange := mode, event, false;
      uiNextHint, uiPrevHint, uiManaged := NO_HINT, NO_HINT, false;
      hintWaitStart, hintWaitPrev, endStop, endStopPrev := None, false, false, false;
      currFrameId, replayRate, paused, stopped, step, frameMod := frame, rate, false, false, 0, 1;
      clock := now;
    }

    /** CMD_SEEK: the last frame at or before the offset. */
    method SeekTo(offset: int)
      requires Valid()
      modifies `currFrameId, `step
      ensures Player() == Obey(old(Player()), Seek(offset), mode, eventData)
    {
      var target := offset;
      if offset < 0 {
        return;
      } else if offset > eventData.duration {
        target := eventData.duration;
      }
      if |eventData.frames| == 0 {
        currFrameId := 1;
        return;
      }
      var it := FrameTable.FirstAfterOffset(eventData.frames, target);
      FramesUpToIs(eventData.frames, target, it);
      if it != 0 {
        it := it - 1;
      }
      currFrameId := it + 1;
      if paused {
        step := 1;
      }
    }

    /** The commands that set how the event plays. */
    method SetPlayback(c: Command)
      requires Valid()
      modifies `currFrameId, `replayRate, `paused, `stopped, `step
      ensures Player() == Obey(old(Player()), c, mode, eventData)
    {
      match c
      case Pause => stopped, paused := false, true;
      case Play =>
        stopped, paused := false, false;
        if (mode == Single || mode == Plain) && currFrameId >= |eventData.frames| {
          currFrameId := 1;
        }
        replayRate := RATE_BASE;
      case VarPlay(rate) =>
        stopped, paused, replayRate := false, false, rate;
        if replayRate > 50 * RATE_BASE {
          replayRate := 50 * RATE_BASE;
        } else if replayRate < -50 * RATE_BASE {
          replayRate := -50 * RATE_BASE;
        }
      case Stop => stopped, paused, step := true, false, 0;
      case FastFwd => stopped, paused, replayRate := false, false, Faster(replayRate);
      case FastRev => stopped, paused, replayRate := false, false, FasterBack(replayRate);
      case SlowFwd =>
        stopped, paused, replayRate, step := false, true, RATE_BASE, 1;
        if currFrameId < |eventData.frames| {
          currFrameId := currFrameId + 1;
        }
      case SlowRev =>
        stopped, paused, replayRate, step := false, true, RATE_BASE, -1;
        if currFrameId > 1 {
          currFrameId := currFrameId - 1;
        }
      case View => if paused { step := 1; }
      case Prev =>
        currFrameId := if replayRate >= 0 then 0 else |eventData.frames| + 1;
        paused := false;
      case Next =>
        currFrameId := if replayRate >= 0 then |eventData.frames| + 1 else 0;
        paused := false;
      case Seek(offset) => SeekTo(offset);
      case SetNeighbour(_) =>
      case Query =>
      case Other =>
    }

    method StoreHint(command: SetEvent)
      requires uiManaged
      modifies `uiNextHint, `uiPrevHint
      ensures Hints(uiManaged, uiNextHint, uiPrevHint) == WithHint(old(Hints(uiManaged, uiNextHint, uiPrevHint)), command)
    {
      var hint := Hint(true, command.eventId, command.sourceId);
      if command.prev {
        uiPrevHint := hint;
      } else {
        uiNextHint := hint;
      }
    }

    /** Takes a stream stopped at its end through the wait for a hint. */
    method Resume(prev: bool, now: int)
      modifies `endStop, `paused, `hintWaitStart, `hintWaitPrev
      ensures !endStop && !paused && hintWaitStart == Some(now) && hintWaitPrev == prev
    {
      endStop, paused := false, false;
      hintWaitStart, hintWaitPrev := Some(now), prev;
    }

    /** CMD_SET_EVENT, decoded. */
    method SetNeighbourEvent(command: SetEvent, now: int)
      modifies `uiManaged, `uiNextHint, `uiPrevHint, `endStop, `paused, `hintWaitStart, `hintWaitPrev
      ensures Snapshot() == TakeHint(old(Snapshot()), command, now)
    {
      uiManaged := true;
      if !HintIsFor(Hint(true, command.eventId, command.sourceId), eventData.id) {
        return;
      }
      StoreHint(command);
      if HintResumes(command, endStop, endStopPrev) {
        Resume(command.prev, now);
      }
    }

    /** Any command but the two that leave a wait alone. */
    method PlaybackCommand(c: Command)
      requires Valid()
      modifies `hintWaitStart, `endStop, `currFrameId, `replayRate, `paused, `stopped, `step, `forceEventChange
      ensures hintWaitStart == None && !endStop && forceEventChange == (old(forceEventChange) || c.Prev? || c.Next?)
      ensures Player() == Obey(old(Player()), c, mode, eventData)
    {
      hintWaitStart := None;
      endStop := false;
      if c.Prev? || c.Next? {
        forceEventChange := true;
      }
      SetPlayback(c);
    }

    /** One command, under the mutex. rateFrameMod is the frame step that updateFrameRate works out
        at the end. */
    method ProcessCommand(c: Command, now: int, rateFrameMod: int)
      requires Valid() && Enabled(Snapshot(), Process(c, now, rateFrameMod))
      modifies this
      ensures Valid() && Snapshot() == After(old(Snapshot()), Process(c, now, rateFrameMod))
    {
      ghost var s := Snapshot();
      if c.SetNeighbour? {
        SetNeighbourEvent(c.ev, now);
      } else if !c.Query? {
        PlaybackCommand(c);
      }
      frameMod := rateFrameMod;
      clock := now;
      if !c.Query? && !c.SetNeighbour? {
        CommandParts(s, c, now, rateFrameMod, Snapshot());
      }
    }

    /** A SET_EVENT message as it comes from the web page. */
    method ReceiveSetEvent(msg: seq<uint8>, now: int, rateFrameMod: int)
      requires Valid() && |msg| == 16 && clock <= now && 1 <= rateFrameMod
      modifies this
      ensures Valid() && Snapshot() == After(old(Snapshot()), Process(SetNeighbour(Decoded(msg)), now, rateFrameMod))
    {
      var command := DecodeSetEvent(msg);
      ProcessCommand(SetNeighbour(command), now, rateFrameMod);
    }

    /** Of sending a frame, what it does to the state: the current frame is brought into the event. */
    method SendFrame()
      modifies `currFrameId
      ensures currFrameId == Clamped(old(currFrameId), |eventData.frames|)
    {
      if |eventData.frames| == 0 {
        return;
      }
      if currFrameId < 1 || currFrameId > |eventData.frames| {
        currFrameId := if currFrameId < 1 then 1 else |eventData.frames|;
      }
    }

    /** Consumes a pending step; tells whether a frame is to be sent. */
    method ConsumeStep(holding: bool, keepalive: bool) returns (sendFrame: bool)
      requires holding == hintWaitStart.Some?
      modifies `step
      ensures step == if !stopped && (paused || holding) then 0 else old(step)
      ensures sendFrame == Sends(old(Player()), holding, keepalive)
    {
      sendFrame := false;
      if stopped {
      } else if !paused && !holding {
        sendFrame := true;
      } else if step != 0 {
        step := 0;
        sendFrame := true;
      } else if keepalive {
        sendFrame := true;
      }
    }

    /** Moves on to the next frame to be sent. */
    method NextFrame(holding: bool)
      requires holding == hintWaitStart.Some?
      modifies `currFrameId
      ensures
        var n, was := |eventData.frames|, old(currFrameId);
        var f := was + if replayRate > 0 then frameMod else -frameMod;
        currFrameId ==
          if !paused && !stopped && !holding && 1 <= was <= n then if mode == Single && !(1 <= f <= n) then 1 else f
          else if holding || stopped then was
          else was + step
    {
      if !paused && !stopped && !holding && |eventData.frames| > 0
         && 1 <= currFrameId <= |eventData.frames| {
        currFrameId := currFrameId + if replayRate > 0 then frameMod else -1 * frameMod;
        if mode == Single && (currFrameId < 1 || currFrameId > |eventData.frames|) {
          currFrameId := 1;
        }
      } else if holding {
      } else {
        if !stopped {
          currFrameId := currFrameId + step;
        }
      }
    }

    /** The part of the streaming loop before the check. keepalive tells whether it is long since a
        frame was sent. */
    method RunBody(gap: bool, keepalive: bool)
      requires Valid() && Enabled(Snapshot(), Body(gap, keepalive))
      modifies `currFrameId, `step
      ensures Valid() && Snapshot() == After(old(Snapshot()), Body(gap, keepalive))
    {
      var holding := hintWaitStart.Some?;
      var sendFrame := ConsumeStep(holding, keepalive);
      if gap {
        return;
      }
      if sendFrame {
        SendFrame();
      }
      NextFrame(holding);
    }

    /** What the end of the event calls for: another event, a stop, or a wait for the page. */
    method ChooseOutcome(prev: bool, now: int, db: Db) returns (out: Outcome)
      requires prev == LeavesBackwards(Snapshot())
      ensures out == Decide(Snapshot(), now, db)
    {
      if !forceEventChange && (mode == Single || mode == Plain) {
        return PauseHere;
      }
      var hint := if prev then uiPrevHint else uiNextHint;
      var waited := if hintWaitStart.Some? then now - hintWaitStart.value else 0;
      match ChooseNeighbour(hint, eventData.id, uiManaged, waited) {
        case Wait =>
          return if hintWaitStart.None? then StartWait else KeepWaiting;
        case UseHint =>
          return Outcome.Go(if hint.eventId in db.events then hint.eventId else 0, false);
        case Boundary =>
          return Outcome.Go(0, false);
        case TimedOut =>
          return Outcome.Go(0, false);
        case SameMonitor =>
          var id := if prev then db.prevId else db.nextId;
          return Outcome.Go(if id in db.events then id else 0, true);
      }
    }

    /** Plays another event, from the end it is entered at. */
    method LoadEvent(e: Event, rateFrameMod: int)
      modifies `hintWaitStart, `eventData, `forceEventChange, `currFrameId, `frameMod
      ensures hintWaitStart == None && eventData == e && !forceEventChange && frameMod == rateFrameMod
      ensures currFrameId == if replayRate < 0 && e.frames != [] then |e.frames| else 1
    {
      hintWaitStart := None;
      eventData, frameMod := e, rateFrameMod;
      forceEventChange := false;
      var n := |eventData.frames|;
      currFrameId := if replayRate < 0 then (if n > 0 then n else 1) else 1;
    }

    /** Stops at the end of the event. */
    method StopAtEnd(prev: bool)
      modifies `hintWaitStart, `forceEventChange, `endStop, `endStopPrev, `currFrameId, `paused
      ensures hintWaitStart == None && !forceEventChange && endStop == uiManaged && endStopPrev == prev
      ensures currFrameId == (if prev || eventData.frames == [] then 1 else |eventData.frames|) && paused
    {
      hintWaitStart := None;
      forceEventChange := false;
      endStop, endStopPrev := uiManaged, prev;
      currFrameId := BoundaryFrame(eventData, prev);
      paused := true;
    }

    /** Into the chosen event, or to the end of this one; tells which. */
    method Leave(to: nat, asked: bool, prev: bool, now: int, db: Db) returns (loaded: bool)
      requires to != 0 ==> to in db.events
      modifies `hintWaitStart, `eventData, `forceEventChange, `endStop, `endStopPrev, `currFrameId, `paused,
        `frameMod
      ensures Snapshot() == Depart(old(Snapshot()), prev, Outcome.Go(to, asked), now, db)
      ensures loaded == (to != 0) && eventData == if loaded then db.Loaded(to) else old(eventData)
    {
      loaded := to != 0;
      if loaded {
        LoadEvent(db.Loaded(to), db.frameMod);
      } else {
        StopAtEnd(prev);
      }
    }

    /** Carries out an event change; tells whether another event was loaded. */
    method ChangeEvent(prev: bool, out: Outcome, now: int, db: Db) returns (loaded: bool)
      requires out.Go? && out.to != 0 ==> out.to in db.events
      modifies `hintWaitStart, `hintWaitPrev, `eventData, `forceEventChange, `endStop, `endStopPrev, `currFrameId, `paused,
        `frameMod
      ensures Snapshot() == Depart(old(Snapshot()), prev, out, now, db)
      ensures loaded <==> out.Go? && out.to != 0
      ensures eventData == if loaded then db.Loaded(out.to) else old(eventData)
    {
      loaded := false;
      match out
      case KeepWaiting =>
      case StartWait =>
        hintWaitStart, hintWaitPrev := Some(now), prev;
        currFrameId := BoundaryFrame(eventData, prev);
      case Go(to, asked) =>
        loaded := Leave(to, asked, prev, now, db);
      case PauseHere =>
        hintWaitStart := None;
        currFrameId := BoundaryFrame(eventData, prev);
        paused := true;
    }

    /** Reads an event that is still being recorded again. */
    method ReloadEvent(e: Event, rateFrameMod: int)
      modifies `eventData, `currFrameId, `frameMod
      ensures Snapshot() == Reload(old(Snapshot()), e, rateFrameMod) && eventData == e
    {
      eventData, frameMod := e, rateFrameMod;
      var n := |eventData.frames|;
      if n == 0 || currFrameId > n {
        currFrameId := if n > 0 then n else 1;
      }
    }

    /** Detects the end of the event and goes on, holds or stops; tells whether another event was
        loaded. */
    method CheckEventLoaded(now: int, db: Db) returns (loaded: bool)
      requires Valid() && Enabled(Snapshot(), Check(now, db))
      requires forall id :: id in db.events ==> FrameTable.Sorted(db.events[id].frames)
      modifies this
      ensures Valid() && Snapshot() == After(old(Snapshot()), Check(now, db))
      ensures loaded <==> MovesOn(old(Snapshot()), now, db)
    {
      var prev;
      if hintWaitStart.Some? {
        prev := hintWaitPrev;
      } else if currFrameId <= 0 {
        prev := true;
      } else if currFrameId > |eventData.frames| {
        if eventData.endTime == 0 {
          ReloadEvent(db.Loaded(eventData.id), db.frameMod);
          clock := now;
          return false;
        }
        prev := false;
      } else {
        clock := now;
        return false;
      }
      DecideWaits(Snapshot(), now, db);
      var out := ChooseOutcome(prev, now, db);
      loaded := ChangeEvent(prev, out, now, db);
      clock := now;
    }
  }
}
