/** Event playback as a state machine. Two threads share the stream under one mutex: the command
    thread runs processCommand, the streaming thread runs the body of its loop and then
    checkEventLoaded. Each of these is one step. Times are in microseconds. */
module StreamState {
  import opened SetEventMessage
  import opened Wrappers
  import FrameTable

  const RATE_BASE: int := 100
  const HINT_WAIT: int := 10_000_000

  datatype Mode = Plain | Single | All | Gapless

  /** An event as the database holds it, without an end while it is being recorded. */
  datatype StoredEvent = StoredEvent(id: nat, end: Option<int>, duration: int, frames: seq<FrameTable.FrameData>)

  /** An event as loaded. One without a recorded end gets the time of loading as its end. */
  datatype Event = Event(id: nat, endTime: int, duration: int, frames: seq<FrameTable.FrameData>)

  function Load(e: StoredEvent, wall: int): Event
  {
    Event(e.id, FrameTable.LoadedEnd(e.end, wall), e.duration, e.frames)
  }

  /** A neighbour the web page named; `have` tells no neighbour (id 0) from no answer yet. */
  datatype Hint = Hint(have: bool, eventId: nat, sourceId: nat)

  const NO_HINT: Hint := Hint(false, 0, 0)

  datatype Choice = UseHint | Boundary | Wait | TimedOut | SameMonitor

  /** View stands for the zoom, pan and scale commands, Other for those that change nothing here. */
  datatype Command =
    | Pause | Play | VarPlay(rate: int) | Stop | FastFwd | SlowFwd | SlowRev | FastRev | View
    | Prev | Next | Seek(offset: int) | SetNeighbour(ev: SetEvent) | Query | Other

  /** What the database answers during one check: the events there are, and the neighbours the
      same-monitor query finds (0 for none). wall is the time of day at which an event would be
      loaded, frameMod the frame step that updateFrameRate would work out for it. */
  datatype Db = Db(events: map<nat, StoredEvent>, nextId: nat, prevId: nat, wall: int, frameMod: int)
  {
    function Loaded(id: nat): Event
      requires id in events
    {
      Load(events[id], wall)
    }
  }

  /** The neighbours the web page has named, one per direction, and whether it names any at all. */
  datatype Hints = Hints(managed: bool, next: Hint, prev: Hint)

  /** Holding at the end of an event for a hint, since waitStart, and stopped at an end for good. */
  datatype Ending = Ending(waitStart: Option<int>, waitPrev: bool, endStop: bool, endStopPrev: bool)

  datatype Playback = Playback(frame: int, rate: int, paused: bool, stopped: bool, step: int, frameMod: int)

  datatype State = State(
    mode: Mode,
    event: Event,
    forceEventChange: bool,
    hints: Hints,
    ending: Ending,
    play: Playback,
    clock: int)                   // the time of the last step that read the clock
  {
    predicate Holding() { ending.waitStart.Some? }

    predicate Resting() { ending.waitStart.None? }
  }

  /** What a run did: a SET_EVENT, whether its hint was kept and which event was playing, or a
      departure from an event to another one (0 for none), and whether the same-monitor query was
      asked. */
  datatype Entry =
    | Told(ev: SetEvent, kept: bool, playing: nat)
    | Left(id: nat, to: nat, prev: bool, asked: bool)

  datatype Step =
    | Process(c: Command, now: int, frameMod: int)  // frameMod as updateFrameRate leaves it
    | Body(gap: bool, keepalive: bool)              // gap: still counting down to the next event
    | Check(now: int, db: Db)

  // ---------------------------------------------------------------- decisions

  /** Whether a hint was computed for this event, by the 48 bits sent. */
  predicate HintIsFor(h: Hint, id: nat)
  {
    h.have && h.sourceId == Low48(id)
  }

  function ChooseNeighbour(h: Hint, id: nat, uiManaged: bool, waited: int): Choice
  {
    if HintIsFor(h, id) then if h.eventId != 0 then UseHint else Boundary
    else if !uiManaged then SameMonitor
    else if waited < HINT_WAIT then Wait
    else TimedOut
  }

  predicate HintResumes(ev: SetEvent, endStop: bool, endPrev: bool)
  {
    endStop && ev.eventId != 0 && ev.prev == endPrev
  }

  /** The frame to stay on when there is nothing further that way. */
  function BoundaryFrame(e: Event, prev: bool): int
  {
    if prev || e.frames == [] then 1 else |e.frames|
  }

  predicate ManyEvents(mode: Mode) { mode == All || mode == Gapless }

  // ---------------------------------------------------------------- commands

  function Faster(rate: int): int
  {
    if rate == 2 * RATE_BASE then 5 * RATE_BASE
    else if rate == 5 * RATE_BASE then 10 * RATE_BASE
    else if rate == 10 * RATE_BASE then 25 * RATE_BASE
    else if rate == 25 * RATE_BASE || rate == 50 * RATE_BASE then 50 * RATE_BASE
    else 2 * RATE_BASE
  }

  function FasterBack(rate: int): int
  {
    if rate == -RATE_BASE then -2 * RATE_BASE
    else if rate == -2 * RATE_BASE then -5 * RATE_BASE
    else if rate == -5 * RATE_BASE then -10 * RATE_BASE
    else if rate == -10 * RATE_BASE then -25 * RATE_BASE
    else if rate == -25 * RATE_BASE || rate == -50 * RATE_BASE then -50 * RATE_BASE
    else -RATE_BASE
  }

  function ClampedRate(rate: int): int
  {
    if rate > 50 * RATE_BASE then 50 * RATE_BASE
    else if rate < -50 * RATE_BASE then -50 * RATE_BASE
    else rate
  }

  /** How many of the frames come at or before an offset. */
  function FramesUpTo(frames: seq<FrameTable.FrameData>, offset: int): nat
  {
    if frames == [] then 0
    else FramesUpTo(frames[..|frames| - 1], offset) + if frames[|frames| - 1].offset <= offset then 1 else 0
  }

  /** The frame id CMD_SEEK goes to. */
  function SeekFrame(e: Event, offset: int): int
  {
    var target := if offset > e.duration then e.duration else offset;
    if e.frames == [] || FramesUpTo(e.frames, target) == 0 then 1 else FramesUpTo(e.frames, target)
  }

  function WithHint(h: Hints, ev: SetEvent): Hints
  {
    var hint := Hint(true, ev.eventId, ev.sourceId);
    if ev.prev then Hints(true, h.next, hint) else Hints(true, hint, h.prev)
  }

  predicate Accepts(s: State, ev: SetEvent)
  {
    HintIsFor(Hint(true, ev.eventId, ev.sourceId), s.event.id)
  }

  /** The search for the last frame at or before an offset counts the frames up to it. */
  lemma {:induction false} FramesUpToIs(frames: seq<FrameTable.FrameData>, offset: int, k: nat)
    requires k <= |frames|
    requires forall i :: 0 <= i < k ==> frames[i].offset <= offset
    requires forall i :: k <= i < |frames| ==> offset < frames[i].offset
    ensures FramesUpTo(frames, offset) == k
  {
    if frames != [] {
      FramesUpToIs(frames[..|frames| - 1], offset, if k == |frames| then k - 1 else k);
    }
  }

  /** Stores the hint unless it is for another event; may resume a stream stopped at an end. */
  function TakeHint(s: State, ev: SetEvent, now: int): State
  {
    if !Accepts(s, ev) then s.(hints := s.hints.(managed := true))
    else if HintResumes(ev, s.ending.endStop, s.ending.endStopPrev) then
      s.(hints := WithHint(s.hints, ev), play := s.play.(paused := false),
         ending := Ending(Some(now), ev.prev, false, s.ending.endStopPrev))
    else s.(hints := WithHint(s.hints, ev))
  }

  /** A playback command, for an event of n frames. */
  function Obey(p: Playback, c: Command, mode: Mode, e: Event): Playback
  {
    var n := |e.frames|;
    match c
    case Pause => p.(stopped := false, paused := true)
    case Play =>
      p.(stopped := false, paused := false, rate := RATE_BASE,
         frame := if (mode == Single || mode == Plain) && p.frame >= n then 1 else p.frame)
    case VarPlay(r) => p.(stopped := false, paused := false, rate := ClampedRate(r))
    case Stop => p.(stopped := true, paused := false, step := 0)
    case FastFwd => p.(stopped := false, paused := false, rate := Faster(p.rate))
    case FastRev => p.(stopped := false, paused := false, rate := FasterBack(p.rate))
    case SlowFwd =>
      p.(stopped := false, paused := true, rate := RATE_BASE, step := 1,
         frame := if p.frame < n then p.frame + 1 else p.frame)
    case SlowRev =>
      p.(stopped := false, paused := true, rate := RATE_BASE, step := -1,
         frame := if p.frame > 1 then p.frame - 1 else p.frame)
    case View => p.(step := if p.paused then 1 else p.step)
    case Prev => p.(frame := if p.rate >= 0 then 0 else n + 1, paused := false)
    case Next => p.(frame := if p.rate >= 0 then n + 1 else 0, paused := false)
    case Seek(offset) =>
      if offset < 0 then p
      else p.(frame := SeekFrame(e, offset), step := if p.paused && n > 0 then 1 else p.step)
    case SetNeighbour(_) => p
    case Query => p
    case Other => p
  }

  /** Every command but these two ends a wait and a stop at an end. */
  function ProcessCommand(s: State, c: Command, now: int): State
  {
    if c.SetNeighbour? then TakeHint(s, c.ev, now)
    else if c.Query? then s
    else
      s.(ending := s.ending.(waitStart := None, endStop := false),
         play := Obey(s.play, c, s.mode, s.event),
         forceEventChange := s.forceEventChange || c.Prev? || c.Next?)
  }

  // ---------------------------------------------------------------- the streaming thread

  /** Whether a turn of the loop sends a frame: while playing, for a single step, or to keep the
      connection alive. */
  predicate Sends(p: Playback, held: bool, keepalive: bool)
  {
    !p.stopped && ((!p.paused && !held) || p.step != 0 || keepalive)
  }

  /** Sending a frame first brings the current frame into the event, if that has frames. */
  function Clamped(frame: int, n: nat): int
  {
    if n == 0 then frame else if frame < 1 then 1 else if frame > n then n else frame
  }

  /** The first locked scope of the loop: consume a step, send a frame, move on to the next one. */
  function AdvanceFrame(p: Playback, mode: Mode, n: nat, held: bool, gap: bool, keepalive: bool): Playback
  {
    var stepped := if !p.stopped && (p.paused || held) then p.(step := 0) else p;
    if gap then stepped
    else
      var q := if Sends(p, held, keepalive) then stepped.(frame := Clamped(p.frame, n)) else stepped;
      if !q.paused && !q.stopped && !held && 1 <= q.frame <= n then
        var f := if q.rate > 0 then q.frame + q.frameMod else q.frame - q.frameMod;
        q.(frame := if mode == Single && !(1 <= f <= n) then 1 else f)
      else if held || q.stopped then q
      else q.(frame := q.frame + q.step)
  }

  /** A turn of the loop that does not only count down. */
  function Turn(s: State, keepalive: bool): State
  {
    s.(play := AdvanceFrame(s.play, s.mode, |s.event.frames|, s.Holding(), false, keepalive))
  }

  predicate InRange(s: State) { 1 <= s.play.frame <= |s.event.frames| }

  /** The check finds nothing to do. */
  predicate Settled(s: State)
  {
    s.Resting() && InRange(s)
  }

  /** The check finds an event without an end time to have run out of frames. */
  predicate ReadsAgain(s: State)
  {
    s.Resting() && s.play.frame > |s.event.frames| && s.event.endTime == 0
  }

  /** The direction in which the stream is leaving its event. */
  predicate LeavesBackwards(s: State)
  {
    if s.Holding() then s.ending.waitPrev else s.play.frame <= 0
  }

  datatype Outcome =
    | KeepWaiting
    | StartWait
    | Go(to: nat, asked: bool)    // 0: nothing further
    | PauseHere                   // this mode plays one event only

  function Decide(s: State, now: int, db: Db): Outcome
  {
    if !s.forceEventChange && !ManyEvents(s.mode) then PauseHere
    else
      var h := if LeavesBackwards(s) then s.hints.prev else s.hints.next;
      var waited := if s.Holding() then now - s.ending.waitStart.value else 0;
      match ChooseNeighbour(h, s.event.id, s.hints.managed, waited)
      case Wait => if s.Holding() then KeepWaiting else StartWait
      case UseHint => Go(if h.eventId in db.events then h.eventId else 0, false)
      case Boundary => Go(0, false)
      case TimedOut => Go(0, false)
      case SameMonitor =>
        var to := if LeavesBackwards(s) then db.prevId else db.nextId;
        Go(if to in db.events then to else 0, true)
  }

  function Depart(s: State, prev: bool, out: Outcome, now: int, db: Db): State
    requires out.Go? && out.to != 0 ==> out.to in db.events
  {
    var boundary := BoundaryFrame(s.event, prev);
    match out
    case KeepWaiting => s
    case StartWait =>
      s.(ending := s.ending.(waitStart := Some(now), waitPrev := prev), play := s.play.(frame := boundary))
    case Go(to, _) =>
      if to != 0 then
        s.(event := db.Loaded(to), forceEventChange := false, ending := s.ending.(waitStart := None),
           play := s.play.(frame := BoundaryFrame(db.Loaded(to), s.play.rate >= 0), frameMod := db.frameMod))
      else
        s.(forceEventChange := false, ending := Ending(None, s.ending.waitPrev, s.hints.managed, prev),
           play := s.play.(frame := boundary, paused := true))
    case PauseHere =>
      s.(ending := s.ending.(waitStart := None), play := s.play.(frame := boundary, paused := true))
  }

  /** The event is read again, in case it has got more frames. */
  function Reload(s: State, e: Event, frameMod: int): State
  {
    var frame := if e.frames == [] || s.play.frame > |e.frames| then BoundaryFrame(e, false) else s.play.frame;
    s.(event := e, play := s.play.(frame := frame, frameMod := frameMod))
  }

  function CheckEvent(s: State, now: int, db: Db): State
    requires ReadsAgain(s) ==> s.event.id in db.events
  {
    if Settled(s) then s
    else if ReadsAgain(s) then Reload(s, db.Loaded(s.event.id), db.frameMod)
    else Depart(s, LeavesBackwards(s), Decide(s, now, db), now, db)
  }

  /** The check moves the stream to another event. */
  predicate MovesOn(s: State, now: int, db: Db)
  {
    !Settled(s) && !ReadsAgain(s) && Decide(s, now, db).Go? && Decide(s, now, db).to != 0
  }

  // ---------------------------------------------------------------- runs

  /** A database names its events by their ids, its query finds only events there are, and it
      still holds the event that is to be read again. */
  ghost predicate Serves(db: Db, s: State)
  {
    && (forall id :: id in db.events ==> db.events[id].id == id)
    && (db.nextId != 0 ==> db.nextId in db.events)
    && (db.prevId != 0 ==> db.prevId in db.events)
    && 1 <= db.frameMod && 0 < db.wall
    && (ReadsAgain(s) ==> s.event.id in db.events)
  }

  /** What the clock, the frame rate and the database may do. */
  ghost predicate Enabled(s: State, step: Step)
  {
    match step
    case Process(_, now, frameMod) => s.clock <= now && 1 <= frameMod
    case Body(gap, _) => gap ==> s.mode == All && !s.play.stopped
    case Check(now, db) => s.clock <= now && Serves(db, s)
  }

  function SetClock(s: State, now: int, frameMod: int): State
  {
    s.(clock := now, play := s.play.(frameMod := frameMod))
  }

  ghost function After(s: State, step: Step): State
    requires Enabled(s, step)
  {
    match step
    case Process(c, now, frameMod) => SetClock(ProcessCommand(s, c, now), now, frameMod)
    case Body(gap, keepalive) =>
      s.(play := AdvanceFrame(s.play, s.mode, |s.event.frames|, s.Holding(), gap, keepalive))
    case Check(now, db) => CheckEvent(s, now, db).(clock := now)
  }

  /** What a step adds to the record of the run. */
  function Entries(s: State, step: Step): seq<Entry>
  {
    match step
    case Process(c, _, _) => if c.SetNeighbour? then [Told(c.ev, Accepts(s, c.ev), s.event.id)] else []
    case Body(_, _) => []
    case Check(now, db) =>
      if Settled(s) || ReadsAgain(s) || !Decide(s, now, db).Go? then []
      else [Left(s.event.id, Decide(s, now, db).to, LeavesBackwards(s), Decide(s, now, db).asked)]
  }

  /** Every step of the list can be taken in turn. */
  ghost predicate Possible(s: State, steps: seq<Step>)
    decreases |steps|, 0
  {
    steps == [] ||
      (Possible(s, steps[..|steps| - 1]) && Enabled(Run(s, steps[..|steps| - 1]), steps[|steps| - 1]))
  }

  ghost function Run(s: State, steps: seq<Step>): State
    requires Possible(s, steps)
    decreases |steps|, 1
  {
    if steps == [] then s else After(Run(s, steps[..|steps| - 1]), steps[|steps| - 1])
  }

  ghost function Record(s: State, steps: seq<Step>): seq<Entry>
    requires Possible(s, steps)
  {
    if steps == [] then []
    else Record(s, steps[..|steps| - 1]) + Entries(Run(s, steps[..|steps| - 1]), steps[|steps| - 1])
  }

  /** A stream as it is set up, at any frame. */
  function Start(mode: Mode, event: Event, frame: int, rate: int, now: int): State
  {
    State(mode, event, false, Hints(false, NO_HINT, NO_HINT), Ending(None, false, false, false),
          Playback(frame, rate, false, false, 0, 1), now)
  }

  // ---------------------------------------------------------------- following the web page

  ghost predicate Managed(log: seq<Entry>)
  {
    exists i :: 0 <= i < |log| && log[i].Told?
  }

  /** A message whose hint was kept, which means it came while its source was playing, or an event
      with the same low 48 bits. */
  predicate Keeps(e: Entry, ev: SetEvent)
  {
    e.Told? && e.kept && e.ev == ev && Low48(e.playing) == ev.sourceId
  }

  ghost predicate Named(log: seq<Entry>, ev: SetEvent)
  {
    exists i :: 0 <= i < |log| && Keeps(log[i], ev)
  }

  /** The hint for a direction that a stream is left with: the last one kept. */
  function LastKept(log: seq<Entry>, prev: bool): Hint
  {
    if log == [] then NO_HINT
    else
      var last := log[|log| - 1];
      if last.Told? && last.kept && last.ev.prev == prev then Hint(true, last.ev.eventId, last.ev.sourceId)
      else LastKept(log[..|log| - 1], prev)
  }

  /** An entry and what came before it: once a SET_EVENT was processed, the same-monitor query is
      not asked, and a move to another event goes where a kept hint for that direction and that
      event said. */
  ghost predicate PageDecided(log: seq<Entry>, i: nat)
    requires i < |log|
  {
    Managed(log[..i]) && log[i].Left? ==>
      && !log[i].asked
      && (log[i].to != 0 ==> Named(log[..i], SetEvent(log[i].prev, log[i].to, Low48(log[i].id))))
  }

  ghost predicate FollowsPage(log: seq<Entry>)
  {
    forall i :: 0 <= i < |log| ==> PageDecided(log, i)
  }

  ghost predicate NamedInLog(log: seq<Entry>, h: Hint, prev: bool)
  {
    h.have ==> Named(log, SetEvent(prev, h.eventId, h.sourceId))
  }

  /** The log so far, and what the stream remembers of it. */
  ghost predicate PageInv(log: seq<Entry>, h: Hints)
  {
    && FollowsPage(log)
    && (h.managed <==> Managed(log))
    && NamedInLog(log, h.next, false) && NamedInLog(log, h.prev, true)
    && h.next == LastKept(log, false) && h.prev == LastKept(log, true)
  }

  lemma LogGrows(log: seq<Entry>, e: Entry)
    requires FollowsPage(log)
    requires Managed(log) && e.Left? ==>
      !e.asked && (e.to != 0 ==> Named(log, SetEvent(e.prev, e.to, Low48(e.id))))
    ensures FollowsPage(log + [e])
    ensures Managed(log + [e]) <==> Managed(log) || e.Told?
  {
    var longer := log + [e];
    forall i | 0 <= i < |longer| ensures PageDecided(longer, i) {
      if i < |log| {
        assert longer[..i] == log[..i] && PageDecided(log, i);
      } else {
        assert longer[..i] == log;
      }
    }
    assert longer[|log|] == e;
    assert forall i :: 0 <= i < |log| ==> longer[i] == log[i];
  }

  lemma NamedGrows(log: seq<Entry>, e: Entry, ev: SetEvent)
    ensures Named(log, ev) || Keeps(e, ev) ==> Named(log + [e], ev)
  {
    var longer := log + [e];
    assert longer[|log|] == e;
    if i :| 0 <= i < |log| && Keeps(log[i], ev) {
      assert longer[i] == log[i];
    }
  }

  lemma HintGrows(log: seq<Entry>, e: Entry, h: Hint, prev: bool)
    requires NamedInLog(log, h, prev)
    ensures NamedInLog(log + [e], h, prev)
  {
    NamedGrows(log, e, SetEvent(prev, h.eventId, h.sourceId));
  }

  lemma LastKeptSnoc(log: seq<Entry>, e: Entry, prev: bool)
    ensures LastKept(log + [e], prev)
         == if e.Told? && e.kept && e.ev.prev == prev then Hint(true, e.ev.eventId, e.ev.sourceId)
            else LastKept(log, prev)
  {
    assert (log + [e])[..|log|] == log;
  }

  lemma ToldKeepsPage(log: seq<Entry>, h: Hints, ev: SetEvent, kept: bool, playing: nat)
    requires PageInv(log, h) && (kept ==> Low48(playing) == ev.sourceId)
    ensures PageInv(log + [Told(ev, kept, playing)], if kept then WithHint(h, ev) else h.(managed := true))
  {
    var e := Told(ev, kept, playing);
    LogGrows(log, e);
    HintGrows(log, e, h.next, false);
    HintGrows(log, e, h.prev, true);
    NamedGrows(log, e, ev);
    LastKeptSnoc(log, e, false);
    LastKeptSnoc(log, e, true);
  }

  lemma LeftKeepsPage(log: seq<Entry>, h: Hints, e: Entry)
    requires PageInv(log, h) && e.Left?
    requires h.managed ==> !e.asked && (e.to != 0 ==>
      && (if e.prev then h.prev else h.next).have
      && (if e.prev then h.prev else h.next) == Hint(true, e.to, Low48(e.id)))
    ensures PageInv(log + [e], h)
  {
    LogGrows(log, e);
    HintGrows(log, e, h.next, false);
    HintGrows(log, e, h.prev, true);
    LastKeptSnoc(log, e, false);
    LastKeptSnoc(log, e, true);
  }

  /** Where the stream goes when the page directs it. */
  lemma DecideFollowsHint(s: State, now: int, db: Db)
    requires s.hints.managed && Decide(s, now, db).Go?
    ensures !Decide(s, now, db).asked
    ensures
      var h, to := if LeavesBackwards(s) then s.hints.prev else s.hints.next, Decide(s, now, db).to;
      to != 0 ==> h == Hint(true, to, Low48(s.event.id))
  {
  }

  lemma HintsAfter(s: State, step: Step)
    requires Enabled(s, step)
    ensures step.Process? && step.c.SetNeighbour? ==>
      After(s, step).hints == if Accepts(s, step.c.ev) then WithHint(s.hints, step.c.ev) else s.hints.(managed := true)
    ensures !(step.Process? && step.c.SetNeighbour?) ==> After(s, step).hints == s.hints
  {
  }

  lemma StepKeepsPage(log: seq<Entry>, s: State, step: Step)
    requires Enabled(s, step) && PageInv(log, s.hints)
    ensures PageInv(log + Entries(s, step), After(s, step).hints)
  {
    HintsAfter(s, step);
    assert log + [] == log;
    if step.Process? && step.c.SetNeighbour? {
      ToldKeepsPage(log, s.hints, step.c.ev, Accepts(s, step.c.ev), s.event.id);
    } else if step.Check? && Entries(s, step) != [] {
      if s.hints.managed { DecideFollowsHint(s, step.now, step.db); }
      LeftKeepsPage(log, s.hints, Entries(s, step)[0]);
    }
  }

  lemma {:induction false} RunKeepsPage(s: State, steps: seq<Step>)
    requires PageInv([], s.hints) && Possible(s, steps)
    ensures PageInv(Record(s, steps), Run(s, steps).hints)
  {
    if steps != [] {
      RunKeepsPage(s, steps[..|steps| - 1]);
      StepKeepsPage(Record(s, steps[..|steps| - 1]), Run(s, steps[..|steps| - 1]), steps[|steps| - 1]);
    }
  }

  /** In any run of any stream: after the first SET_EVENT the same-monitor query is not asked, and
      wherever the stream goes, the page had named that event for that direction while the event
      being left, or one with the same low 48 bits, was playing. */
  lemma PageDecides(mode: Mode, event: Event, frame: int, rate: int, now: int, steps: seq<Step>, i: nat)
    requires Possible(Start(mode, event, frame, rate, now), steps)
    requires i < |Record(Start(mode, event, frame, rate, now), steps)|
    requires Managed(Record(Start(mode, event, frame, rate, now), steps)[..i])
    requires Record(Start(mode, event, frame, rate, now), steps)[i].Left?
    ensures
      var log := Record(Start(mode, event, frame, rate, now), steps);
      && !log[i].asked
      && (log[i].to != 0 ==> Named(log[..i], SetEvent(log[i].prev, log[i].to, Low48(log[i].id))))
  {
    RunKeepsPage(Start(mode, event, frame, rate, now), steps);
    assert PageDecided(Record(Start(mode, event, frame, rate, now), steps), i);
  }

  /** The record misses nothing: the event playing changes only with an entry that names both
      events and the direction the stream was leaving in. */
  lemma EventChangesAreRecorded(s: State, step: Step)
    requires Enabled(s, step) && After(s, step).event.id != s.event.id
    ensures |Entries(s, step)| == 1 && Entries(s, step)[0].Left?
    ensures Entries(s, step)[0].id == s.event.id && Entries(s, step)[0].to == After(s, step).event.id
    ensures Entries(s, step)[0].prev == LeavesBackwards(s)
  {
  }

  /** In any run: the hint stored for a direction is the last one that was kept for it, and each was
      kept while its source, or an event with the same low 48 bits, was playing. So a message about
      another event never replaces a stored hint, however late it comes. */
  lemma StoredHintIsLastKept(mode: Mode, event: Event, frame: int, rate: int, now: int, steps: seq<Step>, prev: bool)
    requires Possible(Start(mode, event, frame, rate, now), steps)
    ensures
      var (s, log) := (Run(Start(mode, event, frame, rate, now), steps), Record(Start(mode, event, frame, rate, now), steps));
      var h := if prev then s.hints.prev else s.hints.next;
      && h == LastKept(log, prev)
      && (h.have ==> Named(log, SetEvent(prev, h.eventId, h.sourceId)))
  {
    RunKeepsPage(Start(mode, event, frame, rate, now), steps);
  }

  /** Nor does such a message wake a stream stopped at an end, or change anything else. */
  lemma StaleHintIgnored(s: State, ev: SetEvent, now: int)
    requires ev.sourceId != Low48(s.event.id)
    ensures ProcessCommand(s, SetNeighbour(ev), now) == s.(hints := s.hints.(managed := true))
  {
  }

  // ---------------------------------------------------------------- reading an event again

  /** The event is what some load gave, at a time after the epoch. */
  ghost predicate FromDb(e: Event)
  {
    exists stored: StoredEvent, wall: int :: 0 < wall && Load(stored, wall) == e
  }

  /** In any run of a stream set up with a loaded event, the event playing is a loaded one. */
  lemma {:induction false} RunPlaysLoadedEvents(s: State, steps: seq<Step>)
    requires FromDb(s.event) && Possible(s, steps)
    ensures FromDb(Run(s, steps).event)
  {
    if steps != [] {
      RunPlaysLoadedEvents(s, steps[..|steps| - 1]);
      StepPlaysLoadedEvent(Run(s, steps[..|steps| - 1]), steps[|steps| - 1]);
    }
  }

  lemma StepPlaysLoadedEvent(s: State, step: Step)
    requires FromDb(s.event) && Enabled(s, step)
    ensures FromDb(After(s, step).event)
  {
    if step.Check? {
      forall id | id in step.db.events ensures FromDb(step.db.Loaded(id)) {
        assert Load(step.db.events[id], step.db.wall) == step.db.Loaded(id);
      }
    }
  }

  /** A stream past the last frame of its event reads the event again exactly when the recorded end
      is the epoch itself. */
  lemma ReadsAgainIffEndIsEpoch(s: State, stored: StoredEvent, wall: int)
    requires 0 < wall && s.event == Load(stored, wall)
    requires s.Resting() && s.play.frame > |s.event.frames|
    ensures ReadsAgain(s) <==> stored.end == Some(0)
  {
  }

  /** An event that is still being recorded is therefore left, not read again, when playback gets to
      the last frame it was loaded with: for another event, for a wait or a stop at its end, or for
      a pause that never shows the frames it has got since. */
  lemma UnfinishedEventIsLeft(s: State, stored: StoredEvent, wall: int, now: int, db: Db)
    requires 0 < wall && s.event == Load(stored, wall) && stored.end == None
    requires s.Resting() && s.play.frame > |s.event.frames| && Serves(db, s)
    ensures CheckEvent(s, now, db) == Depart(s, false, Decide(s, now, db), now, db)
    ensures CheckEvent(s, now, db).event == s.event || MovesOn(s, now, db)
    ensures !s.forceEventChange && !ManyEvents(s.mode) ==>
      CheckEvent(s, now, db).event == s.event && CheckEvent(s, now, db).play.paused
    ensures ManyEvents(s.mode) && !s.hints.managed && !HintIsFor(s.hints.next, s.event.id) && db.nextId != 0 ==>
      CheckEvent(s, now, db).event == db.Loaded(db.nextId)
  {
    ReadsAgainIffEndIsEpoch(s, stored, wall);
  }

  // ---------------------------------------------------------------- the ends of events

  ghost predicate Framed(db: Db)
  {
    forall id :: id in db.events ==> db.events[id].frames != []
  }

  /** Holding and stopped at an end exclude each other, and in both the stream shows the boundary
      frame of the direction it was leaving in. */
  ghost predicate EndInv(s: State)
  {
    && s.event.frames != []
    && (s.Holding() ==>
          && s.play.frame == (if s.ending.waitPrev then 1 else |s.event.frames|)
          && s.hints.managed && s.ending.waitStart.value <= s.clock)
    && (s.ending.endStop ==>
          && s.Resting() && s.play.frame == (if s.ending.endStopPrev then 1 else |s.event.frames|)
          && s.play.paused && !s.forceEventChange && s.hints.managed)
    && -1 <= s.play.step <= 1
  }

  ghost predicate StepFramed(step: Step)
  {
    step.Check? ==> Framed(step.db)
  }

  lemma DecideWaits(s: State, now: int, db: Db)
    ensures Decide(s, now, db).StartWait? ==> s.hints.managed && s.Resting()
    ensures Decide(s, now, db).KeepWaiting? ==> s.Holding() && now - s.ending.waitStart.value < HINT_WAIT
    ensures Decide(s, now, db).Go? && Decide(s, now, db).to != 0 ==> Decide(s, now, db).to in db.events
  {
  }

  lemma CommandKeepsEnd(s: State, c: Command, now: int, frameMod: int)
    requires EndInv(s) && s.clock <= now
    ensures EndInv(SetClock(ProcessCommand(s, c, now), now, frameMod))
  {
    if c.SetNeighbour? {
      assert TakeHint(s, c.ev, now).play.frame == s.play.frame;
    }
  }

  lemma CheckKeepsEnd(s: State, now: int, db: Db)
    requires EndInv(s) && s.clock <= now && Serves(db, s) && Framed(db)
    ensures EndInv(CheckEvent(s, now, db).(clock := now))
  {
    DecideWaits(s, now, db);
  }

  lemma StepKeepsEnd(s: State, step: Step)
    requires EndInv(s) && Enabled(s, step) && StepFramed(step)
    ensures EndInv(After(s, step))
  {
    match step
    case Process(c, now, frameMod) => CommandKeepsEnd(s, c, now, frameMod);
    case Body(_, _) =>
    case Check(now, db) => CheckKeepsEnd(s, now, db);
  }

  lemma {:induction false} RunKeepsEnd(s: State, steps: seq<Step>)
    requires EndInv(s) && Possible(s, steps)
    requires forall i :: 0 <= i < |steps| ==> StepFramed(steps[i])
    ensures EndInv(Run(s, steps))
  {
    if steps != [] {
      RunKeepsEnd(s, steps[..|steps| - 1]);
      StepKeepsEnd(Run(s, steps[..|steps| - 1]), steps[|steps| - 1]);
    }
  }

  lemma CheckBringsInRange(s: State, now: int, db: Db)
    requires EndInv(s) && Enabled(s, Check(now, db)) && Framed(db)
    ensures InRange(After(s, Check(now, db)))
    ensures
      var t := After(s, Check(now, db));
      t.Holding() ==> now - t.ending.waitStart.value < 10_000_000
  {
    DecideWaits(s, now, db);
  }

  /** What every check leaves behind. */
  ghost predicate Checked(t: State)
  {
    && InRange(t) && !(t.Holding() && t.ending.endStop)
    && (t.Holding() ==>
          && t.play.frame == (if t.ending.waitPrev then 1 else |t.event.frames|)
          && t.clock - t.ending.waitStart.value < 10_000_000)
    && (t.ending.endStop ==>
          && t.play.paused
          && t.play.frame == (if t.ending.endStopPrev then 1 else |t.event.frames|))
  }

  /** In any run over events that have frames: after every check the current frame is one of the
      event's, a stream held or stopped at an end is not both, and shows the first frame if it was
      going back and the last one if it was going forward, and no wait for the page is as old as the
      limit, whatever commands came between. */
  lemma EveryCheckSettles(mode: Mode, event: Event, frame: int, rate: int, start: int, steps: seq<Step>)
    requires event.frames != [] && Possible(Start(mode, event, frame, rate, start), steps)
    requires forall i :: 0 <= i < |steps| ==> StepFramed(steps[i])
    requires steps != [] && steps[|steps| - 1].Check?
    ensures Checked(Run(Start(mode, event, frame, rate, start), steps))
  {
    var earlier, last := steps[..|steps| - 1], steps[|steps| - 1];
    var s := Run(Start(mode, event, frame, rate, start), earlier);
    RunKeepsEnd(Start(mode, event, frame, rate, start), earlier);
    StepKeepsEnd(s, last);
    CheckBringsInRange(s, last.now, last.db);
  }

  /** The hint for the direction a held stream is waiting in. */
  function AwaitedHint(s: State): Hint
  {
    if s.ending.waitPrev then s.hints.prev else s.hints.next
  }

  predicate SameWait(s: State, t: State)
  {
    t.Holding() && t.ending.waitStart == s.ending.waitStart && t.ending.waitPrev == s.ending.waitPrev
    && t.event == s.event && t.play.frame == s.play.frame
  }

  /** What ends a wait, step by step: any command but QUERY and SET_EVENT; no turn of the loop; and
      a check exactly when the awaited hint has come, or the limit is reached, or the stream was
      only woken in a mode that plays one event. */
  lemma WaitEndsExactly(s: State, step: Step)
    requires EndInv(s) && s.Holding() && Enabled(s, step)
    ensures SameWait(s, After(s, step)) <==>
      match step
      case Process(c, _, _) => c.Query? || c.SetNeighbour?
      case Body(_, _) => true
      case Check(now, _) =>
        && !HintIsFor(AwaitedHint(s), s.event.id)
        && now - s.ending.waitStart.value < 10_000_000
        && (s.forceEventChange || ManyEvents(s.mode))
  {
    match step
    case Process(c, now, _) =>
    case Body(_, _) =>
    case Check(now, db) => DecideWaits(s, now, db);
  }

  /** Every event without frames is outside that promise: the page's first hint is for another
      event, the stream waits, gives up, and at the check after that waits again while stopped. */
  lemma FramelessEventWaitsWhileStopped(event: Event, stale: SetEvent, db: Db)
    requires event.frames == [] && event.endTime != 0 && stale.sourceId != Low48(event.id)
    ensures
      var told := TakeHint(Start(All, event, 1, RATE_BASE, 0), stale, 0);
      var waiting := CheckEvent(told, 0, db);
      var ended := CheckEvent(waiting, HINT_WAIT, db);
      var both := CheckEvent(ended, HINT_WAIT, db);
      waiting.Holding() && ended.ending.endStop && both.Holding() && both.ending.endStop && !InRange(both)
  {
  }

  // ---------------------------------------------------------------- what a hint and a key press do

  predicate Names(s: State, ev: SetEvent, db: Db)
  {
    Accepts(s, ev) && ev.eventId != 0 && ev.eventId in db.events
  }

  /** The stream has moved to the named event, at the end it plays from. */
  predicate ArrivedAt(s: State, e: Event)
  {
    && s.event == e && s.Resting() && !s.forceEventChange
    && s.play.frame == (if s.play.rate >= 0 || e.frames == [] then 1 else |e.frames|)
  }

  /** A stream held at the end of an event goes on to the event named by the page at its next
      check, however long it has waited. */
  lemma HintEndsWait(s: State, ev: SetEvent, t0: int, gap: bool, keepalive: bool, now: int, db: Db)
    requires EndInv(s) && s.Holding() && (s.forceEventChange || ManyEvents(s.mode))
    requires ev.prev == s.ending.waitPrev && Names(s, ev, db)
    ensures
      var held := TakeHint(s, ev, t0);
      var waiting := held.(play := AdvanceFrame(held.play, held.mode, |held.event.frames|, held.Holding(), gap, keepalive));
      ArrivedAt(CheckEvent(waiting, now, db), db.Loaded(ev.eventId))
  {
  }

  /** A stream stopped at an end is woken by a hint for that direction, but the wait it is put in
      leads to the event only in the modes that play one event after another. In the other modes it
      stops again, on the same frame, and from then on no hint wakes it. */
  lemma ResumeLoadsIffManyEvents(s: State, ev: SetEvent, t0: int, now: int, db: Db)
    requires EndInv(s) && s.ending.endStop
    requires ev.prev == s.ending.endStopPrev && Names(s, ev, db)
    ensures TakeHint(s, ev, t0).Holding() && !TakeHint(s, ev, t0).play.paused
    ensures
      var t := CheckEvent(TakeHint(s, ev, t0), now, db);
      && (ManyEvents(s.mode) ==> ArrivedAt(t, db.Loaded(ev.eventId)))
      && (!ManyEvents(s.mode) ==>
            && t.event == s.event && t.play.frame == s.play.frame && t.play.paused && t.Resting()
            && forall ev', t1 :: !TakeHint(t, ev', t1).Holding() && TakeHint(t, ev', t1).play.paused)
  {
  }

  lemma RunSnoc(s: State, steps: seq<Step>, step: Step)
    requires Possible(s, steps) && Enabled(Run(s, steps), step)
    ensures Possible(s, steps + [step]) && Run(s, steps + [step]) == After(Run(s, steps), step)
  {
    assert (steps + [step])[..|steps|] == steps;
  }

  /** Such a stop can be reached in a mode that plays one event: the page says that there is no next
      event, and the user asks for it. */
  lemma SingleModeStopsAtEnd(event: Event, frame: int, rate: int, db: Db)
    requires event.frames != [] && event.endTime != 0 && 0 <= rate
    requires Serves(db, Start(Single, event, frame, rate, 0))
    ensures
      var s := Start(Single, event, frame, rate, 0);
      var steps := [] + [Process(SetNeighbour(SetEvent(false, 0, Low48(event.id))), 0, 1)]
                      + [Process(Next, 0, 1)] + [Check(0, db)];
      && Possible(s, steps) && EndInv(Run(s, steps))
      && Run(s, steps).ending.endStop && !Run(s, steps).ending.endStopPrev && Run(s, steps).event == event
  {
    var s := Start(Single, event, frame, rate, 0);
    var told, pressed := Process(SetNeighbour(SetEvent(false, 0, Low48(event.id))), 0, 1), Process(Next, 0, 1);
    RunSnoc(s, [], told);
    RunSnoc(s, [] + [told], pressed);
    RunSnoc(s, [] + [told] + [pressed], Check(0, db));
    StopsAfterPress(s, event, db);
  }

  lemma StopsAfterPress(s: State, event: Event, db: Db)
    requires event.frames != [] && event.endTime != 0 && s.play.rate >= 0
    requires s == Start(Single, event, s.play.frame, s.play.rate, 0) && Serves(db, s)
    ensures
      var told := SetClock(TakeHint(s, SetEvent(false, 0, Low48(event.id)), 0), 0, 1);
      var pressed := SetClock(ProcessCommand(told, Next, 0), 0, 1);
      && Serves(db, pressed)
      && var t := CheckEvent(pressed, 0, db).(clock := 0);
      && t.ending.endStop && !t.ending.endStopPrev && t.event == event && EndInv(t)
  {
  }

  /** Past the end that next or previous puts a stream at: next beyond the last frame and previous
      before the first, or the other way round in reverse. */
  predicate PastOwnEnd(c: Command, rate: int, frame: int, n: nat)
  {
    if c.Next? <==> rate >= 0 then frame > n else frame <= 0
  }

  /** Next and previous put the stream past one end of its event. If the streaming thread takes a
      turn before the next check, the frame it sends brings the stream back, and the press is left
      to be acted on only if playback then runs over the same end again, or the stream is stopped:
      next while it plays forwards or backwards, previous only at rate 0. */
  lemma PressReachesCheck(s: State, c: Command, now: int, keepalive: bool)
    requires EndInv(s) && (c.Prev? || c.Next?) && 1 <= s.play.frameMod
    ensures PastOwnEnd(c, s.play.rate, ProcessCommand(s, c, now).play.frame, |s.event.frames|)
    ensures
      var t := Turn(ProcessCommand(s, c, now), keepalive);
      PastOwnEnd(c, s.play.rate, t.play.frame, |s.event.frames|) <==>
        PressStands(s, c)
  {
  }

  predicate PressStands(s: State, c: Command)
  {
    s.play.stopped || (s.mode != Single && (if c.Next? then s.play.rate != 0 else s.play.rate == 0))
  }

  /** What becomes of a previous pressed during normal playback and overtaken by a turn of the loop:
      the stream plays on from the first frame, or, if it skips more frames than there are, leaves
      the event at the wrong end. */
  lemma OvertakenPrevious(s: State, now: int, keepalive: bool)
    requires EndInv(s) && 0 < s.play.rate && !s.play.stopped && s.mode != Single && 1 <= s.play.frameMod
    ensures
      var t := Turn(ProcessCommand(s, Prev, now), keepalive);
      && t.forceEventChange && t.play.frame == 1 + s.play.frameMod
      && (s.play.frameMod < |s.event.frames| ==> Settled(t))
      && (s.play.frameMod >= |s.event.frames| ==> !Settled(t) && !LeavesBackwards(t))
  {
  }

  lemma PreviousLostSteps(s: State, event: Event, db: Db)
    requires |event.frames| == 10 && s == Start(All, event, 5, RATE_BASE, 0) && Serves(db, s)
    ensures
      var pressed := SetClock(ProcessCommand(s, Prev, 0), 0, 1);
      var played := Turn(pressed, false);
      && Serves(db, played) && played.event == event && played.play.frame == 2
      && CheckEvent(played, 0, db) == played
  {
  }

  /** A run in which that happens: previous pressed at frame 5 of 10 plays on at frame 2, and the
      check that follows changes nothing. */
  lemma PreviousIsLost(event: Event, db: Db)
    requires |event.frames| == 10 && Serves(db, Start(All, event, 5, RATE_BASE, 0))
    ensures
      var s := Start(All, event, 5, RATE_BASE, 0);
      var steps := [] + [Process(Prev, 0, 1)] + [Body(false, false)] + [Check(0, db)];
      Possible(s, steps) && Run(s, steps).event == event && Run(s, steps).play.frame == 2
  {
    var s := Start(All, event, 5, RATE_BASE, 0);
    var press, turn, check := Process(Prev, 0, 1), Body(false, false), Check(0, db);
    PreviousLostSteps(s, event, db);
    RunSnoc(s, [], press);
    var pressed := Run(s, [] + [press]);
    RunSnoc(s, [] + [press], turn);
    var played := Run(s, [] + [press] + [turn]);
    assert played == Turn(pressed, false);
    RunSnoc(s, [] + [press] + [turn], check);
  }

  /** The page's message about the event it believes is playing is kept exactly when that event and
      the one playing agree in their low 48 bits: the stream cannot tell such events apart. */
  lemma MessageAcceptedIff(s: State, prev: bool, target: nat, source: nat)
    requires target < ID_LIMIT
    ensures Accepts(s, Decoded(Message(prev, target, source))) <==> Low48(source) == Low48(s.event.id)
  {
    MessageRoundTrip(prev, target, source);
  }
}
