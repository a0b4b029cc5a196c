/** The forced alarms of the alarm server: triggering, one expiry thread per alarm, and shutdown,
    as steps that interleave freely. The lock is explicit, because stop() sets its flag without it. */
module ForcedAlarms {

  type Monitor = nat

  /** One raised alarm. gen numbers the raisings; lastTrigger is when it was raised or extended. */
  datatype Entry = Entry(gen: nat, deadline: int, lastTrigger: int)

  datatype Disarm = Disarm(gen: nat, monitor: Monitor, time: int, expired: bool)

  datatype Accepted = Accepted(gen: nat, time: int)

  datatype Lock = Free | Triggering(monitor: Monitor)

  /** How monitor.arm() ended. A termination signal can stop it at any moment, before or after it
      took effect. */
  datatype Outcome = Armed | Failed | Interrupted

  datatype State = State(
    length: int,
    now: int,
    lock: Lock,
    stopping: bool,
    stopped: bool,                  // stop() has returned
    active: map<Monitor, Entry>,
    starting: multiset<Monitor>,    // trigger() has released the lock, Thread.start() still to come
    threads: multiset<Monitor>,     // expiry threads
    nextGen: nat,
    forced: set<Monitor>,           // armed, or possibly so, since the last disarm attempt
    arms: nat,                      // calls of monitor.arm()
    triggers: set<Accepted>,         // accepted triggers
    disarms: multiset<Disarm>)

  datatype Step =
    | Tick(dt: nat)
    | TriggerEnter(monitor: Monitor)
    | TriggerBody(alarmed: bool, outcome: Outcome)
    | ThreadStart(monitor: Monitor)
    | ThreadLost(monitor: Monitor)  // a signal between the release of the lock and Thread.start()
    | Expire(monitor: Monitor)
    | StopSet
    | StopLocked

  function Initial(length: int): State
  {
    State(length, 0, Free, false, false, map[], multiset{}, multiset{}, 0, {}, 0, {}, multiset{})
  }

  /** An arm() that succeeded, or was interrupted and may have, is owed a disarm attempt. */
  function MayBeArmed(outcome: Outcome): bool
  {
    outcome != Failed
  }

  /** The alarm of an active monitor is armed again and its deadline put off. */
  function Extended(s: State, m: Monitor, outcome: Outcome): State
    requires m in s.active
  {
    s.(lock := Free, arms := s.arms + 1,
       active := s.active[m := Entry(s.active[m].gen, s.now + s.length, s.now)],
       forced := if MayBeArmed(outcome) then s.forced + {m} else s.forced,
       triggers := s.triggers + {Accepted(s.active[m].gen, s.now)})
  }

  /** A new alarm: its entry is there before arm() is called, and is taken out again only if that
      fails. An interrupted one has an entry but gets no thread. */
  function Raised(s: State, m: Monitor, outcome: Outcome): State
    requires m !in s.active
  {
    if outcome == Failed then s.(lock := Free, nextGen := s.nextGen + 1, arms := s.arms + 1)
    else
      s.(lock := Free, nextGen := s.nextGen + 1, arms := s.arms + 1,
         active := s.active[m := Entry(s.nextGen, s.now + s.length, s.now)],
         forced := if MayBeArmed(outcome) then s.forced + {m} else s.forced,
         triggers := s.triggers + {Accepted(s.nextGen, s.now)},
         starting := if outcome == Armed then s.starting + multiset{m} else s.starting)
  }

  function Body(s: State, m: Monitor, alarmed: bool, outcome: Outcome): State
  {
    if m in s.active then Extended(s, m, outcome)
    else if alarmed then s.(lock := Free)
    else Raised(s, m, outcome)
  }

  function DisarmOf(active: map<Monitor, Entry>, m: Monitor, now: int): Disarm
    requires m in active
  {
    Disarm(active[m].gen, m, now, false)
  }

  function DisarmsOf(active: map<Monitor, Entry>, done: set<Monitor>, now: int): multiset<Disarm>
    requires done <= active.Keys
  {
    multiset(set m | m in done :: DisarmOf(active, m, now))
  }

  function StopDisarms(s: State): multiset<Disarm>
  {
    DisarmsOf(s.active, s.active.Keys, s.now)
  }

  lemma AddDisarm(active: map<Monitor, Entry>, done: set<Monitor>, m: Monitor, now: int)
    requires done <= active.Keys && m in active && m !in done
    ensures DisarmsOf(active, done + {m}, now) == DisarmsOf(active, done, now) + multiset{DisarmOf(active, m, now)}
  {
    var before := set k | k in done :: DisarmOf(active, k, now);
    var after := set k | k in done + {m} :: DisarmOf(active, k, now);
    assert after == before + {DisarmOf(active, m, now)};
    assert DisarmOf(active, m, now) !in before;
  }

  function Expired(s: State, m: Monitor): State
    requires m in s.active
  {
    s.(active := s.active - {m}, threads := s.threads - multiset{m}, forced := s.forced - {m},
       disarms := s.disarms + multiset{Disarm(s.active[m].gen, m, s.now, true)})
  }

  function Next(s: State, step: Step): State
  {
    match step
    case Tick(dt) => s.(now := s.now + dt)
    case TriggerEnter(m) => if s.lock == Free && !s.stopping then s.(lock := Triggering(m)) else s
    case TriggerBody(alarmed, outcome) => if s.lock.Triggering? then Body(s, s.lock.monitor, alarmed, outcome) else s
    case ThreadStart(m) =>
      if m in s.starting then s.(starting := s.starting - multiset{m}, threads := s.threads + multiset{m}) else s
    case ThreadLost(m) => s.(starting := s.starting - multiset{m})
    case Expire(m) =>
      if s.lock != Free || m !in s.threads then s
      else if m !in s.active then s.(threads := s.threads - multiset{m})
      else if s.active[m].deadline - s.now <= 0 then Expired(s, m)
      else s
    case StopSet => s.(stopping := true)
    case StopLocked =>
      if s.lock == Free && s.stopping then
        s.(active := map[], forced := s.forced - s.active.Keys, disarms := s.disarms + StopDisarms(s), stopped := true)
      else s
  }

  function Run(s: State, steps: seq<Step>): State
  {
    if steps == [] then s else Next(Run(s, steps[..|steps| - 1]), steps[|steps| - 1])
  }

  // ---------------------------------------------------------------- invariant

  /** A monitor has at most one expiry thread, started or about to be, and only while its alarm is
      active or after stop(). */
  ghost predicate OneThread(threads: multiset<Monitor>, starting: multiset<Monitor>, active: map<Monitor, Entry>, stopped: bool)
  {
    forall m: Monitor ::
      && threads[m] + starting[m] <= 1
      && (threads[m] + starting[m] > 0 ==> m in active || stopped)
  }

  ghost predicate DeadlinesOk(active: map<Monitor, Entry>, nextGen: nat, now: int, length: int)
  {
    forall m :: m in active ==>
      && active[m].gen < nextGen
      && active[m].lastTrigger <= now
      && active[m].deadline == active[m].lastTrigger + length
  }

  ghost predicate GensDiffer(active: map<Monitor, Entry>)
  {
    forall m, m' :: m in active && m' in active && active[m].gen == active[m'].gen ==> m == m'
  }

  ghost predicate TriggersOk(active: map<Monitor, Entry>, triggers: set<Accepted>, nextGen: nat)
  {
    && (forall m, t :: m in active && t in triggers && t.gen == active[m].gen ==> t.time <= active[m].lastTrigger)
    && (forall t :: t in triggers ==> t.gen < nextGen)
  }

  ghost predicate EntriesOk(active: map<Monitor, Entry>, triggers: set<Accepted>, nextGen: nat, now: int, length: int)
  {
    DeadlinesOk(active, nextGen, now, length) && GensDiffer(active) && TriggersOk(active, triggers, nextGen)
  }

  ghost predicate DisarmsOk(disarms: multiset<Disarm>, active: map<Monitor, Entry>, triggers: set<Accepted>, nextGen: nat, length: int)
  {
    && (forall d :: d in disarms ==> disarms[d] == 1 && d.gen < nextGen)
    && (forall d, d' :: d in disarms && d' in disarms && d.gen == d'.gen ==> d == d')
    && (forall d, m :: d in disarms && m in active ==> d.gen != active[m].gen)
    && (forall d, t :: d in disarms && d.expired && t in triggers && t.gen == d.gen ==> t.time + length <= d.time)
  }

  ghost predicate Threads(s: State) { OneThread(s.threads, s.starting, s.active, s.stopped) }

  ghost predicate Entries(s: State) { EntriesOk(s.active, s.triggers, s.nextGen, s.now, s.length) }

  ghost predicate Disarms(s: State) { DisarmsOk(s.disarms, s.active, s.triggers, s.nextGen, s.length) }

  ghost predicate Inv(s: State)
  {
    && Threads(s) && Entries(s) && Disarms(s)
    && s.forced <= s.active.Keys
    && (s.stopped ==> s.stopping && s.lock == Free && s.active == map[])
  }

  lemma ExtendedEntriesOk(s: State, m: Monitor, outcome: Outcome)
    requires Inv(s) && m in s.active
    ensures Entries(Extended(s, m, outcome))
  {
    var t := Extended(s, m, outcome);
    assert forall k :: k in s.active ==> t.active[k].gen == s.active[k].gen;
  }

  lemma ExtendedDisarmsOk(s: State, m: Monitor, outcome: Outcome)
    requires Inv(s) && m in s.active
    ensures Disarms(Extended(s, m, outcome))
  {
    var t := Extended(s, m, outcome);
    assert forall k :: k in s.active ==> t.active[k].gen == s.active[k].gen;
  }

  lemma ExtendedKeepsInv(s: State, m: Monitor, outcome: Outcome)
    requires Inv(s) && !s.stopped && m in s.active
    ensures Inv(Extended(s, m, outcome))
  {
    ExtendedEntriesOk(s, m, outcome);
    ExtendedDisarmsOk(s, m, outcome);
    assert Threads(Extended(s, m, outcome));
  }

  lemma NewEntryOk(active: map<Monitor, Entry>, triggers: set<Accepted>, gen: nat, now: int, length: int, m: Monitor)
    requires EntriesOk(active, triggers, gen, now, length) && m !in active
    ensures
      var active' := active[m := Entry(gen, now + length, now)];
      EntriesOk(active', triggers + {Accepted(gen, now)}, gen + 1, now, length)
  {
    var active' := active[m := Entry(gen, now + length, now)];
    assert DeadlinesOk(active', gen + 1, now, length);
    assert GensDiffer(active');
    assert TriggersOk(active', triggers + {Accepted(gen, now)}, gen + 1);
  }

  lemma RaisedEntriesOk(s: State, m: Monitor, outcome: Outcome)
    requires Inv(s) && m !in s.active
    ensures Entries(Raised(s, m, outcome))
  {
    NewEntryOk(s.active, s.triggers, s.nextGen, s.now, s.length, m);
  }

  lemma RaisedDisarmsOk(s: State, m: Monitor, outcome: Outcome)
    requires Inv(s) && m !in s.active
    ensures Disarms(Raised(s, m, outcome))
  {
  }

  lemma RaisedKeepsInv(s: State, m: Monitor, outcome: Outcome)
    requires Inv(s) && !s.stopped && m !in s.active
    ensures Inv(Raised(s, m, outcome))
  {
    RaisedEntriesOk(s, m, outcome);
    RaisedDisarmsOk(s, m, outcome);
    assert Threads(Raised(s, m, outcome)) by {
      assert s.threads[m] + s.starting[m] == 0;
    }
  }

  lemma ExpiredDisarmsOk(s: State, m: Monitor)
    requires Inv(s) && m in s.active && s.active[m].deadline <= s.now
    ensures Disarms(Expired(s, m))
  {
  }

  lemma ExpiredKeepsInv(s: State, m: Monitor)
    requires Inv(s) && !s.stopped && m in s.active && m in s.threads && s.active[m].deadline <= s.now
    ensures Inv(Expired(s, m))
  {
    var t := Expired(s, m);
    assert Threads(t) by {
      assert s.threads[m] == 1 && s.starting[m] == 0;
    }
    assert Entries(t);
    ExpiredDisarmsOk(s, m);
  }

  lemma ExpireKeepsInv(s: State, m: Monitor)
    requires Inv(s)
    ensures Inv(Next(s, Expire(m)))
  {
    if s.lock == Free && m in s.threads {
      if m !in s.active {
        ThreadsKeepInv(s, s.(threads := s.threads - multiset{m}));
      } else if s.active[m].deadline - s.now <= 0 {
        ExpiredKeepsInv(s, m);
      }
    }
  }

  lemma StopKeepsInv(s: State)
    requires Inv(s)
    ensures Inv(Next(s, StopLocked))
  {
    var t := Next(s, StopLocked);
    assert Threads(t);
    assert Entries(t);
    assert Disarms(t);
  }

  /** Steps that only let time pass, take or release the lock, or set the flag. */
  lemma IdleKeepsInv(s: State, dt: nat, lock: Lock, stopping: bool)
    requires Inv(s) && (s.stopped ==> lock == Free) && (s.stopping ==> stopping)
    ensures Inv(s.(now := s.now + dt, lock := lock, stopping := stopping))
  {
    var t := s.(now := s.now + dt, lock := lock, stopping := stopping);
    assert Threads(t) && Entries(t) && Disarms(t);
  }

  /** Steps that move or drop expiry threads without adding any. */
  lemma ThreadsKeepInv(s: State, t: State)
    requires Inv(s)
    requires t == s.(starting := t.starting, threads := t.threads)
    requires forall m: Monitor :: t.threads[m] + t.starting[m] <= s.threads[m] + s.starting[m]
    ensures Inv(t)
  {
    assert Threads(t) by {
      forall m: Monitor
        ensures t.threads[m] + t.starting[m] <= 1 && (t.threads[m] + t.starting[m] > 0 ==> m in t.active || t.stopped)
      {
        assert t.threads[m] + t.starting[m] <= s.threads[m] + s.starting[m];
      }
    }
  }

  lemma ThreadStartKeepsInv(s: State, m: Monitor)
    requires Inv(s)
    ensures Inv(Next(s, ThreadStart(m)))
  {
    ThreadsKeepInv(s, Next(s, ThreadStart(m)));
  }

  lemma ThreadLostKeepsInv(s: State, m: Monitor)
    requires Inv(s)
    ensures Inv(Next(s, ThreadLost(m)))
  {
    ThreadsKeepInv(s, Next(s, ThreadLost(m)));
  }

  lemma ClockAndLockKeepInv(s: State, step: Step)
    requires Inv(s) && (step.Tick? || step.TriggerEnter? || step.StopSet?)
    ensures Inv(Next(s, step))
  {
    match step
    case Tick(dt) => IdleKeepsInv(s, dt, s.lock, s.stopping);
    case TriggerEnter(m) => if s.lock == Free && !s.stopping { IdleKeepsInv(s, 0, Triggering(m), false); }
    case StopSet => IdleKeepsInv(s, 0, s.lock, true);
  }

  lemma TriggerKeepsInv(s: State, alarmed: bool, outcome: Outcome)
    requires Inv(s) && s.lock.Triggering?
    ensures Inv(Body(s, s.lock.monitor, alarmed, outcome))
  {
    if s.lock.monitor in s.active {
      ExtendedKeepsInv(s, s.lock.monitor, outcome);
    } else if !alarmed {
      RaisedKeepsInv(s, s.lock.monitor, outcome);
    } else {
      IdleKeepsInv(s, 0, Free, s.stopping);
    }
  }

  lemma StepKeepsInv(s: State, step: Step)
    requires Inv(s)
    ensures Inv(Next(s, step))
  {
    match step
    case TriggerBody(alarmed, outcome) => if s.lock.Triggering? { TriggerKeepsInv(s, alarmed, outcome); }
    case ThreadStart(m) => ThreadStartKeepsInv(s, m);
    case ThreadLost(m) => ThreadLostKeepsInv(s, m);
    case Expire(m) => ExpireKeepsInv(s, m);
    case StopLocked => StopKeepsInv(s);
    case _ => ClockAndLockKeepInv(s, step);
  }

  lemma {:induction false} RunKeepsInv(s: State, steps: seq<Step>)
    requires Inv(s)
    ensures Inv(Run(s, steps))
  {
    if steps != [] {
      RunKeepsInv(s, steps[..|steps| - 1]);
      StepKeepsInv(Run(s, steps[..|steps| - 1]), steps[|steps| - 1]);
    }
  }

  // ---------------------------------------------------------------- what every run guarantees

  lemma OneThreadPerAlarm(length: int, steps: seq<Step>, m: Monitor)
    ensures var s := Run(Initial(length), steps); s.threads[m] + s.starting[m] <= 1
  {
    RunKeepsInv(Initial(length), steps);
  }

  /** No raising of an alarm is ever disarmed twice, by expiry and by stop() together. */
  lemma DisarmedAtMostOnce(length: int, steps: seq<Step>, d: Disarm, d': Disarm)
    requires d in Run(Initial(length), steps).disarms && d' in Run(Initial(length), steps).disarms && d.gen == d'.gen
    ensures d == d' && Run(Initial(length), steps).disarms[d] == 1
  {
    RunKeepsInv(Initial(length), steps);
  }

  /** An expiry comes no sooner than `length` after every trigger that raised or extended it. */
  lemma ExpiryWaitsForLastTrigger(length: int, steps: seq<Step>, d: Disarm, t: Accepted)
    requires
      var s := Run(Initial(length), steps);
      d in s.disarms && d.expired && t in s.triggers && t.gen == d.gen
    ensures t.time + length <= d.time
  {
    RunKeepsInv(Initial(length), steps);
    LengthKept(Initial(length), steps);
  }

  lemma {:induction false} LengthKept(s: State, steps: seq<Step>)
    ensures Run(s, steps).length == s.length
  {
    if steps != [] {
      LengthKept(s, steps[..|steps| - 1]);
      StepLength(Run(s, steps[..|steps| - 1]), steps[|steps| - 1]);
    }
  }

  lemma StepLength(s: State, step: Step)
    ensures Next(s, step).length == s.length
  {
  }

  /** When stop() has returned nothing is active and no monitor is left in forced alarm: every arm
      that succeeded or was interrupted has been followed by a disarm attempt. */
  lemma StopLeavesNothingForced(length: int, steps: seq<Step>)
    requires Run(Initial(length), steps).stopped
    ensures Run(Initial(length), steps).active == map[] && Run(Initial(length), steps).forced == {}
  {
    RunKeepsInv(Initial(length), steps);
  }

  lemma StoppedStep(s: State, step: Step)
    requires Inv(s) && s.stopped
    ensures Next(s, step).stopped && Next(s, step).arms == s.arms && Next(s, step).forced == s.forced == {}
  {
  }

  /** And nothing is armed again, whatever happens next. */
  lemma {:induction false} NoArmAfterStop(s: State, steps: seq<Step>)
    requires Inv(s) && s.stopped
    ensures Run(s, steps).stopped && Run(s, steps).arms == s.arms && Run(s, steps).forced == {}
  {
    if steps != [] {
      var before := Run(s, steps[..|steps| - 1]);
      NoArmAfterStop(s, steps[..|steps| - 1]);
      RunKeepsInv(s, steps[..|steps| - 1]);
      StoppedStep(before, steps[|steps| - 1]);
    }
  }

  // ---------------------------------------------------------------- alarms without a thread

  /** An active alarm that no expiry thread, started or about to be, looks after. */
  ghost predicate Orphaned(s: State, m: Monitor, gen: nat)
  {
    m in s.active && s.active[m].gen == gen && s.threads[m] + s.starting[m] == 0
  }

  /** The locked part of stop() runs. */
  predicate StopActs(s: State, step: Step)
  {
    step.StopLocked? && s.lock == Free && s.stopping
  }

  /** A raising leaves an alarm unless arm() failed, and a thread for it only if arm() succeeded. */
  lemma RaisedThreadIffArmed(s: State, m: Monitor, outcome: Outcome)
    requires Inv(s) && !s.stopped && m !in s.active
    ensures
      var t := Raised(s, m, outcome);
      && (m in t.active <==> outcome != Failed)
      && (t.threads[m] + t.starting[m] == 1 <==> outcome == Armed)
      && (Orphaned(t, m, s.nextGen) <==> outcome == Interrupted)
  {
    assert s.threads[m] + s.starting[m] == 0;
  }

  lemma OrphanThroughTrigger(s: State, k: Monitor, alarmed: bool, outcome: Outcome, m: Monitor, gen: nat)
    requires Orphaned(s, m, gen)
    ensures Orphaned(Body(s, k, alarmed, outcome), m, gen)
    ensures m in s.forced ==> m in Body(s, k, alarmed, outcome).forced
  {
  }

  lemma OrphanThroughExpiry(s: State, k: Monitor, m: Monitor, gen: nat)
    requires Orphaned(s, m, gen)
    ensures Orphaned(Next(s, Expire(k)), m, gen)
    ensures m in s.forced ==> m in Next(s, Expire(k)).forced
  {
  }

  lemma OrphanThroughStep(s: State, step: Step, m: Monitor, gen: nat)
    requires Orphaned(s, m, gen) && !StopActs(s, step)
    ensures Orphaned(Next(s, step), m, gen)
    ensures m in s.forced ==> m in Next(s, step).forced
  {
    match step
    case TriggerBody(alarmed, outcome) =>
      if s.lock.Triggering? { OrphanThroughTrigger(s, s.lock.monitor, alarmed, outcome, m, gen); }
    case Expire(k) => OrphanThroughExpiry(s, k, m, gen);
    case _ =>
  }

  /** Without stop(), an alarm that has lost its thread, or never had one, stays active and without
      one for good: extending it does not give it a thread, and nothing expires it. */
  lemma {:induction false} OrphanStays(s: State, steps: seq<Step>, m: Monitor, gen: nat)
    requires Orphaned(s, m, gen)
    requires forall i :: 0 <= i < |steps| ==> !steps[i].StopLocked?
    ensures Orphaned(Run(s, steps), m, gen)
    ensures m in s.forced ==> m in Run(s, steps).forced
  {
    if steps != [] {
      OrphanStays(s, steps[..|steps| - 1], m, gen);
      OrphanThroughStep(Run(s, steps[..|steps| - 1]), steps[|steps| - 1], m, gen);
    }
  }

  /** A signal in the arm() of a new alarm, in any run: until stop() the monitor is left in forced
      alarm, and nothing disarms it. */
  lemma InterruptedAlarmNeverExpires(length: int, before: seq<Step>, m: Monitor, after: seq<Step>)
    requires
      var s := Run(Initial(length), before);
      s.lock == Triggering(m) && m !in s.active
    requires forall i :: 0 <= i < |after| ==> !after[i].StopLocked?
    ensures
      var s := Run(Initial(length), before);
      var t := Run(Next(s, TriggerBody(false, Interrupted)), after);
      && Orphaned(t, m, s.nextGen) && m in t.forced
      && forall d :: d in t.disarms ==> d.gen != s.nextGen
  {
    var s := Run(Initial(length), before);
    RunKeepsInv(Initial(length), before);
    RaisedThreadIffArmed(s, m, Interrupted);
    StepKeepsInv(s, TriggerBody(false, Interrupted));
    RunKeepsInv(Next(s, TriggerBody(false, Interrupted)), after);
    OrphanStays(Next(s, TriggerBody(false, Interrupted)), after, m, s.nextGen);
  }

  /** stop() does disarm it. */
  lemma StopEndsOrphan(s: State, m: Monitor, gen: nat)
    requires Inv(s) && Orphaned(s, m, gen) && StopActs(s, StopLocked)
    ensures Disarm(gen, m, s.now, false) in Next(s, StopLocked).disarms
    ensures m !in Next(s, StopLocked).active && m !in Next(s, StopLocked).forced
  {
    assert DisarmOf(s.active, m, s.now) in StopDisarms(s);
  }

  lemma TriggerKeepsThreads(s: State, k: Monitor, alarmed: bool, outcome: Outcome, m: Monitor)
    requires s.threads[m] + s.starting[m] == 1
    ensures Body(s, k, alarmed, outcome).threads[m] + Body(s, k, alarmed, outcome).starting[m] >= 1
  {
  }

  lemma ExpiryKeepsThreads(s: State, k: Monitor, m: Monitor)
    requires s.threads[m] + s.starting[m] == 1 && m in s.active
    ensures !Orphaned(Next(s, Expire(k)), m, s.active[m].gen)
  {
  }

  /** An alarm that has its thread is left without one, while it lasts, only by a signal before the
      thread is started. */
  lemma ThreadLostIffSignal(s: State, step: Step, m: Monitor)
    requires m in s.active && s.threads[m] + s.starting[m] == 1
    ensures Orphaned(Next(s, step), m, s.active[m].gen) <==> step == ThreadLost(m) && m in s.starting
  {
    match step
    case TriggerBody(alarmed, outcome) =>
      if s.lock.Triggering? { TriggerKeepsThreads(s, s.lock.monitor, alarmed, outcome, m); }
    case Expire(k) => ExpiryKeepsThreads(s, k, m);
    case ThreadStart(k) => assert Next(s, step).threads[m] + Next(s, step).starting[m] == 1;
    case _ =>
  }

  ghost predicate Manned(active: map<Monitor, Entry>, threads: multiset<Monitor>, starting: multiset<Monitor>)
  {
    forall m :: m in active ==> threads[m] + starting[m] == 1
  }

  ghost predicate EveryAlarmHasThread(s: State)
  {
    Manned(s.active, s.threads, s.starting)
  }

  /** A signal that leaves an alarm without its thread: in the arm() of a new alarm, or before the
      thread of an alarm that is still active is started. */
  predicate Harms(s: State, step: Step)
  {
    || (step.TriggerBody? && s.lock.Triggering? && s.lock.monitor !in s.active && !step.alarmed
        && step.outcome == Interrupted)
    || (step.ThreadLost? && step.monitor in s.starting && step.monitor in s.active)
  }

  lemma TriggerMannedIff(s: State, m: Monitor, alarmed: bool, outcome: Outcome)
    requires Inv(s) && EveryAlarmHasThread(s) && !s.stopped
    ensures EveryAlarmHasThread(Body(s, m, alarmed, outcome))
       <==> !(m !in s.active && !alarmed && outcome == Interrupted)
  {
    if m !in s.active && !alarmed {
      RaisedThreadIffArmed(s, m, outcome);
    }
  }

  lemma LostMannedIff(s: State, m: Monitor)
    requires Inv(s) && EveryAlarmHasThread(s)
    ensures EveryAlarmHasThread(Next(s, ThreadLost(m))) <==> !(m in s.starting && m in s.active)
  {
    var t := Next(s, ThreadLost(m));
    assert forall k: Monitor :: k != m ==> t.starting[k] == s.starting[k];
  }

  lemma StartMannedIff(s: State, m: Monitor)
    requires EveryAlarmHasThread(s)
    ensures EveryAlarmHasThread(Next(s, ThreadStart(m)))
  {
    var t := Next(s, ThreadStart(m));
    assert forall k: Monitor :: t.threads[k] + t.starting[k] == s.threads[k] + s.starting[k];
  }

  lemma ExpiryMannedIff(s: State, m: Monitor)
    requires EveryAlarmHasThread(s)
    ensures EveryAlarmHasThread(Next(s, Expire(m)))
  {
    var t := Next(s, Expire(m));
    assert forall k: Monitor :: k != m ==> t.threads[k] + t.starting[k] == s.threads[k] + s.starting[k];
  }

  /** Steps that touch neither the alarms nor their threads, or clear all alarms. */
  lemma OtherMannedIff(s: State, step: Step)
    requires EveryAlarmHasThread(s) && (step.Tick? || step.TriggerEnter? || step.StopSet? || step.StopLocked?)
    ensures EveryAlarmHasThread(Next(s, step))
  {
  }

  lemma StepMannedIff(s: State, step: Step)
    requires Inv(s) && EveryAlarmHasThread(s)
    ensures EveryAlarmHasThread(Next(s, step)) <==> !Harms(s, step)
  {
    match step
    case TriggerBody(alarmed, outcome) =>
      if s.lock.Triggering? { TriggerMannedIff(s, s.lock.monitor, alarmed, outcome); }
    case ThreadLost(m) => LostMannedIff(s, m);
    case ThreadStart(m) => StartMannedIff(s, m);
    case Expire(m) => ExpiryMannedIff(s, m);
    case _ => OtherMannedIff(s, step);
  }

  lemma UnmannedStays(s: State, step: Step)
    requires Inv(s) && !EveryAlarmHasThread(s) && !StopActs(s, step)
    ensures !EveryAlarmHasThread(Next(s, step))
  {
    var m :| m in s.active && s.threads[m] + s.starting[m] != 1;
    assert s.threads[m] + s.starting[m] <= 1;
    OrphanThroughStep(s, step, m, s.active[m].gen);
  }

  lemma MannedAfter(s: State, step: Step, harmed: bool)
    requires Inv(s) && (EveryAlarmHasThread(s) <==> !harmed)
    ensures EveryAlarmHasThread(Next(s, step)) <==> !(!StopActs(s, step) && (harmed || Harms(s, step)))
  {
    if !harmed {
      StepMannedIff(s, step);
    } else if !StopActs(s, step) {
      UnmannedStays(s, step);
    }
  }

  /** Some signal has left an alarm without its thread, and stop() has not run since. */
  ghost predicate HarmStands(s: State, steps: seq<Step>)
  {
    steps != [] &&
      var (before, last) := (Run(s, steps[..|steps| - 1]), steps[|steps| - 1]);
      !StopActs(before, last) && (HarmStands(s, steps[..|steps| - 1]) || Harms(before, last))
  }

  /** In every run: each active alarm has exactly one expiry thread if and only if no signal has
      left one without since the last stop(). */
  lemma {:induction false} EveryAlarmHasThreadIff(length: int, steps: seq<Step>)
    ensures EveryAlarmHasThread(Run(Initial(length), steps)) <==> !HarmStands(Initial(length), steps)
  {
    if steps != [] {
      var before, last := Run(Initial(length), steps[..|steps| - 1]), steps[|steps| - 1];
      EveryAlarmHasThreadIff(length, steps[..|steps| - 1]);
      RunKeepsInv(Initial(length), steps[..|steps| - 1]);
      MannedAfter(before, last, HarmStands(Initial(length), steps[..|steps| - 1]));
    }
  }

  // ---------------------------------------------------------------- the object

  class Alarms {
    const length: int
    var now: int
    var lock: Lock
    var stopping: bool
    var active: map<Monitor, Entry>
    var nextGen: nat
    ghost var history: State   // of this, only what Snapshot() does not take from the fields above

    ghost function Snapshot(): State
      reads this
    {
      history.(length := length, now := now, lock := lock, stopping := stopping, active := active, nextGen := nextGen)
    }

    constructor (length: int)
      ensures Snapshot() == Initial(length)
    {
      this.length, now, lock, stopping, active, nextGen := length, 0, Free, false, map[], 0;
      history := Initial(length);
    }

    /** What a call of monitor.arm() does to the monitor, however it ends. */
    ghost method Arm(m: Monitor, outcome: Outcome)
      modifies `history
      ensures history == old(history).(
        arms := old(history).arms + 1,
        forced := if MayBeArmed(outcome) then old(history).forced + {m} else old(history).forced)
    {
      history := history.(arms := history.arms + 1,
                          forced := if MayBeArmed(outcome) then history.forced + {m} else history.forced);
    }

    method Extend(m: Monitor, outcome: Outcome)
      requires m in active
      modifies this
      ensures Snapshot() == Extended(old(Snapshot()), m, outcome)
    {
      active := active[m := Entry(active[m].gen, now + length, now)];
      history := history.(triggers := history.triggers + {Accepted(active[m].gen, now)});
      Arm(m, outcome);
      lock := Free;
    }

    /** Recorded before arming, so that stop() also finds an alarm whose arm() was interrupted. */
    method Raise(m: Monitor, outcome: Outcome)
      requires m !in active
      modifies this
      ensures Snapshot() == Raised(old(Snapshot()), m, outcome)
    {
      ghost var before := active;
      active, nextGen := active[m := Entry(nextGen, now + length, now)], nextGen + 1;
      Arm(m, outcome);
      lock := Free;
      if outcome == Failed {
        active := active - {m};
        assert active == before;
        return;
      }
      history := history.(triggers := history.triggers + {Accepted(nextGen - 1, now)},
                          starting := if outcome == Armed then history.starting + multiset{m} else history.starting);
    }

    /** The locked part of trigger(); true when the expiry thread is to be started next. */
    method Trigger(alarmed: bool, outcome: Outcome) returns (raised: bool)
      requires lock.Triggering?
      modifies this
      ensures Snapshot() == Next(old(Snapshot()), TriggerBody(alarmed, outcome))
      ensures raised <==> old(lock.monitor !in active) && !alarmed && outcome == Armed
    {
      var m := lock.monitor;
      if m in active {
        Extend(m, outcome);
        return false;
      }
      if alarmed {
        lock := Free;
        return false;
      }
      Raise(m, outcome);
      return outcome == Armed;
    }

    ghost method Disarmed(m: Monitor, entry: Entry, expired: bool)
      modifies `history
      ensures history == old(history).(
        disarms := old(history).disarms + multiset{Disarm(entry.gen, m, now, expired)},
        forced := old(history).forced - {m})
    {
      history := history.(disarms := history.disarms + multiset{Disarm(entry.gen, m, now, expired)},
                          forced := history.forced - {m});
    }

    /** One locked turn of the loop of _expire(); true when the thread ends. */
    method Expire(m: Monitor) returns (done: bool)
      requires lock == Free && m in Snapshot().threads
      modifies this
      ensures Snapshot() == Next(old(Snapshot()), Step.Expire(m))
      ensures done <==> old(m !in active || active[m].deadline <= now)
    {
      if m !in active {
        history := history.(threads := history.threads - multiset{m});
        return true;
      }
      var left := active[m].deadline - now;
      if left <= 0 {
        var entry := active[m];
        active := active - {m};
        Disarmed(m, entry, true);
        history := history.(threads := history.threads - multiset{m});
        return true;
      }
      return false;
    }

    /** The alarms in done, and no others, have been disarmed since start. */
    ghost predicate DisarmedSince(start: State, done: set<Monitor>)
      requires done <= active.Keys
      reads this
    {
      history == start.(disarms := start.disarms + DisarmsOf(active, done, now), forced := start.forced - done)
    }

    ghost method DisarmNext(m: Monitor, start: State, done: set<Monitor>)
      requires m in active && m !in done && done <= active.Keys && DisarmedSince(start, done)
      modifies `history
      ensures DisarmedSince(start, done + {m})
    {
      Disarmed(m, active[m], false);
      AddDisarm(active, done, m, now);
      assert history.forced == start.forced - (done + {m});
      assert history.disarms == start.disarms + DisarmsOf(active, done + {m}, now);
    }

    /** One disarm for each alarm still active, in whatever order. */
    method DisarmAll()
      modifies `history
      ensures DisarmedSince(old(history), active.Keys)
    {
      var left := active.Keys;
      ghost var start, done: set<Monitor> := history, {};
      while left != {}
        invariant left !! done && left + done == active.Keys
        invariant DisarmedSince(start, done)
        decreases |left|
      {
        var m :| m in left;
        DisarmNext(m, start, done);
        left, done := left - {m}, done + {m};
      }
      assert done == active.Keys;
    }

    /** The locked part of stop(). */
    method Stop()
      requires lock == Free && stopping
      modifies this
      ensures Snapshot() == Next(old(Snapshot()), StopLocked)
    {
      DisarmAll();
      active := map[];
      history := history.(stopped := true);
    }
  }
}
