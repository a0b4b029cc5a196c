/** What one turn of an expiry thread and one trigger do, and which alarms of a run are disarmed. */
module AlarmExpiry {
  import opened ForcedAlarms

  // ---------------------------------------------------------------- single steps

  /** The thread of m takes a turn of its loop. */
  predicate TakesTurn(s: State, m: Monitor)
  {
    s.lock == Free && m in s.threads
  }

  /** The alarms and threads of all other monitors are what they were. */
  ghost predicate OthersKept(s: State, t: State, m: Monitor)
  {
    && (forall k :: k != m ==> (k in t.active <==> k in s.active))
    && (forall k :: k != m && k in s.active ==> t.active[k] == s.active[k])
    && (forall k :: k != m ==> (k in t.forced <==> k in s.forced))
    && (forall k :: k != m ==> t.threads[k] == s.threads[k])
  }

  lemma DueTurn(s: State, m: Monitor)
    requires TakesTurn(s, m) && s.threads[m] <= 1 && m in s.active && s.active[m].deadline <= s.now
    ensures OnlyEnded(s, Next(s, Expire(m)), m, s.active[m].gen)
  {
    var t := Expired(s, m);
    assert Next(s, Expire(m)) == t;
    assert OthersKept(s, t, m);
  }

  lemma IdleTurn(s: State, m: Monitor)
    requires TakesTurn(s, m) && s.threads[m] <= 1
    ensures
      var t := Next(s, Expire(m));
      && (m in s.active && s.now < s.active[m].deadline ==> t == s)
      && (m !in s.active ==> t == s.(threads := t.threads) && t.threads == s.threads - multiset{m} && m !in t.threads)
  {
  }

  /** The alarm of m and nothing else has gone, as the raising gen. */
  ghost predicate OnlyEnded(s: State, t: State, m: Monitor, gen: nat)
  {
    && m !in t.active && m !in t.forced && m !in t.threads
    && t.disarms == s.disarms + multiset{Disarm(gen, m, s.now, true)}
    && OthersKept(s, t, m)
    && t == s.(active := t.active, forced := t.forced, threads := t.threads, disarms := t.disarms)
  }

  /** In any run: a turn of the thread of an alarm whose deadline has come ends the alarm, disarms
      the monitor and ends the thread; before the deadline it changes nothing; and where there is no
      alarm it only ends the thread. */
  lemma TurnEndsAlarmIffDue(length: int, steps: seq<Step>, m: Monitor)
    requires TakesTurn(Run(Initial(length), steps), m)
    ensures
      var s := Run(Initial(length), steps);
      var t := Next(s, Expire(m));
      && (m in s.active && s.active[m].deadline <= s.now ==> OnlyEnded(s, t, m, s.active[m].gen))
      && (m in s.active && s.now < s.active[m].deadline ==> t == s)
      && (m !in s.active ==> t == s.(threads := t.threads) && t.threads == s.threads - multiset{m} && m !in t.threads)
  {
    var s := Run(Initial(length), steps);
    OneThreadPerAlarm(length, steps, m);
    if m in s.active && s.active[m].deadline <= s.now {
      DueTurn(s, m);
    } else {
      IdleTurn(s, m);
    }
  }

  /** An accepted trigger of an active alarm arms the monitor again and puts the deadline off to
      `length` from now, however the arm ends; nothing else changes. */
  lemma TriggerExtends(s: State, alarmed: bool, outcome: Outcome)
    requires s.lock.Triggering? && s.lock.monitor in s.active
    ensures
      var m, t := s.lock.monitor, Next(s, TriggerBody(alarmed, outcome));
      && t.lock == Free && t.arms == s.arms + 1
      && t.active.Keys == s.active.Keys
      && (forall k :: k in s.active && k != m ==> t.active[k] == s.active[k])
      && t.active[m] == Entry(s.active[m].gen, s.now + s.length, s.now)
      && (m in t.forced <==> m in s.forced || outcome != Failed)
      && (forall k :: k != m ==> (k in t.forced <==> k in s.forced))
      && t.triggers == s.triggers + {Accepted(s.active[m].gen, s.now)}
      && t == s.(lock := t.lock, arms := t.arms, active := t.active, forced := t.forced, triggers := t.triggers)
  {
  }

  /** A trigger of a monitor without a forced alarm is turned down if it is alarmed already, and
      otherwise arms it. */
  lemma TriggerArmsUnlessAlarmed(s: State, alarmed: bool, outcome: Outcome)
    requires s.lock.Triggering? && s.lock.monitor !in s.active
    ensures
      var t := Next(s, TriggerBody(alarmed, outcome));
      && t.lock == Free && t.arms == s.arms + (if alarmed then 0 else 1)
      && t.threads == s.threads && t.disarms == s.disarms
      && (alarmed || outcome == Failed ==>
            t.active == s.active && t.forced == s.forced && t.starting == s.starting && t.triggers == s.triggers)
  {
  }

  /** Unless arming fails the alarm is a new one, due `length` from now. */
  lemma TriggerRaises(s: State, outcome: Outcome)
    requires Inv(s) && s.lock.Triggering? && s.lock.monitor !in s.active && outcome != Failed
    ensures
      var m, t := s.lock.monitor, Next(s, TriggerBody(false, outcome));
      && t.active == s.active[m := Entry(s.nextGen, s.now + s.length, s.now)] && m in t.forced
      && t.starting == (if outcome == Armed then s.starting + multiset{m} else s.starting)
    ensures NewRaising(s, s.nextGen)
  {
    NextGenIsNew(s);
    assert Next(s, TriggerBody(false, outcome)) == Raised(s, s.lock.monitor, outcome);
  }

  lemma NextGenIsNew(s: State)
    requires Inv(s)
    ensures NewRaising(s, s.nextGen)
  {
  }

  /** No alarm, trigger or disarm belongs to it yet. */
  ghost predicate NewRaising(s: State, gen: nat)
  {
    && (forall k :: k in s.active ==> s.active[k].gen != gen)
    && (forall t :: t in s.triggers ==> t.gen != gen)
    && (forall d :: d in s.disarms ==> d.gen != gen)
  }

  // ---------------------------------------------------------------- what a run disarms

  /** The step is a turn of an expiry thread past the deadline of its alarm, and d the disarm it
      calls for. */
  predicate Expires(s: State, step: Step, d: Disarm)
  {
    && step == Expire(d.monitor) && TakesTurn(s, d.monitor)
    && d.monitor in s.active && s.active[d.monitor].deadline <= s.now
    && d == Disarm(s.active[d.monitor].gen, d.monitor, s.now, true)
  }

  /** The step is the locked part of stop(), and d the disarm of an alarm still active. */
  predicate Stops(s: State, step: Step, d: Disarm)
  {
    && StopActs(s, step)
    && d.monitor in s.active && d == Disarm(s.active[d.monitor].gen, d.monitor, s.now, false)
  }

  lemma StopDisarmsEach(s: State, d: Disarm)
    ensures d in StopDisarms(s) <==>
      d.monitor in s.active && d == Disarm(s.active[d.monitor].gen, d.monitor, s.now, false)
  {
    if d.monitor in s.active {
      assert DisarmOf(s.active, d.monitor, s.now) in StopDisarms(s);
    }
  }

  lemma StepDisarmsIff(s: State, step: Step, d: Disarm)
    ensures d in Next(s, step).disarms <==> d in s.disarms || Expires(s, step, d) || Stops(s, step, d)
  {
    match step
    case StopLocked => StopDisarmsEach(s, d);
    case Expire(m) => ExpireDisarmsIff(s, m, d);
    case TriggerBody(alarmed, outcome) => TriggerDisarmsNothing(s, alarmed, outcome);
    case _ => assert Next(s, step).disarms == s.disarms;
  }

  lemma ExpireDisarmsIff(s: State, m: Monitor, d: Disarm)
    ensures d in Next(s, Expire(m)).disarms <==> d in s.disarms || Expires(s, Expire(m), d)
  {
  }

  lemma TriggerDisarmsNothing(s: State, alarmed: bool, outcome: Outcome)
    ensures Next(s, TriggerBody(alarmed, outcome)).disarms == s.disarms
  {
  }

  ghost predicate CallsFor(s: State, steps: seq<Step>, i: nat, d: Disarm)
    requires i < |steps|
  {
    Expires(Run(s, steps[..i]), steps[i], d) || Stops(Run(s, steps[..i]), steps[i], d)
  }

  /** Some step of the run calls for the disarm. */
  ghost predicate CalledFor(s: State, steps: seq<Step>, d: Disarm)
  {
    exists i :: 0 <= i < |steps| && CallsFor(s, steps, i, d)
  }

  lemma CallsForEarlier(s: State, steps: seq<Step>, i: nat, d: Disarm)
    requires i < |steps| - 1
    ensures CallsFor(s, steps[..|steps| - 1], i, d) <==> CallsFor(s, steps, i, d)
  {
    assert steps[..|steps| - 1][..i] == steps[..i];
  }

  lemma CalledForIff(s: State, steps: seq<Step>, d: Disarm)
    requires steps != []
    ensures CalledFor(s, steps, d) <==>
      CalledFor(s, steps[..|steps| - 1], d) || CallsFor(s, steps, |steps| - 1, d)
  {
    forall i | 0 <= i < |steps| - 1
      ensures CallsFor(s, steps[..|steps| - 1], i, d) <==> CallsFor(s, steps, i, d)
    {
      CallsForEarlier(s, steps, i, d);
    }
    if CalledFor(s, steps[..|steps| - 1], d) {
      var i :| 0 <= i < |steps| - 1 && CallsFor(s, steps[..|steps| - 1], i, d);
      assert CallsFor(s, steps, i, d);
    }
  }

  /** In every run: exactly those alarms have been disarmed whose thread took a turn at or past the
      deadline, and those that stop() found. */
  lemma {:induction false} DisarmedIff(length: int, steps: seq<Step>, d: Disarm)
    ensures d in Run(Initial(length), steps).disarms <==>
      CalledFor(Initial(length), steps, d)
  {
    if steps != [] {
      DisarmedIff(length, steps[..|steps| - 1], d);
      StepDisarmsIff(Run(Initial(length), steps[..|steps| - 1]), steps[|steps| - 1], d);
      CalledForIff(Initial(length), steps, d);
    }
  }

  // ---------------------------------------------------------------- the last trigger

  /** The time kept with an alarm is that of a trigger accepted for it. */
  ghost predicate LastTriggersKnown(s: State)
  {
    forall m :: m in s.active ==> Accepted(s.active[m].gen, s.active[m].lastTrigger) in s.triggers
  }

  lemma StepKnowsTriggers(s: State, step: Step)
    requires LastTriggersKnown(s)
    ensures LastTriggersKnown(Next(s, step))
  {
  }

  lemma {:induction false} RunKnowsTriggers(s: State, steps: seq<Step>)
    requires LastTriggersKnown(s)
    ensures LastTriggersKnown(Run(s, steps))
  {
    if steps != [] {
      RunKnowsTriggers(s, steps[..|steps| - 1]);
      StepKnowsTriggers(Run(s, steps[..|steps| - 1]), steps[|steps| - 1]);
    }
  }

  lemma {:induction false} DisarmsStay(s: State, steps: seq<Step>, d: Disarm)
    requires d in s.disarms
    ensures d in Run(s, steps).disarms
  {
    if steps != [] {
      DisarmsStay(s, steps[..|steps| - 1], d);
      StepDisarmsIff(Run(s, steps[..|steps| - 1]), steps[|steps| - 1], d);
    }
  }

  /** The thread takes a turn `length` or more after every trigger accepted for the alarm. */
  ghost predicate Overdue(s: State, m: Monitor)
  {
    && TakesTurn(s, m) && m in s.active
    && forall t :: t in s.triggers && t.gen == s.active[m].gen ==> t.time + s.length <= s.now
  }

  /** In every run: if the thread of a raising takes a turn `length` or more after the last trigger of
      it, the raising has been disarmed by that turn, and is over for good, whatever comes later. */
  lemma OverdueAlarmIsOver(length: int, before: seq<Step>, m: Monitor, after: seq<Step>)
    requires Overdue(Run(Initial(length), before), m)
    ensures
      var s := Run(Initial(length), before);
      var t := Run(Next(s, Expire(m)), after);
      && Disarm(s.active[m].gen, m, s.now, true) in t.disarms
      && forall k :: k in t.active ==> t.active[k].gen != s.active[m].gen
  {
    var s := Run(Initial(length), before);
    RunKeepsInv(Initial(length), before);
    RunKnowsTriggers(Initial(length), before);
    var d := Disarm(s.active[m].gen, m, s.now, true);
    StepDisarmsIff(s, Expire(m), d);
    assert Expires(s, Expire(m), d);
    DisarmsStay(Next(s, Expire(m)), after, d);
    StepKeepsInv(s, Expire(m));
    RunKeepsInv(Next(s, Expire(m)), after);
  }

  lemma RunSnoc(s: State, steps: seq<Step>, step: Step)
    ensures Run(s, steps + [step]) == Next(Run(s, steps), step)
  {
    assert (steps + [step])[..|steps|] == steps;
  }

  /** The life of an alarm that is never extended: raised, given its thread, and disarmed when its
      time is up. */
  lemma LifeOfAnAlarm(length: nat, m: Monitor)
    ensures
      var steps := [] + [TriggerEnter(m)] + [TriggerBody(false, Armed)] + [ThreadStart(m)] + [Tick(length)] + [Expire(m)];
      var t := Run(Initial(length), steps);
      && t.active == map[] && t.forced == {} && t.threads == multiset{}
      && t.disarms == multiset{Disarm(0, m, length, true)}
  {
    var s0 := Initial(length);
    var a, b, c, d := TriggerEnter(m), TriggerBody(false, Armed), ThreadStart(m), Tick(length);
    RunSnoc(s0, [], a);
    RunSnoc(s0, [] + [a], b);
    RunSnoc(s0, [] + [a] + [b], c);
    RunSnoc(s0, [] + [a] + [b] + [c], d);
    RunSnoc(s0, [] + [a] + [b] + [c] + [d], Expire(m));
    LifeSteps(length, m);
  }

  lemma LifeSteps(length: nat, m: Monitor)
    ensures
      var due := Next(Next(Next(Next(Initial(length), TriggerEnter(m)), TriggerBody(false, Armed)), ThreadStart(m)), Tick(length));
      var t := Next(due, Expire(m));
      && t.active == map[] && t.forced == {} && t.threads == multiset{}
      && t.disarms == multiset{Disarm(0, m, length, true)}
  {
    var entered := Next(Initial(length), TriggerEnter(m));
    var raised := Next(entered, TriggerBody(false, Armed));
    assert raised == Raised(entered, m, Armed);
    assert raised.active == map[m := Entry(0, length, 0)] && raised.starting == multiset{m};
    var started := Next(raised, ThreadStart(m));
    assert started == raised.(starting := multiset{}, threads := multiset{m});
    var due := Next(started, Tick(length));
    assert Next(due, Expire(m)) == Expired(due, m);
  }
}
