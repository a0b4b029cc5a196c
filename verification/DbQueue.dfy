/** The database work queue: pushes and stop() from any thread, one worker that lets go of the
    lock around each statement. Every step below is one critical section. */
module DbQueue {

  datatype Statement = Statement(sql: string, logRow: bool)

  datatype Worker =
    | Starting                    // the thread exists but has not taken the lock yet
    | Waiting(woken: bool)        // in mCondition.wait
    | Executing(st: Statement)    // running a statement, the lock released
    | Exited

  /** accepted, taken and executed are the histories of pushes that were let in, of statements
      popped by the worker and of statements it has finished. */
  datatype State = State(
    queue: seq<Statement>,
    terminate: bool,
    zmTerminate: bool,
    worker: Worker,
    notifications: nat,           // critical sections left whose notify_all is still to come
    entered: bool,                // the worker has passed the test of its outer loop once
    accepted: seq<Statement>,
    taken: seq<Statement>,
    executed: seq<Statement>)

  datatype Step =
    | Push(st: Statement)
    | StopFlag                    // the critical section of stop()
    | Notify                      // notify_all of an earlier push or stop
    | Signal                      // zm_terminate is set
    | WorkerTurn                  // the worker runs up to its next release of the lock

  const INIT: State := State([], false, false, Starting, 0, false, [], [], [])

  /** The test of the outer loop, and the wait for an empty queue. */
  function OuterLoop(s: State): State
  {
    if s.terminate || s.zmTerminate then s.(worker := Exited)
    else if s.queue == [] then s.(worker := Waiting(false), entered := true)
    else Pop(s.(entered := true))
  }

  /** The inner loop: pop the front statement, or fall out to the outer loop. */
  function InnerLoop(s: State): State
  {
    if s.queue == [] then OuterLoop(s) else Pop(s)
  }

  function Pop(s: State): State
    requires s.queue != []
  {
    s.(queue := s.queue[1..], taken := s.taken + [s.queue[0]], worker := Executing(s.queue[0]))
  }

  function WorkerNext(s: State): State
  {
    match s.worker
    case Starting => OuterLoop(s)
    case Waiting(_) => InnerLoop(s)     // woken, or a spurious wake-up
    case Executing(st) => InnerLoop(s.(executed := s.executed + [st]))
    case Exited => s
  }

  function Next(s: State, step: Step): State
  {
    match step
    case Push(st) =>
      if s.terminate then s
      else s.(queue := s.queue + [st], accepted := s.accepted + [st], notifications := s.notifications + 1)
    case StopFlag => s.(terminate := true, notifications := s.notifications + 1)
    case Notify =>
      if s.notifications == 0 then s
      else s.(notifications := s.notifications - 1,
              worker := if s.worker.Waiting? then Waiting(true) else s.worker)
    case Signal => s.(zmTerminate := true)
    case WorkerTurn => WorkerNext(s)
  }

  function Run(s: State, steps: seq<Step>): State
  {
    if steps == [] then s else Next(Run(s, steps[..|steps| - 1]), steps[|steps| - 1])
  }

  lemma RunSnoc(s: State, steps: seq<Step>, step: Step)
    ensures Run(s, steps + [step]) == Next(Run(s, steps), step)
  {
    assert (steps + [step])[..|steps|] == steps;
  }

  // ---------------------------------------------------------------- invariant

  ghost predicate Inv(s: State)
  {
    // every accepted statement is taken in turn, and executed in turn
    && s.taken + s.queue == s.accepted
    && s.taken == s.executed + (if s.worker.Executing? then [s.worker.st] else [])
    && (s.worker.Starting? ==> !s.entered)
    && (s.worker.Executing? || s.worker.Waiting? ==> s.entered)
    && (!s.entered ==> s.taken == [])
    // without a termination signal the worker leaves only after stop(), and with nothing queued
    // unless it never got into its loop
    && (s.worker.Exited? && !s.zmTerminate ==> s.terminate && (s.entered ==> s.queue == []))
    // no wake-up is lost: work or a stop request never meets a sleeping worker nobody will notify
    && (s.worker == Waiting(false) && (s.queue != [] || s.terminate) ==> 0 < s.notifications)
  }

  lemma PopKeepsInv(s: State)
    requires s.queue != [] && s.entered
    requires s.taken + s.queue == s.accepted && s.taken == s.executed
    ensures Inv(Pop(s))
  {
    assert s.queue == [s.queue[0]] + s.queue[1..];
    assert (s.taken + [s.queue[0]]) + s.queue[1..] == s.taken + s.queue;
  }

  lemma OuterLoopKeepsInv(s: State)
    requires s.taken + s.queue == s.accepted && s.taken == s.executed
    requires s.entered ==> s.queue == []
    requires !s.entered ==> s.taken == []
    ensures Inv(OuterLoop(s))
  {
    if !(s.terminate || s.zmTerminate) && s.queue != [] { PopKeepsInv(s.(entered := true)); }
  }

  lemma InnerLoopKeepsInv(s: State)
    requires s.taken + s.queue == s.accepted && s.taken == s.executed && s.entered
    ensures Inv(InnerLoop(s))
  {
    if s.queue == [] { OuterLoopKeepsInv(s); } else { PopKeepsInv(s); }
  }

  lemma StepKeepsInv(s: State, step: Step)
    requires Inv(s)
    ensures Inv(Next(s, step))
  {
    match step
    case WorkerTurn =>
      match s.worker {
        case Starting => OuterLoopKeepsInv(s);
        case Waiting(_) => InnerLoopKeepsInv(s);
        case Executing(st) => InnerLoopKeepsInv(s.(executed := s.executed + [st]));
        case Exited =>
      }
    case Push(st) =>
      assert s.taken + (s.queue + [st]) == (s.taken + s.queue) + [st];
    case _ =>
  }

  lemma {:induction false} RunKeepsInv(s: State, steps: seq<Step>)
    requires Inv(s)
    ensures Inv(Run(s, steps))
  {
    if steps != [] {
      RunKeepsInv(s, steps[..|steps| - 1]);
      StepKeepsInv(Run(s, steps[..|steps| - 1]), steps[|steps| - 1]);
    }
  }

  /** In every reachable state, what has been executed is a prefix of what has been taken, which is
      a prefix of what was accepted: in order, and each statement once. */
  lemma TakenInOrder(steps: seq<Step>)
    ensures
      var s := Run(INIT, steps);
      s.executed <= s.taken <= s.accepted && s.taken + s.queue == s.accepted
  {
    RunKeepsInv(INIT, steps);
  }

  /** The worker leaves its loop only at a moment when nothing is queued. */
  lemma LeavesOnlyWhenEmpty(s: State, step: Step)
    requires Inv(s) && s.entered && !s.worker.Exited? && Next(s, step).worker.Exited?
    ensures Next(s, step).queue == [] && Next(s, step).executed == Next(s, step).accepted
  {
    StepKeepsInv(s, step);
  }

  /** stop() has set the flag and joined the worker. */
  predicate Joined(s: State)
  {
    s.terminate && s.worker.Exited?
  }

  /** With zm_terminate unset, when stop() has joined all accepted statements have been executed if
      and only if the worker got into its loop before stop(), or nothing was ever pushed. */
  lemma StopExecutesAllIffEntered(steps: seq<Step>)
    requires Joined(Run(INIT, steps)) && !Run(INIT, steps).zmTerminate
    ensures
      var s := Run(INIT, steps);
      s.executed == s.accepted <==> s.entered || s.accepted == []
  {
    RunKeepsInv(INIT, steps);
  }

  /** Some push of the run was accepted after the worker had left. */
  predicate LatePush(steps: seq<Step>)
  {
    steps != [] &&
      var (before, last) := (Run(INIT, steps[..|steps| - 1]), steps[|steps| - 1]);
      LatePush(steps[..|steps| - 1]) || (last.Push? && !before.terminate && before.worker.Exited?)
  }

  /** Once the worker has left, what is queued is what came too late. */
  lemma {:induction false} LeftoversAreLate(steps: seq<Step>)
    ensures
      var s := Run(INIT, steps);
      && (LatePush(steps) ==> s.worker.Exited? && s.queue != [])
      && (s.worker.Exited? && s.entered && !LatePush(steps) ==> s.queue == [])
  {
    if steps != [] {
      LeftoversAreLate(steps[..|steps| - 1]);
      RunKeepsInv(INIT, steps[..|steps| - 1]);
      ExitsWithoutLeftovers(Run(INIT, steps[..|steps| - 1]), steps[|steps| - 1]);
    }
  }

  lemma ExitsWithoutLeftovers(s: State, step: Step)
    requires Inv(s)
    ensures !s.worker.Exited? && Next(s, step).worker.Exited? && Next(s, step).entered ==> Next(s, step).queue == []
    ensures s.worker.Exited? ==>
      Next(s, step).worker.Exited? && Next(s, step).entered == s.entered
      && Next(s, step).queue == s.queue + if step.Push? && !s.terminate then [step.st] else []
  {
  }

  /** When stop() has joined, with or without a termination signal, all accepted statements have
      been executed if and only if none was pushed after the worker had left, and the worker got
      into its loop or nothing was pushed at all. */
  lemma StopExecutesAllIff(steps: seq<Step>)
    requires Joined(Run(INIT, steps))
    ensures
      var s := Run(INIT, steps);
      s.executed == s.accepted <==> !LatePush(steps) && (s.entered || s.accepted == [])
  {
    RunKeepsInv(INIT, steps);
    LeftoversAreLate(steps);
  }

  /** A statement accepted before the worker's first look at the flag is lost by a stop(). */
  lemma EarlyStopLosesStatement()
    ensures
      var st := Statement("INSERT", false);
      var s := Run(INIT, [] + [Push(st)] + [StopFlag] + [WorkerTurn]);
      Joined(s) && !s.zmTerminate && s.accepted == [st] && s.executed == []
  {
    var st := Statement("INSERT", false);
    RunSnoc(INIT, [], Push(st));
    RunSnoc(INIT, [] + [Push(st)], StopFlag);
    RunSnoc(INIT, [] + [Push(st)] + [StopFlag], WorkerTurn);
  }

  /** Once the worker has left on zm_terminate, later pushes are still accepted and never run. */
  lemma SignalLosesStatement()
    ensures
      var st := Statement("INSERT", false);
      var s := Run(INIT, [] + [WorkerTurn] + [Signal] + [WorkerTurn] + [Push(st)] + [StopFlag]);
      Joined(s) && s.entered && s.accepted == [st] && s.executed == []
  {
    var st := Statement("INSERT", false);
    RunSnoc(INIT, [], WorkerTurn);
    RunSnoc(INIT, [] + [WorkerTurn], Signal);
    RunSnoc(INIT, [] + [WorkerTurn] + [Signal], WorkerTurn);
    RunSnoc(INIT, [] + [WorkerTurn] + [Signal] + [WorkerTurn], Push(st));
    RunSnoc(INIT, [] + [WorkerTurn] + [Signal] + [WorkerTurn] + [Push(st)], StopFlag);
  }

  /** After stop() has set the flag no push is ever accepted. */
  lemma {:induction false} NoPushAfterStop(s: State, steps: seq<Step>)
    requires s.terminate
    ensures Run(s, steps).terminate && Run(s, steps).accepted == s.accepted
  {
    if steps != [] { NoPushAfterStop(s, steps[..|steps| - 1]); }
  }

  function Turns(s: State, n: nat): State
  {
    if n == 0 then s else WorkerNext(Turns(s, n - 1))
  }

  lemma {:induction false} TurnsFirst(s: State, n: nat)
    ensures Turns(s, n + 1) == Turns(WorkerNext(s), n)
  {
    if n > 0 { TurnsFirst(s, n - 1); }
  }

  /** The join of stop() comes back: with the flag set the worker needs at most one turn per queued
      statement and one more, however it was caught. */
  lemma {:induction false} StopJoins(s: State)
    requires s.terminate
    ensures Turns(s, |s.queue| + 1).worker.Exited?
    decreases |s.queue|
  {
    TurnsFirst(s, |s.queue|);
    var t := WorkerNext(s);
    if t.worker.Exited? {
      StaysExited(t, |s.queue|);
    } else {
      StopJoins(t);
    }
  }

  lemma {:induction false} StaysExited(s: State, n: nat)
    requires s.worker.Exited?
    ensures Turns(s, n) == s
  {
    if n > 0 { StaysExited(s, n - 1); }
  }

  /** A worker that sleeps through a stop request has a notification on its way, in every run. */
  lemma StopWakesWorker(steps: seq<Step>)
    requires Run(INIT, steps).terminate && Run(INIT, steps).notifications == 0
    ensures Run(INIT, steps).worker != Waiting(false)
  {
    RunKeepsInv(INIT, steps);
  }

  // ---------------------------------------------------------------- the object

  class Queue {
    var mQueue: seq<Statement>
    var mTerminate: bool
    var zmTerminate: bool
    var worker: Worker
    ghost var notifications: nat
    ghost var entered: bool
    ghost var accepted: seq<Statement>
    ghost var taken: seq<Statement>
    ghost var executed: seq<Statement>

    ghost function Snapshot(): State
      reads this
    {
      State(mQueue, mTerminate, zmTerminate, worker, notifications, entered, accepted, taken, executed)
    }

    constructor ()
      ensures Snapshot() == INIT
    {
      mQueue, mTerminate, zmTerminate, worker := [], false, false, Starting;
      notifications, entered, accepted, taken, executed := 0, false, [], [], [];
    }

    method Push(st: Statement)
      modifies this
      ensures Snapshot() == Next(old(Snapshot()), Step.Push(st))
    {
      if mTerminate {
        return;
      }
      mQueue := mQueue + [st];
      accepted := accepted + [st];
      notifications := notifications + 1;
    }

    method StopFlag()
      modifies this
      ensures Snapshot() == Next(old(Snapshot()), Step.StopFlag)
    {
      mTerminate := true;
      notifications := notifications + 1;
    }

    method PopFront()
      requires mQueue != []
      modifies this
      ensures Snapshot() == Pop(old(Snapshot()))
    {
      worker, taken := Executing(mQueue[0]), taken + [mQueue[0]];
      mQueue := mQueue[1..];
    }

    /** The worker's nested loops, from where it holds the lock to where it next lets go of it:
        around a statement, in the wait, or for good. */
    method Process()
      modifies this
      ensures Snapshot() == Next(old(Snapshot()), WorkerTurn)
    {
      if worker.Exited? {
        return;
      }
      if worker.Executing? {
        executed := executed + [worker.st];
      }
      if !worker.Starting? && mQueue != [] {
        PopFront();
        return;
      }
      if mTerminate || zmTerminate {
        worker := Exited;
        return;
      }
      entered := true;
      if mQueue == [] {
        worker := Waiting(false);
        return;
      }
      PopFront();
    }
  }
}
