/**
 Progress of the thread pool: from every reachable state, every queued task can be brought to
 execution by an explicit schedule whose length does not depend on the number of threads. No state
 is therefore a deadlock or a trap. The schedule always moves a thread that some fixed worker is
 waiting for, and a measure on states falls at each of its steps.
 */
module PoolProgress {
  import opened Wrappers
  import opened PoolTaskQueue
  import opened PoolProtocol
  import opened PoolInvariant
  import opened PoolSafety

  // ---------- how long the owner of a mutex can keep it ----------

  ghost function CountCost(s: State): nat {
    match s.countLock
    case HeldBy(Worker(i)) =>
      if i < |s.workers| && (s.workers[i].IncBody? || s.workers[i].DecBody?) then 2 else 1
    case HeldBy(Waiter(j)) =>
      if j < |s.waiters| && s.waiters[j].TestLen? then 3
      else if j < |s.waiters| && s.waiters[j].TestWorking? then 2 else 1
    case _ => 0
  }

  ghost function SemCost(s: State): nat {
    match s.semLock
    case HeldBy(Worker(i)) => if i < |s.workers| && s.workers[i].SemTest? then 2 else 1
    case HeldBy(Signaller) => if s.signaller.PostBody? then 2 else 1
    case _ => 0
  }

  ghost function QueueCost(s: State): nat {
    match s.queueLock
    case HeldBy(Worker(i)) => if i < |s.workers| && s.workers[i].DeqBody? then 2 else 1
    case HeldBy(Producer) => if s.producer.EnqBody? then 2 else 1
    case HeldBy(Signaller) =>
      (match s.signaller
      case QueueCheck => 8
      case PostEnter(_) => 4 + SemCost(s)
      case PostBody(_) => 3
      case PostLeave => 2
      case _ => 1)
    case _ => 0
  }

  /** The step that brings the release of a mutex nearer. */
  ghost function OwnerStep(s: State, owner: Thread): Action {
    match owner
    case Worker(i) =>
      if MustSignal(s, i) then
        var j: nat :| j < |s.waiters| && s.waiters[j].Asleep?;
        Signal(i, j)
      else Step(owner)
    case _ => Step(owner)
  }

  ghost function UnblockQueue(s: State): Action
    requires s.queueLock.HeldBy?
  {
    if s.queueLock.owner == Signaller && s.signaller.PostEnter? && s.semLock.HeldBy?
    then OwnerStep(s, s.semLock.owner)
    else OwnerStep(s, s.queueLock.owner)
  }

  lemma UnblockCountHelps(s: State)
    requires Inv(s) && s.countLock.HeldBy?
    ensures var a := OwnerStep(s, s.countLock.owner);
      && Enabled(s, a)
      && var t := Next(s, a);
      && CountCost(t) < CountCost(s)
      && t.flags == s.flags
      && forall i :: 0 <= i < |s.workers| && Worker(i) != s.countLock.owner ==> t.workers[i] == s.workers[i]
  {
    assert HoldsCount(s, s.countLock.owner);
  }

  lemma UnblockSemHelps(s: State)
    requires Inv(s) && s.semLock.HeldBy?
    ensures var a := OwnerStep(s, s.semLock.owner);
      && Enabled(s, a)
      && var t := Next(s, a);
      && SemCost(t) < SemCost(s)
      && t.queueLock == s.queueLock
      && (s.semLock.owner.Worker? ==> t.signaller == s.signaller)
      && forall i :: 0 <= i < |s.workers| && Worker(i) != s.semLock.owner ==>
        t.workers[i] == s.workers[i] || t.workers[i] == WakeWorker(s.workers[i])
  {
    assert HoldsSem(s, s.semLock.owner);
    if s.signaller.PostBody? {
      assert s.queue[0] == s.enqueued[|s.dequeued|];
    }
  }

  lemma UnblockQueueHelps(s: State)
    requires Inv(s) && s.queueLock.HeldBy? && s.queue != []
    ensures var a := UnblockQueue(s);
      && Enabled(s, a)
      && var t := Next(s, a);
      && (t.dequeued != s.dequeued || QueueCost(t) < QueueCost(s))
      && forall i :: 0 <= i < |s.workers| && Worker(i) != s.queueLock.owner && !HoldsSem(s, Worker(i)) ==>
        t.workers[i] == s.workers[i] || t.workers[i] == WakeWorker(s.workers[i])
  {
    assert HoldsQueue(s, s.queueLock.owner);
    if s.queueLock.owner == Signaller && s.signaller.PostEnter? && s.semLock.HeldBy? {
      assert HoldsSem(s, s.semLock.owner);
      UnblockSemHelps(s);
    }
    if s.signaller.PostBody? {
      assert s.queue[0] == s.enqueued[|s.dequeued|];
    }
  }

  // ---------- a worker that has taken its flag reaches the head of the queue ----------

  /** Steps left before this worker dequeues; 0 when it has yet to pass the semaphore. */
  ghost function Ahead(pc: WorkerPc): nat {
    match pc
    case SemLeave => 6
    case IncEnter => 5
    case IncBody => 4
    case IncLeave => 3
    case DeqEnter => 2
    case DeqBody => 1
    case _ => 0
  }

  ghost function AheadMeasure(s: State, d: nat): nat
    requires d < |s.workers|
  {
    10 * Ahead(s.workers[d])
    + (if s.workers[d].IncEnter? then CountCost(s) else if s.workers[d].DeqEnter? then QueueCost(s) else 0)
  }

  ghost function AheadAction(s: State, d: nat): Action
    requires d < |s.workers|
  {
    if s.workers[d].IncEnter? && s.countLock.HeldBy? then OwnerStep(s, s.countLock.owner)
    else if s.workers[d].DeqEnter? && s.queueLock.HeldBy? then UnblockQueue(s)
    else Step(Worker(d))
  }

  /** Step a helps worker d on its way: it dequeues the head or lowers the measure. */
  ghost predicate AheadHelped(s: State, a: Action, d: nat)
    requires d < |s.workers|
  {
    && Shape(s) && Enabled(s, a)
    && var t := Next(s, a);
    && |t.workers| == |s.workers|
    && (t.dequeued != s.dequeued || (Ahead(t.workers[d]) > 0 && AheadMeasure(t, d) < AheadMeasure(s, d)))
  }

  /** A worker about to lock mutexThreadCnt does not own it. */
  lemma OtherOwnsCount(s: State, d: nat)
    requires Locks(s) && d < |s.workers| && (s.workers[d].IncEnter? || s.workers[d].DecEnter?)
    requires s.countLock.HeldBy?
    ensures s.countLock.owner != Worker(d)
  {
    assert HoldsCount(s, s.countLock.owner) && !HoldsCount(s, Worker(d));
  }

  lemma AheadBlockedAtCount(s: State, d: nat)
    requires Inv(s) && d < |s.workers| && s.workers[d].IncEnter? && s.countLock.HeldBy?
    ensures AheadHelped(s, OwnerStep(s, s.countLock.owner), d)
  {
    UnblockCountHelps(s);
    NextKeepsShape(s, OwnerStep(s, s.countLock.owner));
    OtherOwnsCount(s, d);
    CloserAtCount(s, Next(s, OwnerStep(s, s.countLock.owner)), d);
  }

  lemma CloserAtCount(s: State, t: State, d: nat)
    requires d < |s.workers| && d < |t.workers| && s.workers[d].IncEnter? && t.workers[d] == s.workers[d]
    requires CountCost(t) < CountCost(s)
    ensures Ahead(t.workers[d]) > 0 && AheadMeasure(t, d) < AheadMeasure(s, d)
  {
  }

  lemma AheadBlockedAtQueue(s: State, d: nat)
    requires Inv(s) && d < |s.workers| && s.workers[d].DeqEnter? && s.queueLock.HeldBy? && s.queue != []
    ensures AheadHelped(s, UnblockQueue(s), d)
  {
    UnblockQueueHelps(s);
    NextKeepsShape(s, UnblockQueue(s));
    assert !HoldsQueue(s, Worker(d)) && !HoldsSem(s, Worker(d));
    assert Worker(d) != s.queueLock.owner by {
      assert HoldsQueue(s, s.queueLock.owner);
    }
    var t := Next(s, UnblockQueue(s));
    if t.dequeued == s.dequeued {
      CloserAtQueue(s, t, d);
    }
  }

  lemma CloserAtQueue(s: State, t: State, d: nat)
    requires d < |s.workers| && d < |t.workers| && s.workers[d].DeqEnter?
    requires t.workers[d] == s.workers[d] || t.workers[d] == WakeWorker(s.workers[d])
    requires QueueCost(t) < QueueCost(s)
    ensures Ahead(t.workers[d]) > 0 && AheadMeasure(t, d) < AheadMeasure(s, d)
  {
  }

  lemma AheadHelps(s: State, d: nat)
    requires Inv(s) && s.queue != [] && d < |s.workers| && Ahead(s.workers[d]) > 0
    ensures AheadHelped(s, AheadAction(s, d), d)
  {
    if s.workers[d].IncEnter? && s.countLock.HeldBy? {
      AheadBlockedAtCount(s, d);
    } else if s.workers[d].DeqEnter? && s.queueLock.HeldBy? {
      AheadBlockedAtQueue(s, d);
    } else {
      OwnAheadStep(s, d);
    }
  }

  lemma OwnAheadStep(s: State, d: nat)
    requires Shape(s) && s.queue != [] && d < |s.workers| && Ahead(s.workers[d]) > 0
    requires s.workers[d].IncEnter? ==> s.countLock.Free?
    requires s.workers[d].DeqEnter? ==> s.queueLock.Free?
    ensures AheadHelped(s, Step(Worker(d)), d)
  {
  }

  /** A step leaves the head of a non-empty queue where it is or dequeues it. */
  lemma HeadStaysOrLeaves(s: State, a: Action)
    requires Shape(s) && Enabled(s, a) && s.queue != []
    ensures var t := Next(s, a);
      || (t.dequeued == s.dequeued && s.queue <= t.queue)
      || (t.dequeued == s.dequeued + [s.queue[0]] && t.queue == s.queue[1..]
          && exists i :: 0 <= i < |t.workers| && t.workers[i] == DeqLeave(Some(s.queue[0])))
  {
    match a
    case Step(Worker(i)) =>
      if s.workers[i].DeqBody? {
        assert Next(s, a).workers[i] == DeqLeave(Some(s.queue[0]));
      }
    case _ =>
  }

  /** `acts` dequeues the task at the head of s, which ends in the hands of a worker. */
  ghost predicate DequeuesHead(s: State, acts: seq<Action>, t: State)
    requires s.queue != []
  {
    && Run(s, acts, t)
    && t.dequeued == s.dequeued + [s.queue[0]]
    && s.queue[1..] <= t.queue
    && exists i :: 0 <= i < |t.workers| && t.workers[i] == DeqLeave(Some(s.queue[0]))
  }

  lemma OneStepRun(s: State, a: Action)
    requires Shape(s) && Enabled(s, a)
    ensures Run(s, [a], Next(s, a))
  {
    NextKeepsShape(s, a);
    assert [a][1..] == [];
  }

  lemma PrependStep(s: State, a: Action, acts: seq<Action>, t: State)
    requires Shape(s) && Enabled(s, a) && s.queue != []
    requires var u := Next(s, a); u.dequeued == s.dequeued && s.queue <= u.queue && DequeuesHead(u, acts, t)
    ensures DequeuesHead(s, [a] + acts, t)
  {
    assert ([a] + acts)[1..] == acts;
    var u := Next(s, a);
    assert s.queue[1..] <= u.queue[1..];
  }

  lemma {:induction false} DriveAhead(s: State, d: nat) returns (acts: seq<Action>, t: State)
    requires Inv(s) && s.queue != [] && d < |s.workers| && Ahead(s.workers[d]) > 0
    ensures DequeuesHead(s, acts, t)
    ensures |acts| <= AheadMeasure(s, d)
    decreases AheadMeasure(s, d)
  {
    var a := AheadAction(s, d);
    AheadHelps(s, d);
    HeadStaysOrLeaves(s, a);
    var u := Next(s, a);
    if u.dequeued != s.dequeued {
      OneStepRun(s, a);
      acts, t := [a], u;
    } else {
      NextInv(s, a);
      acts, t := DriveAhead(u, d);
      PrependStep(s, a, acts, t);
      acts := [a] + acts;
    }
  }

  // ---------- the worker assigned to the head takes its flag ----------

  /** Steps left before this worker is back at the semaphore. */
  ghost function Busy(pc: WorkerPc): nat {
    match pc
    case DeqLeave(_) => 6
    case Running(_) => 5
    case Freeing(_) => 4
    case DecEnter => 3
    case DecBody => 2
    case DecLeave => 1
    case _ => 0
  }

  /** Steps left before the signaller posts. */
  ghost function ToPost(pc: SignallerPc): nat {
    match pc
    case PostBody(_) => 1
    case PostEnter(_) => 2
    case QueueCheck => 3
    case QueueEnter => 4
    case QueueLeave => 5
    case PostLeave => 6
  }

  /** What keeps the signaller from entering its next critical section. */
  ghost function PostCost(s: State): nat {
    if s.signaller.PostEnter? then SemCost(s) else if s.signaller.QueueEnter? then QueueCost(s) else 0
  }

  ghost function TargetMeasure(s: State, h: nat): nat
    requires h < |s.workers| == |s.flags|
  {
    var pc := s.workers[h];
    if Ahead(pc) > 0 then AheadMeasure(s, h)
    else if Busy(pc) > 0 then 300 + 10 * Busy(pc) + (if pc.DecEnter? then CountCost(s) else 0)
    else if s.flags[h] == 1 then 100 + (if pc.SemTest? then 10 else 20 + SemCost(s))
    else 200 + 10 * ToPost(s.signaller) + PostCost(s)
  }

  ghost function TargetAction(s: State, h: nat): Action
    requires h < |s.workers| == |s.flags|
  {
    var pc := s.workers[h];
    if Busy(pc) > 0 then
      if pc.DecEnter? && s.countLock.HeldBy? then OwnerStep(s, s.countLock.owner)
      else OwnerStep(s, Worker(h))
    else if s.flags[h] == 1 then
      if pc.SemTest? || s.semLock.Free? then Step(Worker(h)) else OwnerStep(s, s.semLock.owner)
    else
      if s.signaller.PostEnter? && s.semLock.HeldBy? then OwnerStep(s, s.semLock.owner)
      else if s.signaller.QueueEnter? && s.queueLock.HeldBy? then UnblockQueue(s)
      else Step(Signaller)
  }

  /** The step helps: it dequeues the head or lowers the measure. */
  ghost predicate TargetHelped(s: State, a: Action, h: nat)
    requires h < |s.workers| == |s.flags|
  {
    && Shape(s) && Enabled(s, a)
    && var t := Next(s, a);
    && |t.workers| == |t.flags| == |s.workers|
    && (t.dequeued != s.dequeued || TargetMeasure(t, h) < TargetMeasure(s, h))
  }

  lemma BusyBlockedAtCount(s: State, h: nat)
    requires Inv(s) && h < |s.workers| && s.workers[h].DecEnter? && s.countLock.HeldBy?
    ensures TargetHelped(s, OwnerStep(s, s.countLock.owner), h)
  {
    UnblockCountHelps(s);
    NextKeepsShape(s, OwnerStep(s, s.countLock.owner));
    OtherOwnsCount(s, h);
    BusyCloserAtCount(s, Next(s, OwnerStep(s, s.countLock.owner)), h);
  }

  lemma BusyCloserAtCount(s: State, t: State, h: nat)
    requires Shape(s) && Shape(t) && |t.workers| == |s.workers|
    requires h < |s.workers| && s.workers[h].DecEnter? && t.workers[h] == s.workers[h]
    requires CountCost(t) < CountCost(s)
    ensures TargetMeasure(t, h) < TargetMeasure(s, h)
  {
  }

  lemma OwnBusyStep(s: State, h: nat)
    requires Shape(s) && h < |s.workers| && Busy(s.workers[h]) > 0
    requires s.workers[h].DecEnter? ==> s.countLock.Free?
    ensures TargetHelped(s, OwnerStep(s, Worker(h)), h)
  {
  }

  lemma BusyHelps(s: State, h: nat)
    requires Inv(s) && h < |s.workers| && Busy(s.workers[h]) > 0
    ensures TargetHelped(s, TargetAction(s, h), h)
  {
    if s.workers[h].DecEnter? && s.countLock.HeldBy? {
      BusyBlockedAtCount(s, h);
    } else {
      OwnBusyStep(s, h);
    }
  }

  lemma FlaggedHelps(s: State, h: nat)
    requires Inv(s) && s.queue != [] && h == s.queue[0].worker
    requires h < |s.workers| && Ahead(s.workers[h]) == Busy(s.workers[h]) == 0 && s.flags[h] == 1
    ensures TargetHelped(s, TargetAction(s, h), h)
  {
    var a := TargetAction(s, h);
    if s.semLock.HeldBy? && !s.workers[h].SemTest? {
      UnblockSemHelps(s);
      assert HoldsSem(s, s.semLock.owner) && !HoldsSem(s, Worker(h));
    }
    if Enabled(s, a) {
      StepKeepsRaisedFlag(s, a);
    }
  }

  lemma PostBlockedAtSem(s: State, h: nat)
    requires Inv(s) && h < |s.workers| && Ahead(s.workers[h]) == Busy(s.workers[h]) == 0 && s.flags[h] == 0
    requires s.signaller.PostEnter? && s.semLock.HeldBy?
    ensures TargetHelped(s, OwnerStep(s, s.semLock.owner), h)
  {
    UnblockSemHelps(s);
    assert HoldsSem(s, s.semLock.owner);
  }

  lemma PostBlockedAtQueue(s: State, h: nat)
    requires Inv(s) && h < |s.workers| && Ahead(s.workers[h]) == Busy(s.workers[h]) == 0 && s.flags[h] == 0
    requires s.queue != [] && s.signaller.QueueEnter? && s.queueLock.HeldBy?
    ensures TargetHelped(s, UnblockQueue(s), h)
  {
    UnblockQueueHelps(s);
    NextKeepsShape(s, UnblockQueue(s));
    assert HoldsQueue(s, s.queueLock.owner);
    var t := Next(s, UnblockQueue(s));
    if t.dequeued == s.dequeued {
      PostCloserAtQueue(s, t, h);
    }
  }

  lemma PostCloserAtQueue(s: State, t: State, h: nat)
    requires Shape(s) && Shape(t) && |t.workers| == |s.workers|
    requires h < |s.workers| && Ahead(s.workers[h]) == Busy(s.workers[h]) == 0 && s.flags[h] == 0
    requires t.workers[h] == s.workers[h] && t.flags == s.flags
    requires s.signaller.QueueEnter? && t.signaller.QueueEnter? && QueueCost(t) < QueueCost(s)
    ensures TargetMeasure(t, h) < TargetMeasure(s, h)
  {
  }

  lemma OwnPostStep(s: State, h: nat)
    requires Shape(s) && PostsHead(s) && s.queue != [] && h == s.queue[0].worker
    requires h < |s.workers| && Ahead(s.workers[h]) == Busy(s.workers[h]) == 0 && s.flags[h] == 0
    requires s.signaller.PostEnter? ==> s.semLock.Free?
    requires s.signaller.QueueEnter? ==> s.queueLock.Free?
    ensures TargetHelped(s, Step(Signaller), h)
  {
  }

  lemma UnflaggedHelps(s: State, h: nat)
    requires Inv(s) && s.queue != [] && h == s.queue[0].worker
    requires h < |s.workers| && Ahead(s.workers[h]) == Busy(s.workers[h]) == 0 && s.flags[h] == 0
    ensures TargetHelped(s, TargetAction(s, h), h)
  {
    if s.signaller.PostEnter? && s.semLock.HeldBy? {
      PostBlockedAtSem(s, h);
    } else if s.signaller.QueueEnter? && s.queueLock.HeldBy? {
      PostBlockedAtQueue(s, h);
    } else {
      OwnPostStep(s, h);
    }
  }

  lemma {:induction false} DriveTarget(s: State, h: nat) returns (acts: seq<Action>, t: State)
    requires Inv(s) && s.queue != [] && h == s.queue[0].worker && h < |s.workers|
    ensures DequeuesHead(s, acts, t)
    ensures |acts| <= TargetMeasure(s, h)
    decreases TargetMeasure(s, h)
  {
    if Ahead(s.workers[h]) > 0 {
      acts, t := DriveAhead(s, h);
    } else {
      var a := TargetAction(s, h);
      if Busy(s.workers[h]) > 0 {
        BusyHelps(s, h);
      } else if s.flags[h] == 1 {
        FlaggedHelps(s, h);
      } else {
        UnflaggedHelps(s, h);
      }
      HeadStaysOrLeaves(s, a);
      var u := Next(s, a);
      if u.dequeued != s.dequeued {
        OneStepRun(s, a);
        acts, t := [a], u;
      } else {
        NextInv(s, a);
        acts, t := DriveTarget(u, h);
        PrependStep(s, a, acts, t);
        acts := [a] + acts;
      }
    }
  }

  // ---------- the theorem ----------

  const BOUND: nat := 400

  lemma TargetMeasureBounded(s: State, h: nat)
    requires h < |s.workers| == |s.flags|
    ensures TargetMeasure(s, h) <= BOUND - 2
  {
  }

  /** The worker holding the dequeued task executes it in two steps of its own. */
  lemma HolderExecutes(s: State, i: nat, task: Task) returns (t: State)
    requires Shape(s) && i < |s.workers| && s.workers[i] == DeqLeave(Some(task))
    ensures Run(s, [Step(Worker(i)), Step(Worker(i))], t)
    ensures t.executed == s.executed + [task] && t.queue == s.queue && t.dequeued == s.dequeued
  {
    var a := Step(Worker(i));
    var u := Next(s, a);
    t := Next(u, a);
    OneStepRun(s, a);
    OneStepRun(u, a);
    RunConcat(s, [a], u, [a], t);
    assert [a] + [a] == [a, a];
  }

  /** The task at the head can be executed within a constant number of steps. */
  lemma HeadProgress(s: State) returns (acts: seq<Action>, t: State)
    requires Inv(s) && s.queue != []
    ensures Run(s, acts, t) && |acts| <= BOUND
    ensures s.queue[0] in t.executed && s.queue[1..] <= t.queue
  {
    var h := s.queue[0].worker;
    assert s.queue[0] == s.enqueued[|s.dequeued|];
    TargetMeasureBounded(s, h);
    var mid;
    acts, mid := DriveTarget(s, h);
    RunInv(s, acts, mid);
    var i :| 0 <= i < |mid.workers| && mid.workers[i] == DeqLeave(Some(s.queue[0]));
    t := HolderExecutes(mid, i, s.queue[0]);
    RunConcat(s, acts, mid, [Step(Worker(i)), Step(Worker(i))], t);
    acts := acts + [Step(Worker(i)), Step(Worker(i))];
  }

  /** From every reachable state, every queued task can be brought to execution, the task at
      position p within BOUND * (p + 1) steps, whatever the number of workers and waiters. */
  lemma {:induction false} QueuedTaskCanRun(threads: nat, callers: nat, s: State, p: nat)
      returns (acts: seq<Action>, t: State)
    requires Reachable(threads, callers, s) && p < |s.queue|
    ensures Run(s, acts, t) && s.queue[p] in t.executed
    ensures |acts| <= BOUND * (p + 1)
    decreases p
  {
    ReachableInv(threads, callers, s);
    acts, t := HeadProgress(s);
    if p > 0 {
      ReachableRun(threads, callers, s, acts, t);
      assert t.queue[p - 1] == s.queue[1..][p - 1] == s.queue[p];
      var more, end := QueuedTaskCanRun(threads, callers, t, p - 1);
      RunConcat(s, acts, t, more, end);
      acts, t := acts + more, end;
    }
  }

  lemma ReachableRun(threads: nat, callers: nat, s: State, acts: seq<Action>, t: State)
    requires Reachable(threads, callers, s) && Run(s, acts, t)
    ensures Reachable(threads, callers, t)
  {
    var before :| Run(Init(threads, callers), before, s);
    RunConcat(Init(threads, callers), before, s, acts, t);
  }
}
