/** The inductive invariant of the thread pool: it holds initially and every step keeps it. */
module PoolInvariant {
  import opened Arithmetic
  import opened Wrappers
  import opened PoolTaskQueue
  import opened PoolProtocol

  // ---------- which thread holds which mutex ----------

  ghost predicate HoldsQueue(s: State, t: Thread) {
    match t
    case Worker(i) => i < |s.workers| && (s.workers[i].DeqBody? || s.workers[i].DeqLeave?)
    case Signaller => !s.signaller.QueueEnter?
    case Producer => s.producer.EnqBody? || s.producer.EnqLeave?
    case Waiter(_) => false
  }

  ghost predicate HoldsSem(s: State, t: Thread) {
    match t
    case Worker(i) => i < |s.workers| && (s.workers[i].SemTest? || s.workers[i].SemLeave?)
    case Signaller => s.signaller.PostBody? || s.signaller.PostLeave?
    case Producer => false
    case Waiter(_) => false
  }

  ghost predicate HoldsCount(s: State, t: Thread) {
    match t
    case Worker(i) =>
      && i < |s.workers|
      && var pc := s.workers[i]; pc.IncBody? || pc.IncLeave? || pc.DecBody? || pc.DecLeave?
    case Waiter(j) =>
      && j < |s.waiters|
      && var pc := s.waiters[j]; pc.TestLen? || pc.TestWorking? || pc.CallWait? || pc.CountLeave?
    case _ => false
  }

  /** Each mutex is owned by exactly the thread whose program counter is in its critical section. */
  ghost predicate Locks(s: State) {
    && (forall t :: HoldsQueue(s, t) <==> s.queueLock == HeldBy(t))
    && (forall t :: HoldsSem(s, t) <==> s.semLock == HeldBy(t))
    && (forall t :: HoldsCount(s, t) <==> s.countLock == HeldBy(t))
  }

  // ---------- what the workers hold ----------

  /** The two ways in which a worker can be responsible for a task it has dequeued. */
  datatype Duty = ToExecute | ToFree

  function Holds(pc: WorkerPc, duty: Duty): multiset<Task> {
    match pc
    case DeqLeave(Some(task)) => if duty.ToExecute? then multiset{task} else multiset{}
    case Running(task) => if duty.ToExecute? then multiset{task} else multiset{}
    case Freeing(task) => if duty.ToFree? then multiset{task} else multiset{}
    case _ => multiset{}
  }

  function Held(workers: seq<WorkerPc>, duty: Duty): multiset<Task> {
    if workers == [] then multiset{} else Holds(workers[0], duty) + Held(workers[1..], duty)
  }

  /** A worker counts as working from its increment of numWorkingThreads to its decrement. */
  predicate CountsAsWorking(pc: WorkerPc) {
    || pc.IncLeave? || pc.DeqEnter? || pc.DeqBody? || pc.DeqLeave?
    || pc.Running? || pc.Freeing? || pc.DecEnter? || pc.DecBody?
  }

  function WorkingSet(workers: seq<WorkerPc>): set<int> {
    set i | 0 <= i < |workers| && CountsAsWorking(workers[i])
  }

  lemma SwapInSum(first: multiset<Task>, rest: multiset<Task>, x: multiset<Task>, y: multiset<Task>)
    requires x <= rest
    ensures first + (rest - x + y) == (first + rest) - x + y
    ensures x <= first + rest
  {
  }

  lemma {:induction false} HeldUpdate(workers: seq<WorkerPc>, i: nat, pc: WorkerPc, duty: Duty)
    requires i < |workers|
    ensures Held(workers[i := pc], duty) == Held(workers, duty) - Holds(workers[i], duty) + Holds(pc, duty)
    ensures Holds(workers[i], duty) <= Held(workers, duty)
  {
    var rest := workers[1..];
    var x, y := Holds(workers[i], duty), Holds(pc, duty);
    if i == 0 {
      assert workers[i := pc][1..] == rest;
      assert (x + Held(rest, duty)) - x + y == y + Held(rest, duty);
    } else {
      HeldUpdate(rest, i - 1, pc, duty);
      assert workers[i := pc][1..] == rest[i - 1 := pc];
      SwapInSum(Holds(workers[0], duty), Held(rest, duty), x, y);
    }
  }

  lemma HeldKept(workers: seq<WorkerPc>, i: nat, pc: WorkerPc, duty: Duty)
    requires i < |workers| && Holds(pc, duty) == Holds(workers[i], duty)
    ensures Held(workers[i := pc], duty) == Held(workers, duty)
  {
    HeldUpdate(workers, i, pc, duty);
    var all, own := Held(workers, duty), Holds(pc, duty);
    assert all - own + own == all;
  }

  lemma HeldAcquire(workers: seq<WorkerPc>, i: nat, pc: WorkerPc, duty: Duty, task: Task)
    requires i < |workers| && Holds(workers[i], duty) == multiset{} && Holds(pc, duty) == multiset{task}
    ensures Held(workers[i := pc], duty) == Held(workers, duty) + multiset{task}
  {
    HeldUpdate(workers, i, pc, duty);
    var all := Held(workers, duty);
    assert all - multiset{} + multiset{task} == all + multiset{task};
  }

  lemma HeldRelease(workers: seq<WorkerPc>, i: nat, pc: WorkerPc, duty: Duty, task: Task)
    requires i < |workers| && Holds(workers[i], duty) == multiset{task} && Holds(pc, duty) == multiset{}
    ensures Held(workers[i := pc], duty) + multiset{task} == Held(workers, duty)
  {
    HeldUpdate(workers, i, pc, duty);
    var all := Held(workers, duty);
    assert all - multiset{task} + multiset{} + multiset{task} == all;
  }

  lemma {:induction false} HeldSame(workers: seq<WorkerPc>, other: seq<WorkerPc>, duty: Duty)
    requires |workers| == |other|
    requires forall i :: 0 <= i < |workers| ==> Holds(workers[i], duty) == Holds(other[i], duty)
    ensures Held(workers, duty) == Held(other, duty)
  {
    if workers != [] {
      HeldSame(workers[1..], other[1..], duty);
    }
  }

  lemma {:induction false} HeldNone(workers: seq<WorkerPc>, duty: Duty)
    requires forall i :: 0 <= i < |workers| ==> Holds(workers[i], duty) == multiset{}
    ensures Held(workers, duty) == multiset{}
  {
    if workers != [] {
      HeldNone(workers[1..], duty);
    }
  }

  // ---------- the invariant ----------

  /** The k-th request is task k and is assigned to worker k modulo the number of workers. */
  ghost predicate Requests(s: State)
    requires Shape(s)
  {
    && (forall k {:trigger s.enqueued[k]} :: 0 <= k < |s.enqueued| ==>
         s.enqueued[k] == Task(k, k % |s.flags|))
    && (match s.producer
        case EnqEnter(task) => task == Task(|s.enqueued|, s.nextWorker)
        case EnqBody(task) => task == Task(|s.enqueued|, s.nextWorker)
        case _ => true)
    && (if s.producer.EnqLeave? then 0 < |s.enqueued| && s.nextWorker == (|s.enqueued| - 1) % |s.flags|
        else s.nextWorker == |s.enqueued| % |s.flags|)
  }

  /** Nothing is lost or duplicated on the way from the producer to free(). */
  ghost predicate Conserved(s: State) {
    && s.enqueued == s.dequeued + s.queue
    && multiset(s.dequeued) == multiset(s.executed) + Held(s.workers, ToExecute)
    && multiset(s.executed) == multiset(s.freed) + Held(s.workers, ToFree)
  }

  ghost predicate Counted(s: State) {
    s.working == |WorkingSet(s.workers)|
  }

  ghost predicate Flags(s: State)
    requires Shape(s)
  {
    && (forall i :: 0 <= i < |s.flags| ==> s.flags[i] == 0 || s.flags[i] == 1)
    && (forall i, j :: 0 <= i < j < |s.flags| ==> s.flags[i] == 0 || s.flags[j] == 0)
    && (forall i :: 0 <= i < |s.workers| && s.workers[i].SemAsleep? ==> s.flags[i] == 0)
    && (forall i, k :: 0 <= i < |s.workers| && s.workers[i].SemLeave? && 0 <= k < |s.flags| ==> s.flags[k] == 0)
  }

  /** The signaller only ever posts the task that is at the head of the queue at that moment. */
  ghost predicate PostsHead(s: State)
    requires Shape(s)
  {
    match s.signaller
    case PostEnter(target) => s.queue != [] && target == s.queue[0].worker
    case PostBody(target) => s.queue != [] && target == s.queue[0].worker
    case PostLeave => s.queue != [] && s.flags == Posted(|s.flags|, s.queue[0].worker)
    case _ => true
  }

  ghost predicate Finished(s: State, seen: nat) {
    && seen <= |s.enqueued|
    && forall k :: 0 <= k < seen ==> s.enqueued[k] in s.freed
  }

  ghost predicate Waits(s: State) {
    forall j :: 0 <= j < |s.waiters| ==>
      match s.waiters[j]
      case TestWorking(seen) => seen <= |s.dequeued|
      case CountLeave(seen) => Finished(s, seen)
      case Returned(seen) => Finished(s, seen)
      case _ => true
  }

  ghost predicate Inv(s: State) {
    && Shape(s)
    && Locks(s)
    && Requests(s)
    && Conserved(s)
    && Counted(s)
    && Flags(s)
    && PostsHead(s)
    && Waits(s)
  }

  lemma InitInv(threads: nat, callers: nat)
    requires 0 < threads
    ensures Inv(Init(threads, callers))
  {
    var s := Init(threads, callers);
    HeldNone(s.workers, ToExecute);
    HeldNone(s.workers, ToFree);
    assert WorkingSet(s.workers) == {};
  }

  // ---------- every step keeps the invariant: steps of a worker ----------

  lemma WorkerKeepsLocks(s: State, i: nat)
    requires Shape(s) && Locks(s) && WorkerEnabled(s, i)
    ensures Locks(WorkerStep(s, i))
  {
    var t := WorkerStep(s, i);
    assert HoldsQueue(s, Worker(i)) <==> s.queueLock == HeldBy(Worker(i));
    assert HoldsSem(s, Worker(i)) <==> s.semLock == HeldBy(Worker(i));
    assert HoldsCount(s, Worker(i)) <==> s.countLock == HeldBy(Worker(i));
    forall u: Thread
      ensures HoldsQueue(t, u) <==> t.queueLock == HeldBy(u)
      ensures HoldsSem(t, u) <==> t.semLock == HeldBy(u)
      ensures HoldsCount(t, u) <==> t.countLock == HeldBy(u)
    {
      if u != Worker(i) {
        assert HoldsQueue(t, u) == HoldsQueue(s, u);
        assert HoldsSem(t, u) == HoldsSem(s, u);
        assert HoldsCount(t, u) == HoldsCount(s, u);
      }
    }
  }

  lemma AppendSum(log: seq<Task>, task: Task, other: seq<Task>, held: multiset<Task>)
    requires multiset(log) == multiset(other) + held
    ensures multiset(log + [task]) == multiset(other) + (held + multiset{task})
  {
  }

  lemma MoveSum(log: seq<Task>, task: Task, other: seq<Task>, held: multiset<Task>)
    requires multiset(log) == multiset(other) + (held + multiset{task})
    ensures multiset(log) == multiset(other + [task]) + held
  {
  }

  lemma ShiftHead(dequeued: seq<Task>, queue: seq<Task>)
    requires queue != []
    ensures dequeued + queue == dequeued + [queue[0]] + queue[1..]
  {
  }

  /** A task comes into a worker's hands, in the sums over the workers. */
  lemma DequeueMovesHeld(workers: seq<WorkerPc>, i: nat, task: Task)
    requires i < |workers| && workers[i].DeqBody?
    ensures var after := workers[i := DeqLeave(Some(task))];
      && Held(after, ToExecute) == Held(workers, ToExecute) + multiset{task}
      && Held(after, ToFree) == Held(workers, ToFree)
  {
    HeldKept(workers, i, DeqLeave(Some(task)), ToFree);
    HeldAcquire(workers, i, DeqLeave(Some(task)), ToExecute, task);
  }

  lemma DequeueKeepsConserved(s: State, t: State, i: nat)
    requires Conserved(s) && i < |s.workers| && s.workers[i].DeqBody? && s.queue != []
    requires t.workers == s.workers[i := DeqLeave(Some(s.queue[0]))]
    requires t.queue == s.queue[1..] && t.dequeued == s.dequeued + [s.queue[0]]
    requires t.enqueued == s.enqueued && t.executed == s.executed && t.freed == s.freed
    ensures Conserved(t)
  {
    ShiftHead(s.dequeued, s.queue);
    DequeueMovesHeld(s.workers, i, s.queue[0]);
    AppendSum(s.dequeued, s.queue[0], s.executed, Held(s.workers, ToExecute));
  }

  /** The moves of one task from Running to Freeing, in the sums over the workers. */
  lemma ExecuteMovesHeld(workers: seq<WorkerPc>, i: nat, task: Task)
    requires i < |workers| && workers[i] == Running(task)
    ensures var after := workers[i := Freeing(task)];
      && Held(after, ToExecute) + multiset{task} == Held(workers, ToExecute)
      && Held(after, ToFree) == Held(workers, ToFree) + multiset{task}
  {
    HeldRelease(workers, i, Freeing(task), ToExecute, task);
    HeldAcquire(workers, i, Freeing(task), ToFree, task);
  }

  lemma ExecuteKeepsConserved(s: State, t: State, i: nat, task: Task)
    requires Conserved(s) && i < |s.workers| && s.workers[i] == Running(task)
    requires t.workers == s.workers[i := Freeing(task)] && t.executed == s.executed + [task]
    requires t.enqueued == s.enqueued && t.dequeued == s.dequeued && t.queue == s.queue && t.freed == s.freed
    ensures Conserved(t)
  {
    ExecuteMovesHeld(s.workers, i, task);
    MoveSum(s.dequeued, task, s.executed, Held(t.workers, ToExecute));
    AppendSum(s.executed, task, s.freed, Held(s.workers, ToFree));
  }

  lemma FreeKeepsConserved(s: State, t: State, i: nat, task: Task)
    requires Conserved(s) && i < |s.workers| && s.workers[i] == Freeing(task)
    requires t.workers == s.workers[i := DecEnter] && t.freed == s.freed + [task]
    requires t.enqueued == s.enqueued && t.dequeued == s.dequeued && t.queue == s.queue
    requires t.executed == s.executed
    ensures Conserved(t)
  {
    HeldKept(s.workers, i, DecEnter, ToExecute);
    HeldRelease(s.workers, i, DecEnter, ToFree, task);
    MoveSum(s.executed, task, s.freed, Held(t.workers, ToFree));
  }

  /** A worker that only moves its program counter, keeping what it holds. */
  lemma MoveKeepsConserved(s: State, t: State, i: nat, pc: WorkerPc)
    requires Conserved(s) && i < |s.workers| && t.workers == s.workers[i := pc]
    requires Holds(pc, ToExecute) == Holds(s.workers[i], ToExecute)
    requires Holds(pc, ToFree) == Holds(s.workers[i], ToFree)
    requires t.enqueued == s.enqueued && t.dequeued == s.dequeued && t.queue == s.queue
    requires t.executed == s.executed && t.freed == s.freed
    ensures Conserved(t)
  {
    HeldKept(s.workers, i, pc, ToExecute);
    HeldKept(s.workers, i, pc, ToFree);
  }

  predicate TouchesTasks(pc: WorkerPc) {
    pc.DeqBody? || pc.Running? || pc.Freeing?
  }

  lemma OtherStepsKeepTasks(s: State, i: nat)
    requires Shape(s) && WorkerEnabled(s, i) && !TouchesTasks(s.workers[i])
    ensures var t := WorkerStep(s, i);
      && t.workers == s.workers[i := t.workers[i]]
      && t.enqueued == s.enqueued && t.dequeued == s.dequeued && t.queue == s.queue
      && t.executed == s.executed && t.freed == s.freed
      && Holds(t.workers[i], ToExecute) == Holds(s.workers[i], ToExecute)
      && Holds(t.workers[i], ToFree) == Holds(s.workers[i], ToFree)
  {
  }

  lemma WorkerKeepsConserved(s: State, i: nat)
    requires Shape(s) && Conserved(s) && WorkerEnabled(s, i)
    ensures Conserved(WorkerStep(s, i))
  {
    var t := WorkerStep(s, i);
    if s.workers[i].Running? {
      ExecuteKeepsConserved(s, t, i, s.workers[i].task);
    } else if s.workers[i].Freeing? {
      FreeKeepsConserved(s, t, i, s.workers[i].task);
    } else if s.workers[i].DeqBody? && s.queue != [] {
      DequeueKeepsConserved(s, t, i);
    } else {
      if !s.workers[i].DeqBody? {
        OtherStepsKeepTasks(s, i);
      }
      MoveKeepsConserved(s, t, i, t.workers[i]);
    }
  }

  /** What one worker's move does to the number of working threads. */
  lemma WorkingUpdate(workers: seq<WorkerPc>, i: nat, pc: WorkerPc)
    requires i < |workers|
    ensures |WorkingSet(workers[i := pc])| + (if CountsAsWorking(workers[i]) then 1 else 0)
         == |WorkingSet(workers)| + (if CountsAsWorking(pc) then 1 else 0)
  {
    if CountsAsWorking(pc) {
      assert WorkingSet(workers[i := pc]) == WorkingSet(workers) + {i};
    } else {
      assert WorkingSet(workers[i := pc]) == WorkingSet(workers) - {i};
    }
  }

  lemma WorkerKeepsCounted(s: State, i: nat)
    requires Shape(s) && Counted(s) && WorkerEnabled(s, i)
    ensures Counted(WorkerStep(s, i))
  {
    var pc := WorkerStep(s, i).workers[i];
    assert WorkerStep(s, i).workers == s.workers[i := pc];
    WorkingUpdate(s.workers, i, pc);
  }

  lemma WorkerKeepsFlags(s: State, i: nat)
    requires Shape(s) && Flags(s) && WorkerEnabled(s, i)
    ensures Flags(WorkerStep(s, i))
  {
    var t := WorkerStep(s, i);
    assert t.flags == s.flags || t.flags == s.flags[i := 0];
    assert t.workers == s.workers[i := t.workers[i]];
  }

  /** While the signaller holds mutexQueueRW no worker can move the head, and while it holds
      bSem.mutex no worker can touch a flag. */
  lemma WorkerKeepsPostsHead(s: State, i: nat)
    requires Shape(s) && Locks(s) && PostsHead(s) && WorkerEnabled(s, i)
    ensures PostsHead(WorkerStep(s, i))
  {
    assert HoldsQueue(s, Signaller) && HoldsQueue(s, Worker(i)) ==> false;
    assert HoldsSem(s, Signaller) && HoldsSem(s, Worker(i)) ==> false;
  }

  lemma FinishedStays(s: State, t: State, seen: nat)
    requires Finished(s, seen)
    requires s.enqueued <= t.enqueued && s.freed <= t.freed
    ensures Finished(t, seen)
  {
    forall k | 0 <= k < seen
      ensures t.enqueued[k] in t.freed
    {
      assert t.enqueued[k] == s.enqueued[k];
      var m :| 0 <= m < |s.freed| && s.freed[m] == s.enqueued[k];
      assert t.freed[m] == s.freed[m];
    }
  }

  lemma WaitsStay(s: State, t: State)
    requires Waits(s) && t.waiters == s.waiters
    requires s.enqueued <= t.enqueued && s.freed <= t.freed && |s.dequeued| <= |t.dequeued|
    ensures Waits(t)
  {
    forall j | 0 <= j < |t.waiters|
      ensures match t.waiters[j]
        case TestWorking(seen) => seen <= |t.dequeued|
        case CountLeave(seen) => Finished(t, seen)
        case Returned(seen) => Finished(t, seen)
        case _ => true
    {
      match t.waiters[j]
      case CountLeave(seen) => FinishedStays(s, t, seen);
      case Returned(seen) => FinishedStays(s, t, seen);
      case _ =>
    }
  }

  lemma WorkerKeepsRequestsAndWaits(s: State, i: nat)
    requires Shape(s) && Requests(s) && Waits(s) && WorkerEnabled(s, i)
    ensures Requests(WorkerStep(s, i)) && Waits(WorkerStep(s, i))
  {
    WaitsStay(s, WorkerStep(s, i));
  }

  lemma WorkerKeepsShape(s: State, i: nat)
    requires Shape(s) && WorkerEnabled(s, i)
    ensures Shape(WorkerStep(s, i))
  {
  }

  lemma InvIntro(s: State)
    requires Shape(s) && Locks(s) && Requests(s) && Conserved(s)
    requires Counted(s) && Flags(s) && PostsHead(s) && Waits(s)
    ensures Inv(s)
  {
  }

  lemma WorkerKeepsInv(s: State, i: nat)
    requires Inv(s) && WorkerEnabled(s, i)
    ensures Inv(WorkerStep(s, i))
  {
    WorkerKeepsShape(s, i);
    WorkerKeepsLocks(s, i);
    WorkerKeepsConserved(s, i);
    WorkerKeepsCounted(s, i);
    WorkerKeepsFlags(s, i);
    WorkerKeepsPostsHead(s, i);
    WorkerKeepsRequestsAndWaits(s, i);
    InvIntro(WorkerStep(s, i));
  }

  // ---------- steps of the other threads ----------

  lemma SignallerKeepsLocks(s: State)
    requires Shape(s) && Locks(s) && SignallerEnabled(s)
    ensures Locks(SignallerStep(s))
  {
    var t := SignallerStep(s);
    assert HoldsQueue(s, Signaller) <==> s.queueLock == HeldBy(Signaller);
    assert HoldsSem(s, Signaller) <==> s.semLock == HeldBy(Signaller);
    forall u: Thread
      ensures HoldsQueue(t, u) <==> t.queueLock == HeldBy(u)
      ensures HoldsSem(t, u) <==> t.semLock == HeldBy(u)
      ensures HoldsCount(t, u) <==> t.countLock == HeldBy(u)
    {
      assert HoldsCount(t, u) == HoldsCount(s, u);
      if u != Signaller {
        assert HoldsQueue(t, u) == HoldsQueue(s, u);
        assert HoldsSem(t, u) == HoldsSem(s, u);
      }
    }
  }

  lemma SignallerKeepsFlags(s: State)
    requires Shape(s) && Locks(s) && Flags(s) && PostsHead(s) && SignallerEnabled(s)
    ensures Flags(SignallerStep(s)) && PostsHead(SignallerStep(s))
  {
    if s.signaller.PostBody? {
      assert HoldsSem(s, Signaller);
      forall i | 0 <= i < |s.workers|
        ensures !s.workers[i].SemLeave?
      {
        assert !HoldsSem(s, Worker(i));
      }
    }
  }

  lemma SignallerKeepsConserved(s: State)
    requires Shape(s) && Conserved(s) && Counted(s) && SignallerEnabled(s)
    ensures Conserved(SignallerStep(s)) && Counted(SignallerStep(s))
  {
    if s.signaller.PostBody? {
      WakeAllHeld(s.workers, ToExecute);
      WakeAllHeld(s.workers, ToFree);
      WakeAllWorking(s.workers);
    }
  }

  lemma WakeAllHeld(workers: seq<WorkerPc>, duty: Duty)
    ensures Held(WakeAll(workers), duty) == Held(workers, duty)
  {
    forall i | 0 <= i < |workers|
      ensures Holds(WakeAll(workers)[i], duty) == Holds(workers[i], duty)
    {
      assert WakeAll(workers)[i] == WakeWorker(workers[i]);
    }
    HeldSame(workers, WakeAll(workers), duty);
  }

  lemma WakeAllWorking(workers: seq<WorkerPc>)
    ensures WorkingSet(WakeAll(workers)) == WorkingSet(workers)
  {
    forall i | 0 <= i < |workers|
      ensures CountsAsWorking(WakeAll(workers)[i]) == CountsAsWorking(workers[i])
    {
      assert WakeAll(workers)[i] == WakeWorker(workers[i]);
    }
  }

  lemma SignallerKeepsRequestsAndWaits(s: State)
    requires Shape(s) && Requests(s) && Waits(s) && SignallerEnabled(s)
    ensures Requests(SignallerStep(s)) && Waits(SignallerStep(s))
  {
    WaitsStay(s, SignallerStep(s));
  }

  lemma SignallerKeepsInv(s: State)
    requires Inv(s) && SignallerEnabled(s)
    ensures Inv(SignallerStep(s))
  {
    NextKeepsShape(s, Step(Signaller));
    SignallerKeepsLocks(s);
    SignallerKeepsFlags(s);
    SignallerKeepsConserved(s);
    SignallerKeepsRequestsAndWaits(s);
  }

  lemma ProducerKeepsLocks(s: State)
    requires Shape(s) && Locks(s) && ProducerEnabled(s)
    ensures Locks(ProducerStep(s))
  {
    var t := ProducerStep(s);
    assert HoldsQueue(s, Producer) <==> s.queueLock == HeldBy(Producer);
    forall u: Thread
      ensures HoldsQueue(t, u) <==> t.queueLock == HeldBy(u)
      ensures HoldsSem(t, u) <==> t.semLock == HeldBy(u)
      ensures HoldsCount(t, u) <==> t.countLock == HeldBy(u)
    {
      assert HoldsCount(t, u) == HoldsCount(s, u);
      assert HoldsSem(t, u) == HoldsSem(s, u);
      if u != Producer {
        assert HoldsQueue(t, u) == HoldsQueue(s, u);
      }
    }
  }

  lemma ProducerKeepsRequests(s: State)
    requires Shape(s) && Requests(s) && ProducerEnabled(s)
    ensures Requests(ProducerStep(s))
  {
    if s.producer.EnqLeave? {
      ModSucc(|s.enqueued| - 1, |s.flags|);
    }
  }

  lemma ProducerKeepsInv(s: State)
    requires Inv(s) && ProducerEnabled(s)
    ensures Inv(ProducerStep(s))
  {
    ProducerKeepsLocks(s);
    ProducerKeepsRequests(s);
    WaitsStay(s, ProducerStep(s));
  }

  /** With no worker counted as working, every dequeued task has been executed and freed. */
  lemma IdleMeansFinished(s: State)
    requires Shape(s) && Conserved(s) && Counted(s) && s.working == 0
    ensures Finished(s, |s.dequeued|)
  {
    assert WorkingSet(s.workers) == {};
    forall i | 0 <= i < |s.workers|
      ensures forall duty :: Holds(s.workers[i], duty) == multiset{}
    {
      assert i !in WorkingSet(s.workers);
    }
    HeldNone(s.workers, ToExecute);
    HeldNone(s.workers, ToFree);
    assert multiset(s.dequeued) == multiset(s.freed);
    forall k | 0 <= k < |s.dequeued|
      ensures s.enqueued[k] in s.freed
    {
      assert s.dequeued[k] in multiset(s.dequeued);
    }
  }

  lemma WaiterKeepsLocks(s: State, j: nat)
    requires Shape(s) && Locks(s) && WaiterEnabled(s, j)
    ensures Locks(WaiterStep(s, j))
  {
    var t := WaiterStep(s, j);
    assert HoldsCount(s, Waiter(j)) <==> s.countLock == HeldBy(Waiter(j));
    forall u: Thread
      ensures HoldsQueue(t, u) <==> t.queueLock == HeldBy(u)
      ensures HoldsSem(t, u) <==> t.semLock == HeldBy(u)
      ensures HoldsCount(t, u) <==> t.countLock == HeldBy(u)
    {
      assert HoldsQueue(t, u) == HoldsQueue(s, u);
      assert HoldsSem(t, u) == HoldsSem(s, u);
      if u != Waiter(j) {
        assert HoldsCount(t, u) == HoldsCount(s, u);
      }
    }
  }

  /** The two reads of threadPoolWait are not simultaneous, yet together they are conclusive. */
  lemma WaiterKeepsWaits(s: State, j: nat)
    requires Shape(s) && Conserved(s) && Counted(s) && Waits(s) && WaiterEnabled(s, j)
    ensures Waits(WaiterStep(s, j))
  {
    var t := WaiterStep(s, j);
    forall k | 0 <= k < |t.waiters|
      ensures match t.waiters[k]
        case TestWorking(seen) => seen <= |t.dequeued|
        case CountLeave(seen) => Finished(t, seen)
        case Returned(seen) => Finished(t, seen)
        case _ => true
    {
      if k != j {
        assert t.waiters[k] == s.waiters[k];
        match t.waiters[k]
        case CountLeave(seen) => FinishedStays(s, t, seen);
        case Returned(seen) => FinishedStays(s, t, seen);
        case _ =>
      } else if s.waiters[j].TestWorking? && s.working == 0 {
        IdleMeansFinished(s);
        FinishedStays(s, t, s.waiters[j].seen);
      } else if s.waiters[j].CountLeave? {
        FinishedStays(s, t, s.waiters[j].seen);
      }
    }
  }

  /** A caller of threadPoolWait changes nothing but its own program counter and mutexThreadCnt. */
  lemma WaiterKeepsTasks(s: State, t: State)
    requires Shape(s) && t == s.(waiters := t.waiters, countLock := t.countLock)
    requires Requests(s) && Conserved(s) && Counted(s)
    ensures Shape(t) && Requests(t) && Conserved(t) && Counted(t)
  {
  }

  lemma WaiterKeepsFlags(s: State, t: State)
    requires Shape(s) && Shape(t) && t == s.(waiters := t.waiters, countLock := t.countLock)
    requires Flags(s) && PostsHead(s)
    ensures Flags(t) && PostsHead(t)
  {
  }

  lemma WaiterKeepsInv(s: State, j: nat)
    requires Inv(s) && WaiterEnabled(s, j)
    ensures Inv(WaiterStep(s, j))
  {
    WaiterKeepsLocks(s, j);
    WaiterKeepsWaits(s, j);
    WaiterKeepsTasks(s, WaiterStep(s, j));
    WaiterKeepsFlags(s, WaiterStep(s, j));
    InvIntro(WaiterStep(s, j));
  }

  /** The sleepers chosen by a signal or a spurious wakeup hold nothing and know nothing. */
  lemma WokenWaiterKeepsInv(s: State, j: nat)
    requires Inv(s) && j < |s.waiters| && s.waiters[j].Asleep?
    ensures Inv(s.(waiters := s.waiters[j := Woken]))
  {
    var t := s.(waiters := s.waiters[j := Woken]);
    forall u: Thread
      ensures HoldsQueue(t, u) == HoldsQueue(s, u)
      ensures HoldsSem(t, u) == HoldsSem(s, u)
      ensures HoldsCount(t, u) == HoldsCount(s, u)
    {
    }
    forall seen: nat | Finished(s, seen)
      ensures Finished(t, seen)
    {
    }
    WaiterKeepsTasks(s, t);
    WaiterKeepsFlags(s, t);
  }

  lemma WokenWorkerKeepsLocks(s: State, i: nat)
    requires Locks(s) && i < |s.workers| && s.workers[i].SemAsleep?
    ensures Locks(s.(workers := s.workers[i := SemWoken]))
  {
    var t := s.(workers := s.workers[i := SemWoken]);
    forall u: Thread
      ensures HoldsQueue(t, u) == HoldsQueue(s, u)
      ensures HoldsSem(t, u) == HoldsSem(s, u)
      ensures HoldsCount(t, u) == HoldsCount(s, u)
    {
    }
  }

  lemma WokenWorkerKeepsRest(s: State, i: nat)
    requires Shape(s) && Conserved(s) && Counted(s) && Waits(s)
    requires i < |s.workers| && s.workers[i].SemAsleep?
    ensures var t := s.(workers := s.workers[i := SemWoken]); Conserved(t) && Counted(t) && Waits(t)
  {
    var t := s.(workers := s.workers[i := SemWoken]);
    MoveKeepsConserved(s, t, i, SemWoken);
    WorkingUpdate(s.workers, i, SemWoken);
    WaitsStay(s, t);
  }

  lemma WokenWorkerKeepsInv(s: State, i: nat)
    requires Inv(s) && i < |s.workers| && s.workers[i].SemAsleep?
    ensures Inv(s.(workers := s.workers[i := SemWoken]))
  {
    WokenWorkerKeepsLocks(s, i);
    WokenWorkerKeepsRest(s, i);
  }

  /** A decrement to zero that signals is the same decrement made while that sleeper was awake. */
  lemma SignalKeepsInv(s: State, i: nat, j: nat)
    requires Inv(s) && SignalEnabled(s, i, j)
    ensures Inv(Next(s, Signal(i, j)))
  {
    WokenWaiterKeepsInv(s, j);
    WorkerKeepsInv(s.(waiters := s.waiters[j := Woken]), i);
  }

  /** Every step keeps the invariant. */
  lemma NextInv(s: State, a: Action)
    requires Inv(s) && Enabled(s, a)
    ensures Inv(Next(s, a))
  {
    match a
    case Step(Worker(i)) => WorkerKeepsInv(s, i);
    case Step(Signaller) => SignallerKeepsInv(s);
    case Step(Producer) => ProducerKeepsInv(s);
    case Step(Waiter(j)) => WaiterKeepsInv(s, j);
    case Signal(i, j) => SignalKeepsInv(s, i, j);
    case Spurious(Worker(i)) => WokenWorkerKeepsInv(s, i);
    case Spurious(Waiter(j)) => WokenWaiterKeepsInv(s, j);
  }

  lemma {:induction false} RunInv(s: State, acts: seq<Action>, t: State)
    requires Inv(s) && Run(s, acts, t)
    ensures Inv(t)
    decreases |acts|
  {
    if acts != [] {
      NextInv(s, acts[0]);
      RunInv(Next(s, acts[0]), acts[1..], t);
    }
  }

  /** Every reachable state satisfies the invariant. */
  lemma ReachableInv(threads: nat, callers: nat, s: State)
    requires Reachable(threads, callers, s)
    ensures Inv(s)
  {
    var acts :| Run(Init(threads, callers), acts, s);
    InitInv(threads, callers);
    RunInv(Init(threads, callers), acts, s);
  }
}
