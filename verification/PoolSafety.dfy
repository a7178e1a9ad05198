/** What the thread pool guarantees in every reachable state, for any number of workers, any number
    of callers of threadPoolWait and any schedule. */
module PoolSafety {
  import opened Wrappers
  import opened PoolTaskQueue
  import opened PoolProtocol
  import opened PoolInvariant

  // ---------- exactly once, first in first out ----------

  ghost predicate Distinct<T>(log: seq<T>) {
    forall i, j :: 0 <= i < j < |log| ==> log[i] != log[j]
  }

  ghost predicate HeldBySomeone(s: State, task: Task) {
    exists i :: 0 <= i < |s.workers| && task in Holds(s.workers[i], ToExecute)
  }

  lemma {:induction false} DistinctCount<T>(log: seq<T>, x: T)
    requires Distinct(log)
    ensures multiset(log)[x] <= 1
  {
    if log != [] {
      var rest := log[..|log| - 1];
      assert log == rest + [log[|log| - 1]];
      DistinctCount(rest, x);
      if x == log[|log| - 1] {
        assert x !in rest;
      }
    }
  }

  lemma {:induction false} CountDistinct<T>(log: seq<T>)
    requires forall x :: multiset(log)[x] <= 1
    ensures Distinct(log)
  {
    forall i, j | 0 <= i < j < |log|
      ensures log[i] != log[j]
    {
      var front, back := log[..j], log[j..];
      assert log == front + back;
      assert front[i] == log[i] && back[0] == log[j];
      assert multiset(log)[log[j]] == multiset(front)[log[j]] + multiset(back)[log[j]];
      assert log[i] in multiset(front) && log[j] in multiset(back);
    }
  }

  /** A task counted among the held ones is held by some worker; by two workers it counts twice. */
  lemma {:induction false} HeldWitness(workers: seq<WorkerPc>, duty: Duty, task: Task)
    ensures task in Held(workers, duty) <==>
      exists i :: 0 <= i < |workers| && task in Holds(workers[i], duty)
  {
    if workers != [] {
      HeldWitness(workers[1..], duty, task);
      if i: int :| 0 <= i < |workers| && task in Holds(workers[i], duty) {
        assert i == 0 || task in Holds(workers[1..][i - 1], duty);
      }
      if task in Held(workers[1..], duty) {
        var i :| 0 <= i < |workers[1..]| && task in Holds(workers[1..][i], duty);
        assert task in Holds(workers[i + 1], duty);
      }
    }
  }

  lemma {:induction false} HeldTwice(workers: seq<WorkerPc>, duty: Duty, task: Task, i: nat, j: nat)
    requires i < j < |workers| && task in Holds(workers[i], duty) && task in Holds(workers[j], duty)
    ensures Held(workers, duty)[task] >= 2
  {
    if i == 0 {
      assert task in Holds(workers[1..][j - 1], duty);
      HeldWitness(workers[1..], duty, task);
    } else {
      HeldTwice(workers[1..], duty, task, i - 1, j - 1);
    }
  }

  lemma TasksDistinct(s: State)
    requires Shape(s) && Requests(s) && Conserved(s)
    ensures Distinct(s.enqueued) && Distinct(s.dequeued)
    ensures forall task :: task in s.dequeued ==> task !in s.queue
  {
    forall i, j | 0 <= i < j < |s.enqueued|
      ensures s.enqueued[i] != s.enqueued[j]
    {
      assert s.enqueued[i].serial == i && s.enqueued[j].serial == j;
    }
    forall i, j | 0 <= i < |s.dequeued| && 0 <= j < |s.queue|
      ensures s.dequeued[i] != s.queue[j]
    {
      assert s.dequeued[i] == s.enqueued[i] && s.queue[j] == s.enqueued[|s.dequeued| + j];
    }
    forall i, j | 0 <= i < j < |s.dequeued|
      ensures s.dequeued[i] != s.dequeued[j]
    {
      assert s.dequeued[i] == s.enqueued[i] && s.dequeued[j] == s.enqueued[j];
    }
  }

  /** Where a dequeued task is: executed, or in the hands of one worker, and never both. */
  lemma DequeuedOnce(s: State, task: Task)
    requires Inv(s) && task in s.dequeued
    ensures task in s.executed <==> !HeldBySomeone(s, task)
    ensures multiset(s.executed)[task] <= 1
    ensures forall i, j :: 0 <= i < j < |s.workers| ==>
      task !in Holds(s.workers[i], ToExecute) || task !in Holds(s.workers[j], ToExecute)
  {
    TasksDistinct(s);
    DistinctCount(s.dequeued, task);
    assert task in multiset(s.dequeued);
    assert multiset(s.dequeued)[task] == multiset(s.executed)[task] + Held(s.workers, ToExecute)[task];
    HeldWitness(s.workers, ToExecute, task);
    forall i, j | 0 <= i < j < |s.workers|
      ensures task !in Holds(s.workers[i], ToExecute) || task !in Holds(s.workers[j], ToExecute)
    {
      if task in Holds(s.workers[i], ToExecute) && task in Holds(s.workers[j], ToExecute) {
        HeldTwice(s.workers, ToExecute, task, i, j);
      }
    }
  }

  /** The tasks leave the queue in the order of enqueueing; each is executed at most once; each that
      has left the queue has been executed or is held by exactly one worker; and a task that is
      still queued, whose argument the signaller reads, has not been executed or freed. */
  lemma ExactlyOnceFifo(threads: nat, callers: nat, s: State)
    requires Reachable(threads, callers, s)
    ensures s.enqueued == s.dequeued + s.queue
    ensures Distinct(s.enqueued) && Distinct(s.executed)
    ensures forall task :: task in s.executed ==> task in s.dequeued
    ensures forall task :: task in s.freed ==> task in s.executed
    ensures forall task :: task in s.dequeued ==> (task in s.executed <==> !HeldBySomeone(s, task))
    ensures forall task, i, j :: 0 <= i < j < |s.workers| && task in Holds(s.workers[i], ToExecute) ==>
      task !in Holds(s.workers[j], ToExecute)
    ensures forall task :: task in s.queue ==> task !in s.executed && task !in s.freed
  {
    ReachableInv(threads, callers, s);
    TasksDistinct(s);
    forall task | task in s.executed
      ensures task in s.dequeued
    {
      assert task in multiset(s.dequeued);
    }
    forall task | task in s.freed
      ensures task in s.executed
    {
      assert task in multiset(s.executed);
    }
    forall task
      ensures multiset(s.executed)[task] <= 1
      ensures task in s.dequeued ==> (task in s.executed <==> !HeldBySomeone(s, task))
    {
      if task in s.dequeued {
        DequeuedOnce(s, task);
      } else {
        assert task !in s.executed;
      }
    }
    CountDistinct(s.executed);
    forall task, i, j | 0 <= i < j < |s.workers| && task in Holds(s.workers[i], ToExecute)
      ensures task !in Holds(s.workers[j], ToExecute)
    {
      HeldWitness(s.workers, ToExecute, task);
      assert task in multiset(s.dequeued);
      DequeuedOnce(s, task);
    }
  }

  // ---------- threadPoolWait ----------

  /** What waiter j believes to be finished is at least the first `floor` tasks. */
  ghost predicate SeesAtLeast(s: State, j: nat, floor: nat) {
    && j < |s.waiters|
    && match s.waiters[j] {
      case TestWorking(seen) => floor <= seen
      case CountLeave(seen) => floor <= seen
      case Returned(seen) => floor <= seen
      case _ => true
    }
  }

  lemma SeesAtLeastKept(s: State, a: Action, j: nat, floor: nat)
    requires Shape(s) && Enabled(s, a) && SeesAtLeast(s, j, floor) && floor <= |s.enqueued|
    ensures SeesAtLeast(Next(s, a), j, floor)
    ensures s.enqueued <= Next(s, a).enqueued
  {
  }

  lemma {:induction false} SeesAtLeastRun(s: State, acts: seq<Action>, t: State, j: nat, floor: nat)
    requires Run(s, acts, t) && SeesAtLeast(s, j, floor) && floor <= |s.enqueued|
    ensures SeesAtLeast(t, j, floor)
    ensures s.enqueued <= t.enqueued
    decreases |acts|
  {
    if acts != [] {
      SeesAtLeastKept(s, acts[0], j, floor);
      SeesAtLeastRun(Next(s, acts[0]), acts[1..], t, j, floor);
    }
  }

  /** When threadPoolWait returns, every task that had been enqueued when it was called, or at any
      moment before its last reading of the queue length (`seen`), has been executed and freed. */
  lemma QuiescenceSound(threads: nat, callers: nat, s: State, acts: seq<Action>, t: State, j: nat)
    requires Reachable(threads, callers, s)
    requires j < callers && s.waiters[j].CountEnter?
    requires Run(s, acts, t) && j < |t.waiters| && t.waiters[j].Returned?
    ensures |s.enqueued| <= t.waiters[j].seen <= |t.enqueued|
    ensures forall k :: 0 <= k < t.waiters[j].seen ==> t.enqueued[k] in t.executed && t.enqueued[k] in t.freed
    ensures forall task :: task in s.enqueued ==> task in t.executed && task in t.freed
  {
    ReachableInv(threads, callers, s);
    RunInv(s, acts, t);
    SeesAtLeastRun(s, acts, t, j, |s.enqueued|);
    var seen := t.waiters[j].seen;
    assert Finished(t, seen);
    forall task | task in t.freed
      ensures task in t.executed
    {
      assert task in multiset(t.executed);
    }
    forall task | task in s.enqueued
      ensures task in t.freed
    {
      var k :| 0 <= k < |s.enqueued| && s.enqueued[k] == task;
      assert t.enqueued[k] == task;
    }
  }

  // ---------- the semaphore ----------

  /** Each cell is 0 or 1 and at most one is 1; no thread sleeps while its cell is 1; every queued
      task is assigned to an existing cell; the k-th request goes to worker k mod threads; and the
      counter equals the number of workers between their increment and their decrement. */
  lemma FlagsAndCounters(threads: nat, callers: nat, s: State)
    requires Reachable(threads, callers, s)
    ensures |s.flags| == threads && forall i :: 0 <= i < threads ==> s.flags[i] == 0 || s.flags[i] == 1
    ensures forall i, j :: 0 <= i < threads && 0 <= j < threads && s.flags[i] == s.flags[j] == 1 ==> i == j
    ensures forall i :: 0 <= i < threads && s.workers[i].SemAsleep? ==> s.flags[i] == 0
    ensures forall k :: 0 <= k < |s.enqueued| ==> s.enqueued[k].worker == k % threads
    ensures forall k :: 0 <= k < |s.queue| ==> s.queue[k].worker < threads
    ensures s.working == |WorkingSet(s.workers)|
  {
    ReachableInv(threads, callers, s);
    forall k | 0 <= k < |s.queue|
      ensures s.queue[k].worker < threads
    {
      assert s.queue[k] == s.enqueued[|s.dequeued| + k];
    }
  }

  /** A post raises the flag of the thread assigned to the task then at the head, lowers all others
      and leaves nobody asleep. */
  lemma PostReachesHead(threads: nat, callers: nat, s: State)
    requires Reachable(threads, callers, s)
    requires s.signaller.PostBody?
    ensures Enabled(s, Step(Signaller)) && s.queue != []
    ensures var t := Next(s, Step(Signaller));
      && t.queue == s.queue
      && (forall i :: 0 <= i < threads ==> t.flags[i] == if i == s.queue[0].worker then 1 else 0)
      && forall i :: 0 <= i < threads ==> !t.workers[i].SemAsleep?
  {
    ReachableInv(threads, callers, s);
    FlagsAndCounters(threads, callers, s);
  }

  /** The fate of the raised flag of the thread assigned to the head. */
  ghost predicate FlagKept(s: State, a: Action, t: State)
    requires Shape(s) && s.queue != [] && s.queue[0].worker < |s.flags|
  {
    var h := s.queue[0].worker;
    || (a.Step? && a.thread.Worker? && a.thread.i < |s.workers| && s.workers[a.thread.i].DeqBody?
        && t.queue == s.queue[1..])
    || (a == Step(Worker(h)) && s.workers[h].SemTest? && h < |t.workers| && t.workers[h].SemLeave?)
    || (s.queue <= t.queue && h < |t.flags| && t.flags[h] == 1)
  }

  lemma WorkerKeepsRaisedFlag(s: State, i: nat)
    requires Shape(s) && Flags(s) && WorkerEnabled(s, i)
    requires s.queue != [] && s.queue[0].worker < |s.flags| && s.flags[s.queue[0].worker] == 1
    ensures FlagKept(s, Step(Worker(i)), WorkerStep(s, i))
  {
    if s.workers[i].SemTest? && i != s.queue[0].worker {
      assert s.flags[i] == 0;
    }
  }

  lemma SignallerKeepsRaisedFlag(s: State)
    requires Shape(s) && PostsHead(s) && SignallerEnabled(s)
    requires s.queue != [] && s.queue[0].worker < |s.flags| && s.flags[s.queue[0].worker] == 1
    ensures FlagKept(s, Step(Signaller), SignallerStep(s))
  {
  }

  lemma StepKeepsRaisedFlag(s: State, a: Action)
    requires Shape(s) && Flags(s) && PostsHead(s) && Enabled(s, a)
    requires s.queue != [] && s.queue[0].worker < |s.flags| && s.flags[s.queue[0].worker] == 1
    ensures FlagKept(s, a, Next(s, a))
  {
    match a
    case Step(Worker(i)) => WorkerKeepsRaisedFlag(s, i);
    case Step(Signaller) => SignallerKeepsRaisedFlag(s);
    case _ =>
  }

  /** No lost wakeup: a raised flag of the head's thread stays raised until that thread takes it or
      the head leaves the queue. */
  lemma NoLostWakeup(threads: nat, callers: nat, s: State, a: Action)
    requires Reachable(threads, callers, s) && Enabled(s, a)
    requires s.queue != [] && s.queue[0].worker < threads && s.flags[s.queue[0].worker] == 1
    ensures FlagKept(s, a, Next(s, a))
  {
    ReachableInv(threads, callers, s);
    StepKeepsRaisedFlag(s, a);
  }

  // ---------- deadlock freedom ----------

  /** The owner of the mutex that t is about to acquire, if somebody holds it. */
  ghost function WaitsFor(s: State, t: Thread): Option<Thread> {
    var lock := match t {
      case Worker(i) =>
        if i >= |s.workers| then Free else (match s.workers[i]
        case SemEnter | SemWoken => s.semLock
        case IncEnter | DecEnter => s.countLock
        case DeqEnter => s.queueLock
        case _ => Free)
      case Signaller =>
        (match s.signaller
        case QueueEnter => s.queueLock
        case PostEnter(_) => s.semLock
        case _ => Free)
      case Producer => if s.producer.EnqEnter? then s.queueLock else Free
      case Waiter(j) =>
        if j < |s.waiters| && (s.waiters[j].CountEnter? || s.waiters[j].Woken?) then s.countLock else Free
    };
    match lock
    case Free => None
    case HeldBy(u) => Some(u)
  }

  /** t itself can take a step. */
  ghost predicate CanAct(s: State, t: Thread) {
    || Enabled(s, Step(t))
    || (t.Worker? && exists j :: Enabled(s, Signal(t.i, j)))
  }

  ghost predicate InConditionWait(s: State, t: Thread) {
    match t
    case Worker(i) => i < |s.workers| && s.workers[i].SemAsleep?
    case Waiter(j) => j < |s.waiters| && s.waiters[j].Asleep?
    case _ => false
  }

  ghost predicate Exists(s: State, t: Thread) {
    (t.Worker? ==> t.i < |s.workers|) && (t.Waiter? ==> t.j < |s.waiters|)
  }

  lemma OwnerCanAct(s: State, u: Thread)
    requires Inv(s) && (HoldsQueue(s, u) || HoldsSem(s, u) || HoldsCount(s, u))
    ensures CanAct(s, u) || (u == Signaller && s.signaller.PostEnter? && s.semLock.HeldBy?)
  {
    match u
    case Worker(i) =>
      if MustSignal(s, i) {
        var j :| 0 <= j < |s.waiters| && s.waiters[j].Asleep?;
        assert Enabled(s, Signal(i, j));
      }
    case Signaller =>
      if s.signaller.PostBody? {
        assert s.queue[0] == s.enqueued[|s.dequeued|];
      }
    case _ =>
  }

  /** Mutex waits form no cycle: whoever a thread waits for can act, or is the signaller waiting,
      inside mutexQueueRW, for the owner of bSem.mutex, who can act. */
  lemma NoCyclicWait(threads: nat, callers: nat, s: State, t: Thread)
    requires Reachable(threads, callers, s)
    requires Exists(s, t) && !InConditionWait(s, t)
    ensures CanAct(s, t) <==> WaitsFor(s, t).None?
    ensures WaitsFor(s, t).Some? ==>
      var u := WaitsFor(s, t).value;
      || CanAct(s, u)
      || (u == Signaller && WaitsFor(s, u).Some? && CanAct(s, WaitsFor(s, u).value))
  {
    ReachableInv(threads, callers, s);
    CanActIffNotWaiting(s, t);
    if WaitsFor(s, t).Some? {
      var u := WaitsFor(s, t).value;
      assert HoldsQueue(s, u) || HoldsSem(s, u) || HoldsCount(s, u);
      OwnerCanAct(s, u);
      if !CanAct(s, u) {
        var v := s.semLock.owner;
        assert HoldsSem(s, v);
        OwnerCanAct(s, v);
      }
    }
  }

  lemma CanActIffNotWaiting(s: State, t: Thread)
    requires Inv(s) && Exists(s, t) && !InConditionWait(s, t)
    ensures CanAct(s, t) <==> WaitsFor(s, t).None?
  {
    match t
    case Worker(i) =>
      if MustSignal(s, i) {
        var j :| 0 <= j < |s.waiters| && s.waiters[j].Asleep?;
        assert Enabled(s, Signal(i, j));
      }
    case Signaller =>
      if s.signaller.PostBody? {
        assert s.queue[0] == s.enqueued[|s.dequeued|];
      }
    case _ =>
  }

  /** In every reachable state some thread outside condition waits can take a step. */
  lemma DeadlockFree(threads: nat, callers: nat, s: State)
    requires Reachable(threads, callers, s)
    ensures exists t :: CanAct(s, t) && !InConditionWait(s, t)
  {
    ReachableInv(threads, callers, s);
    NoCyclicWait(threads, callers, s, Signaller);
    if !CanAct(s, Signaller) {
      var u := WaitsFor(s, Signaller).value;
      assert CanAct(s, u);
    }
  }
}
