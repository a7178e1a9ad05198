/**
 Wakeups of threadPoolWait. A decrement to zero sends pthread_cond_signal, which wakes one caller. With
 a single caller that is enough: it never sleeps while the pool is idle. With two or more it is not: this
 module gives a schedule that leaves a caller asleep on an idle pool, and the exact condition.
 */
module PoolWaiters {
  import opened PoolTaskQueue
  import opened PoolProtocol
  import opened PoolInvariant

  /** A caller that sleeps, or is about to, has something to wait for. */
  ghost predicate SleepersHaveReason(s: State) {
    forall j :: 0 <= j < |s.waiters| && (s.waiters[j].CallWait? || s.waiters[j].Asleep?) ==>
      s.queue != [] || s.working > 0
  }

  lemma WorkerInRegionCounts(s: State, i: nat)
    requires Counted(s) && i < |s.workers| && CountsAsWorking(s.workers[i])
    ensures s.working > 0
  {
    assert i in WorkingSet(s.workers);
  }

  lemma WorkerKeepsReason(s: State, i: nat)
    requires Shape(s) && Locks(s) && Counted(s) && SleepersHaveReason(s)
    requires WorkerEnabled(s, i)
    requires s.workers[i].DecBody? && s.working == 1 ==>
      forall j :: 0 <= j < |s.waiters| ==> !s.waiters[j].Asleep?
    ensures SleepersHaveReason(WorkerStep(s, i))
  {
    if s.workers[i].DeqBody? {
      WorkerInRegionCounts(s, i);
    } else if s.workers[i].DecBody? {
      assert HoldsCount(s, Worker(i));
      WorkerInRegionCounts(s, i);
      forall j | 0 <= j < |s.waiters|
        ensures !s.waiters[j].CallWait?
      {
        assert !HoldsCount(s, Waiter(j));
      }
    }
  }

  lemma NextKeepsReason(s: State, a: Action)
    requires Inv(s) && Enabled(s, a) && |s.waiters| <= 1 && SleepersHaveReason(s)
    ensures SleepersHaveReason(Next(s, a))
  {
    match a
    case Step(Worker(i)) => WorkerKeepsReason(s, i);
    case Signal(i, j) =>
      WokenWaiterKeepsInv(s, j);
      WorkerKeepsReason(s.(waiters := s.waiters[j := Woken]), i);
    case _ =>
  }

  lemma {:induction false} RunKeepsReason(s: State, acts: seq<Action>, t: State)
    requires Inv(s) && Run(s, acts, t) && |s.waiters| <= 1 && SleepersHaveReason(s)
    ensures SleepersHaveReason(t)
    decreases |acts|
  {
    if acts != [] {
      NextKeepsReason(s, acts[0]);
      NextInv(s, acts[0]);
      NextKeepsShape(s, acts[0]);
      RunKeepsReason(Next(s, acts[0]), acts[1..], t);
    }
  }

  // ---------- the schedule that strands the second caller ----------

  lemma EnqueueOne(threads: nat, callers: nat, s: State) returns (t: State)
    requires Reachable(threads, callers, s) && s.producer.Idle? && s.queueLock.Free?
    ensures Reachable(threads, callers, t)
    ensures var task := Task(|s.enqueued|, s.nextWorker);
      t == s.(queue := s.queue + [task], enqueued := s.enqueued + [task], nextWorker := t.nextWorker)
  {
    var a := Step(Producer);
    ReachableStep(threads, callers, s, a);
    var s1 := Next(s, a);
    ReachableStep(threads, callers, s1, a);
    var s2 := Next(s1, a);
    ReachableStep(threads, callers, s2, a);
    var s3 := Next(s2, a);
    ReachableStep(threads, callers, s3, a);
    t := Next(s3, a);
  }

  lemma CallerSleeps(threads: nat, callers: nat, s: State, j: nat) returns (t: State)
    requires Reachable(threads, callers, s) && s.countLock.Free? && s.queue != []
    requires j < callers && s.waiters[j].Outside?
    ensures Reachable(threads, callers, t)
    ensures t == s.(waiters := s.waiters[j := Asleep])
  {
    var a := Step(Waiter(j));
    ReachableStep(threads, callers, s, a);
    var s1 := Next(s, a);
    ReachableStep(threads, callers, s1, a);
    var s2 := Next(s1, a);
    ReachableStep(threads, callers, s2, a);
    var s3 := Next(s2, a);
    ReachableStep(threads, callers, s3, a);
    t := Next(s3, a);
    assert t.waiters == s.waiters[j := Asleep];
  }

  lemma SignallerPosts(threads: nat, callers: nat, s: State) returns (t: State)
    requires Reachable(threads, callers, s) && s.signaller.QueueEnter?
    requires s.queueLock.Free? && s.semLock.Free? && s.queue != [] && s.queue[0].worker < threads
    ensures Reachable(threads, callers, t)
    ensures t == s.(flags := Posted(threads, s.queue[0].worker), workers := WakeAll(s.workers))
  {
    var a := Step(Signaller);
    ReachableStep(threads, callers, s, a);
    var s1 := Next(s, a);
    ReachableStep(threads, callers, s1, a);
    var s2 := Next(s1, a);
    ReachableStep(threads, callers, s2, a);
    var s3 := Next(s2, a);
    ReachableStep(threads, callers, s3, a);
    var s4 := Next(s3, a);
    ReachableStep(threads, callers, s4, a);
    var s5 := Next(s4, a);
    ReachableStep(threads, callers, s5, a);
    t := Next(s5, a);
  }

  /** Worker 0 takes its flag and announces itself. */
  lemma WorkerTakesFlag(threads: nat, callers: nat, s: State) returns (t: State)
    requires Reachable(threads, callers, s) && s.workers[0].SemEnter? && s.flags[0] == 1
    requires s.semLock.Free? && s.countLock.Free?
    ensures Reachable(threads, callers, t)
    ensures t.workers[0].DeqEnter? && t.working == s.working + 1 && t.countLock.Free?
    ensures t.queue == s.queue && t.queueLock == s.queueLock && t.waiters == s.waiters
  {
    var a := Step(Worker(0));
    ReachableStep(threads, callers, s, a);
    var s1 := Next(s, a);
    ReachableStep(threads, callers, s1, a);
    var s2 := Next(s1, a);
    ReachableStep(threads, callers, s2, a);
    var s3 := Next(s2, a);
    ReachableStep(threads, callers, s3, a);
    var s4 := Next(s3, a);
    ReachableStep(threads, callers, s4, a);
    var s5 := Next(s4, a);
    ReachableStep(threads, callers, s5, a);
    t := Next(s5, a);
  }

  /** Worker 0 dequeues, executes and frees the only task and is about to decrement. */
  lemma WorkerServes(threads: nat, callers: nat, s: State) returns (t: State)
    requires Reachable(threads, callers, s) && s.workers[0].DeqEnter? && |s.queue| == 1
    requires s.queueLock.Free? && s.countLock.Free?
    ensures Reachable(threads, callers, t)
    ensures t.workers[0].DecBody? && t.queue == [] && t.working == s.working && t.waiters == s.waiters
  {
    var a := Step(Worker(0));
    ReachableStep(threads, callers, s, a);
    var s1 := Next(s, a);
    ReachableStep(threads, callers, s1, a);
    var s2 := Next(s1, a);
    ReachableStep(threads, callers, s2, a);
    var s3 := Next(s2, a);
    ReachableStep(threads, callers, s3, a);
    var s4 := Next(s3, a);
    ReachableStep(threads, callers, s4, a);
    var s5 := Next(s4, a);
    ReachableStep(threads, callers, s5, a);
    t := Next(s5, a);
  }

  lemma SecondCallerStranded(threads: nat, callers: nat) returns (t: State)
    requires 0 < threads && 2 <= callers
    ensures Reachable(threads, callers, t)
    ensures t.waiters[1].Asleep? && t.queue == [] && t.working == 0
  {
    var s := Init(threads, callers);
    assert Run(s, [], s);
    assert Reachable(threads, callers, s);
    var s1 := EnqueueOne(threads, callers, s);
    var s2 := CallerSleeps(threads, callers, s1, 0);
    var s3 := CallerSleeps(threads, callers, s2, 1);
    var s4 := SignallerPosts(threads, callers, s3);
    var s5 := WorkerTakesFlag(threads, callers, s4);
    var s6 := WorkerServes(threads, callers, s5);
    assert s6.waiters[0].Asleep?;
    assert Enabled(s6, Signal(0, 0));
    ReachableStep(threads, callers, s6, Signal(0, 0));
    t := Next(s6, Signal(0, 0));
  }

  /** Callers of threadPoolWait never sleep on an idle pool, in any reachable state, exactly when
      there is at most one of them. */
  lemma WakeupsSufficeIffSingleCaller(threads: nat, callers: nat)
    requires 0 < threads
    ensures (forall s :: Reachable(threads, callers, s) ==> SleepersHaveReason(s)) <==> callers <= 1
  {
    if callers <= 1 {
      forall s | Reachable(threads, callers, s)
        ensures SleepersHaveReason(s)
      {
        var acts :| Run(Init(threads, callers), acts, s);
        InitInv(threads, callers);
        RunKeepsReason(Init(threads, callers), acts, s);
      }
    } else {
      var t := SecondCallerStranded(threads, callers);
      assert !SleepersHaveReason(t);
    }
  }
}
