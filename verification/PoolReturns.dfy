/**
 threadPoolWait returns: with one caller and finitely many requests, in every strongly fair infinite run
 a caller that has entered comes back. After the last task the workers still have to use up a flag that
 was posted too often; a potential on states shows that they come to rest.
 */
module PoolReturns {
  import opened PoolProtocol
  import opened PoolInvariant
  import opened PoolProgress
  import opened PoolWaiters
  import opened PoolFairness

  // ---------- the queue empties ----------

  /** Nothing is enqueued from n on. */
  ghost predicate NoMoreRequests(st: nat -> State, n: nat) {
    forall m: nat :: n <= m ==> st(m).enqueued == st(n).enqueued
  }

  lemma StepDequeues(s: State, a: Action)
    requires Shape(s) && Enabled(s, a)
    ensures s.dequeued <= Next(s, a).dequeued
  {
  }

  lemma {:induction false} DequeuedGrows(st: nat -> State, ac: nat -> Action, n: nat, m: nat)
    requires Execution(st, ac) && n <= m
    ensures st(n).dequeued <= st(m).dequeued
    decreases m
  {
    if n < m {
      DequeuedGrows(st, ac, n, m - 1);
      assert StepAt(st, ac, m - 1);
      StepDequeues(st(m - 1), ac(m - 1));
    }
  }

  lemma QueueLength(st: nat -> State, ac: nat -> Action, n: nat)
    requires Execution(st, ac)
    ensures |st(n).queue| == |st(n).enqueued| - |st(n).dequeued|
  {
    InvAt(st, ac, n);
  }

  /** The queue is empty from n on. */
  ghost predicate Drained(st: nat -> State, n: nat) {
    forall m: nat :: n <= m ==> st(m).queue == []
  }

  lemma {:induction false} Drains(st: nat -> State, ac: nat -> Action, n: nat) returns (m: nat)
    requires FairRun(st, ac) && NoMoreRequests(st, n)
    ensures n <= m && Drained(st, m)
    decreases |st(n).queue|
  {
    if st(n).queue == [] {
      m := n;
      forall k: nat | n <= k
        ensures st(k).queue == []
      {
        DequeuedGrows(st, ac, n, k);
        QueueLength(st, ac, n);
        QueueLength(st, ac, k);
      }
    } else {
      m := HeadDequeued(st, ac, n);
      QueueLength(st, ac, n);
      QueueLength(st, ac, m + 1);
      assert st(m + 1).enqueued == st(n).enqueued;
      m := Drains(st, ac, m + 1);
    }
  }

  // ---------- the workers come to rest ----------

  /** Steps of its own that a worker has left before it waits at the semaphore again. */
  ghost function Weight(pc: WorkerPc): nat {
    if Ahead(pc) > 0 then 6 + Ahead(pc) else Busy(pc)
  }

  ghost function Sum(workers: seq<WorkerPc>): nat {
    if workers == [] then 0 else Weight(workers[0]) + Sum(workers[1..])
  }

  lemma {:induction false} SumUpdate(workers: seq<WorkerPc>, i: nat, pc: WorkerPc)
    requires i < |workers|
    ensures Sum(workers[i := pc]) + Weight(workers[i]) == Sum(workers) + Weight(pc)
  {
    if i == 0 {
      assert workers[i := pc][1..] == workers[1..];
    } else {
      SumUpdate(workers[1..], i - 1, pc);
      assert workers[i := pc][1..] == workers[1..][i - 1 := pc];
    }
  }

  lemma {:induction false} SumZero(workers: seq<WorkerPc>)
    ensures Sum(workers) == 0 <==> forall i :: 0 <= i < |workers| ==> Weight(workers[i]) == 0
  {
    if workers != [] {
      SumZero(workers[1..]);
      assert forall i :: 1 <= i < |workers| ==> workers[i] == workers[1..][i - 1];
      assert forall i :: 0 <= i < |workers[1..]| ==> workers[1..][i] == workers[i + 1];
    }
  }

  ghost predicate AnyUp(flags: seq<int>) {
    exists i :: 0 <= i < |flags| && flags[i] == 1
  }

  /** A raised flag may send one worker once round its loop. */
  ghost function Potential(s: State): nat {
    Sum(s.workers) + if AnyUp(s.flags) then 13 else 0
  }

  /** Worker i is on its way, or about to find its flag up. */
  ghost predicate Loaded(s: State, i: nat) {
    i < |s.workers| && i < |s.flags| && (Weight(s.workers[i]) > 0 || (s.workers[i].SemTest? && s.flags[i] == 1))
  }

  lemma WorkerUnloads(s: State, i: nat)
    requires Shape(s) && Flags(s) && WorkerEnabled(s, i) && s.queue == []
    ensures Potential(WorkerStep(s, i)) <= Potential(s)
    ensures Loaded(s, i) ==> Potential(WorkerStep(s, i)) < Potential(s)
  {
    var t := WorkerStep(s, i);
    assert t.workers == s.workers[i := t.workers[i]];
    SumUpdate(s.workers, i, t.workers[i]);
    if s.workers[i].SemTest? && s.flags[i] == 1 {
      OnlyFlag(s, i);
      assert t.flags == s.flags[i := 0];
    } else {
      assert t.flags == s.flags;
    }
  }

  lemma OnlyFlag(s: State, i: nat)
    requires Shape(s) && Flags(s) && i < |s.flags| && s.flags[i] == 1
    ensures AnyUp(s.flags) && !AnyUp(s.flags[i := 0])
  {
  }

  lemma StepUnloads(s: State, a: Action)
    requires Inv(s) && Enabled(s, a) && s.queue == []
    ensures Potential(Next(s, a)) <= Potential(s)
    ensures forall i :: Moves(a, Worker(i)) && Loaded(s, i) ==> Potential(Next(s, a)) < Potential(s)
  {
    match a
    case Step(Worker(i)) => WorkerUnloads(s, i);
    case Signal(i, j) => WorkerUnloads(s.(waiters := s.waiters[j := Woken]), i);
    case Spurious(Worker(i)) => SumUpdate(s.workers, i, SemWoken);
    case _ =>
  }

  lemma StepUnloadsAt(st: nat -> State, ac: nat -> Action, n: nat)
    requires Execution(st, ac) && Drained(st, n)
    ensures Potential(st(n + 1)) <= Potential(st(n))
    ensures forall i :: Moves(ac(n), Worker(i)) && Loaded(st(n), i) ==> Potential(st(n + 1)) < Potential(st(n))
  {
    assert StepAt(st, ac, n);
    InvAt(st, ac, n);
    assert st(n).queue == [];
    StepUnloads(st(n), ac(n));
  }

  lemma {:induction false} PotentialFalls(st: nat -> State, ac: nat -> Action, n: nat, m: nat)
    requires Execution(st, ac) && Drained(st, n) && n <= m
    ensures Potential(st(m)) <= Potential(st(n))
    decreases m
  {
    if n < m {
      PotentialFalls(st, ac, n, m - 1);
      StepUnloadsAt(st, ac, m - 1);
    }
  }

  lemma WorkerLeavesFlag(s: State, j: nat, i: nat)
    requires Shape(s) && WorkerEnabled(s, j) && j != i && i < |s.flags|
    ensures var t := WorkerStep(s, j); |t.flags| == |s.flags| && t.flags[i] == s.flags[i]
  {
  }

  lemma SignallerLeavesFlags(s: State)
    requires Shape(s) && PostsHead(s) && SignallerEnabled(s) && s.queue == []
    ensures SignallerStep(s).flags == s.flags
  {
  }

  /** Somebody else's step leaves a raised flag up. */
  lemma FlagStays(s: State, a: Action, i: nat)
    requires Shape(s) && PostsHead(s) && Enabled(s, a) && s.queue == [] && !Moves(a, Worker(i))
    requires i < |s.flags| && s.flags[i] == 1
    ensures var t := Next(s, a); i < |t.flags| && t.flags[i] == 1
  {
    match a
    case Step(Worker(j)) => WorkerLeavesFlag(s, j, i);
    case Signal(j, w) => WorkerLeavesFlag(s.(waiters := s.waiters[w := Woken]), j, i);
    case Step(Signaller) => SignallerLeavesFlags(s);
    case _ =>
  }

  lemma FlagStaysAt(st: nat -> State, ac: nat -> Action, i: nat, n: nat)
    requires Execution(st, ac) && st(n).queue == [] && !Moves(ac(n), Worker(i))
    requires i < |st(n).flags| && st(n).flags[i] == 1
    ensures i < |st(n + 1).flags| && st(n + 1).flags[i] == 1
  {
    assert StepAt(st, ac, n);
    InvAt(st, ac, n);
    FlagStays(st(n), ac(n), i);
  }

  lemma {:induction false} FlagKept(st: nat -> State, ac: nat -> Action, i: nat, n: nat, m: nat)
    requires Execution(st, ac) && Drained(st, n) && n <= m && i < |st(n).flags| && st(n).flags[i] == 1
    requires forall k: nat :: n <= k < m ==> !Moves(ac(k), Worker(i))
    ensures i < |st(m).flags| && st(m).flags[i] == 1
    decreases m
  {
    if n < m {
      FlagKept(st, ac, i, n, m - 1);
      FlagStaysAt(st, ac, i, m - 1);
    }
  }

  /** A worker whose flag is up, at the semaphore. */
  ghost predicate Flagged(s: State, i: nat) {
    i < |s.workers| && i < |s.flags| && s.flags[i] == 1 && Weight(s.workers[i]) == 0 && !s.workers[i].SemAsleep?
  }

  lemma FlaggedMoves(s: State, a: Action, i: nat)
    requires Shape(s) && Enabled(s, a) && Moves(a, Worker(i)) && Flagged(s, i) && !s.workers[i].SemTest?
    ensures var t := Next(s, a); Flagged(t, i) && t.workers[i].SemTest?
  {
  }

  lemma FlaggedMovesAt(st: nat -> State, ac: nat -> Action, i: nat, n: nat)
    requires Execution(st, ac) && Moves(ac(n), Worker(i)) && Flagged(st(n), i) && !st(n).workers[i].SemTest?
    ensures Flagged(st(n + 1), i) && st(n + 1).workers[i].SemTest?
  {
    assert StepAt(st, ac, n);
    FlaggedMoves(st(n), ac(n), i);
  }

  /** A loaded worker moves, and then the potential is lower. */
  lemma LoadedMoves(st: nat -> State, ac: nat -> Action, i: nat, n: nat) returns (m: nat)
    requires FairRun(st, ac) && Drained(st, n) && Loaded(st(n), i)
    ensures n <= m && Potential(st(m)) < Potential(st(n))
  {
    m := EventuallyMoves(st, ac, Worker(i), n);
    PotentialFalls(st, ac, n, m);
    if st(n).flags[i] == 1 {
      FlagKept(st, ac, i, n, m);
    }
    InvAt(st, ac, m);
    StepUnloadsAt(st, ac, m);
    m := m + 1;
  }

  lemma FlaggedTakes(st: nat -> State, ac: nat -> Action, i: nat, n: nat) returns (m: nat)
    requires FairRun(st, ac) && Drained(st, n) && Flagged(st(n), i)
    ensures n <= m && Potential(st(m)) < Potential(st(n))
  {
    if st(n).workers[i].SemTest? {
      m := LoadedMoves(st, ac, i, n);
    } else {
      m := EventuallyMoves(st, ac, Worker(i), n);
      FlagKept(st, ac, i, n, m);
      FlaggedMovesAt(st, ac, i, m);
      PotentialFalls(st, ac, n, m + 1);
      var k := m + 1;
      m := LoadedMoves(st, ac, i, k);
    }
  }

  /** While the potential is positive, some worker is on its way or flagged. */
  lemma SomeLoad(s: State) returns (i: nat)
    requires Shape(s) && Flags(s) && Potential(s) > 0
    ensures i < |s.workers| && (Loaded(s, i) || Flagged(s, i))
  {
    SumZero(s.workers);
    if Sum(s.workers) > 0 {
      i :| 0 <= i < |s.workers| && Weight(s.workers[i]) > 0;
    } else {
      i :| 0 <= i < |s.flags| && s.flags[i] == 1;
    }
  }

  lemma {:induction false} Calms(st: nat -> State, ac: nat -> Action, n: nat) returns (m: nat)
    requires FairRun(st, ac) && Drained(st, n)
    ensures n <= m && Potential(st(m)) == 0
    decreases Potential(st(n))
  {
    if Potential(st(n)) == 0 {
      m := n;
    } else {
      InvAt(st, ac, n);
      var i := SomeLoad(st(n));
      if Loaded(st(n), i) {
        m := LoadedMoves(st, ac, i, n);
      } else {
        m := FlaggedTakes(st, ac, i, n);
      }
      m := Calms(st, ac, m);
    }
  }

  lemma RestIsIdle(s: State)
    requires Counted(s) && Potential(s) == 0
    ensures s.working == 0
  {
    SumZero(s.workers);
    assert WorkingSet(s.workers) == {};
  }

  /** From n on the pool is idle. */
  ghost predicate IdleFrom(st: nat -> State, n: nat) {
    forall m: nat :: n <= m ==> st(m).queue == [] && st(m).working == 0
  }

  lemma BecomesIdle(st: nat -> State, ac: nat -> Action, n: nat) returns (m: nat)
    requires FairRun(st, ac) && NoMoreRequests(st, n)
    ensures n <= m && IdleFrom(st, m)
  {
    var d := Drains(st, ac, n);
    m := Calms(st, ac, d);
    forall k: nat | m <= k
      ensures st(k).queue == [] && st(k).working == 0
    {
      PotentialFalls(st, ac, m, k);
      InvAt(st, ac, k);
      RestIsIdle(st(k));
    }
  }

  // ---------- the caller ----------

  /** The caller has entered threadPoolWait at least once. */
  ghost predicate HasCalled(s: State) {
    |s.waiters| == 1 && !s.waiters[0].Outside?
  }

  lemma {:induction false} ReasonAt(st: nat -> State, ac: nat -> Action, n: nat)
    requires Execution(st, ac) && |st(0).waiters| == 1 && SleepersHaveReason(st(0))
    ensures |st(n).waiters| == 1 && SleepersHaveReason(st(n))
  {
    if n > 0 {
      ReasonAt(st, ac, n - 1);
      assert StepAt(st, ac, n - 1);
      InvAt(st, ac, n - 1);
      NextKeepsShape(st(n - 1), ac(n - 1));
      NextKeepsReason(st(n - 1), ac(n - 1));
    }
  }

  lemma StaysCalled(s: State, a: Action)
    requires Shape(s) && Enabled(s, a) && HasCalled(s)
    ensures HasCalled(Next(s, a))
  {
  }

  lemma {:induction false} CalledAt(st: nat -> State, ac: nat -> Action, n: nat, m: nat)
    requires Execution(st, ac) && HasCalled(st(n)) && n <= m
    ensures HasCalled(st(m))
    decreases m
  {
    if n < m {
      CalledAt(st, ac, n, m - 1);
      assert StepAt(st, ac, m - 1);
      StaysCalled(st(m - 1), ac(m - 1));
    }
  }

  /** Steps left before the caller returns from an idle pool. */
  ghost function ToReturn(pc: WaiterPc): nat {
    match pc
    case CountEnter => 4
    case Woken => 4
    case TestLen => 3
    case TestWorking(_) => 2
    case CountLeave(_) => 1
    case _ => 0
  }

  lemma CallerMoves(s: State, a: Action)
    requires Shape(s) && Enabled(s, a) && HasCalled(s) && Moves(a, Waiter(0)) && s.queue == [] && s.working == 0
    requires ToReturn(s.waiters[0]) > 0
    ensures var t := Next(s, a);
      HasCalled(t) && ToReturn(t.waiters[0]) < ToReturn(s.waiters[0])
      && (ToReturn(t.waiters[0]) > 0 || t.waiters[0].Returned?)
  {
  }

  lemma CallerMovesAt(st: nat -> State, ac: nat -> Action, n: nat)
    requires Execution(st, ac) && IdleFrom(st, n) && HasCalled(st(n)) && Moves(ac(n), Waiter(0))
    requires ToReturn(st(n).waiters[0]) > 0
    ensures HasCalled(st(n + 1)) && ToReturn(st(n + 1).waiters[0]) < ToReturn(st(n).waiters[0])
    ensures ToReturn(st(n + 1).waiters[0]) > 0 || st(n + 1).waiters[0].Returned?
  {
    assert StepAt(st, ac, n);
    assert st(n).queue == [] && st(n).working == 0;
    CallerMoves(st(n), ac(n));
  }

  lemma {:induction false} CallerReturns(st: nat -> State, ac: nat -> Action, n: nat) returns (m: nat)
    requires FairRun(st, ac) && IdleFrom(st, n) && HasCalled(st(n)) && ToReturn(st(n).waiters[0]) > 0
    ensures n <= m && HasCalled(st(m)) && st(m).waiters[0].Returned?
    decreases ToReturn(st(n).waiters[0])
  {
    m := EventuallyMoves(st, ac, Waiter(0), n);
    CalledAt(st, ac, n, m);
    CallerMovesAt(st, ac, m);
    if st(m + 1).waiters[0].Returned? {
      m := m + 1;
    } else {
      m := CallerReturns(st, ac, m + 1);
    }
  }

  /** With one caller and finitely many requests (none after `last`), in every strongly fair infinite run a
      caller that has entered threadPoolWait returns from it. */
  lemma WaitReturns(threads: nat, st: nat -> State, ac: nat -> Action, last: nat, n: nat) returns (m: nat)
    requires Reachable(threads, 1, st(0)) && (forall k: nat :: StepAt(st, ac, k)) && StronglyFair(st, ac)
    requires NoMoreRequests(st, last)
    requires |st(n).waiters| == 1 && !st(n).waiters[0].Outside?
    ensures n <= m && |st(m).waiters| == 1 && st(m).waiters[0].Returned?
  {
    ReachableInv(threads, 1, st(0));
    FairRunIs(st, ac);
    WakeupsSufficeIffSingleCaller(threads, 1);
    var from := if n < last then last else n;
    assert NoMoreRequests(st, from);
    m := BecomesIdle(st, ac, from);
    CalledAt(st, ac, n, m);
    ReasonAt(st, ac, m);
    assert st(m).queue == [] && st(m).working == 0;
    if !st(m).waiters[0].Returned? {
      m := CallerReturns(st, ac, m);
    }
  }
}
