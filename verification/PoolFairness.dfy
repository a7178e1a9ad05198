/**
 Liveness of the thread pool: in every infinite run in which no thread is for ever passed over while it
 could act infinitely often (strong fairness, which includes the mutexes), every task is executed.
 */
module PoolFairness {
  import opened Wrappers
  import opened PoolTaskQueue
  import opened PoolProtocol
  import opened PoolInvariant
  import opened PoolSafety
  import opened PoolProgress

  // ---------- infinite runs ----------

  ghost predicate StepAt(st: nat -> State, ac: nat -> Action, n: nat) {
    Shape(st(n)) && Enabled(st(n), ac(n)) && st(n + 1) == Next(st(n), ac(n))
  }

  /** An infinite run: the states and the actions between them. */
  ghost predicate Execution(st: nat -> State, ac: nat -> Action) {
    Inv(st(0)) && forall n: nat :: StepAt(st, ac, n)
  }

  /** The thread that takes an action; wakeups without a cause are nobody's. */
  ghost predicate Moves(a: Action, t: Thread) {
    match a
    case Step(u) => u == t
    case Signal(i, _) => t == Worker(i)
    case Spurious(_) => false
  }

  /** Nothing obliges the producer to accept another request, or anyone to call threadPoolWait. */
  ghost predicate AtRest(s: State, t: Thread) {
    match t
    case Producer => s.producer.Idle?
    case Waiter(j) => j < |s.waiters| && (s.waiters[j].Outside? || s.waiters[j].Returned?)
    case _ => false
  }

  ghost predicate CanMove(s: State, t: Thread) {
    CanAct(s, t) && !AtRest(s, t)
  }

  ghost predicate MovesOnce(ac: nat -> Action, t: Thread, n: nat) {
    exists m: nat :: n <= m && Moves(ac(m), t)
  }

  ghost predicate CanMoveOnce(st: nat -> State, t: Thread, n: nat) {
    exists m: nat :: n <= m && CanMove(st(m), t)
  }

  ghost predicate MovesOften(ac: nat -> Action, t: Thread) {
    forall n: nat :: MovesOnce(ac, t, n)
  }

  ghost predicate CanMoveOften(st: nat -> State, t: Thread) {
    forall n: nat :: CanMoveOnce(st, t, n)
  }

  /** A thread that can move infinitely often moves infinitely often. */
  ghost predicate StronglyFair(st: nat -> State, ac: nat -> Action) {
    forall t :: CanMoveOften(st, t) ==> MovesOften(ac, t)
  }

  lemma {:induction false} InvAt(st: nat -> State, ac: nat -> Action, n: nat)
    requires Execution(st, ac)
    ensures Inv(st(n)) && |st(n).workers| == |st(0).workers|
  {
    if n > 0 {
      InvAt(st, ac, n - 1);
      assert StepAt(st, ac, n - 1);
      NextInv(st(n - 1), ac(n - 1));
      NextKeepsShape(st(n - 1), ac(n - 1));
    }
  }

  // ---------- a thread that is not asleep moves in the end ----------

  datatype Mutex = QueueMutex | SemMutex | CountMutex

  function LockOf(s: State, m: Mutex): Lock {
    match m
    case QueueMutex => s.queueLock
    case SemMutex => s.semLock
    case CountMutex => s.countLock
  }

  /** The mutex that t is about to lock. */
  ghost function Acquires(s: State, t: Thread): Option<Mutex> {
    match t
    case Worker(i) =>
      if i >= |s.workers| then None else (match s.workers[i]
      case SemEnter | SemWoken => Some(SemMutex)
      case IncEnter | DecEnter => Some(CountMutex)
      case DeqEnter => Some(QueueMutex)
      case _ => None)
    case Signaller =>
      (match s.signaller
      case QueueEnter => Some(QueueMutex)
      case PostEnter(_) => Some(SemMutex)
      case _ => None)
    case Producer => if s.producer.EnqEnter? then Some(QueueMutex) else None
    case Waiter(j) =>
      if j < |s.waiters| && (s.waiters[j].CountEnter? || s.waiters[j].Woken?) then Some(CountMutex) else None
  }

  /** A thread that neither sleeps nor rests. */
  ghost predicate Active(s: State, t: Thread) {
    Exists(s, t) && !InConditionWait(s, t) && !AtRest(s, t)
  }

  ghost predicate SamePc(s: State, u: State, t: Thread) {
    match t
    case Worker(i) => i < |s.workers| && i < |u.workers| && u.workers[i] == s.workers[i]
    case Signaller => u.signaller == s.signaller
    case Producer => u.producer == s.producer
    case Waiter(j) => j < |s.waiters| && j < |u.waiters| && u.waiters[j] == s.waiters[j]
  }

  lemma ActiveCanMove(s: State, t: Thread)
    requires Inv(s) && Active(s, t)
    ensures CanMove(s, t) <==> (Acquires(s, t).Some? ==> LockOf(s, Acquires(s, t).value).Free?)
  {
    CanActIffNotWaiting(s, t);
  }

  lemma OthersKeepPc(s: State, a: Action, t: Thread)
    requires Shape(s) && Enabled(s, a) && Active(s, t) && !Moves(a, t)
    ensures SamePc(s, Next(s, a), t) && Active(Next(s, a), t)
  {
  }

  lemma SamePcActs(s: State, u: State, t: Thread)
    requires Active(s, t) && SamePc(s, u, t)
    ensures Active(u, t) && Acquires(u, t) == Acquires(s, t)
  {
  }

  lemma {:induction false} PcKept(st: nat -> State, ac: nat -> Action, t: Thread, n: nat, m: nat)
    requires Execution(st, ac) && Active(st(n), t) && n <= m
    requires forall k: nat :: n <= k < m ==> !Moves(ac(k), t)
    ensures SamePc(st(n), st(m), t)
    decreases m
  {
    if n < m {
      PcKept(st, ac, t, n, m - 1);
      SamePcActs(st(n), st(m - 1), t);
      assert StepAt(st, ac, m - 1);
      OthersKeepPc(st(m - 1), ac(m - 1), t);
    }
  }

  ghost predicate FreeOnce(st: nat -> State, mutex: Mutex, n: nat) {
    exists m: nat :: n <= m && LockOf(st(m), mutex).Free?
  }

  ghost predicate FreeOften(st: nat -> State, mutex: Mutex) {
    forall n: nat :: FreeOnce(st, mutex, n)
  }

  /** While t does not move it can move again and again. */
  lemma CanMoveLater(st: nat -> State, ac: nat -> Action, t: Thread, n: nat, k: nat)
    requires Execution(st, ac) && Active(st(n), t)
    requires Acquires(st(n), t).Some? ==> FreeOften(st, Acquires(st(n), t).value)
    requires forall m: nat :: n <= m ==> !Moves(ac(m), t)
    ensures CanMoveOnce(st, t, k)
  {
    var from := if n < k then k else n;
    var m := from;
    if Acquires(st(n), t).Some? {
      assert FreeOnce(st, Acquires(st(n), t).value, from);
      m :| from <= m && LockOf(st(m), Acquires(st(n), t).value).Free?;
    }
    PcKept(st, ac, t, n, m);
    SamePcActs(st(n), st(m), t);
    InvAt(st, ac, m);
    ActiveCanMove(st(m), t);
    assert CanMove(st(m), t);
  }

  lemma {:induction false} FirstMove(ac: nat -> Action, t: Thread, n: nat, last: nat) returns (m: nat)
    requires n <= last && Moves(ac(last), t)
    ensures n <= m && Moves(ac(m), t) && forall k: nat :: n <= k < m ==> !Moves(ac(k), t)
    decreases last - n
  {
    if Moves(ac(n), t) {
      m := n;
    } else {
      m := FirstMove(ac, t, n + 1, last);
    }
  }

  /** By fairness t moves, and nothing happens to it before. */
  lemma EventuallyMoves(st: nat -> State, ac: nat -> Action, t: Thread, n: nat) returns (m: nat)
    requires Execution(st, ac) && StronglyFair(st, ac) && Active(st(n), t)
    requires Acquires(st(n), t).Some? ==> FreeOften(st, Acquires(st(n), t).value)
    ensures n <= m && Moves(ac(m), t) && SamePc(st(n), st(m), t)
    ensures forall k: nat :: n <= k < m ==> !Moves(ac(k), t)
  {
    if !MovesOnce(ac, t, n) {
      forall k: nat
        ensures CanMoveOnce(st, t, k)
      {
        CanMoveLater(st, ac, t, n, k);
      }
      assert CanMoveOften(st, t);
      assert false;
    }
    var last: nat :| n <= last && Moves(ac(last), t);
    m := FirstMove(ac, t, n, last);
    PcKept(st, ac, t, n, m);
  }

  // ---------- every mutex is free again and again ----------

  ghost predicate HoldsMutex(s: State, m: Mutex, t: Thread) {
    match m
    case QueueMutex => HoldsQueue(s, t)
    case SemMutex => HoldsSem(s, t)
    case CountMutex => HoldsCount(s, t)
  }

  /** Steps of its own that the holder needs before it releases the mutex. */
  ghost function HoldRank(s: State, m: Mutex, t: Thread): nat {
    match t
    case Worker(i) =>
      if i < |s.workers| && (s.workers[i].SemTest? || s.workers[i].IncBody? || s.workers[i].DecBody? || s.workers[i].DeqBody?)
      then 2 else 1
    case Producer => if s.producer.EnqBody? then 2 else 1
    case Waiter(j) =>
      if j < |s.waiters| && s.waiters[j].TestLen? then 3
      else if j < |s.waiters| && s.waiters[j].TestWorking? then 2 else 1
    case Signaller =>
      (match s.signaller
      case QueueEnter => 0
      case QueueCheck => 5
      case PostEnter(_) => 4
      case PostBody(_) => 3
      case PostLeave => 2
      case QueueLeave => 1)
  }

  lemma HolderActive(s: State, m: Mutex, t: Thread)
    requires Inv(s) && HoldsMutex(s, m, t)
    ensures Active(s, t)
    ensures Acquires(s, t).Some? ==> m.QueueMutex? && Acquires(s, t).value.SemMutex?
  {
  }

  ghost predicate Nearer(s: State, u: State, m: Mutex, t: Thread) {
    LockOf(u, m).Free? || (HoldsMutex(u, m, t) && HoldRank(u, m, t) < HoldRank(s, m, t))
  }

  lemma WorkerNearer(s: State, i: nat, m: Mutex)
    requires Shape(s) && WorkerEnabled(s, i) && HoldsMutex(s, m, Worker(i))
    ensures Nearer(s, WorkerStep(s, i), m, Worker(i))
  {
  }

  lemma SignallerNearer(s: State, m: Mutex)
    requires Shape(s) && SignallerEnabled(s) && HoldsMutex(s, m, Signaller)
    ensures Nearer(s, SignallerStep(s), m, Signaller)
  {
  }

  lemma WaiterNearer(s: State, j: nat, m: Mutex)
    requires WaiterEnabled(s, j) && HoldsMutex(s, m, Waiter(j))
    ensures Nearer(s, WaiterStep(s, j), m, Waiter(j))
  {
  }

  lemma HolderMoves(s: State, a: Action, m: Mutex, t: Thread)
    requires Shape(s) && Enabled(s, a) && HoldsMutex(s, m, t) && Moves(a, t)
    ensures Nearer(s, Next(s, a), m, t)
  {
    match a
    case Step(Worker(i)) => WorkerNearer(s, i, m);
    case Step(Signaller) => SignallerNearer(s, m);
    case Step(Waiter(j)) => WaiterNearer(s, j, m);
    case Step(Producer) =>
    case Signal(i, j) => WorkerNearer(s.(waiters := s.waiters[j := Woken]), i, m);
  }

  lemma HolderMovesAt(st: nat -> State, ac: nat -> Action, mutex: Mutex, t: Thread, n: nat)
    requires Execution(st, ac) && HoldsMutex(st(n), mutex, t) && Moves(ac(n), t)
    ensures Nearer(st(n), st(n + 1), mutex, t)
  {
    assert StepAt(st, ac, n);
    HolderMoves(st(n), ac(n), mutex, t);
  }

  lemma OwnerHolds(s: State, m: Mutex)
    requires Inv(s) && LockOf(s, m).HeldBy?
    ensures HoldsMutex(s, m, LockOf(s, m).owner)
  {
    match m
    case QueueMutex => assert s.queueLock == HeldBy(s.queueLock.owner);
    case SemMutex => assert s.semLock == HeldBy(s.semLock.owner);
    case CountMutex => assert s.countLock == HeldBy(s.countLock.owner);
  }

  lemma SamePcHolds(s: State, u: State, m: Mutex, t: Thread)
    requires SamePc(s, u, t) && HoldsMutex(s, m, t)
    ensures HoldsMutex(u, m, t) && HoldRank(u, m, t) == HoldRank(s, m, t)
  {
  }

  lemma {:induction false} Released(st: nat -> State, ac: nat -> Action, mutex: Mutex, t: Thread, n: nat)
      returns (m: nat)
    requires Execution(st, ac) && StronglyFair(st, ac)
    requires mutex.QueueMutex? ==> FreeOften(st, SemMutex)
    requires HoldsMutex(st(n), mutex, t)
    ensures n <= m && LockOf(st(m), mutex).Free?
    decreases HoldRank(st(n), mutex, t)
  {
    InvAt(st, ac, n);
    HolderActive(st(n), mutex, t);
    m := EventuallyMoves(st, ac, t, n);
    SamePcHolds(st(n), st(m), mutex, t);
    HolderMovesAt(st, ac, mutex, t, m);
    if LockOf(st(m + 1), mutex).Free? {
      m := m + 1;
    } else {
      m := Released(st, ac, mutex, t, m + 1);
    }
  }

  lemma MutexFreeOften(st: nat -> State, ac: nat -> Action, mutex: Mutex)
    requires Execution(st, ac) && StronglyFair(st, ac)
    requires mutex.QueueMutex? ==> FreeOften(st, SemMutex)
    ensures FreeOften(st, mutex)
  {
    forall n: nat
      ensures FreeOnce(st, mutex, n)
    {
      var m := n;
      if LockOf(st(n), mutex).HeldBy? {
        InvAt(st, ac, n);
        OwnerHolds(st(n), mutex);
        m := Released(st, ac, mutex, LockOf(st(n), mutex).owner, n);
      }
      assert n <= m && LockOf(st(m), mutex).Free?;
    }
  }

  /** A fair run, with what has been shown about its mutexes. */
  ghost predicate FairRun(st: nat -> State, ac: nat -> Action) {
    Execution(st, ac) && StronglyFair(st, ac) && forall mutex :: FreeOften(st, mutex)
  }

  lemma FairRunIs(st: nat -> State, ac: nat -> Action)
    requires Execution(st, ac) && StronglyFair(st, ac)
    ensures FairRun(st, ac)
  {
    MutexFreeOften(st, ac, SemMutex);
    forall mutex
      ensures FreeOften(st, mutex)
    {
      MutexFreeOften(st, ac, mutex);
    }
  }

  // ---------- the head of the queue is dequeued ----------

  /** Nothing is dequeued from n on. */
  ghost predicate Frozen(st: nat -> State, n: nat) {
    st(n).queue != [] && forall m: nat :: n <= m ==> st(m).dequeued == st(n).dequeued
  }

  lemma {:induction false} HeadKept(st: nat -> State, ac: nat -> Action, n: nat, m: nat)
    requires Execution(st, ac) && Frozen(st, n) && n <= m
    ensures st(m).queue != [] && st(m).queue[0] == st(n).queue[0] && Frozen(st, m)
    decreases m
  {
    if n < m {
      HeadKept(st, ac, n, m - 1);
      assert StepAt(st, ac, m - 1);
      HeadStaysOrLeaves(st(m - 1), ac(m - 1));
      assert st(m).dequeued == st(n).dequeued == st(m - 1).dequeued;
    }
  }

  lemma AheadMoves(s: State, a: Action, i: nat)
    requires Shape(s) && Enabled(s, a) && s.queue != [] && Moves(a, Worker(i))
    requires i < |s.workers| && Ahead(s.workers[i]) > 0
    ensures var u := Next(s, a);
      u.dequeued != s.dequeued || (i < |u.workers| && 0 < Ahead(u.workers[i]) < Ahead(s.workers[i]))
  {
  }

  lemma AheadMovesAt(st: nat -> State, ac: nat -> Action, i: nat, n: nat)
    requires Execution(st, ac) && Frozen(st, n) && Moves(ac(n), Worker(i))
    requires i < |st(n).workers| && Ahead(st(n).workers[i]) > 0
    ensures i < |st(n + 1).workers| && 0 < Ahead(st(n + 1).workers[i]) < Ahead(st(n).workers[i])
  {
    assert StepAt(st, ac, n);
    AheadMoves(st(n), ac(n), i);
    assert st(n + 1).dequeued == st(n).dequeued;
  }

  lemma {:induction false} NobodyAhead(st: nat -> State, ac: nat -> Action, i: nat, n: nat)
    requires FairRun(st, ac) && Frozen(st, n) && i < |st(n).workers| && Ahead(st(n).workers[i]) > 0
    ensures false
    decreases Ahead(st(n).workers[i])
  {
    var m := EventuallyMoves(st, ac, Worker(i), n);
    HeadKept(st, ac, n, m);
    AheadMovesAt(st, ac, i, m);
    HeadKept(st, ac, n, m + 1);
    NobodyAhead(st, ac, i, m + 1);
  }

  lemma BusyMoves(s: State, a: Action, i: nat)
    requires Shape(s) && Enabled(s, a) && Moves(a, Worker(i)) && i < |s.workers| && Busy(s.workers[i]) > 0
    ensures var u := Next(s, a); i < |u.workers| && Busy(u.workers[i]) < Busy(s.workers[i])
  {
  }

  lemma BusyMovesAt(st: nat -> State, ac: nat -> Action, i: nat, n: nat)
    requires Execution(st, ac) && Moves(ac(n), Worker(i)) && i < |st(n).workers| && Busy(st(n).workers[i]) > 0
    ensures i < |st(n + 1).workers| && Busy(st(n + 1).workers[i]) < Busy(st(n).workers[i])
  {
    assert StepAt(st, ac, n);
    BusyMoves(st(n), ac(n), i);
  }

  lemma {:induction false} BusyEnds(st: nat -> State, ac: nat -> Action, i: nat, n: nat) returns (m: nat)
    requires FairRun(st, ac) && i < |st(n).workers|
    ensures n <= m && i < |st(m).workers| && Busy(st(m).workers[i]) == 0
    decreases Busy(st(n).workers[i])
  {
    if Busy(st(n).workers[i]) == 0 {
      m := n;
    } else {
      m := EventuallyMoves(st, ac, Worker(i), n);
      BusyMovesAt(st, ac, i, m);
      m := BusyEnds(st, ac, i, m + 1);
    }
  }

  /** Waiting for its flag: neither ahead nor busy. */
  ghost predicate AtSemaphore(s: State, i: nat) {
    i < |s.workers| && Ahead(s.workers[i]) == 0 && Busy(s.workers[i]) == 0
  }

  lemma SemaphoreStep(s: State, a: Action, i: nat)
    requires Shape(s) && Enabled(s, a) && AtSemaphore(s, i)
    ensures AtSemaphore(Next(s, a), i) || (i < |Next(s, a).workers| && Ahead(Next(s, a).workers[i]) > 0)
  {
  }

  lemma SemaphoreStepAt(st: nat -> State, ac: nat -> Action, i: nat, n: nat)
    requires Execution(st, ac) && AtSemaphore(st(n), i)
    ensures AtSemaphore(st(n + 1), i) || (i < |st(n + 1).workers| && Ahead(st(n + 1).workers[i]) > 0)
  {
    assert StepAt(st, ac, n);
    SemaphoreStep(st(n), ac(n), i);
  }

  lemma {:induction false} StaysAtSemaphore(st: nat -> State, ac: nat -> Action, i: nat, n: nat, m: nat)
    requires FairRun(st, ac) && Frozen(st, n) && AtSemaphore(st(n), i) && n <= m
    ensures AtSemaphore(st(m), i)
    decreases m
  {
    if n < m {
      StaysAtSemaphore(st, ac, i, n, m - 1);
      SemaphoreStepAt(st, ac, i, m - 1);
      if !AtSemaphore(st(m), i) {
        HeadKept(st, ac, n, m);
        NobodyAhead(st, ac, i, m);
      }
    }
  }

  lemma SignallerMoves(s: State, a: Action)
    requires Shape(s) && Enabled(s, a) && Moves(a, Signaller) && s.queue != []
    ensures s.signaller.PostBody? || ToPost(Next(s, a).signaller) < ToPost(s.signaller)
  {
  }

  lemma SignallerMovesAt(st: nat -> State, ac: nat -> Action, n: nat)
    requires Execution(st, ac) && Moves(ac(n), Signaller) && st(n).queue != []
    ensures ac(n) == Step(Signaller)
    ensures st(n).signaller.PostBody? || ToPost(st(n + 1).signaller) < ToPost(st(n).signaller)
  {
    assert StepAt(st, ac, n);
    SignallerMoves(st(n), ac(n));
  }

  /** The signaller posts again and again. */
  lemma {:induction false} Posts(st: nat -> State, ac: nat -> Action, n: nat) returns (m: nat)
    requires FairRun(st, ac) && Frozen(st, n)
    ensures n <= m && st(m).signaller.PostBody? && ac(m) == Step(Signaller)
    decreases ToPost(st(n).signaller)
  {
    m := EventuallyMoves(st, ac, Signaller, n);
    HeadKept(st, ac, n, m);
    SignallerMovesAt(st, ac, m);
    if !st(m).signaller.PostBody? {
      HeadKept(st, ac, n, m + 1);
      m := Posts(st, ac, m + 1);
    }
  }

  /** The flag of the head's thread is up and that thread is not asleep. */
  ghost predicate Called(s: State, h: nat) {
    && s.queue != [] && s.queue[0].worker == h < |s.workers| && h < |s.flags| && s.flags[h] == 1
    && AtSemaphore(s, h) && !s.workers[h].SemAsleep?
  }

  lemma PostCalls(s: State, h: nat)
    requires Inv(s) && s.signaller.PostBody? && Enabled(s, Step(Signaller))
    requires s.queue != [] && s.queue[0].worker == h && AtSemaphore(s, h)
    ensures Called(Next(s, Step(Signaller)), h)
  {
  }

  lemma PostCallsAt(st: nat -> State, ac: nat -> Action, h: nat, n: nat)
    requires Execution(st, ac) && st(n).signaller.PostBody? && ac(n) == Step(Signaller)
    requires st(n).queue != [] && st(n).queue[0].worker == h && AtSemaphore(st(n), h)
    ensures Called(st(n + 1), h)
  {
    InvAt(st, ac, n);
    assert StepAt(st, ac, n);
    PostCalls(st(n), h);
  }

  lemma CalledKept(s: State, a: Action, h: nat)
    requires Inv(s) && Enabled(s, a) && Called(s, h) && !Moves(a, Worker(h)) && Next(s, a).dequeued == s.dequeued
    ensures Called(Next(s, a), h)
  {
    StepKeepsRaisedFlag(s, a);
    HeadStaysOrLeaves(s, a);
    OthersKeepPc(s, a, Worker(h));
  }

  lemma {:induction false} StaysCalled(st: nat -> State, ac: nat -> Action, h: nat, n: nat, m: nat)
    requires Execution(st, ac) && Frozen(st, n) && Called(st(n), h) && n <= m
    requires forall k: nat :: n <= k < m ==> !Moves(ac(k), Worker(h))
    ensures Called(st(m), h)
    decreases m
  {
    if n < m {
      StaysCalled(st, ac, h, n, m - 1);
      HeadKept(st, ac, n, m - 1);
      CalledKeptAt(st, ac, h, m - 1);
    }
  }

  lemma CalledKeptAt(st: nat -> State, ac: nat -> Action, h: nat, n: nat)
    requires Execution(st, ac) && Frozen(st, n) && Called(st(n), h) && !Moves(ac(n), Worker(h))
    ensures Called(st(n + 1), h)
  {
    assert StepAt(st, ac, n);
    InvAt(st, ac, n);
    assert st(n + 1).dequeued == st(n).dequeued;
    CalledKept(st(n), ac(n), h);
  }

  lemma CalledMoves(s: State, a: Action, h: nat)
    requires Shape(s) && Enabled(s, a) && Called(s, h) && Moves(a, Worker(h))
    ensures var u := Next(s, a);
      if s.workers[h].SemTest? then h < |u.workers| && Ahead(u.workers[h]) > 0
      else Called(u, h) && u.workers[h].SemTest?
  {
  }

  lemma CalledMovesAt(st: nat -> State, ac: nat -> Action, h: nat, n: nat)
    requires Execution(st, ac) && Called(st(n), h) && Moves(ac(n), Worker(h))
    ensures if st(n).workers[h].SemTest? then h < |st(n + 1).workers| && Ahead(st(n + 1).workers[h]) > 0
            else Called(st(n + 1), h) && st(n + 1).workers[h].SemTest?
  {
    assert StepAt(st, ac, n);
    CalledMoves(st(n), ac(n), h);
  }

  lemma {:induction false} CalledGoesAhead(st: nat -> State, ac: nat -> Action, h: nat, n: nat)
    requires FairRun(st, ac) && Frozen(st, n) && Called(st(n), h)
    ensures false
    decreases if st(n).workers[h].SemTest? then 0 else 1
  {
    var m := EventuallyMoves(st, ac, Worker(h), n);
    StaysCalled(st, ac, h, n, m);
    CalledMovesAt(st, ac, h, m);
    HeadKept(st, ac, n, m + 1);
    if st(m).workers[h].SemTest? {
      NobodyAhead(st, ac, h, m + 1);
    } else {
      CalledGoesAhead(st, ac, h, m + 1);
    }
  }

  /** The head's thread exists. */
  lemma HeadThread(st: nat -> State, ac: nat -> Action, n: nat) returns (h: nat)
    requires Execution(st, ac) && st(n).queue != []
    ensures h == st(n).queue[0].worker < |st(n).workers|
  {
    InvAt(st, ac, n);
    h := st(n).queue[0].worker;
    assert st(n).queue[0] == st(n).enqueued[|st(n).dequeued|];
  }

  lemma EventuallyDequeues(st: nat -> State, ac: nat -> Action, n: nat) returns (last: nat)
    requires FairRun(st, ac) && st(n).queue != []
    ensures n <= last && st(last).dequeued != st(n).dequeued
  {
    if Frozen(st, n) {
      var h := HeadThread(st, ac, n);
      var m := BusyEnds(st, ac, h, n);
      HeadKept(st, ac, n, m);
      if Ahead(st(m).workers[h]) > 0 {
        NobodyAhead(st, ac, h, m);
      }
      var p := Posts(st, ac, m);
      StaysAtSemaphore(st, ac, h, m, p);
      HeadKept(st, ac, m, p);
      PostCallsAt(st, ac, h, p);
      HeadKept(st, ac, m, p + 1);
      CalledGoesAhead(st, ac, h, p + 1);
    }
    last :| n <= last && st(last).dequeued != st(n).dequeued;
  }

  ghost predicate InHands(s: State, task: Task) {
    exists i :: 0 <= i < |s.workers| && s.workers[i] == DeqLeave(Some(task))
  }

  /** In every fair run the task at the head is dequeued; until then it stays at the head. */
  lemma HeadDequeued(st: nat -> State, ac: nat -> Action, n: nat) returns (m: nat)
    requires FairRun(st, ac) && st(n).queue != []
    ensures n <= m && st(m).queue != [] && st(n).queue <= st(m).queue && st(m).dequeued == st(n).dequeued
    ensures st(m + 1).dequeued == st(m).dequeued + [st(n).queue[0]] && st(m + 1).queue == st(m).queue[1..]
    ensures InHands(st(m + 1), st(n).queue[0])
  {
    var last := EventuallyDequeues(st, ac, n);
    m := FirstDequeue(st, ac, n, last);
  }

  lemma HeadStaysOrLeavesAt(st: nat -> State, ac: nat -> Action, n: nat)
    requires Execution(st, ac) && st(n).queue != []
    ensures var s, t := st(n), st(n + 1);
      if t.dequeued == s.dequeued then s.queue <= t.queue
      else t.dequeued == s.dequeued + [s.queue[0]] && t.queue == s.queue[1..] && InHands(t, s.queue[0])
  {
    assert StepAt(st, ac, n);
    HeadStaysOrLeaves(st(n), ac(n));
  }

  lemma {:induction false} FirstDequeue(st: nat -> State, ac: nat -> Action, n: nat, last: nat) returns (m: nat)
    requires Execution(st, ac) && st(n).queue != [] && n <= last && st(last).dequeued != st(n).dequeued
    ensures n <= m && st(m).queue != [] && st(n).queue <= st(m).queue && st(m).dequeued == st(n).dequeued
    ensures st(m + 1).dequeued == st(m).dequeued + [st(n).queue[0]] && st(m + 1).queue == st(m).queue[1..]
    ensures InHands(st(m + 1), st(n).queue[0])
    decreases last - n
  {
    HeadStaysOrLeavesAt(st, ac, n);
    if st(n + 1).dequeued == st(n).dequeued {
      m := FirstDequeue(st, ac, n + 1, last);
    } else {
      m := n;
    }
  }

  // ---------- the theorem ----------

  lemma HolderMovesOn(s: State, a: Action, i: nat, task: Task)
    requires Shape(s) && Enabled(s, a) && Moves(a, Worker(i)) && i < |s.workers|
    requires s.workers[i] == DeqLeave(Some(task)) || s.workers[i] == Running(task)
    ensures var u := Next(s, a);
      if s.workers[i].Running? then task in u.executed else i < |u.workers| && u.workers[i] == Running(task)
  {
  }

  lemma HolderMovesOnAt(st: nat -> State, ac: nat -> Action, i: nat, task: Task, n: nat)
    requires Execution(st, ac) && Moves(ac(n), Worker(i)) && i < |st(n).workers|
    requires st(n).workers[i] == DeqLeave(Some(task)) || st(n).workers[i] == Running(task)
    ensures if st(n).workers[i].Running? then task in st(n + 1).executed
            else i < |st(n + 1).workers| && st(n + 1).workers[i] == Running(task)
  {
    assert StepAt(st, ac, n);
    HolderMovesOn(st(n), ac(n), i, task);
  }

  lemma {:induction false} HeldIsExecuted(st: nat -> State, ac: nat -> Action, i: nat, task: Task, n: nat)
      returns (m: nat)
    requires FairRun(st, ac) && i < |st(n).workers|
    requires st(n).workers[i] == DeqLeave(Some(task)) || st(n).workers[i] == Running(task)
    ensures n <= m && task in st(m).executed
    decreases st(n).workers[i].DeqLeave?
  {
    m := EventuallyMoves(st, ac, Worker(i), n);
    HolderMovesOnAt(st, ac, i, task, m);
    if st(m).workers[i].Running? {
      m := m + 1;
    } else {
      m := HeldIsExecuted(st, ac, i, task, m + 1);
    }
  }

  lemma {:induction false} QueuedIsExecuted(st: nat -> State, ac: nat -> Action, n: nat, p: nat) returns (m: nat)
    requires FairRun(st, ac) && p < |st(n).queue|
    ensures n <= m && st(n).queue[p] in st(m).executed
    decreases p
  {
    m := HeadDequeued(st, ac, n);
    assert st(m).queue[p] == st(n).queue[p];
    if p == 0 {
      var i :| 0 <= i < |st(m + 1).workers| && st(m + 1).workers[i] == DeqLeave(Some(st(n).queue[0]));
      m := HeldIsExecuted(st, ac, i, st(n).queue[0], m + 1);
    } else {
      assert st(m + 1).queue[p - 1] == st(n).queue[p];
      m := QueuedIsExecuted(st, ac, m + 1, p - 1);
    }
  }

  /** In every strongly fair infinite run every task that is ever enqueued is executed in the end. */
  lemma EveryTaskExecuted(threads: nat, callers: nat, st: nat -> State, ac: nat -> Action, n: nat, task: Task)
      returns (m: nat)
    requires Reachable(threads, callers, st(0)) && (forall k: nat :: StepAt(st, ac, k)) && StronglyFair(st, ac)
    requires task in st(n).enqueued
    ensures n <= m && task in st(m).executed
  {
    ReachableInv(threads, callers, st(0));
    FairRunIs(st, ac);
    InvAt(st, ac, n);
    var i, p := WhereItIs(st(n), task);
    if p.Some? {
      m := QueuedIsExecuted(st, ac, n, p.value);
    } else if i.Some? {
      m := HeldIsExecuted(st, ac, i.value, task, n);
    } else {
      m := n;
    }
  }

  lemma HoldsMeans(pc: WorkerPc, task: Task)
    requires task in Holds(pc, ToExecute)
    ensures pc == DeqLeave(Some(task)) || pc == Running(task)
  {
  }

  lemma HolderOf(s: State, task: Task) returns (i: nat)
    requires Inv(s) && task in s.dequeued && task !in s.executed
    ensures i < |s.workers| && (s.workers[i] == DeqLeave(Some(task)) || s.workers[i] == Running(task))
  {
    DequeuedOnce(s, task);
    i :| 0 <= i < |s.workers| && task in Holds(s.workers[i], ToExecute);
    HoldsMeans(s.workers[i], task);
  }

  /** An enqueued task is in the queue, in the hands of a worker, or has been executed. */
  lemma WhereItIs(s: State, task: Task) returns (worker: Option<nat>, place: Option<nat>)
    requires Inv(s) && task in s.enqueued
    ensures place.Some? ==> place.value < |s.queue| && s.queue[place.value] == task
    ensures worker.Some? ==> worker.value < |s.workers|
    ensures worker.Some? ==>
      s.workers[worker.value] == DeqLeave(Some(task)) || s.workers[worker.value] == Running(task)
    ensures place.None? && worker.None? ==> task in s.executed
  {
    worker, place := None, None;
    var k :| 0 <= k < |s.enqueued| && s.enqueued[k] == task;
    if k >= |s.dequeued| {
      place := Some(k - |s.dequeued|);
    } else if task !in s.executed {
      assert s.dequeued[k] == task;
      var i := HolderOf(s, task);
      worker := Some(i);
    }
  }
}
