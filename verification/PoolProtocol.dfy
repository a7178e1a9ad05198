/**
 The thread pool of p3 as a transition system: any number of workers, the signalling thread, the
 producer (the select loop) and any number of callers of threadPoolWait, interleaved freely.

 One step is one mutex acquisition, one critical section body, one release, one entry to
 pthread_cond_wait (which releases the mutex), or one read that threadPoolWait makes. A thread
 woken from a condition wait must reacquire the mutex. Condition waits may also end spuriously.
 */
module PoolProtocol {
  import opened Wrappers
  import opened PoolTaskQueue

  datatype Thread = Worker(i: nat) | Signaller | Producer | Waiter(j: nat)

  datatype Lock = Free | HeldBy(owner: Thread)

  /** threadFunc with bSemWait and dequeueTask expanded; `Body` states hold the mutex. */
  datatype WorkerPc =
    | SemEnter                              // about to lock bSem.mutex
    | SemTest                               // holds bSem.mutex, about to test its own flag
    | SemAsleep                             // in pthread_cond_wait
    | SemWoken                              // woken, about to relock bSem.mutex
    | SemLeave                              // holds bSem.mutex, flag taken
    | IncEnter | IncBody | IncLeave         // numWorkingThreads++ under mutexThreadCnt
    | DeqEnter | DeqBody                    // dequeueTask under mutexQueueRW
    | DeqLeave(got: Option<Task>)
    | Running(task: Task)                   // about to call the task's function
    | Freeing(task: Task)                   // the function has returned
    | DecEnter | DecBody | DecLeave         // numWorkingThreads-- under mutexThreadCnt

  /** signalThreadFunc with bSemPost expanded. From QueueCheck to QueueLeave it holds mutexQueueRW. */
  datatype SignallerPc =
    | QueueEnter
    | QueueCheck
    | PostEnter(target: nat)
    | PostBody(target: nat)                 // also holds bSem.mutex
    | PostLeave                             // also holds bSem.mutex
    | QueueLeave

  /** threadPoolEnqueue with enqueueTask expanded. */
  datatype ProducerPc = Idle | EnqEnter(task: Task) | EnqBody(task: Task) | EnqLeave

  /** threadPoolWait. `seen` is the number of tasks enqueued when it last read a zero queue length. */
  datatype WaiterPc =
    | Outside
    | CountEnter
    | TestLen                               // holds mutexThreadCnt
    | TestWorking(seen: nat)                // holds mutexThreadCnt
    | CallWait                              // holds mutexThreadCnt, decided to wait
    | Asleep
    | Woken
    | CountLeave(seen: nat)                 // holds mutexThreadCnt, the loop has ended
    | Returned(seen: nat)

  datatype State = State(
    workers: seq<WorkerPc>,
    signaller: SignallerPc,
    producer: ProducerPc,
    waiters: seq<WaiterPc>,
    queueLock: Lock,                        // mutexQueueRW
    semLock: Lock,                          // bSem.mutex
    countLock: Lock,                        // mutexThreadCnt
    queue: seq<Task>,
    flags: seq<int>,                        // bSem.val
    working: int,                           // numWorkingThreads
    nextWorker: nat,                        // assignedThrId of the select loop
    enqueued: seq<Task>,                    // history: tasks in the order of enqueueing,
    dequeued: seq<Task>,                    //   of dequeueing,
    executed: seq<Task>,                    //   of completed execution,
    freed: seq<Task>)                       //   and of being freed

  /** A schedule is a sequence of these. `Signal(i, j)` is worker i's decrement to zero when
      pthread_cond_signal picks the sleeping waiter j; `Spurious` ends a condition wait. */
  datatype Action = Step(thread: Thread) | Signal(i: nat, j: nat) | Spurious(sleeper: Thread)

  ghost predicate Shape(s: State) {
    0 < |s.workers| == |s.flags|
  }

  /** The state threadPoolInit leaves, once every worker has reported itself active. */
  function Init(threads: nat, callers: nat): State {
    State(seq(threads, _ => SemEnter), QueueEnter, Idle, seq(callers, _ => Outside),
          Free, Free, Free, [], seq(threads, _ => 0), 0, 0, [], [], [], [])
  }

  ghost predicate WorkerEnabled(s: State, i: nat) {
    && i < |s.workers|
    && match s.workers[i] {
      case SemEnter | SemWoken => s.semLock.Free?
      case SemAsleep => false
      case IncEnter | DecEnter => s.countLock.Free?
      case DeqEnter => s.queueLock.Free?
      case _ => true
    }
  }

  /** A decrement to zero signals, so while a waiter sleeps it cannot pass without waking one. */
  ghost predicate MustSignal(s: State, i: nat) {
    && i < |s.workers| && s.workers[i].DecBody? && s.working == 1
    && exists j :: 0 <= j < |s.waiters| && s.waiters[j].Asleep?
  }

  ghost predicate SignallerEnabled(s: State) {
    match s.signaller
    case QueueEnter => s.queueLock.Free?
    case PostEnter(_) => s.semLock.Free?
    case PostBody(target) => target < |s.flags|
    case _ => true
  }

  ghost predicate ProducerEnabled(s: State) {
    s.producer.EnqEnter? ==> s.queueLock.Free?
  }

  ghost predicate WaiterEnabled(s: State, j: nat) {
    && j < |s.waiters|
    && match s.waiters[j] {
      case CountEnter | Woken => s.countLock.Free?
      case Asleep => false
      case _ => true
    }
  }

  ghost predicate SignalEnabled(s: State, i: nat, j: nat) {
    MustSignal(s, i) && j < |s.waiters| && s.waiters[j].Asleep?
  }

  ghost predicate Enabled(s: State, a: Action) {
    match a
    case Step(Worker(i)) => WorkerEnabled(s, i) && !MustSignal(s, i)
    case Step(Signaller) => SignallerEnabled(s)
    case Step(Producer) => ProducerEnabled(s)
    case Step(Waiter(j)) => WaiterEnabled(s, j)
    case Signal(i, j) => SignalEnabled(s, i, j)
    case Spurious(Worker(i)) => i < |s.workers| && s.workers[i].SemAsleep?
    case Spurious(Waiter(j)) => j < |s.waiters| && s.waiters[j].Asleep?
    case Spurious(_) => false
  }

  function WakeWorker(pc: WorkerPc): WorkerPc {
    if pc.SemAsleep? then SemWoken else pc
  }

  /** pthread_cond_broadcast on the semaphore's condition variable. */
  function WakeAll(workers: seq<WorkerPc>): seq<WorkerPc> {
    seq(|workers|, i requires 0 <= i < |workers| => WakeWorker(workers[i]))
  }

  function WorkerStep(s: State, i: nat): State
    requires Shape(s) && WorkerEnabled(s, i)
  {
    var me := HeldBy(Worker(i));
    match s.workers[i]
    case SemEnter => s.(workers := s.workers[i := SemTest], semLock := me)
    case SemTest =>
      if s.flags[i] != 1 then s.(workers := s.workers[i := SemAsleep], semLock := Free)
      else s.(workers := s.workers[i := SemLeave], flags := s.flags[i := 0])
    case SemWoken => s.(workers := s.workers[i := SemTest], semLock := me)
    case SemLeave => s.(workers := s.workers[i := IncEnter], semLock := Free)
    case IncEnter => s.(workers := s.workers[i := IncBody], countLock := me)
    case IncBody => s.(workers := s.workers[i := IncLeave], working := s.working + 1)
    case IncLeave => s.(workers := s.workers[i := DeqEnter], countLock := Free)
    case DeqEnter => s.(workers := s.workers[i := DeqBody], queueLock := me)
    case DeqBody =>
      s.(workers := s.workers[i := DeqLeave(Taken(s.queue))],
         queue := Remaining(s.queue),
         dequeued := if s.queue == [] then s.dequeued else s.dequeued + [s.queue[0]])
    case DeqLeave(None) => s.(workers := s.workers[i := DecEnter], queueLock := Free)
    case DeqLeave(Some(task)) => s.(workers := s.workers[i := Running(task)], queueLock := Free)
    case Running(task) => s.(workers := s.workers[i := Freeing(task)], executed := s.executed + [task])
    case Freeing(task) => s.(workers := s.workers[i := DecEnter], freed := s.freed + [task])
    case DecEnter => s.(workers := s.workers[i := DecBody], countLock := me)
    case DecBody => s.(workers := s.workers[i := DecLeave], working := s.working - 1)
    case DecLeave => s.(workers := s.workers[i := SemEnter], countLock := Free)
  }

  function SignallerStep(s: State): State
    requires Shape(s) && SignallerEnabled(s)
  {
    match s.signaller
    case QueueEnter => s.(signaller := QueueCheck, queueLock := HeldBy(Signaller))
    case QueueCheck =>
      if s.queue == [] then s.(signaller := QueueLeave) else s.(signaller := PostEnter(s.queue[0].worker))
    case PostEnter(target) => s.(signaller := PostBody(target), semLock := HeldBy(Signaller))
    case PostBody(target) =>
      s.(signaller := PostLeave, flags := Posted(|s.flags|, target), workers := WakeAll(s.workers))
    case PostLeave => s.(signaller := QueueLeave, semLock := Free)
    case QueueLeave => s.(signaller := QueueEnter, queueLock := Free)
  }

  function ProducerStep(s: State): State
    requires Shape(s) && ProducerEnabled(s)
  {
    match s.producer
    case Idle => s.(producer := EnqEnter(Task(|s.enqueued|, s.nextWorker)))
    case EnqEnter(task) => s.(producer := EnqBody(task), queueLock := HeldBy(Producer))
    case EnqBody(task) =>
      s.(producer := EnqLeave, queue := s.queue + [task], enqueued := s.enqueued + [task])
    case EnqLeave =>
      s.(producer := Idle, queueLock := Free, nextWorker := (s.nextWorker + 1) % |s.flags|)
  }

  function WaiterStep(s: State, j: nat): State
    requires WaiterEnabled(s, j)
  {
    var me := HeldBy(Waiter(j));
    match s.waiters[j]
    case Outside => s.(waiters := s.waiters[j := CountEnter])
    case CountEnter => s.(waiters := s.waiters[j := TestLen], countLock := me)
    case TestLen =>
      s.(waiters := s.waiters[j := if |s.queue| != 0 then CallWait else TestWorking(|s.enqueued|)])
    case TestWorking(seen) =>
      s.(waiters := s.waiters[j := if s.working != 0 then CallWait else CountLeave(seen)])
    case CallWait => s.(waiters := s.waiters[j := Asleep], countLock := Free)
    case Woken => s.(waiters := s.waiters[j := TestLen], countLock := me)
    case CountLeave(seen) => s.(waiters := s.waiters[j := Returned(seen)], countLock := Free)
    case Returned(_) => s.(waiters := s.waiters[j := CountEnter])
  }

  function Next(s: State, a: Action): State
    requires Shape(s) && Enabled(s, a)
  {
    match a
    case Step(Worker(i)) => WorkerStep(s, i)
    case Step(Signaller) => SignallerStep(s)
    case Step(Producer) => ProducerStep(s)
    case Step(Waiter(j)) => WaiterStep(s, j)
    case Signal(i, j) => WorkerStep(s.(waiters := s.waiters[j := Woken]), i)
    case Spurious(Worker(i)) => s.(workers := s.workers[i := SemWoken])
    case Spurious(Waiter(j)) => s.(waiters := s.waiters[j := Woken])
  }

  lemma NextKeepsShape(s: State, a: Action)
    requires Shape(s) && Enabled(s, a)
    ensures Shape(Next(s, a))
    ensures |Next(s, a).workers| == |s.workers| && |Next(s, a).waiters| == |s.waiters|
  {
  }

  /** `acts` is a schedule that takes s to t, every action being enabled when it is taken. */
  ghost predicate Run(s: State, acts: seq<Action>, t: State)
    decreases |acts|
  {
    && Shape(s)
    && if acts == [] then t == s else Enabled(s, acts[0]) && Run(Next(s, acts[0]), acts[1..], t)
  }

  lemma {:induction false} RunKeepsShape(s: State, acts: seq<Action>, t: State)
    requires Run(s, acts, t)
    ensures Shape(t) && |t.workers| == |s.workers| && |t.waiters| == |s.waiters|
    decreases |acts|
  {
    if acts != [] {
      NextKeepsShape(s, acts[0]);
      RunKeepsShape(Next(s, acts[0]), acts[1..], t);
    }
  }

  lemma ReachableShape(threads: nat, callers: nat, s: State)
    ensures (exists acts :: Run(Init(threads, callers), acts, s)) ==>
      Shape(s) && |s.workers| == threads && |s.waiters| == callers
  {
    if acts :| Run(Init(threads, callers), acts, s) {
      RunKeepsShape(Init(threads, callers), acts, s);
    }
  }

  /** Reachable in the pool with these numbers of workers and of callers of threadPoolWait. */
  ghost predicate Reachable(threads: nat, callers: nat, s: State): (r: bool)
    ensures r ==> Shape(s) && |s.workers| == threads && |s.waiters| == callers
  {
    ReachableShape(threads, callers, s);
    exists acts :: Run(Init(threads, callers), acts, s)
  }

  lemma {:induction false} RunConcat(s: State, first: seq<Action>, t: State, second: seq<Action>, u: State)
    requires Run(s, first, t) && Run(t, second, u)
    ensures Run(s, first + second, u)
    decreases |first|
  {
    if first == [] {
      assert first + second == second;
    } else {
      RunConcat(Next(s, first[0]), first[1..], t, second, u);
      assert (first + second)[1..] == first[1..] + second;
    }
  }

  lemma ReachableStep(threads: nat, callers: nat, s: State, a: Action)
    requires Reachable(threads, callers, s) && Enabled(s, a)
    ensures Reachable(threads, callers, Next(s, a))
  {
    var acts :| Run(Init(threads, callers), acts, s);
    NextKeepsShape(s, a);
    assert [a][1..] == [];
    assert Run(s, [a], Next(s, a));
    RunConcat(Init(threads, callers), acts, s, [a], Next(s, a));
  }
}
