/**
 The shared data of the thread pool, in the imperative form of p3/src/task_queue.c: the linked
 FIFO of tasks and the array of per-thread flags that the program calls a binary semaphore.
 Each method is one critical section; it is proved against a function on sequences, and the
 same functions are the critical sections of the concurrent protocol in PoolProtocol.
 */
module PoolTaskQueue {
  import opened Wrappers

  /** The payload of a queued task: its place in the order of requests and the thread id that
      the producer assigned to it. */
  datatype Task = Task(serial: nat, worker: nat)

  /** What one dequeue takes, and what it leaves. */
  function Taken(queue: seq<Task>): Option<Task> {
    if queue == [] then None else Some(queue[0])
  }

  function Remaining(queue: seq<Task>): seq<Task> {
    if queue == [] then [] else queue[1..]
  }

  /** The flags after a post to `target`: one flag up, all others down. */
  function Posted(size: nat, target: nat): seq<int> {
    seq(size, i => if i == target then 1 else 0)
  }

  /** A heap node. `prev` points towards the tail, as in the source. */
  class Node {
    var prev: Node?
    const task: Task

    constructor (task: Task)
      ensures this.task == task && prev == null
    {
      this.task := task;
      prev := null;
    }
  }

  class TaskQueue {
    var len: nat
    var head: Node?
    var tail: Node?
    ghost var nodes: seq<Node>  // the chain from head to tail

    ghost predicate Valid()
      reads this, nodes
    {
      && len == |nodes|
      && (nodes == [] ==> head == null && tail == null)
      && (nodes != [] ==> head == nodes[0] && tail == nodes[|nodes| - 1] && nodes[|nodes| - 1].prev == null)
      && (forall i {:trigger nodes[i].prev} :: 0 <= i < |nodes| - 1 ==> nodes[i].prev == nodes[i + 1])
      && (forall i, j :: 0 <= i < j < |nodes| ==> nodes[i] != nodes[j])
    }

    /** The tasks from head to tail. */
    ghost function Contents(): (tasks: seq<Task>)
      reads this
      ensures |tasks| == |nodes|
    {
      seq(|nodes|, i requires 0 <= i < |nodes| reads this => nodes[i].task)
    }

    constructor ()
      ensures Valid() && nodes == [] && Contents() == []
    {
      len, head, tail := 0, null, null;
      nodes := [];
    }

    method Enqueue(newTask: Node)
      requires Valid() && newTask !in nodes
      modifies this, nodes, newTask
      ensures Valid() && nodes == old(nodes) + [newTask]
      ensures Contents() == old(Contents()) + [newTask.task]
    {
      newTask.prev := null;
      if len == 0 {
        head := newTask;
        tail := newTask;
      } else {
        tail.prev := newTask;
        tail := newTask;
      }
      len := len + 1;
      nodes := nodes + [newTask];
    }

    method Dequeue() returns (taken: Node?)
      requires Valid()
      modifies this
      ensures Valid()
      ensures taken == null <==> old(nodes) == []
      ensures old(nodes) != [] ==> old(nodes) == [taken] + nodes && taken !in nodes
      ensures (if taken == null then None else Some(taken.task)) == Taken(old(Contents()))
      ensures Contents() == Remaining(old(Contents()))
    {
      taken := head;
      if len == 0 {
      } else if len == 1 {
        head, tail, len := null, null, 0;
        nodes := [];
      } else {
        head := taken.prev;
        len := len - 1;
        nodes := nodes[1..];
      }
    }
  }

  class BinarySemaphore {
    const val: array<int>

    constructor (threads: nat, value: int)
      ensures fresh(val) && val.Length == threads
      ensures value == 1 ==> val[..] == seq(threads, _ => 1)
      ensures value != 1 ==> val[..] == seq(threads, _ => 0)
    {
      var initial := if value < 0 || value > 1 then 0 else value;
      val := new int[threads](_ => initial);
    }

    method Post(target: nat)
      requires target < val.Length
      modifies val
      ensures val[..] == Posted(val.Length, target)
    {
      for i := 0 to val.Length
        invariant forall k :: 0 <= k < i ==> val[k] == 0
      {
        val[i] := 0;
      }
      val[target] := 1;
    }

    /** One evaluation of the wait loop's condition; when it finds the flag up, it takes it down. */
    method TryTake(thread: nat) returns (taken: bool)
      requires thread < val.Length
      modifies val
      ensures taken <==> old(val[thread]) == 1
      ensures val[..] == if taken then old(val[..])[thread := 0] else old(val[..])
    {
      taken := val[thread] == 1;
      if taken {
        val[thread] := 0;
      }
    }
  }
}
