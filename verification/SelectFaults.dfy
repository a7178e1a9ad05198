/**
 When a slot's handler uses memory that is not its own. The source keeps serving a connection after it
 has freed the client's buffer, and keeps the address; the condition is stated on the client's messages
 and the answers of the system alone.
 */
module SelectFaults {
  import opened CStrings
  import opened SelectSession

  predicate IsDelivery(e: Event) {
    e.packet.command == DATA_DELIVERY
  }

  predicate IsStore(e: Event) {
    e.packet.command == DATA_STORE
  }

  /** What the server has of a client: a block, if its last delivery succeeded, and a count of bytes. */
  datatype Memory = Memory(held: bool, bytes: nat)

  /** The delivery e finds memory. */
  predicate Succeeds(m: Memory, e: Event)
    requires WellFormed(e.packet)
  {
    e.env.allocOk && !(m.held && (m.bytes + |Payload(e.packet)|) % WORD == 0)
  }

  function MemoryOf(history: seq<Event>): Memory
    requires AllWellFormed(history)
  {
    if history == [] then Memory(false, 0)
    else
      var m, last := MemoryOf(history[..|history| - 1]), history[|history| - 1];
      if !IsDelivery(last) then m
      else if Succeeds(m, last) then Memory(true, m.bytes + |Payload(last.packet)|)
      else m.(held := false)
  }

  /** Message i stores the client's block successfully, and frees it. */
  predicate Stores(history: seq<Event>, i: nat)
    requires AllWellFormed(history) && i < |history|
  {
    && IsStore(history[i]) && NameEnds(history[i].packet)
    && history[i].env.openOk && history[i].env.written >= 0 && MemoryOf(history[..i]).held
  }

  /** Handling e passes the buffer to realloc, or to write and free. */
  predicate UsesBuffer(e: Event) {
    IsDelivery(e) || (IsStore(e) && e.env.openOk)
  }

  ghost predicate HasStored(history: seq<Event>)
    requires AllWellFormed(history)
  {
    exists j :: 0 <= j < |history| && Stores(history, j)
  }

  /** Message i, if it is a store, has a name that ends in the packet; it does not touch what an earlier
      store has freed; and it does not make the byte count wrap. */
  ghost predicate TameAt(history: seq<Event>, i: nat)
    requires AllWellFormed(history) && i < |history|
  {
    var e, m := history[i], MemoryOf(history[..i]);
    && (IsStore(e) ==> NameEnds(e.packet))
    && (UsesBuffer(e) ==> !HasStored(history[..i]))
    && (IsDelivery(e) && Succeeds(m, e) ==> m.bytes + |Payload(e.packet)| < WORD)
  }

  /** Names end in their packets; after a successful store the client neither delivers nor stores; and it
      delivers less than 2^32 bytes in all. */
  ghost predicate Tame(history: seq<Event>)
    requires AllWellFormed(history)
  {
    forall i :: 0 <= i < |history| ==> TameAt(history, i)
  }

  /** The slot's memory, as the messages tell. */
  ghost predicate MemoryAfter(history: seq<Event>, c: Cell)
    requires AllWellFormed(history)
  {
    var m := MemoryOf(history);
    && c.bytesRead == m.bytes < WORD
    && (c.buffer.Dangling? <==> HasStored(history))
    && (!HasStored(history) ==>
         if m.held then c.buffer.Bytes? && |c.buffer.data| == c.bytesRead else c.buffer.Null?)
  }

  lemma StoredAppend(history: seq<Event>, e: Event)
    requires AllWellFormed(history) && WellFormed(e.packet)
    ensures HasStored(history + [e]) <==> HasStored(history) || Stores(history + [e], |history|)
  {
    var all := history + [e];
    assert forall j :: 0 <= j < |history| ==> all[..j] == history[..j] && all[j] == history[j];
    if j :| 0 <= j < |history| && Stores(history, j) {
      assert Stores(all, j);
    }
    if j :| 0 <= j < |all| && Stores(all, j) {
      assert j < |history| ==> Stores(history, j);
    }
  }

  lemma TameAppend(history: seq<Event>, e: Event)
    requires AllWellFormed(history) && WellFormed(e.packet)
    ensures Tame(history + [e]) <==> Tame(history) && TameAt(history + [e], |history|)
  {
    var all := history + [e];
    assert forall j :: 0 <= j < |history| ==> all[..j] == history[..j] && all[j] == history[j];
    forall j | 0 <= j < |history|
      ensures TameAt(all, j) <==> TameAt(history, j)
    {
    }
  }

  lemma MemoryAppend(history: seq<Event>, e: Event)
    requires AllWellFormed(history) && WellFormed(e.packet)
    ensures var m := MemoryOf(history);
      MemoryOf(history + [e]) ==
        if !IsDelivery(e) then m
        else if Succeeds(m, e) then Memory(true, m.bytes + |Payload(e.packet)|)
        else m.(held := false)
  {
    assert (history + [e])[..|history|] == history;
  }

  lemma FaultsIffNotTame(history: seq<Event>, c: Cell, e: Event)
    requires AllWellFormed(history) && WellFormed(e.packet) && MemoryAfter(history, c)
    ensures Faults(c.buffer, c.bytesRead, e) <==> !TameAt(history + [e], |history|)
    ensures Fault in CellStep(c, e).1 <==> Faults(c.buffer, c.bytesRead, e)
  {
    assert (history + [e])[..|history|] == history;
  }

  lemma StepMemory(history: seq<Event>, c: Cell, e: Event)
    requires AllWellFormed(history) && WellFormed(e.packet) && MemoryAfter(history, c)
    requires !Faults(c.buffer, c.bytesRead, e)
    ensures MemoryAfter(history + [e], CellStep(c, e).0)
  {
    assert (history + [e])[..|history|] == history;
    StoredAppend(history, e);
    MemoryAppend(history, e);
  }

  lemma {:induction false} MemoryAndFaults(history: seq<Event>)
    requires AllWellFormed(history)
    ensures Tame(history) ==> MemoryAfter(history, CellRun(EMPTY_CELL, history).0)
    ensures Fault in CellRun(EMPTY_CELL, history).1 <==> !Tame(history)
    decreases |history|
  {
    if history != [] {
      var front, e := history[..|history| - 1], history[|history| - 1];
      assert history == front + [e];
      MemoryAndFaults(front);
      TameAppend(front, e);
      CellRunSplit(EMPTY_CELL, front, [e]);
      var c := CellRun(EMPTY_CELL, front).0;
      var (c1, out) := CellStep(c, e);
      assert [e][1..] == [] && out + [] == out;
      assert CellRun(c, [e]) == (c1, out);
      if Tame(front) {
        FaultsIffNotTame(front, c, e);
        if TameAt(front + [e], |front|) {
          StepMemory(front, c, e);
        }
      }
    }
  }

  /** A client's messages make its slot's handler use memory of others exactly when they are not tame. */
  lemma FaultFreeIff(history: seq<Event>)
    requires AllWellFormed(history)
    ensures Fault !in CellRun(EMPTY_CELL, history).1 <==> Tame(history)
  {
    MemoryAndFaults(history);
  }

  /** A dedicated process faults by its count or by a name alone: it ends with its first store. */
  lemma {:induction false} ProcessFaultsByCountOrName(s: Session, history: seq<Event>)
    requires AllWellFormed(history) && !s.buffer.Dangling?
    requires s.bytesRead + BytesOffered(history) < WORD
    requires forall i :: 0 <= i < |history| && IsStore(history[i]) ==> NameEnds(history[i].packet)
    ensures Fault !in SessionRun(s, history).1
    decreases |history|
  {
    if history != [] && !Done(s) {
      var (s1, now) := SessionStep(s, history[0]);
      if !Done(s1) {
        ProcessFaultsByCountOrName(s1, history[1..]);
      }
    }
  }

  function BytesOffered(history: seq<Event>): nat
    requires AllWellFormed(history)
  {
    if history == [] then 0
    else (if IsDelivery(history[0]) then |Payload(history[0].packet)| else 0) + BytesOffered(history[1..])
  }

  // ---------- memory that nobody has written ----------

  ghost predicate RefillsAt(history: seq<Event>, i: nat)
    requires AllWellFormed(history) && i < |history|
  {
    var m := MemoryOf(history[..i]);
    IsDelivery(history[i]) && Succeeds(m, history[i]) && !m.held && m.bytes > 0
  }

  /** Nothing is delivered after an allocation failed that had cost the client bytes. */
  ghost predicate NeverRefills(history: seq<Event>)
    requires AllWellFormed(history)
  {
    forall i :: 0 <= i < |history| ==> !RefillsAt(history, i)
  }

  function WithHeap(e: Event, heap: seq<int>): Event {
    e.(env := e.env.(heap := heap))
  }

  function WithHeaps(history: seq<Event>, heaps: seq<seq<int>>): (other: seq<Event>)
    requires |heaps| == |history|
    ensures |other| == |history|
    ensures AllWellFormed(history) ==> AllWellFormed(other)
  {
    seq(|history|, i requires 0 <= i < |history| => WithHeap(history[i], heaps[i]))
  }

  /** What fresh heap blocks hold makes no difference to a client that never refills. */
  lemma {:induction false} HeapUnused(history: seq<Event>, heaps: seq<seq<int>>)
    requires AllWellFormed(history) && |heaps| == |history| && Tame(history) && NeverRefills(history)
    ensures CellRun(EMPTY_CELL, WithHeaps(history, heaps)) == CellRun(EMPTY_CELL, history)
    decreases |history|
  {
    if history != [] {
      var n := |history| - 1;
      var front, e := history[..n], history[n];
      var e' := WithHeap(e, heaps[n]);
      var other := WithHeaps(front, heaps[..n]);
      assert history == front + [e] && WithHeaps(history, heaps) == other + [e'];
      TameAppend(front, e);
      forall j | 0 <= j < n
        ensures !RefillsAt(front, j)
      {
        assert front[..j] == history[..j] && !RefillsAt(history, j);
      }
      assert !RefillsAt(history, n);
      HeapUnused(front, heaps[..n]);
      MemoryAndFaults(front);
      var c := CellRun(EMPTY_CELL, front).0;
      SameStep(front, c, e, heaps[n]);
      CellRunSplit(EMPTY_CELL, front, [e]);
      CellRunSplit(EMPTY_CELL, other, [e']);
      OneEvent(c, e);
      OneEvent(c, e');
    }
  }

  /** Two clients with these same messages may be told apart by what the heap held. */
  lemma RefillShows(history: seq<Event>, i: nat) returns (heaps: seq<seq<int>>)
    requires AllWellFormed(history) && Tame(history) && i < |history|
    requires RefillsAt(history, i)
    ensures |heaps| == i + 1
    ensures CellRun(EMPTY_CELL, WithHeaps(history[..i + 1], heaps)).0 != CellRun(EMPTY_CELL, history[..i + 1]).0
  {
    var front, e := history[..i], history[i];
    var was := e.env.heap;
    var heap := [if |was| > 0 then was[0] + 1 else 1];
    heaps := seq(i, j requires 0 <= j < i => front[j].env.heap) + [heap];
    assert history[..i + 1] == front + [e];
    assert WithHeaps(history[..i + 1], heaps) == front + [WithHeap(e, heap)];
    TameBeginning(history, i);
    MemoryAndFaults(front);
    assert TameAt(history, i);
    var c := CellRun(EMPTY_CELL, front).0;
    CellRunSplit(EMPTY_CELL, front, [e]);
    CellRunSplit(EMPTY_CELL, front, [WithHeap(e, heap)]);
    OneEvent(c, e);
    OneEvent(c, WithHeap(e, heap));
    assert CellStep(c, e).0.buffer.data[0] != CellStep(c, WithHeap(e, heap)).0.buffer.data[0];
  }

  lemma TameBeginning(history: seq<Event>, i: nat)
    requires AllWellFormed(history) && Tame(history) && i <= |history|
    ensures Tame(history[..i])
  {
    forall j | 0 <= j < i
      ensures TameAt(history[..i], j)
    {
      assert history[..i][..j] == history[..j] && TameAt(history, j);
    }
  }

  /** A slot's state depends on nothing but its client's messages and the answers that it got, whatever
      fresh heap blocks hold, exactly when the client never refills. */
  lemma HeapIrrelevantIff(history: seq<Event>)
    requires AllWellFormed(history) && Tame(history)
    ensures NeverRefills(history) <==>
      forall i, heaps: seq<seq<int>> :: 0 <= i <= |history| && |heaps| == i ==>
        CellRun(EMPTY_CELL, WithHeaps(history[..i], heaps)).0 == CellRun(EMPTY_CELL, history[..i]).0
  {
    if NeverRefills(history) {
      forall i, heaps: seq<seq<int>> | 0 <= i <= |history| && |heaps| == i
        ensures CellRun(EMPTY_CELL, WithHeaps(history[..i], heaps)).0 == CellRun(EMPTY_CELL, history[..i]).0
      {
        TameBeginning(history, i);
        forall j | 0 <= j < i
          ensures !RefillsAt(history[..i], j)
        {
          assert history[..i][..j] == history[..j] && !RefillsAt(history, j);
        }
        HeapUnused(history[..i], heaps);
      }
    } else {
      var i :| 0 <= i < |history| && RefillsAt(history, i);
      var heaps := RefillShows(history, i);
      assert CellRun(EMPTY_CELL, WithHeaps(history[..i + 1], heaps)).0
          != CellRun(EMPTY_CELL, history[..i + 1]).0;
    }
  }

  lemma OneEvent(c: Cell, e: Event)
    requires WellFormed(e.packet)
    ensures CellRun(c, [e]) == CellStep(c, e)
  {
    assert [e][1..] == [] && CellStep(c, e).1 + [] == CellStep(c, e).1;
  }

  lemma SameStep(front: seq<Event>, c: Cell, e: Event, heap: seq<int>)
    requires AllWellFormed(front) && WellFormed(e.packet) && MemoryAfter(front, c)
    requires TameAt(front + [e], |front|)
    requires !RefillsAt(front + [e], |front|)
    ensures CellStep(c, WithHeap(e, heap)) == CellStep(c, e)
  {
    assert (front + [e])[..|front|] == front;
    if IsDelivery(e) && e.env.allocOk {
      assert Resized(Contents(c.buffer), heap, c.bytesRead) == Resized(Contents(c.buffer), e.env.heap, c.bytesRead);
    }
  }

  // ---------- clients that do harm ----------

  function Message(command: nat, data: seq<int>, allocOk: bool, heap: seq<int>): (e: Event)
    requires |data| <= DATA_SIZE
    ensures WellFormed(e.packet) && Payload(e.packet) == data
  {
    Event(Packet(0, HEADER_LENGTH + |data|, command, data + seq(DATA_SIZE - |data|, _ => 0)),
          Env(0, allocOk, heap, true, DATA_SIZE))
  }

  /** A store under the name "a". */
  function StoreA(): (e: Event)
    ensures WellFormed(e.packet) && Payload(e.packet) == [97, 0]
  {
    Message(DATA_STORE, [97, 0], true, [])
  }

  lemma NameA()
    ensures NameEnds(StoreA().packet) && CString([97, 0]) == [97]
  {
    assert StoreA().packet.data[1] == 0;
    assert CString([0]) == [] && [97, 0][1..] == [0];
  }

  /** Storing twice is enough. */
  function StoreTwice(): (history: seq<Event>)
    ensures AllWellFormed(history)
  {
    [Message(CLIENT_HELLO, [], true, []), Message(DATA_DELIVERY, [1], true, []),
     StoreA(), StoreA()]
  }

  lemma StoreTwiceFaults()
    ensures HelloFirst(StoreTwice())
    ensures Tame(StoreTwice()[..3]) && !Tame(StoreTwice())
    ensures Fault in CellRun(EMPTY_CELL, StoreTwice()).1
  {
    var h := StoreTwice();
    NameA();
    var c1 := CellStep(EMPTY_CELL, h[0]).0;
    var c2 := CellStep(c1, h[1]).0;
    var (c3, out) := CellStep(c2, h[2]);
    assert c2.buffer.Bytes? && c3.buffer.Dangling?;
    assert CellStep(c3, h[3]).1 == [Fault];
    RunOfFour(EMPTY_CELL, h[0], h[1], h[2], h[3]);
    RunOfThree(EMPTY_CELL, h[0], h[1], h[2]);
    assert h[..3] == [h[0], h[1], h[2]] && h == [h[0], h[1], h[2], h[3]];
    FaultFreeIff(h);
    FaultFreeIff(h[..3]);
  }

  /** A file name without an end is enough, too. */
  function EndlessName(): (history: seq<Event>)
    ensures AllWellFormed(history)
  {
    [Message(CLIENT_HELLO, [], true, []), Message(DATA_STORE, [97], true, [])]
  }

  lemma EndlessNameFaults()
    ensures HelloFirst(EndlessName())
    ensures Tame(EndlessName()[..1]) && !Tame(EndlessName())
    ensures Fault in CellRun(EMPTY_CELL, EndlessName()).1
  {
    var h := EndlessName();
    assert !NameEnds(h[1].packet);
    assert !TameAt(h, 1);
    assert TameAt(h[..1], 0);
    FaultFreeIff(h);
  }

  /** A delivery that fails and one that follows it put never-written memory into the stored file. */
  function Refill(heap: seq<int>): (history: seq<Event>)
    ensures AllWellFormed(history)
  {
    [Message(DATA_DELIVERY, [1], true, []), Message(DATA_DELIVERY, [2], false, []),
     Message(DATA_DELIVERY, [3], true, heap), StoreA()]
  }

  lemma HeapIsStored(x: int)
    ensures Tame(Refill([x]))
    ensures Wrote([97], [x, 3]) in CellRun(EMPTY_CELL, Refill([x])).1
  {
    var h := Refill([x]);
    NameA();
    var c1 := CellStep(EMPTY_CELL, h[0]).0;
    var c2 := CellStep(c1, h[1]).0;
    var c3 := CellStep(c2, h[2]).0;
    assert c3.buffer == Bytes([x, 3]) && c3.bytesRead == 2;
    var out := CellStep(c3, h[3]).1;
    assert out[1] == Wrote([97], [x, 3]);
    RunOfFour(EMPTY_CELL, h[0], h[1], h[2], h[3]);
    assert h == [h[0], h[1], h[2], h[3]];
    FaultFreeIff(h);
  }

  lemma RunOfThree(c: Cell, e0: Event, e1: Event, e2: Event)
    requires WellFormed(e0.packet) && WellFormed(e1.packet) && WellFormed(e2.packet)
    requires Fault !in CellStep(c, e0).1 && Fault !in CellStep(CellStep(c, e0).0, e1).1
    ensures var (c1, out0) := CellStep(c, e0); var (c2, out1) := CellStep(c1, e1); var (c3, out2) := CellStep(c2, e2);
      CellRun(c, [e0, e1, e2]) == (c3, out0 + (out1 + out2))
  {
    var (c1, out0) := CellStep(c, e0);
    var (c2, out1) := CellStep(c1, e1);
    OneEvent(c2, e2);
    assert [e1, e2][1..] == [e2] && [e0, e1, e2][1..] == [e1, e2];
    assert CellRun(c1, [e1, e2]).1 == out1 + CellRun(c2, [e2]).1;
  }

  lemma RunOfFour(c: Cell, e0: Event, e1: Event, e2: Event, e3: Event)
    requires WellFormed(e0.packet) && WellFormed(e1.packet) && WellFormed(e2.packet) && WellFormed(e3.packet)
    requires Fault !in CellStep(c, e0).1 && Fault !in CellStep(CellStep(c, e0).0, e1).1
    requires Fault !in CellStep(CellStep(CellStep(c, e0).0, e1).0, e2).1
    ensures var (c1, out0) := CellStep(c, e0); var (c2, out1) := CellStep(c1, e1);
      var (c3, out2) := CellStep(c2, e2); var (c4, out3) := CellStep(c3, e3);
      CellRun(c, [e0, e1, e2, e3]) == (c4, out0 + (out1 + (out2 + out3)))
  {
    var (c1, out0) := CellStep(c, e0);
    RunOfThree(c1, e1, e2, e3);
    assert [e0, e1, e2, e3][1..] == [e1, e2, e3];
  }
}
