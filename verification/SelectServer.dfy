/**
 The multiplexing storage server: the select loop over the pool and the per-slot arrays, proved
 equal to a function on slots; and, over all runs of that function, that each client is served as by
 a process of its own.
 */
module SelectServer {
  import opened CStrings
  import opened Wrappers
  import opened SelectSession
  import opened SelectPool

  /** What a ready client socket has to offer: end of stream, a read that fails, or one packet. */
  datatype Arrival = Closed | Unreadable | Data(event: Event)

  /** After these effects there is no server any more, or nothing is known about it. */
  predicate Halts(effects: seq<Effect>) {
    Fault in effects || Exit in effects
  }

  datatype Slot = Slot(fd: int, cell: Cell)

  const FREE_SLOT := Slot(-1, EMPTY_CELL)

  predicate Ready(slot: Slot, ready: set<int>) {
    slot.fd > 0 && slot.fd in ready
  }

  function Fds(slots: seq<Slot>): (fds: seq<int>)
    ensures |fds| == |slots| && forall i :: 0 <= i < |slots| ==> fds[i] == slots[i].fd
  {
    seq(|slots|, i requires 0 <= i < |slots| => slots[i].fd)
  }

  /** Every ready client has something to read, and packets have sane lengths. */
  ghost predicate Covers(arrivals: map<int, Arrival>, fds: seq<int>, ready: set<int>) {
    forall i :: 0 <= i < |fds| && fds[i] > 0 && fds[i] in ready ==>
      fds[i] in arrivals && (arrivals[fds[i]].Data? ==> WellFormed(arrivals[fds[i]].event.packet))
  }

  /** What one scan does to one slot. */
  function ServeSlot(slot: Slot, ready: set<int>, arrivals: map<int, Arrival>): (Slot, seq<Effect>)
    requires Covers(arrivals, [slot.fd], ready)
  {
    if !Ready(slot, ready) then (slot, [])
    else
      assert [slot.fd][0] == slot.fd;
      match arrivals[slot.fd]
      case Closed => (FREE_SLOT, [])
      case Unreadable => (slot, [Exit])
      case Data(e) => var (cell, out) := CellStep(slot.cell, e); (slot.(cell := cell), out)
  }

  lemma CoversEach(arrivals: map<int, Arrival>, fds: seq<int>, ready: set<int>, i: nat)
    requires Covers(arrivals, fds, ready) && i < |fds|
    ensures Covers(arrivals, [fds[i]], ready)
  {
  }

  function SlotAfter(slots: seq<Slot>, ready: set<int>, arrivals: map<int, Arrival>, i: nat): (Slot, seq<Effect>)
    requires Covers(arrivals, Fds(slots), ready) && i < |slots|
  {
    CoversEach(arrivals, Fds(slots), ready, i);
    ServeSlot(slots[i], ready, arrivals)
  }

  /** A full scan: every ready slot is served once, the others are left alone. */
  function ServeAll(slots: seq<Slot>, ready: set<int>, arrivals: map<int, Arrival>): (after: seq<Slot>)
    requires Covers(arrivals, Fds(slots), ready)
    ensures |after| == |slots|
  {
    seq(|slots|, i requires 0 <= i < |slots| => SlotAfter(slots, ready, arrivals, i).0)
  }

  function EffectsOf(slots: seq<Slot>, ready: set<int>, arrivals: map<int, Arrival>): (out: seq<seq<Effect>>)
    requires Covers(arrivals, Fds(slots), ready)
    ensures |out| == |slots|
  {
    seq(|slots|, i requires 0 <= i < |slots| => SlotAfter(slots, ready, arrivals, i).1)
  }

  ghost predicate GoesOn(effects: seq<seq<Effect>>) {
    forall k :: 0 <= k < |effects| ==> !Halts(effects[k])
  }

  /** A scan that began with nready == start and ended with nready == left. */
  ghost predicate AllServed(before: seq<Slot>, ready: set<int>, arrivals: map<int, Arrival>,
      slots: seq<Slot>, effects: seq<seq<Effect>>, left: int, start: int)
    requires Covers(arrivals, Fds(before), ready)
  {
    && slots == ServeAll(before, ready, arrivals) && effects == EffectsOf(before, ready, arrivals)
    && left == start - ReadyFrom(Fds(before), ready, 0)
  }

  /** A new client takes the first free slot as it finds it. */
  function Admit(slots: seq<Slot>, accepted: Option<int>): (after: seq<Slot>)
    ensures |after| == |slots|
  {
    var f := FirstFree(Fds(slots));
    if accepted.None? || f == |slots| then slots else slots[f := slots[f].(fd := accepted.value)]
  }

  class SelectServer {
    const pool: FdPool
    const buffer: array<Buffer>
    const lastSeqNum: array<nat>
    const bytesRead: array<nat>

    ghost predicate Valid()
      reads this, pool, pool.clientfd, buffer, lastSeqNum, bytesRead
    {
      && pool.Valid()
      && pool.clientfd.Length == buffer.Length == lastSeqNum.Length == bytesRead.Length
      && lastSeqNum != bytesRead
      && (pool.clientfd as object) != lastSeqNum && (pool.clientfd as object) != bytesRead
    }

    ghost function Slots(): (slots: seq<Slot>)
      requires Valid()
      reads this, pool, pool.clientfd, buffer, lastSeqNum, bytesRead
      ensures |slots| == pool.clientfd.Length && Fds(slots) == pool.clientfd[..]
    {
      seq(pool.clientfd.Length, i requires 0 <= i < pool.clientfd.Length && Valid()
        reads this, pool, pool.clientfd, buffer, lastSeqNum, bytesRead =>
        Slot(pool.clientfd[i], Cell(buffer[i], lastSeqNum[i], bytesRead[i])))
    }

    constructor (size: nat, serverSock: int, uninitialisedMaxi: int)
      requires 0 <= serverSock < size && uninitialisedMaxi < size
      ensures Valid() && pool.listener == serverSock
      ensures Slots() == seq(size, _ => FREE_SLOT)
      ensures forall i :: 0 <= i < size ==>
        pool.clientfd[i] == -1 && buffer[i] == Null && lastSeqNum[i] == 0 && bytesRead[i] == 0
    {
      pool := new FdPool(size, serverSock, uninitialisedMaxi);
      buffer := new Buffer[size](_ => Null);
      lastSeqNum := new nat[size](_ => 0);
      bytesRead := new nat[size](_ => 0);
    }

    /** What a handler leaves behind that has used memory of others: anything. */
    method Disturb()
      requires Valid()
      modifies buffer, lastSeqNum, bytesRead
      ensures Valid()
    {
      for k := 0 to buffer.Length
        invariant Valid()
      {
        buffer[k], lastSeqNum[k], bytesRead[k] := *, *, *;
      }
    }

    /** The DATA_DELIVERY case of handleClientRequest. */
    method TakeDelivery(i: nat, e: Event) returns (effects: seq<Effect>)
      requires Valid() && i < buffer.Length && WellFormed(e.packet)
      requires e.packet.command == DATA_DELIVERY && !Faults(buffer[i], bytesRead[i], e)
      modifies buffer, lastSeqNum, bytesRead
      ensures Valid()
      ensures effects == CellStep(old(Slots())[i].cell, e).1
      ensures Slots() == old(Slots())[i := Slot(pool.clientfd[i], CellStep(old(Slots())[i].cell, e).0)]
    {
      var more := Payload(e.packet);
      var allocates := Allocates(buffer[i], bytesRead[i], e);
      var grown := if allocates then Append(buffer[i], bytesRead[i], e.env.heap, more) else Null;
      buffer[i] := grown;
      var seqNum := lastSeqNum[i] + 1;
      lastSeqNum[i] := seqNum % SHORT;
      if !allocates {
        effects := [Reply(seqNum, ERROR)];
      } else {
        bytesRead[i] := bytesRead[i] + |more|;
        effects := [Reply(seqNum, PKT_RECEIVED)];
      }
    }

    /** The DATA_STORE case of handleClientRequest. */
    method StoreFile(i: nat, e: Event) returns (effects: seq<Effect>)
      requires Valid() && i < buffer.Length && WellFormed(e.packet)
      requires e.packet.command == DATA_STORE && !Faults(buffer[i], bytesRead[i], e)
      modifies buffer, lastSeqNum
      ensures Valid()
      ensures effects == CellStep(old(Slots())[i].cell, e).1
      ensures Slots() == old(Slots())[i := Slot(pool.clientfd[i], CellStep(old(Slots())[i].cell, e).0)]
    {
      var name := CString(Payload(e.packet));
      var seqNum := lastSeqNum[i] + 1;
      lastSeqNum[i] := seqNum % SHORT;
      if !e.env.openOk {
        effects := [Reply(seqNum, STORED_ERROR)];
      } else {
        var contents := Written(buffer[i], bytesRead[i], e.env.written);
        if contents.None? {
          effects := [Opened(name), Reply(seqNum, STORED_ERROR)];
        } else {
          effects := [Opened(name), Wrote(name, contents.value), Reply(seqNum, FILE_STORED)];
          buffer[i] := Freed(buffer[i]);
        }
      }
    }

    /** handleClientRequest on the entries of slot i. If it faults, the other slots are not safe. */
    method HandleClientRequest(i: nat, e: Event) returns (effects: seq<Effect>)
      requires Valid() && i < buffer.Length && WellFormed(e.packet)
      modifies buffer, lastSeqNum, bytesRead
      ensures Valid()
      ensures effects == CellStep(old(Slots())[i].cell, e).1
      ensures Fault !in effects ==>
        Slots() == old(Slots())[i := Slot(pool.clientfd[i], CellStep(old(Slots())[i].cell, e).0)]
    {
      effects := [];
      if Faults(buffer[i], bytesRead[i], e) {
        Disturb();
        effects := [Fault];
      } else if e.packet.command == CLIENT_HELLO {
        var seqNum := e.env.random % MAX_SEQUENCE;
        lastSeqNum[i] := seqNum % SHORT;
        effects := [Reply(seqNum, SERVER_HELLO)];
      } else if e.packet.command == DATA_DELIVERY {
        effects := TakeDelivery(i, e);
      } else if e.packet.command == DATA_STORE {
        effects := StoreFile(i, e);
      }
    }

    method CloseClient(i: nat)
      requires Valid() && i < buffer.Length && pool.clientfd[i] >= 0
      modifies pool`readSet, pool.clientfd, buffer, lastSeqNum, bytesRead
      ensures Valid()
      ensures Slots() == old(Slots())[i := FREE_SLOT]
      ensures pool.clientfd[i] == -1 && buffer[i] == Null && lastSeqNum[i] == 0 && bytesRead[i] == 0
    {
      pool.CloseSlot(i);
      buffer[i] := Null;
      lastSeqNum[i] := 0;
      bytesRead[i] := 0;
    }

    /** The body of handleClientFds for a ready slot. */
    method ServeReady(i: nat, arrivals: map<int, Arrival>) returns (effects: seq<Effect>)
      requires Valid() && i < buffer.Length && Covers(arrivals, Fds(Slots()), pool.readySet)
      requires pool.clientfd[i] > 0 && pool.clientfd[i] in pool.readySet
      modifies pool`readSet, pool`nready, pool.clientfd, buffer, lastSeqNum, bytesRead
      ensures Valid()
      ensures effects == SlotAfter(old(Slots()), pool.readySet, arrivals, i).1
      ensures !Halts(effects) ==>
        Slots() == old(Slots())[i := SlotAfter(old(Slots()), pool.readySet, arrivals, i).0]
      ensures pool.nready == old(pool.nready) - 1
    {
      assert Fds(Slots())[i] == pool.clientfd[i];
      pool.nready := pool.nready - 1;
      effects := [];
      match arrivals[pool.clientfd[i]] {
        case Closed => CloseClient(i);
        case Unreadable => effects := [Exit];
        case Data(e) => effects := HandleClientRequest(i, e);
      }
    }

    /** The slot that the scan has come to. */
    method ServeIfReady(i: nat, arrivals: map<int, Arrival>) returns (effects: seq<Effect>)
      requires Valid() && i < buffer.Length && Covers(arrivals, Fds(Slots()), pool.readySet)
      modifies pool`readSet, pool`nready, pool.clientfd, buffer, lastSeqNum, bytesRead
      ensures Valid()
      ensures effects == SlotAfter(old(Slots()), pool.readySet, arrivals, i).1
      ensures !Halts(effects) ==>
        Slots() == old(Slots())[i := SlotAfter(old(Slots()), pool.readySet, arrivals, i).0]
      ensures pool.nready == old(pool.nready) - if Ready(old(Slots())[i], pool.readySet) then 1 else 0
    {
      var clientSock := pool.clientfd[i];
      assert clientSock == Slots()[i].fd;
      effects := [];
      if clientSock > 0 && clientSock in pool.readySet {
        effects := ServeReady(i, arrivals);
      }
    }

    method ServeNext(ghost before: seq<Slot>, arrivals: map<int, Arrival>, effects: seq<seq<Effect>>, i: nat,
        ghost start: int) returns (after: seq<seq<Effect>>)
      requires Valid() && i < buffer.Length
      requires Scanning(before, pool.readySet, arrivals, Slots(), effects, i, pool.nready, start)
      modifies pool`readSet, pool`nready, pool.clientfd, buffer, lastSeqNum, bytesRead
      ensures Valid() && |after| == i + 1
      ensures Halts(after[i]) ==> !GoesOn(after) && !GoesOn(EffectsOf(before, pool.readySet, arrivals))
      ensures !Halts(after[i]) ==>
        Scanning(before, pool.readySet, arrivals, Slots(), after, i + 1, pool.nready, start)
    {
      ghost var slots, left := Slots(), pool.nready;
      ScannedCovers(before, pool.readySet, arrivals, slots, effects, i);
      SlotAfterSame(before, slots, pool.readySet, arrivals, i);
      var out := ServeIfReady(i, arrivals);
      if Halts(out) {
        HaltSeen(before, pool.readySet, arrivals, effects, i, out);
      } else {
        ScanningStep(before, pool.readySet, arrivals, slots, effects, i, out, left, start);
      }
      after := effects + [out];
    }

    /** handleClientFds: although it stops as soon as nready is used up or maxi is passed, it serves
        every ready client once and nobody else, unless one of them brings the server down. */
    method HandleClientFds(arrivals: map<int, Arrival>) returns (effects: seq<seq<Effect>>)
      requires Valid() && Covers(arrivals, Fds(Slots()), pool.readySet)
      requires pool.nready >= ReadyFrom(Fds(Slots()), pool.readySet, 0)
      modifies pool`readSet, pool`nready, pool.clientfd, buffer, lastSeqNum, bytesRead
      ensures GoesOn(effects) <==> GoesOn(EffectsOf(old(Slots()), pool.readySet, arrivals))
      ensures GoesOn(effects) ==>
        Valid() && AllServed(old(Slots()), pool.readySet, arrivals, Slots(), effects, pool.nready, old(pool.nready))
    {
      ghost var before := Slots();
      ghost var ready := pool.readySet;
      var n := pool.clientfd.Length;
      effects := [];
      var i := 0;
      while i <= pool.maxi && pool.nready > 0
        invariant 0 <= i <= n && Valid()
        invariant Scanning(before, ready, arrivals, Slots(), effects, i, pool.nready, old(pool.nready))
      {
        effects := ServeNext(before, arrivals, effects, i, old(pool.nready));
        if Halts(effects[i]) {
          return;
        }
        i := i + 1;
      }
      ScanningEnd(before, ready, arrivals, Slots(), effects, i, pool.nready, old(pool.nready));
      effects := effects + seq(n - i, _ => []);
    }

    /** accept and addClient. */
    method AcceptClient(clientSock: int)
      requires Valid() && 0 < clientSock < buffer.Length && clientSock !in pool.readSet
      modifies pool`nready, pool`readSet, pool`maxfd, pool`maxi, pool.clientfd
      ensures Valid() && Slots() == Admit(old(Slots()), Some(clientSock))
      ensures pool.nready == old(pool.nready) - 1
    {
      ghost var before := Slots();
      ghost var slot := pool.AddClient(clientSock);
      assert Slots() == before[slot := before[slot].(fd := clientSock)];
    }

    /** The part of the main loop that looks at the listener. */
    method AcceptIfReady(accepted: Option<int>)
      requires Valid()
      requires accepted.Some? ==> 0 < accepted.value < buffer.Length && accepted.value !in pool.readSet
      modifies pool`nready, pool`readSet, pool`maxfd, pool`maxi, pool.clientfd
      ensures Valid() && Slots() == Admitted(old(Slots()), pool.listener, pool.readySet, accepted)
      ensures pool.nready ==
        old(pool.nready) - if pool.listener in pool.readySet && accepted.Some? then 1 else 0
    {
      if pool.listener in pool.readySet && accepted.Some? {
        AcceptClient(accepted.value);
      }
    }

    /** One round of the main loop: select, at most one accept, then the scan. */
    method Round(ready: set<int>, accepted: Option<int>, arrivals: map<int, Arrival>)
        returns (effects: seq<seq<Effect>>)
      requires Valid() && GoodRound(Fds(Slots()), pool.listener, ready, accepted, arrivals)
      modifies pool, pool.clientfd, buffer, lastSeqNum, bytesRead
      ensures Covers(arrivals, Fds(Admitted(old(Slots()), pool.listener, ready, accepted)), ready)
      ensures var slots := Admitted(old(Slots()), pool.listener, ready, accepted);
        && (GoesOn(effects) <==> GoesOn(EffectsOf(slots, ready, arrivals)))
        && (GoesOn(effects) ==> Valid() && Slots() == ServeAll(slots, ready, arrivals)
                                 && effects == EffectsOf(slots, ready, arrivals))
    {
      ghost var before := Slots();
      SelectCount(Fds(before), pool.listener, ready);
      AdmittedReady(before, pool.listener, ready, accepted, arrivals);
      pool.Select(ready);
      assert Slots() == before;
      AcceptIfReady(accepted);
      effects := HandleClientFds(arrivals);
    }
  }

  // ---------- the scan on values ----------

  /** The first i slots have been served, the others not yet. */
  ghost predicate Scanned(before: seq<Slot>, ready: set<int>, arrivals: map<int, Arrival>,
      slots: seq<Slot>, effects: seq<seq<Effect>>, i: nat)
  {
    && Covers(arrivals, Fds(before), ready)
    && i == |effects| <= |before| == |slots|
    && (forall k :: 0 <= k < i ==> (slots[k], effects[k]) == SlotAfter(before, ready, arrivals, k))
    && (forall k :: i <= k < |slots| ==> slots[k] == before[k])
  }

  lemma ScannedCovers(before: seq<Slot>, ready: set<int>, arrivals: map<int, Arrival>,
      slots: seq<Slot>, effects: seq<seq<Effect>>, i: nat)
    requires Scanned(before, ready, arrivals, slots, effects, i)
    ensures Covers(arrivals, Fds(slots), ready)
  {
    forall k | 0 <= k < |slots| && Fds(slots)[k] > 0
      ensures slots[k].fd == before[k].fd
    {
      assert k < i ==> (slots[k], effects[k]) == SlotAfter(before, ready, arrivals, k);
    }
    forall k | 0 <= k < |slots| && Fds(slots)[k] > 0 && Fds(slots)[k] in ready
      ensures Fds(slots)[k] in arrivals
      ensures arrivals[Fds(slots)[k]].Data? ==> WellFormed(arrivals[Fds(slots)[k]].event.packet)
    {
      assert Fds(before)[k] == Fds(slots)[k];
    }
  }

  lemma HaltSeen(before: seq<Slot>, ready: set<int>, arrivals: map<int, Arrival>,
      effects: seq<seq<Effect>>, i: nat, out: seq<Effect>)
    requires Covers(arrivals, Fds(before), ready) && i < |before|
    requires Halts(out) && out == SlotAfter(before, ready, arrivals, i).1
    ensures !GoesOn(effects + [out])
    ensures !GoesOn(EffectsOf(before, ready, arrivals))
  {
    assert (effects + [out])[|effects|] == out;
    assert EffectsOf(before, ready, arrivals)[i] == out;
  }

  lemma SlotAfterSame(before: seq<Slot>, slots: seq<Slot>, ready: set<int>, arrivals: map<int, Arrival>, i: nat)
    requires Covers(arrivals, Fds(before), ready) && Covers(arrivals, Fds(slots), ready)
    requires i < |before| && i < |slots| && before[i] == slots[i]
    ensures SlotAfter(before, ready, arrivals, i) == SlotAfter(slots, ready, arrivals, i)
  {
  }

  /** And what is left of nready is enough for those that have not been served. */
  ghost predicate Scanning(before: seq<Slot>, ready: set<int>, arrivals: map<int, Arrival>,
      slots: seq<Slot>, effects: seq<seq<Effect>>, i: nat, left: int, start: int)
  {
    && GoesOn(effects)
    && Scanned(before, ready, arrivals, slots, effects, i)
    && left >= ReadyFrom(Fds(before), ready, i)
    && left - ReadyFrom(Fds(before), ready, i) == start - ReadyFrom(Fds(before), ready, 0)
  }

  lemma ScanningEnd(before: seq<Slot>, ready: set<int>, arrivals: map<int, Arrival>,
      slots: seq<Slot>, effects: seq<seq<Effect>>, i: nat, left: int, start: int)
    requires Scanning(before, ready, arrivals, slots, effects, i, left, start)
    requires left <= 0 || forall k :: i <= k < |slots| ==> slots[k].fd < 0
    ensures var all := effects + seq(|slots| - i, _ => []);
      GoesOn(all) && AllServed(before, ready, arrivals, slots, all, left, start)
  {
    ReadyFromNone(Fds(before), ready, i);
    ScanEnd(before, ready, arrivals, slots, effects, i);
  }

  lemma ScanningStep(before: seq<Slot>, ready: set<int>, arrivals: map<int, Arrival>,
      slots: seq<Slot>, effects: seq<seq<Effect>>, i: nat, out: seq<Effect>, left: int, start: int)
    requires Scanning(before, ready, arrivals, slots, effects, i, left, start) && i < |slots|
    requires out == SlotAfter(before, ready, arrivals, i).1 && !Halts(out)
    ensures var left' := left - if Ready(slots[i], ready) then 1 else 0;
      var slot := SlotAfter(before, ready, arrivals, i).0;
      Scanning(before, ready, arrivals, slots[i := slot], effects + [out], i + 1, left', start)
  {
    assert Fds(before)[i] == before[i].fd == slots[i].fd;
  }

  /** Nothing is ready in the slots that a scan did not reach. */
  lemma ScanEnd(before: seq<Slot>, ready: set<int>, arrivals: map<int, Arrival>,
      slots: seq<Slot>, effects: seq<seq<Effect>>, i: nat)
    requires Scanned(before, ready, arrivals, slots, effects, i)
    requires forall k :: i <= k < |before| ==> !Ready(before[k], ready)
    ensures slots == ServeAll(before, ready, arrivals)
    ensures effects + seq(|slots| - i, _ => []) == EffectsOf(before, ready, arrivals)
  {
    forall k | 0 <= k < |slots|
      ensures slots[k] == SlotAfter(before, ready, arrivals, k).0
      ensures (effects + seq(|slots| - i, _ => []))[k] == SlotAfter(before, ready, arrivals, k).1
    {
      assert k < i ==> (slots[k], effects[k]) == SlotAfter(before, ready, arrivals, k);
    }
  }

  // ---------- a round on values ----------

  /** What select, accept and the sockets may deliver: ready descriptors come from the read set, and
      accept returns a descriptor that is positive, unused and below the size of the set. */
  ghost predicate GoodRound(fds: seq<int>, listener: int, ready: set<int>, accepted: Option<int>,
      arrivals: map<int, Arrival>)
  {
    && ready <= {listener} + Clients(fds)
    && Covers(arrivals, fds, ready)
    && (accepted.Some? ==> 0 < accepted.value < |fds| && accepted.value !in {listener} + Clients(fds))
  }

  function Admitted(slots: seq<Slot>, listener: int, ready: set<int>, accepted: Option<int>): (after: seq<Slot>)
    ensures |after| == |slots|
  {
    if listener in ready then Admit(slots, accepted) else slots
  }

  /** A client accepted in this round is not ready in it. */
  lemma AdmittedReady(slots: seq<Slot>, listener: int, ready: set<int>, accepted: Option<int>,
      arrivals: map<int, Arrival>)
    requires GoodRound(Fds(slots), listener, ready, accepted, arrivals)
    ensures var after := Admitted(slots, listener, ready, accepted);
      && Covers(arrivals, Fds(after), ready)
      && ReadyFrom(Fds(after), ready, 0) == ReadyFrom(Fds(slots), ready, 0)
  {
    var after := Admitted(slots, listener, ready, accepted);
    ReadyFromSame(Fds(slots), Fds(after), ready, 0);
  }
}
