/**
 The pool of file descriptors that the select loops of p2, p3 and p4 share: a fixed array of slots
 (a negative entry is free), the set to select on, and two bounds that save scanning time. A
 descriptor set is a set of numbers.
 */
module SelectPool {
  import opened Counting

  /** The descriptors of the occupied slots. */
  function Clients(fds: seq<int>): set<int> {
    set i | 0 <= i < |fds| && fds[i] >= 0 :: fds[i]
  }

  function FirstFree(fds: seq<int>): (i: nat)
    ensures i <= |fds|
    ensures forall k :: 0 <= k < i ==> fds[k] >= 0
    ensures i < |fds| ==> fds[i] < 0
  {
    if fds == [] then 0 else if fds[0] < 0 then 0 else 1 + FirstFree(fds[1..])
  }

  /** The slots are consistent: free entries are -1, clients are distinct positive descriptors below
      the number of slots, and none is the listener. */
  ghost predicate GoodSlots(fds: seq<int>, listener: int) {
    && 0 <= listener < |fds|
    && (forall i :: 0 <= i < |fds| ==> fds[i] == -1 || (0 < fds[i] < |fds| && fds[i] != listener))
    && (forall i, j :: 0 <= i < j < |fds| && fds[i] >= 0 ==> fds[i] != fds[j])
  }

  lemma {:induction false} DistinctSize(fds: seq<int>)
    requires forall i, j :: 0 <= i < j < |fds| ==> fds[i] != fds[j]
    ensures |set x | x in fds| == |fds|
  {
    if fds != [] {
      var front, last := fds[..|fds| - 1], fds[|fds| - 1];
      DistinctSize(front);
      assert fds == front + [last];
      assert (set x | x in fds) == (set x | x in front) + {last};
    }
  }

  /** There are more slots than descriptors a client can have, so a new one always finds a slot. */
  lemma SlotAlwaysFree(fds: seq<int>, listener: int)
    requires GoodSlots(fds, listener)
    ensures FirstFree(fds) < |fds|
  {
    if FirstFree(fds) == |fds| {
      DistinctSize(fds);
      SubsetSize((set x | x in fds), Below(|fds|) - {listener});
    }
  }

  /** The number of ready slots from slot i on. */
  function ReadyFrom(fds: seq<int>, ready: set<int>, i: nat): nat
    requires i <= |fds|
    decreases |fds| - i
  {
    if i == |fds| then 0
    else (if fds[i] > 0 && fds[i] in ready then 1 else 0) + ReadyFrom(fds, ready, i + 1)
  }

  lemma {:induction false} ReadyFromNone(fds: seq<int>, ready: set<int>, i: nat)
    requires i <= |fds|
    ensures ReadyFrom(fds, ready, i) == 0 <==>
      forall k :: i <= k < |fds| ==> !(fds[k] > 0 && fds[k] in ready)
    decreases |fds| - i
  {
    if i < |fds| {
      ReadyFromNone(fds, ready, i + 1);
    }
  }

  lemma {:induction false} ReadyFromSame(fds: seq<int>, other: seq<int>, ready: set<int>, i: nat)
    requires i <= |fds| == |other|
    requires forall k :: i <= k < |fds| ==> (fds[k] > 0 && fds[k] in ready <==> other[k] > 0 && other[k] in ready)
    ensures ReadyFrom(fds, ready, i) == ReadyFrom(other, ready, i)
    decreases |fds| - i
  {
    if i < |fds| {
      ReadyFromSame(fds, other, ready, i + 1);
    }
  }

  function ReadyClients(fds: seq<int>, ready: set<int>, i: nat): set<int>
    requires i <= |fds|
  {
    set k | i <= k < |fds| && fds[k] > 0 && fds[k] in ready :: fds[k]
  }

  /** Distinct descriptors: counting ready slots is counting ready descriptors. */
  lemma {:induction false} ReadyCount(fds: seq<int>, listener: int, ready: set<int>, i: nat)
    requires GoodSlots(fds, listener) && i <= |fds|
    ensures ReadyFrom(fds, ready, i) == |ReadyClients(fds, ready, i)|
    decreases |fds| - i
  {
    if i < |fds| {
      ReadyCount(fds, listener, ready, i + 1);
      if fds[i] > 0 && fds[i] in ready {
        assert ReadyClients(fds, ready, i) == ReadyClients(fds, ready, i + 1) + {fds[i]};
      } else {
        assert ReadyClients(fds, ready, i) == ReadyClients(fds, ready, i + 1);
      }
    }
  }

  lemma ReadyIsClients(fds: seq<int>, listener: int, ready: set<int>)
    requires GoodSlots(fds, listener) && ready <= {listener} + Clients(fds)
    ensures ReadyClients(fds, ready, 0) == ready - {listener}
  {
  }

  /** What select returns is the number of ready slots, plus one if the listener is ready. */
  lemma SelectCount(fds: seq<int>, listener: int, ready: set<int>)
    requires GoodSlots(fds, listener) && ready <= {listener} + Clients(fds)
    ensures |ready| == ReadyFrom(fds, ready, 0) + (if listener in ready then 1 else 0)
  {
    ReadyCount(fds, listener, ready, 0);
    ReadyIsClients(fds, listener, ready);
  }

  class FdPool {
    const listener: int
    const clientfd: array<int>
    var maxfd: int
    var readSet: set<int>
    var maxi: int
    var readySet: set<int>
    var nready: int

    ghost predicate Valid()
      reads this, clientfd
    {
      && GoodSlots(clientfd[..], listener)
      && readSet == {listener} + Clients(clientfd[..])
      && listener <= maxfd < clientfd.Length
      && (forall i :: 0 <= i < clientfd.Length ==> clientfd[i] <= maxfd)
      && maxi < clientfd.Length
      && (forall i :: 0 <= i < clientfd.Length && clientfd[i] >= 0 ==> i <= maxi)
    }

    /** initPool; maxi is left as it was found. */
    constructor (size: nat, sockfd: int, uninitialisedMaxi: int)
      requires 0 <= sockfd < size && uninitialisedMaxi < size
      ensures Valid() && fresh(clientfd) && clientfd.Length == size && listener == sockfd
      ensures clientfd[..] == seq(size, _ => -1) && readSet == {sockfd}
    {
      listener := sockfd;
      clientfd := new int[size];
      maxi := uninitialisedMaxi;
      readySet := {};
      nready := 0;
      maxfd := sockfd;
      readSet := {sockfd};
      new;
      for i := 0 to size
        invariant forall k :: 0 <= k < i ==> clientfd[k] == -1
        invariant clientfd.Length == size
        modifies clientfd
      {
        clientfd[i] := -1;
      }
      assert Clients(clientfd[..]) == {};
    }

    /** select: any subset of the read set may be ready. */
    method Select(ready: set<int>)
      requires Valid() && ready <= readSet
      modifies this`readySet, this`nready
      ensures Valid() && readySet == ready && nready == |ready|
    {
      readySet := ready;
      nready := |ready|;
    }

    /** addClient for a descriptor that accept has just returned: it takes the first free slot, which
        always exists; everything else stays. */
    method AddClient(sockfd: int) returns (ghost slot: nat)
      requires Valid() && 0 < sockfd < clientfd.Length && sockfd !in readSet
      modifies this`nready, this`readSet, this`maxfd, this`maxi, clientfd
      ensures Valid()
      ensures slot == FirstFree(old(clientfd[..])) < clientfd.Length
      ensures clientfd[..] == old(clientfd[..])[slot := sockfd]
      ensures readSet == old(readSet) + {sockfd}
      ensures nready == old(nready) - 1
    {
      ghost var before := clientfd[..];
      SlotAlwaysFree(before, listener);
      slot := FirstFree(before);
      ClientsAdded(before, slot, sockfd, listener);
      nready := nready - 1;
      var i := 0;
      while i < clientfd.Length && clientfd[i] >= 0
        invariant 0 <= i <= slot
        invariant clientfd[..] == before
      {
        i := i + 1;
      }
      if i < clientfd.Length {
        clientfd[i] := sockfd;
        readSet := readSet + {sockfd};
        if sockfd > maxfd {
          maxfd := sockfd;
        }
        if i > maxi {
          maxi := i;
        }
      }
      assert clientfd[..] == before[slot := sockfd];
    }

    /** The part of handleClientFds that closes the connection of one slot. */
    method CloseSlot(i: nat)
      requires Valid() && i < clientfd.Length && clientfd[i] >= 0
      modifies this`readSet, clientfd
      ensures Valid()
      ensures clientfd[..] == old(clientfd[..])[i := -1]
      ensures readSet == old(readSet) - {old(clientfd[i])}
    {
      ghost var before := clientfd[..];
      readSet := readSet - {clientfd[i]};
      clientfd[i] := -1;
      assert clientfd[..] == before[i := -1];
      ClientsRemoved(before, i, listener);
    }
  }

  lemma ClientsAdded(fds: seq<int>, i: nat, fd: int, listener: int)
    requires GoodSlots(fds, listener) && i < |fds| && fds[i] < 0
    requires 0 < fd < |fds| && fd != listener && fd !in Clients(fds)
    ensures Clients(fds[i := fd]) == Clients(fds) + {fd}
    ensures GoodSlots(fds[i := fd], listener)
  {
    var after := fds[i := fd];
    forall x | x in Clients(fds) + {fd}
      ensures x in Clients(after)
    {
      if x == fd {
        assert after[i] == x;
      } else {
        var k :| 0 <= k < |fds| && fds[k] >= 0 && fds[k] == x;
        assert after[k] == x;
      }
    }
  }

  lemma ClientsRemoved(fds: seq<int>, i: nat, listener: int)
    requires i < |fds| && fds[i] >= 0 && GoodSlots(fds, listener)
    ensures Clients(fds[i := -1]) == Clients(fds) - {fds[i]}
  {
    var after := fds[i := -1];
    forall x | x in Clients(fds) - {fds[i]}
      ensures x in Clients(after)
    {
      var k :| 0 <= k < |fds| && fds[k] >= 0 && fds[k] == x;
      assert after[k] == x;
    }
  }
}
