/**
 The registry of child ports of a super node: an array of (id, port) entries in which port 0 marks an
 empty entry. The ids of empty entries are never initialised, so they are arbitrary here.
 */
module DirRegistry {
  datatype Entry = Entry(id: nat, portNum: nat)

  // ---------- the specification: the announcements that count ----------

  /** The announcements that get an entry: those with a port other than 0, while entries last. */
  function Accepted(hellos: seq<Entry>, capacity: nat): (a: seq<Entry>)
    ensures |a| <= capacity
    ensures forall i :: 0 <= i < |a| ==> a[i].portNum != 0
  {
    if hellos == [] then []
    else
      var before, last := Accepted(hellos[..|hellos| - 1], capacity), hellos[|hellos| - 1];
      if last.portNum == 0 || |before| == capacity then before else before + [last]
  }

  /** The port of the first entry with this id, or 0. */
  function PortOf(entries: seq<Entry>, id: nat): nat {
    if entries == [] then 0
    else if entries[0].id == id then entries[0].portNum
    else PortOf(entries[1..], id)
  }

  // ---------- the array ----------

  /** The first empty entry, or the length when there is none. */
  function FirstFree(entries: seq<Entry>): (i: nat)
    ensures i <= |entries|
    ensures forall k :: 0 <= k < i ==> entries[k].portNum != 0
    ensures i < |entries| ==> entries[i].portNum == 0
  {
    if entries == [] then 0 else if entries[0].portNum == 0 then 0 else 1 + FirstFree(entries[1..])
  }

  function Register(entries: seq<Entry>, hello: Entry): seq<Entry> {
    var i := FirstFree(entries);
    if i == |entries| then entries else entries[i := hello]
  }

  /** The entries after a sequence of announcements, from entries with port 0 and these stale ids. */
  function Entries(stale: seq<nat>, hellos: seq<Entry>): seq<Entry> {
    if hellos == [] then seq(|stale|, i requires 0 <= i < |stale| => Entry(stale[i], 0))
    else Register(Entries(stale, hellos[..|hellos| - 1]), hellos[|hellos| - 1])
  }

  class ChildPorts {
    const childPorts: array<Entry>

    constructor (stale: seq<nat>)
      ensures fresh(childPorts) && childPorts[..] == Entries(stale, [])
    {
      childPorts := new Entry[|stale|](i requires 0 <= i < |stale| => Entry(stale[i], 0));
    }

    method HelloFromChild(id: nat, portNum: nat)
      modifies childPorts
      ensures childPorts[..] == Register(old(childPorts[..]), Entry(id, portNum))
    {
      ghost var before := childPorts[..];
      var i := 0;
      while i < childPorts.Length
        invariant 0 <= i <= FirstFree(before)
        invariant childPorts[..] == before
      {
        if childPorts[i].portNum != 0 {
          i := i + 1;
          continue;
        }
        childPorts[i] := Entry(id, portNum);
        return;
      }
    }

    /** The lookup of FILE_INFO: 0 means that no port was found. */
    method FindPort(id: nat) returns (childPort: nat)
      ensures childPort == PortOf(childPorts[..], id)
    {
      childPort := 0;
      var i := 0;
      while i < childPorts.Length
        invariant 0 <= i <= childPorts.Length
        invariant childPort == 0 && PortOf(childPorts[..], id) == PortOf(childPorts[i..], id)
      {
        if childPorts[i].id == id {
          childPort := childPorts[i].portNum;
          break;
        }
        i := i + 1;
      }
    }
  }

  // ---------- the array refines the announcements ----------

  /** The occupied entries are a prefix: the accepted announcements in order. */
  lemma {:induction false} OccupiedPrefix(stale: seq<nat>, hellos: seq<Entry>)
    ensures var entries, a := Entries(stale, hellos), Accepted(hellos, |stale|);
      && |entries| == |stale| && a == entries[..|a|]
      && forall i :: |a| <= i < |stale| ==> entries[i].portNum == 0
  {
    if hellos != [] {
      OccupiedPrefix(stale, hellos[..|hellos| - 1]);
      var entries := Entries(stale, hellos[..|hellos| - 1]);
      var a := Accepted(hellos[..|hellos| - 1], |stale|);
      var i := FirstFree(entries);
      assert forall k :: 0 <= k < |a| ==> entries[k] == a[k];
      assert |a| < |stale| ==> entries[|a|].portNum == 0;
      assert i == |a|;
    }
  }

  lemma {:induction false} PortOfPrefix(entries: seq<Entry>, a: seq<Entry>, id: nat)
    requires a <= entries
    requires forall i :: |a| <= i < |entries| ==> entries[i].portNum == 0
    ensures PortOf(entries, id) == PortOf(a, id)
  {
    if a != [] {
      PortOfPrefix(entries[1..], a[1..], id);
    } else if entries != [] {
      PortOfPrefix(entries[1..], a, id);
    }
  }

  /** For every sequence of announcements, whatever the stale ids: a lookup answers with the port of
      the first accepted announcement of the id, and with "not found" when there is none. */
  lemma LookupRefinesHellos(stale: seq<nat>, hellos: seq<Entry>, id: nat)
    ensures PortOf(Entries(stale, hellos), id) == PortOf(Accepted(hellos, |stale|), id)
  {
    OccupiedPrefix(stale, hellos);
    PortOfPrefix(Entries(stale, hellos), Accepted(hellos, |stale|), id);
  }

  /** A child that was never accepted is not found, whatever the stale ids. */
  lemma UnknownChildNotFound(stale: seq<nat>, hellos: seq<Entry>, id: nat)
    ensures PortOf(Entries(stale, hellos), id) == 0 <==>
      forall i :: 0 <= i < |Accepted(hellos, |stale|)| ==> Accepted(hellos, |stale|)[i].id != id
  {
    LookupRefinesHellos(stale, hellos, id);
    PortOfMeaning(Accepted(hellos, |stale|), id);
  }

  lemma {:induction false} PortOfMeaning(entries: seq<Entry>, id: nat)
    requires forall i :: 0 <= i < |entries| ==> entries[i].portNum != 0
    ensures PortOf(entries, id) == 0 <==> forall i :: 0 <= i < |entries| ==> entries[i].id != id
  {
    if entries != [] {
      PortOfMeaning(entries[1..], id);
      assert forall i :: 1 <= i < |entries| ==> entries[i] == entries[1..][i - 1];
    }
  }

  /** The port of an id is that of the first entry that has it. */
  lemma {:induction false} PortOfIsFirst(entries: seq<Entry>, id: nat, i: nat)
    requires i < |entries| && entries[i].id == id && forall j :: 0 <= j < i ==> entries[j].id != id
    ensures PortOf(entries, id) == entries[i].portNum
  {
    if i > 0 {
      PortOfIsFirst(entries[1..], id, i - 1);
    }
  }

  lemma {:induction false} AcceptedAreHellos(hellos: seq<Entry>, capacity: nat)
    ensures forall i :: 0 <= i < |Accepted(hellos, capacity)| ==> Accepted(hellos, capacity)[i] in hellos
  {
    if hellos != [] {
      AcceptedAreHellos(hellos[..|hellos| - 1], capacity);
    }
  }

  /** With at most as many announcements as entries, no zero ports and distinct ids, every child is
      found under the port it announced. */
  lemma EveryChildFound(stale: seq<nat>, hellos: seq<Entry>, i: nat)
    requires |hellos| <= |stale| && i < |hellos|
    requires forall k :: 0 <= k < |hellos| ==> hellos[k].portNum != 0
    requires forall j, k :: 0 <= j < k < |hellos| ==> hellos[j].id != hellos[k].id
    ensures PortOf(Entries(stale, hellos), hellos[i].id) == hellos[i].portNum
  {
    AllAccepted(hellos, |stale|);
    LookupRefinesHellos(stale, hellos, hellos[i].id);
    DistinctPort(hellos, i);
  }

  lemma {:induction false} AllAccepted(hellos: seq<Entry>, capacity: nat)
    requires |hellos| <= capacity
    requires forall k :: 0 <= k < |hellos| ==> hellos[k].portNum != 0
    ensures Accepted(hellos, capacity) == hellos
  {
    if hellos != [] {
      AllAccepted(hellos[..|hellos| - 1], capacity);
    }
  }

  lemma {:induction false} DistinctPort(hellos: seq<Entry>, i: nat)
    requires i < |hellos|
    requires forall j, k :: 0 <= j < k < |hellos| ==> hellos[j].id != hellos[k].id
    ensures PortOf(hellos, hellos[i].id) == hellos[i].portNum
  {
    if i > 0 {
      DistinctPort(hellos[1..], i - 1);
    }
  }
}
