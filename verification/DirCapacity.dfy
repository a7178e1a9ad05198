/** Where the records in the directories come from, and how many there can be. */
module DirCapacity {
  import opened Counting
  import opened DirTable
  import opened DirFileTable
  import opened DirRegistry
  import opened DirReplicas
  import opened DirBlocking

  // ---------- announced ports ----------

  /** The port that a child has announced to this node, or 0. */
  function Announced(node: Super, id: nat): nat {
    PortOf(Accepted(node.hellos, |node.boot.stale|), id)
  }

  lemma RegistryTellsAnnounced(node: Super, id: nat)
    requires node.registry == Entries(node.boot.stale, node.hellos)
    ensures PortOf(node.registry, id) == Announced(node, id)
  {
    LookupRefinesHellos(node.boot.stale, node.hellos, id);
  }

  lemma {:induction false} PortOfAppend(entries: seq<Entry>, e: Entry, id: nat)
    ensures PortOf(entries, id) != 0 ==> PortOf(entries + [e], id) == PortOf(entries, id)
  {
    if entries != [] {
      assert (entries + [e])[1..] == entries[1..] + [e];
      PortOfAppend(entries[1..], e, id);
    }
  }

  lemma AnnouncedStays(node: Super, hello: Entry, id: nat)
    requires Announced(node, id) != 0
    ensures Announced(node.(hellos := node.hellos + [hello]), id) == Announced(node, id)
  {
    assert (node.hellos + [hello])[..|node.hellos|] == node.hellos;
    PortOfAppend(Accepted(node.hellos, |node.boot.stale|), hello, id);
  }

  /** A port that a child has is one that it has announced. */
  lemma AnnouncedIsHello(node: Super, id: nat)
    requires Announced(node, id) != 0
    ensures Entry(id, Announced(node, id)) in node.hellos
  {
    var known := Accepted(node.hellos, |node.boot.stale|);
    PortOfIsEntry(known, id);
    AcceptedAreHellos(node.hellos, |node.boot.stale|);
    var i :| 0 <= i < |known| && known[i] == Entry(id, Announced(node, id));
    assert known[i] in node.hellos;
  }

  lemma {:induction false} PortOfIsEntry(entries: seq<Entry>, id: nat)
    requires PortOf(entries, id) != 0
    ensures Entry(id, PortOf(entries, id)) in entries
  {
    if entries[0].id == id {
      assert entries[0] == Entry(id, PortOf(entries, id));
    } else {
      PortOfIsEntry(entries[1..], id);
      assert forall e :: e in entries[1..] ==> e in entries;
    }
  }

  /** r is the record of a file in a report that `node` has stored, under a port that its child announced there
      and under the address kept for its connection. */
  ghost predicate ComesFrom(node: Super, r: Record) {
    exists k, i :: 0 <= k < |node.served| && 0 <= i < |node.served[k].files| && IsRecord(node, node.served[k], i, r)
  }

  ghost predicate IsRecord(node: Super, report: ChildReport, i: nat, r: Record)
    requires i < |report.files|
  {
    && report.conn < |node.peers| && Announced(node, report.id) != 0
    && Entry(report.id, Announced(node, report.id)) in node.hellos
    && r == Record(report.files[i].name, report.files[i].size,
                   node.peers[report.conn].stored, Announced(node, report.id))
  }

  ghost predicate Genuine(s: State, r: Record) {
    ComesFrom(s.a, r) || ComesFrom(s.b, r)
  }

  ghost predicate AllGenuine(s: State) {
    forall r :: r in s.reported ==> Genuine(s, r)
  }

  /** Reports stay stored, announced ports and addresses stay what they are. */
  ghost predicate Remembers(node: Super, after: Super) {
    && node.served <= after.served && node.peers <= after.peers && node.hellos <= after.hellos
    && forall id :: Announced(node, id) != 0 ==> Announced(after, id) == Announced(node, id)
  }

  lemma ComesFromStays(node: Super, after: Super, r: Record)
    requires ComesFrom(node, r) && Remembers(node, after)
    ensures ComesFrom(after, r)
  {
    var k, i :| 0 <= k < |node.served| && 0 <= i < |node.served[k].files| && IsRecord(node, node.served[k], i, r);
    assert after.served[k] == node.served[k];
    assert forall c :: 0 <= c < |node.peers| ==> after.peers[c] == node.peers[c];
    assert forall h :: h in node.hellos ==> h in after.hellos;
    assert IsRecord(after, after.served[k], i, r);
  }

  /** What a step adds to a node's history. */
  ghost predicate HistoryGrows(s: State, x: Action, t: State, side: Side) {
    var node, after := Of(s, side), Of(t, side);
    && after.boot == node.boot && node.peers <= after.peers
    && after.hellos == (if x.ChildHello? && x.side == side then node.hellos + [x.hello] else node.hellos)
    && after.served ==
      if x.TakeReport? && x.side == side && IsAccepted(s, side, x.report) then node.served + [x.report] else node.served
  }

  ghost predicate SameHistory(node: Super, after: Super) {
    after.boot == node.boot && after.peers == node.peers && after.hellos == node.hellos && after.served == node.served
  }

  lemma ReportHistory(s: State, other: Side, report: ChildReport, side: Side, size: TableSize)
    requires Fits(s, size) && Enabled(s, TakeReport(other, report), size)
    ensures HistoryGrows(s, TakeReport(other, report), Next(s, TakeReport(other, report), size), side)
  {
    TakeReportEffect(s, other, report, size);
    var t := Next(s, TakeReport(other, report), size);
    if IsAccepted(s, other, report) {
      StoredHistory(s, t, other, report, RecordsOf(Of(s, other), report), size);
    }
    assert side == other || side == other.Other();
  }

  lemma StoredHistory(s: State, t: State, side: Side, report: ChildReport, records: seq<Record>, size: TableSize)
    requires |Of(s, side).log| <= size && Stored(s, t, side, report, records, size)
    ensures Of(t, side).boot == Of(s, side).boot && Of(t, side).hellos == Of(s, side).hellos
    ensures Of(t, side).served == Of(s, side).served + [report]
    ensures SameHistory(Of(s, side.Other()), Of(t, side.Other()))
  {
  }

  lemma ShareHistory(s: State, other: Side, id: nat, junk: seq<seq<int>>, side: Side, size: TableSize)
    requires Fits(s, size) && Enabled(s, TakeShare(other, id, junk), size)
    ensures HistoryGrows(s, TakeShare(other, id, junk), Next(s, TakeShare(other, id, junk), size), side)
  {
    TakeShareEffect(s, other, id, junk, size);
    SharedHistory(s, Next(s, TakeShare(other, id, junk), size), other, Of(s, other.Other()).phase.batch, size);
    assert side == other || side == other.Other();
  }

  lemma SharedHistory(s: State, t: State, side: Side, batch: seq<Record>, size: TableSize)
    requires |Of(s, side).log| <= size && Shared(s, t, side, batch, size)
    ensures SameHistory(Of(s, side), Of(t, side))
    ensures SameHistory(Of(s, side.Other()), Of(t, side.Other()))
  {
  }

  lemma StepHistory(s: State, x: Action, side: Side, size: TableSize)
    requires Fits(s, size) && Enabled(s, x, size)
    ensures HistoryGrows(s, x, Next(s, x, size), side)
  {
    match x
    case TakeReport(other, report) => ReportHistory(s, other, report, side, size);
    case TakeShare(other, id, junk) => ShareHistory(s, other, id, junk, side, size);
    case _ => QuietHistory(s, x, side, size);
  }

  lemma QuietHistory(s: State, x: Action, side: Side, size: TableSize)
    requires Fits(s, size) && Enabled(s, x, size) && !x.TakeReport? && !x.TakeShare?
    ensures HistoryGrows(s, x, Next(s, x, size), side)
  {
    if x.ChildHello? || x.Connect? {
      assert Of(Next(s, x, size), x.side.Other()) == Of(s, x.side.Other());
    } else {
      assert SameHistory(Of(s, side), Of(Next(s, x, size), side));
    }
  }

  lemma HistoryRemembers(s: State, x: Action, t: State, side: Side)
    requires HistoryGrows(s, x, t, side)
    ensures Remembers(Of(s, side), Of(t, side))
  {
    if x.ChildHello? && x.side == side {
      forall id | Announced(Of(s, side), id) != 0
        ensures Announced(Of(t, side), id) == Announced(Of(s, side), id)
      {
        AnnouncedStays(Of(s, side), x.hello, id);
      }
    } else {
      assert Of(t, side).hellos == Of(s, side).hellos;
    }
  }

  lemma StepRemembers(s: State, x: Action, side: Side, size: TableSize)
    requires Fits(s, size) && Enabled(s, x, size)
    ensures Remembers(Of(s, side), Of(Next(s, x, size), side))
  {
    StepHistory(s, x, side, size);
    HistoryRemembers(s, x, Next(s, x, size), side);
  }

  lemma ReportGenuine(s: State, side: Side, report: ChildReport, size: TableSize, r: Record)
    requires Inv(s, size) && Enabled(s, TakeReport(side, report), size) && IsAccepted(s, side, report)
    requires r in RecordsOf(Of(s, side), report)
    ensures ComesFrom(Of(Next(s, TakeReport(side, report), size), side), r)
  {
    var node := Of(s, side);
    TakeReportEffect(s, side, report, size);
    RegistryTellsAnnounced(node, report.id);
    AnnouncedIsHello(node, report.id);
    var after := Of(Next(s, TakeReport(side, report), size), side);
    var records := RecordsOf(node, report);
    var i :| 0 <= i < |records| && records[i] == r;
    assert after.served[|node.served|] == report;
    assert IsRecord(after, report, i, r);
  }

  lemma StaysGenuine(s: State, t: State, r: Record)
    requires Genuine(s, r) && Remembers(s.a, t.a) && Remembers(s.b, t.b)
    ensures Genuine(t, r)
  {
    if ComesFrom(s.a, r) {
      ComesFromStays(s.a, t.a, r);
    } else {
      ComesFromStays(s.b, t.b, r);
    }
  }

  /** A record that a step adds to the reported ones comes from the report that it takes. */
  lemma NewlyReported(s: State, x: Action, size: TableSize, r: Record)
    requires Fits(s, size) && Enabled(s, x, size) && r in Next(s, x, size).reported && r !in s.reported
    ensures x.TakeReport? && IsAccepted(s, x.side, x.report) && r in RecordsOf(Of(s, x.side), x.report)
  {
    match x
    case TakeReport(side, report) =>
      TakeReportEffect(s, side, report, size);
      assert IsAccepted(s, side, report) ==> r in multiset(RecordsOf(Of(s, side), report));
    case TakeShare(side, id, junk) => TakeShareEffect(s, side, id, junk, size);
    case _ =>
  }

  lemma StepGenuine(s: State, x: Action, size: TableSize)
    requires Inv(s, size) && Enabled(s, x, size) && AllGenuine(s)
    ensures AllGenuine(Next(s, x, size))
  {
    var t := Next(s, x, size);
    StepRemembers(s, x, A, size);
    StepRemembers(s, x, B, size);
    forall r | r in t.reported
      ensures Genuine(t, r)
    {
      if r in s.reported {
        StaysGenuine(s, t, r);
      } else {
        NewlyReported(s, x, size, r);
        ReportGenuine(s, x.side, x.report, size, r);
      }
    }
  }

  lemma {:induction false} RunGenuine(s: State, acts: seq<Action>, t: State, size: TableSize)
    requires Inv(s, size) && AllGenuine(s) && Run(s, acts, t, size)
    ensures AllGenuine(t)
    decreases |acts|
  {
    if acts != [] {
      StepGenuine(s, acts[0], size);
      NextInv(s, acts[0], size);
      RunGenuine(Next(s, acts[0], size), acts[1..], t, size);
    }
  }

  lemma ReachableGenuine(s: State, size: TableSize)
    requires Reachable(s, size)
    ensures AllGenuine(s)
  {
    var bootA, bootB, acts :| Run(Start(bootA, bootB), acts, s, size);
    StartInv(bootA, bootB, size);
    RunGenuine(Start(bootA, bootB), acts, s, size);
  }

  /** In every reachable state every record at either node describes a file of a report that one of the
      nodes has taken, under a port that the reporting child had announced to that node, whatever ids the
      empty registry entries hold, and under the address that the node keeps for its connection. */
  lemma RecordsCarryAnnouncedPorts(s: State, side: Side, r: Record, size: TableSize)
    requires Reachable(s, size) && r in Of(s, side).log
    ensures Genuine(s, r)
  {
    ReachableInv(s, size);
    ReachableGenuine(s, size);
    InReported(s, side, r);
  }

  lemma InReported(s: State, side: Side, r: Record)
    requires Accounted(s, side) && r in Of(s, side).log
    ensures r in s.reported
  {
    assert r in multiset(Of(s, side).log) + InFlightTo(s, side) + Of(s, side).missed;
  }

  /** The report of a child that this node has no announced port of changes nothing; any other of at most
      10 files is stored. */
  lemma ReportStoredIff(s: State, side: Side, report: ChildReport, size: TableSize)
    requires Reachable(s, size) && Enabled(s, TakeReport(side, report), size)
    ensures Fits(s, size)
    ensures var t := Next(s, TakeReport(side, report), size);
      if |report.files| <= 10 && Announced(Of(s, side), report.id) != 0 then
        Of(t, side).served == Of(s, side).served + [report]
        && Of(t, side).log == Accept(Of(s, side).log,
                                     Records(report.files, StoredAddress(Of(s, side), report.conn),
                                             Announced(Of(s, side), report.id)), size)
      else t == s
  {
    ReachableInv(s, size);
    TakeReportEffect(s, side, report, size);
    RegistryTellsAnnounced(Of(s, side), report.id);
  }

  // ---------- addresses ----------

  /** The address of every connection is right, unless it is the first one and nothing was accepted before. */
  ghost predicate FilledIn(node: Super) {
    && (node.peers != [] ==> node.accepted)
    && forall k :: 0 <= k < |node.peers| ==>
      node.peers[k].stored == node.peers[k].address || (k == 0 && node.peers[k].stored == node.boot.junk)
  }

  lemma StepFillsIn(s: State, x: Action, side: Side, size: TableSize)
    requires Fits(s, size) && Enabled(s, x, size) && FilledIn(Of(s, side))
    ensures FilledIn(Of(Next(s, x, size), side))
  {
    match x
    case TakeReport(at, report) => ReportLeavesPeers(s, at, report, side, size);
    case TakeShare(at, id, junk) => ShareLeavesPeers(s, at, id, junk, side, size);
    case _ => QuietFillsIn(s, x, side, size);
  }

  /** A node's connections, and whether it has accepted any, as a step changes them. */
  lemma QuietFillsIn(s: State, x: Action, side: Side, size: TableSize)
    requires Fits(s, size) && Enabled(s, x, size) && !x.TakeReport? && !x.TakeShare? && FilledIn(Of(s, side))
    ensures FilledIn(Of(Next(s, x, size), side))
  {
    var node, after := Of(s, side), Of(Next(s, x, size), side);
    if x.Connect? && x.side == side {
      ConnectFillsIn(node, x.address);
    } else {
      assert after.peers == node.peers && after.boot == node.boot && (node.accepted ==> after.accepted);
    }
  }

  lemma ConnectFillsIn(node: Super, address: Address)
    requires FilledIn(node)
    ensures var peer := Peer(address, if node.accepted then address else node.boot.junk);
      FilledIn(node.(accepted := true, peers := node.peers + [peer]))
  {
  }

  lemma ReportLeavesPeers(s: State, at: Side, report: ChildReport, side: Side, size: TableSize)
    requires Fits(s, size) && Enabled(s, TakeReport(at, report), size)
    ensures var node, after := Of(s, side), Of(Next(s, TakeReport(at, report), size), side);
      after.peers == node.peers && after.accepted == node.accepted && after.boot == node.boot
  {
    TakeReportEffect(s, at, report, size);
    assert side == at || side == at.Other();
  }

  lemma ShareLeavesPeers(s: State, at: Side, id: nat, junk: seq<seq<int>>, side: Side, size: TableSize)
    requires Fits(s, size) && Enabled(s, TakeShare(at, id, junk), size)
    ensures var node, after := Of(s, side), Of(Next(s, TakeShare(at, id, junk), size), side);
      after.peers == node.peers && (node.accepted ==> after.accepted) && after.boot == node.boot
  {
    TakeShareEffect(s, at, id, junk, size);
    assert side == at || side == at.Other();
  }

  lemma {:induction false} RunFillsIn(s: State, acts: seq<Action>, t: State, side: Side, size: TableSize)
    requires Run(s, acts, t, size) && FilledIn(Of(s, side))
    ensures FilledIn(Of(t, side))
    decreases |acts|
  {
    if acts != [] {
      StepFillsIn(s, acts[0], side, size);
      RunFillsIn(Next(s, acts[0], size), acts[1..], t, side, size);
    }
  }

  /** In every reachable state a node has the right address of every child but perhaps the first. */
  lemma AddressesRight(s: State, side: Side, k: nat, size: TableSize)
    requires Reachable(s, size) && 0 < k < |Of(s, side).peers|
    ensures Of(s, side).peers[k].stored == Of(s, side).peers[k].address
  {
    var bootA, bootB, acts :| Run(Start(bootA, bootB), acts, s, size);
    RunFillsIn(Start(bootA, bootB), acts, s, side, size);
  }

  /** The first child of a node that has accepted nothing before is recorded under whatever address was there. */
  lemma FirstChildMisplaced(bootA: Boot, bootB: Boot, address: Address, size: TableSize) returns (s: State)
    ensures Reachable(s, size) && s.a.peers == [Peer(address, bootA.junk)]
  {
    var s0 := Start(bootA, bootB);
    assert Run(s0, [], s0, size);
    ReachableStep(s0, Connect(A, address), size);
    s := Next(s0, Connect(A, address), size);
  }

  /** A node that is greeted before anyone else has connected to it never learns the other's address: it
      listens, the other listens, and a report is not shared. */
  lemma GreetedFirstDisagrees(size: TableSize) returns (s: State)
    ensures Reachable(s, size) && s.linked && s.a.phase.Idle? && s.b.phase.Idle?
    ensures |s.a.log| == 1 && s.b.log == []
    ensures multiset(s.a.log) != multiset(s.b.log)
  {
    s := Starts(size);
    s := Links(s, size);
    s := Registers(s, A, size);
    assert PortOf([CHILD], 0) == 1;
    SevenBitIndexable(NAME, size);
    ReachableStep(s, TakeReport(A, REPORT), size);
    TakeReportEffect(s, A, REPORT, size);
    s := Next(s, TakeReport(A, REPORT), size);
    assert |multiset(s.a.log)| == 1;
  }

  // ---------- room ----------

  /** Each child has reported at most once to this node, after announcing itself. */
  ghost predicate ReportedOnce(node: Super) {
    && (forall i, j :: 0 <= i < j < |node.served| ==> node.served[i].id != node.served[j].id)
    && forall i :: 0 <= i < |node.served| ==> Announced(node, node.served[i].id) != 0
  }

  lemma {:induction false} KnownId(entries: seq<Entry>, id: nat)
    requires PortOf(entries, id) != 0
    ensures exists i :: 0 <= i < |entries| && entries[i].id == id
  {
    if entries[0].id != id {
      KnownId(entries[1..], id);
      var i :| 0 <= i < |entries[1..]| && entries[1..][i].id == id;
      assert entries[i + 1].id == id;
    }
  }

  lemma {:induction false} DistinctIds(served: seq<ChildReport>)
    requires forall i, j :: 0 <= i < j < |served| ==> served[i].id != served[j].id
    ensures |set i | 0 <= i < |served| :: served[i].id| == |served|
  {
    if served != [] {
      var front, last := served[..|served| - 1], served[|served| - 1];
      DistinctIds(front);
      var ids := set i | 0 <= i < |front| :: front[i].id;
      forall i | 0 <= i < |served|
        ensures served[i].id in ids + {last.id}
      {
        assert i < |front| ==> front[i] == served[i];
      }
      forall id | id in ids
        ensures exists i :: 0 <= i < |served| && served[i].id == id
      {
        var i :| 0 <= i < |front| && front[i].id == id;
        assert served[i].id == id;
      }
      assert (set i | 0 <= i < |served| :: served[i].id) == ids + {last.id};
    }
  }

  lemma {:induction false} IdCount(entries: seq<Entry>)
    ensures |set i | 0 <= i < |entries| :: entries[i].id| <= |entries|
  {
    if entries != [] {
      var front, last := entries[..|entries| - 1], entries[|entries| - 1];
      IdCount(front);
      var ids := set i | 0 <= i < |front| :: front[i].id;
      forall i | 0 <= i < |entries|
        ensures entries[i].id in ids + {last.id}
      {
        assert i < |front| ==> front[i] == entries[i];
      }
      SubsetSize(set i | 0 <= i < |entries| :: entries[i].id, ids + {last.id});
    }
  }

  /** There are no more reporting children than registry entries. */
  lemma ServedAtMostRegistry(node: Super)
    requires ReportedOnce(node)
    ensures |node.served| <= |node.boot.stale|
  {
    var known := Accepted(node.hellos, |node.boot.stale|);
    var ids := set i | 0 <= i < |node.served| :: node.served[i].id;
    var all := set i | 0 <= i < |known| :: known[i].id;
    forall id | id in ids
      ensures id in all
    {
      KnownId(known, id);
    }
    DistinctIds(node.served);
    IdCount(known);
    SubsetSize(ids, all);
  }

  /** The other node's reports whose share has been dealt with. */
  function SharesDone(s: State, side: Side): int {
    var other := Of(s, side.Other());
    |other.served| - if other.phase.Sharing? then 1 else 0
  }

  /** A node holds at most 10 records of each report it has taken and 8 of each that the other has shared. */
  ghost predicate Bounded(s: State, side: Side) {
    |Of(s, side).log| <= 10 * |Of(s, side).served| + 8 * SharesDone(s, side)
  }

  ghost predicate OneReportEach(s: State) {
    && ReportedOnce(s.a) && ReportedOnce(s.b) && Bounded(s, A) && Bounded(s, B)
  }

  /** A child reports only once to a node. */
  ghost predicate NewReport(s: State, x: Action) {
    x.TakeReport? && IsAccepted(s, x.side, x.report) ==>
      forall i :: 0 <= i < |Of(s, x.side).served| ==> Of(s, x.side).served[i].id != x.report.id
  }

  ghost predicate NewReportsOnly(s: State, acts: seq<Action>, size: TableSize)
    decreases |acts|
  {
    acts != [] ==>
      && Fits(s, size) && Enabled(s, acts[0], size)
      && NewReport(s, acts[0])
      && NewReportsOnly(Next(s, acts[0], size), acts[1..], size)
  }

  lemma StoreGrows(node: Super, records: seq<Record>, size: TableSize)
    requires |node.log| <= size
    ensures |Store(node, records, size).log| <= |node.log| + |records|
  {
  }

  lemma ReportBounded(s: State, side: Side, report: ChildReport, size: TableSize)
    requires Inv(s, size) && Enabled(s, TakeReport(side, report), size) && Bounded(s, A) && Bounded(s, B)
    ensures var t := Next(s, TakeReport(side, report), size); Bounded(t, A) && Bounded(t, B)
  {
    TakeReportEffect(s, side, report, size);
    StoreGrows(Of(s, side), RecordsOf(Of(s, side), report), size);
  }

  lemma ShareBounded(s: State, side: Side, id: nat, junk: seq<seq<int>>, size: TableSize)
    requires Inv(s, size) && Enabled(s, TakeShare(side, id, junk), size) && Bounded(s, A) && Bounded(s, B)
    ensures var t := Next(s, TakeShare(side, id, junk), size); Bounded(t, A) && Bounded(t, B)
  {
    TakeShareEffect(s, side, id, junk, size);
    StoreGrows(Of(s, side), Of(s, side.Other()).phase.batch, size);
  }

  lemma StepBounded(s: State, x: Action, size: TableSize)
    requires Inv(s, size) && Enabled(s, x, size) && Bounded(s, A) && Bounded(s, B)
    ensures var t := Next(s, x, size); Bounded(t, A) && Bounded(t, B)
  {
    match x
    case TakeReport(side, report) => ReportBounded(s, side, report, size);
    case TakeShare(side, id, junk) => ShareBounded(s, side, id, junk, size);
    case _ => StepBoundedElse(s, x, size);
  }

  lemma QuietStep(s: State, x: Action, side: Side, size: TableSize)
    requires Fits(s, size) && Enabled(s, x, size) && !x.TakeReport? && !x.TakeShare?
    ensures var node, after := Of(s, side), Of(Next(s, x, size), side);
      after.log == node.log && after.served == node.served && after.phase.Sharing? == node.phase.Sharing?
  {
  }

  lemma StepBoundedElse(s: State, x: Action, size: TableSize)
    requires Fits(s, size) && Enabled(s, x, size) && !x.TakeReport? && !x.TakeShare?
    requires Bounded(s, A) && Bounded(s, B)
    ensures var t := Next(s, x, size); Bounded(t, A) && Bounded(t, B)
  {
    QuietStep(s, x, A, size);
    QuietStep(s, x, B, size);
  }

  lemma HistoryReportedOnce(s: State, x: Action, t: State, side: Side)
    requires HistoryGrows(s, x, t, side) && NewReport(s, x) && ReportedOnce(Of(s, side))
    requires Of(s, side).registry == Entries(Of(s, side).boot.stale, Of(s, side).hellos)
    ensures ReportedOnce(Of(t, side))
  {
    HistoryRemembers(s, x, t, side);
    if x.TakeReport? && x.side == side {
      RegistryTellsAnnounced(Of(s, side), x.report.id);
    }
  }

  lemma StepReportedOnce(s: State, x: Action, side: Side, size: TableSize)
    requires Inv(s, size) && Enabled(s, x, size) && NewReport(s, x) && ReportedOnce(Of(s, side))
    ensures ReportedOnce(Of(Next(s, x, size), side))
  {
    StepHistory(s, x, side, size);
    HistoryReportedOnce(s, x, Next(s, x, size), side);
  }

  lemma {:induction false} RunOneReportEach(s: State, acts: seq<Action>, t: State, size: TableSize)
    requires Inv(s, size) && OneReportEach(s) && Run(s, acts, t, size) && NewReportsOnly(s, acts, size)
    ensures OneReportEach(t)
    ensures t.a.boot == s.a.boot && t.b.boot == s.b.boot
    decreases |acts|
  {
    if acts != [] {
      StepBounded(s, acts[0], size);
      StepReportedOnce(s, acts[0], A, size);
      StepReportedOnce(s, acts[0], B, size);
      StepHistory(s, acts[0], A, size);
      StepHistory(s, acts[0], B, size);
      NextInv(s, acts[0], size);
      RunOneReportEach(Next(s, acts[0], size), acts[1..], t, size);
    }
  }

  /** With the source's constants, 50 registry entries and 1000 table cells, and each child reporting once,
      the tables never hold more than 900 records: nothing is dropped for lack of room and every search ends. */
  lemma TablesNeverFill(bootA: Boot, bootB: Boot, acts: seq<Action>, s: State, side: Side)
    requires |bootA.stale| == |bootB.stale| == 50
    requires Run(Start(bootA, bootB), acts, s, 1000)
    requires NewReportsOnly(Start(bootA, bootB), acts, 1000)
    ensures |Of(s, side).log| <= 900 && !Lost(s, side, 1000)
  {
    StartInv(bootA, bootB, 1000);
    RunOneReportEach(Start(bootA, bootB), acts, s, 1000);
    ServedAtMostRegistry(s.a);
    ServedAtMostRegistry(s.b);
  }
}
