/** What is in the directories, file by file: every file of every report has its record. */
module DirContents {
  import DirFileTable
  import opened DirTable
  import opened DirLookup
  import opened DirReplicas
  import opened DirAgreement
  import opened DirCapacity

  // ---------- one report ----------

  /** r describes this file: its name and size, the address kept for the child's connection, and the port that
      the child has announced. */
  ghost predicate Describes(node: Super, report: ChildReport, i: nat, r: Record)
    requires i < |report.files|
  {
    && r.name == report.files[i].name && r.size == report.files[i].size
    && report.conn < |node.peers| && r.ip == node.peers[report.conn].stored
    && r.port == Announced(node, report.id)
  }

  ghost predicate DescribeAll(node: Super, report: ChildReport, records: seq<Record>) {
    |records| == |report.files| && forall i :: 0 <= i < |records| ==> Describes(node, report, i, records[i])
  }

  lemma RecordsDescribe(s: State, side: Side, report: ChildReport, size: TableSize)
    requires Inv(s, size) && Enabled(s, TakeReport(side, report), size)
    ensures DescribeAll(Of(s, side), report, RecordsOf(Of(s, side), report))
  {
    RegistryTellsAnnounced(Of(s, side), report.id);
  }

  /** The log has grown by records of the report's first files, in order, as many as there was room for. */
  ghost predicate GrownBy(node: Super, report: ChildReport, log: seq<Record>, size: TableSize) {
    && node.log <= log
    && |log| == (if |node.log| + |report.files| <= size then |node.log| + |report.files| else size)
    && forall j :: |node.log| <= j < |log| ==> Describes(node, report, j - |node.log|, log[j])
  }

  lemma AcceptGrows(node: Super, report: ChildReport, records: seq<Record>, size: TableSize)
    requires |node.log| <= size && DescribeAll(node, report, records)
    ensures GrownBy(node, report, DirFileTable.Accept(node.log, records, size), size)
  {
    var log := DirFileTable.Accept(node.log, records, size);
    AcceptIs(node.log, records, size);
    forall j | |node.log| <= j < |log|
      ensures Describes(node, report, j - |node.log|, log[j])
    {
      assert log[j] == records[j - |node.log|];
    }
  }

  /** A report of at most 10 files from a child that has announced a port: file i gets its record, in its
      place, as long as there is room; the earlier records stay; and the share under way, if the other node
      listens and is known, has a record for every file, in order. */
  lemma ReportRecorded(s: State, side: Side, report: ChildReport, size: TableSize)
    requires Reachable(s, size) && Enabled(s, TakeReport(side, report), size)
    requires |report.files| <= 10 && Announced(Of(s, side), report.id) != 0
    ensures Fits(s, size)
    ensures var node, after := Of(s, side), Of(Next(s, TakeReport(side, report), size), side);
      && GrownBy(node, report, after.log, size)
      && if s.linked && (side == B || s.known)
         then after.phase.Sharing? && DescribeAll(node, report, after.phase.batch)
         else after.phase.Idle?
  {
    ReachableInv(s, size);
    RegistryTellsAnnounced(Of(s, side), report.id);
    TakeReportEffect(s, side, report, size);
    RecordsDescribe(s, side, report, size);
    AcceptGrows(Of(s, side), report, RecordsOf(Of(s, side), report), size);
  }

  lemma AcceptIs(log: seq<Record>, records: seq<Record>, size: TableSize)
    requires |log| <= size
    ensures var after := DirFileTable.Accept(log, records, size);
      && log <= after
      && |after| == (if |log| + |records| <= size then |log| + |records| else size)
      && forall i :: 0 <= i < |records| && |log| + i < size ==> after[|log| + i] == records[i]
  {
  }

  /** A share of at most 8 records: record i is stored in its place, as long as there is room. */
  lemma ShareRecorded(s: State, side: Side, id: nat, junk: seq<seq<int>>, size: TableSize)
    requires Fits(s, size) && Enabled(s, TakeShare(side, id, junk), size)
    ensures var node, after := Of(s, side), Of(Next(s, TakeShare(side, id, junk), size), side);
      var batch := Of(s, side.Other()).phase.batch;
      && node.log <= after.log
      && (|batch| > 8 ==> after.log == node.log)
      && (|batch| <= 8 ==>
           && |after.log| == (if |node.log| + |batch| <= size then |node.log| + |batch| else size)
           && forall i :: 0 <= i < |batch| && |node.log| + i < size ==> after.log[|node.log| + i] == batch[i])
  {
    TakeShareEffect(s, side, id, junk, size);
    AcceptIs(Of(s, side).log, Of(s, side.Other()).phase.batch, size);
  }

  // ---------- all reports ----------

  /** Every file of every report that this node has taken has its record among all records. */
  ghost predicate AllReported(s: State, node: Super) {
    forall k, i :: 0 <= k < |node.served| && 0 <= i < |node.served[k].files| ==>
      HasRecord(s.reported, node, node.served[k], i)
  }

  ghost predicate HasRecord(records: multiset<Record>, node: Super, report: ChildReport, i: nat)
    requires i < |report.files|
  {
    Announced(node, report.id) != 0 && exists r :: r in records && Describes(node, report, i, r)
  }

  /** The number of files in these reports. */
  function FileCount(served: seq<ChildReport>): nat {
    if served == [] then 0 else FileCount(served[..|served| - 1]) + |served[|served| - 1].files|
  }

  ghost predicate Contents(s: State) {
    AllReported(s, s.a) && AllReported(s, s.b) && |s.reported| == FileCount(s.a.served) + FileCount(s.b.served)
  }

  lemma HasRecordStays(records: multiset<Record>, more: multiset<Record>, node: Super, after: Super,
      report: ChildReport, i: nat)
    requires i < |report.files| && HasRecord(records, node, report, i) && records <= more && Remembers(node, after)
    ensures HasRecord(more, after, report, i)
  {
    var r :| r in records && Describes(node, report, i, r);
    assert r in more && Describes(after, report, i, r);
  }

  lemma NewReportHasRecords(s: State, t: State, side: Side, report: ChildReport, records: seq<Record>, i: nat)
    requires DescribeAll(Of(s, side), report, records) && i < |report.files|
    requires multiset(records) <= t.reported && Remembers(Of(s, side), Of(t, side))
    requires Announced(Of(s, side), report.id) != 0
    ensures HasRecord(t.reported, Of(t, side), report, i)
  {
    assert records[i] in multiset(records);
    assert Describes(Of(s, side), report, i, records[i]);
    assert HasRecord(multiset(records), Of(s, side), report, i);
    HasRecordStays(multiset(records), t.reported, Of(s, side), Of(t, side), report, i);
  }

  /** What a step adds to all records. */
  ghost predicate ReportsGrow(s: State, x: Action, t: State) {
    if x.TakeReport? && IsAccepted(s, x.side, x.report)
    then t.reported == s.reported + multiset(RecordsOf(Of(s, x.side), x.report))
    else t.reported == s.reported
  }

  lemma StepReports(s: State, x: Action, size: TableSize)
    requires Fits(s, size) && Enabled(s, x, size)
    ensures ReportsGrow(s, x, Next(s, x, size))
  {
    match x
    case TakeReport(side, report) => TakeReportEffect(s, side, report, size);
    case TakeShare(side, id, junk) => TakeShareEffect(s, side, id, junk, size);
    case _ =>
  }

  lemma OldReports(s: State, x: Action, t: State, side: Side, k: nat, i: nat)
    requires AllReported(s, Of(s, side)) && HistoryGrows(s, x, t, side) && s.reported <= t.reported
    requires k < |Of(s, side).served| && i < |Of(s, side).served[k].files|
    ensures k < |Of(t, side).served| && Of(t, side).served[k] == Of(s, side).served[k]
    ensures HasRecord(t.reported, Of(t, side), Of(t, side).served[k], i)
  {
    var node, after := Of(s, side), Of(t, side);
    HistoryRemembers(s, x, t, side);
    assert HasRecord(s.reported, node, node.served[k], i);
    HasRecordStays(s.reported, t.reported, node, after, node.served[k], i);
  }

  lemma NewReportRecorded(s: State, t: State, side: Side, report: ChildReport, i: nat, size: TableSize)
    requires Inv(s, size) && Enabled(s, TakeReport(side, report), size) && IsAccepted(s, side, report)
    requires HistoryGrows(s, TakeReport(side, report), t, side) && ReportsGrow(s, TakeReport(side, report), t)
    requires i < |report.files|
    ensures HasRecord(t.reported, Of(t, side), report, i)
  {
    HistoryRemembers(s, TakeReport(side, report), t, side);
    RegistryTellsAnnounced(Of(s, side), report.id);
    RecordsDescribe(s, side, report, size);
    NewReportHasRecords(s, t, side, report, RecordsOf(Of(s, side), report), i);
  }

  lemma SideReported(s: State, x: Action, t: State, side: Side, size: TableSize)
    requires Inv(s, size) && Enabled(s, x, size) && AllReported(s, Of(s, side))
    requires HistoryGrows(s, x, t, side) && ReportsGrow(s, x, t)
    ensures AllReported(t, Of(t, side))
  {
    var node, after := Of(s, side), Of(t, side);
    forall k, i | 0 <= k < |after.served| && 0 <= i < |after.served[k].files|
      ensures HasRecord(t.reported, after, after.served[k], i)
    {
      if k < |node.served| {
        assert after.served[k] == node.served[k];
        OldReports(s, x, t, side, k, i);
      } else {
        NewReportRecorded(s, t, side, x.report, i, size);
      }
    }
  }

  lemma CountsGrow(s: State, x: Action, t: State)
    requires HistoryGrows(s, x, t, A) && HistoryGrows(s, x, t, B) && ReportsGrow(s, x, t)
    requires |s.reported| == FileCount(s.a.served) + FileCount(s.b.served)
    ensures |t.reported| == FileCount(t.a.served) + FileCount(t.b.served)
  {
    if x.TakeReport? && IsAccepted(s, x.side, x.report) {
      var served := Of(s, x.side).served;
      assert (served + [x.report])[..|served|] == served;
      assert |multiset(RecordsOf(Of(s, x.side), x.report))| == |x.report.files|;
    }
  }

  lemma StepContents(s: State, x: Action, size: TableSize)
    requires Inv(s, size) && Enabled(s, x, size) && Contents(s)
    ensures Contents(Next(s, x, size))
  {
    var t := Next(s, x, size);
    StepHistory(s, x, A, size);
    StepHistory(s, x, B, size);
    StepReports(s, x, size);
    SideReported(s, x, t, A, size);
    SideReported(s, x, t, B, size);
    CountsGrow(s, x, t);
  }

  lemma {:induction false} RunContents(s: State, acts: seq<Action>, t: State, size: TableSize)
    requires Inv(s, size) && Contents(s) && Run(s, acts, t, size)
    ensures Contents(t)
    decreases |acts|
  {
    if acts != [] {
      StepContents(s, acts[0], size);
      NextInv(s, acts[0], size);
      RunContents(Next(s, acts[0], size), acts[1..], t, size);
    }
  }

  lemma ReachableContents(s: State, size: TableSize)
    requires Reachable(s, size)
    ensures Contents(s)
  {
    var bootA, bootB, acts :| Run(Start(bootA, bootB), acts, s, size);
    StartInv(bootA, bootB, size);
    RunContents(Start(bootA, bootB), acts, s, size);
  }

  /** In every reachable state, for file i of report k of either node (`from`), either node (`side`) has stored
      a record that describes it, or has it under way, or has missed it; and there are no other records. */
  lemma EveryFileAccounted(s: State, from: Side, k: nat, i: nat, side: Side, size: TableSize) returns (r: Record)
    requires Reachable(s, size) && k < |Of(s, from).served| && i < |Of(s, from).served[k].files|
    ensures Describes(Of(s, from), Of(s, from).served[k], i, r) && r.port != 0
    ensures r in Of(s, side).log || r in InFlightTo(s, side) || r in Of(s, side).missed
    ensures |Of(s, side).log| + |InFlightTo(s, side)| + |Of(s, side).missed|
      == FileCount(s.a.served) + FileCount(s.b.served)
  {
    ReachableContents(s, size);
    ReachableInv(s, size);
    var node := Of(s, from);
    assert HasRecord(s.reported, node, node.served[k], i);
    r :| r in s.reported && Describes(node, node.served[k], i, r);
    SumsUp(multiset(Of(s, side).log), InFlightTo(s, side), Of(s, side).missed, s.reported, r);
  }

  lemma SumsUp<T>(log: multiset<T>, inFlight: multiset<T>, missed: multiset<T>, all: multiset<T>, r: T)
    requires log + inFlight + missed == all && r in all
    ensures r in log || r in inFlight || r in missed
    ensures |log| + |inFlight| + |missed| == |all|
  {
  }

  /** After a run of complete steps with nothing in flight every file of every report taken by either node is
      found, by its name, at both nodes. */
  lemma EveryFileFound(bootA: Boot, bootB: Boot, acts: seq<Action>, t: State, from: Side, k: nat, i: nat,
      size: TableSize)
    requires Run(Start(bootA, bootB), acts, t, size) && CompleteRun(Start(bootA, bootB), acts, size)
    requires !t.a.phase.Sharing? && !t.b.phase.Sharing?
    requires k < |Of(t, from).served| && i < |Of(t, from).served[k].files|
    requires var name := Of(t, from).served[k].files[i].name; Indexable(name, size) && NoneExtends(t.a.log, name)
    ensures AllIndexable(t.a.log, size) && AllIndexable(t.b.log, size)
    ensures var name := Of(t, from).served[k].files[i].name;
      && Lookup(Table(t.a.log, size), name).Found? && Lookup(Table(t.a.log, size), name).record.name == name
      && Lookup(Table(t.b.log, size), name).Found? && Lookup(Table(t.b.log, size), name).record.name == name
  {
    var name := Of(t, from).served[k].files[i].name;
    assert Reachable(t, size);
    SearchesAgree(bootA, bootB, acts, t, size, name);
    var r := EveryFileAccounted(t, from, k, i, A, size);
    FileReported(t, from, k, i, size);
    StartInv(bootA, bootB, size);
    RunInv(Start(bootA, bootB), acts, t, size);
    SameLogs(bootA, bootB, acts, t, size);
    SameNames(t.a.log, t.b.log, name);
    FoundIsNamed(t.a.log, name, size);
    FoundIsNamed(t.b.log, name, size);
  }

  lemma FileReported(s: State, from: Side, k: nat, i: nat, size: TableSize)
    requires Reachable(s, size) && k < |Of(s, from).served| && i < |Of(s, from).served[k].files|
    ensures exists r :: r in s.reported && r.name == Of(s, from).served[k].files[i].name
  {
    ReachableContents(s, size);
    var node := Of(s, from);
    assert HasRecord(s.reported, node, node.served[k], i);
    var r :| r in s.reported && Describes(node, node.served[k], i, r);
  }

  lemma SameLogs(bootA: Boot, bootB: Boot, acts: seq<Action>, t: State, size: TableSize)
    requires Run(Start(bootA, bootB), acts, t, size) && CompleteRun(Start(bootA, bootB), acts, size)
    requires !t.a.phase.Sharing? && !t.b.phase.Sharing?
    ensures multiset(t.a.log) == multiset(t.b.log)
  {
    ReplicasCompleteIff(bootA, bootB, acts, t, size);
    PlusNothing(multiset(t.a.log));
    PlusNothing(multiset(t.b.log));
  }

  lemma FoundIsNamed(log: seq<Record>, name: Name, size: TableSize)
    requires |log| <= size && AllIndexable(log, size) && Indexable(name, size) && NoneExtends(log, name)
    ensures var found := Lookup(Table(log, size), name); found.Found? ==> found.record.name == name
  {
    LookupRefinesLog(log, size, name);
    FirstNamedMeaning(log, name);
  }
}
