/** Agreement of the two directories over all runs: what both nodes together account for, and exactly when
    the replicas agree. */
module DirAgreement {
  import opened DirTable
  import opened DirLookup
  import opened DirWire
  import opened DirReplicas

  /** In every reachable state of every interleaving, at either node: what it stores, what is in
      flight to it and what it missed together are exactly all records ever reported. */
  lemma RecordsAccounted(s: State, side: Side, size: TableSize)
    requires Reachable(s, size)
    ensures multiset(Of(s, side).log) + InFlightTo(s, side) + Of(s, side).missed == s.reported
    ensures |Of(s, side).log| <= size
  {
    ReachableInv(s, size);
  }

  /** The directories hold the same records, up to shares in flight. */
  ghost predicate Agree(s: State) {
    multiset(s.a.log) + InFlightTo(s, A) == multiset(s.b.log) + InFlightTo(s, B)
  }

  lemma CancelIff<T>(a: multiset<T>, x: multiset<T>, b: multiset<T>, y: multiset<T>)
    requires a + x == b + y
    ensures a == b <==> x == y
  {
    assert a == (a + x) - x && b == (b + y) - y;
    assert x == (a + x) - a && y == (b + y) - b;
  }

  lemma AgreeIffMissedSame(s: State)
    requires Accounted(s, A) && Accounted(s, B)
    ensures Agree(s) <==> s.a.missed == s.b.missed
  {
    CancelIff(multiset(s.a.log) + InFlightTo(s, A), s.a.missed, multiset(s.b.log) + InFlightTo(s, B), s.b.missed);
  }

  // ---------- what a step makes a node miss ----------

  /** The table has room for all of these records. */
  predicate HasRoom(node: Super, records: seq<Record>, size: TableSize) {
    |node.log| + |records| <= size
  }

  /** The records that `side` should store because of this step, and does not. */
  ghost function Dropped(s: State, x: Action, side: Side, size: TableSize): multiset<Record>
    requires Fits(s, size)
  {
    match x
    case TakeReport(at, report) =>
      var records := RecordsOf(Of(s, at), report);
      if !IsAccepted(s, at, report) then multiset{}
      else if side == at then multiset(Surplus(Of(s, at), records, size))
      else if CanShare(s, at) then multiset{}
      else multiset(records)
    case TakeShare(at, id, junk) =>
      var sender := Of(s, at.Other());
      if side != at || !sender.phase.Sharing? then multiset{}
      else if |sender.phase.batch| > 8 then multiset(sender.phase.batch)
      else multiset(Surplus(Of(s, at), sender.phase.batch, size))
    case _ => multiset{}
  }

  lemma PlusNothing<T>(x: multiset<T>)
    ensures x + multiset{} == x
  {
  }

  lemma ReportMissed(s: State, at: Side, report: ChildReport, side: Side, size: TableSize)
    requires Fits(s, size) && Enabled(s, TakeReport(at, report), size)
    ensures var x := TakeReport(at, report);
      Of(Next(s, x, size), side).missed == Of(s, side).missed + Dropped(s, x, side, size)
  {
    TakeReportEffect(s, at, report, size);
    PlusNothing(Of(s, side).missed);
    if IsAccepted(s, at, report) {
      StoreAccounts(Of(s, at), RecordsOf(Of(s, at), report), size);
      assert side == at || side == at.Other();
    }
  }

  lemma ShareMissed(s: State, at: Side, id: nat, junk: seq<seq<int>>, side: Side, size: TableSize)
    requires Fits(s, size) && Enabled(s, TakeShare(at, id, junk), size)
    ensures var x := TakeShare(at, id, junk);
      Of(Next(s, x, size), side).missed == Of(s, side).missed + Dropped(s, x, side, size)
  {
    TakeShareEffect(s, at, id, junk, size);
    PlusNothing(Of(s, side).missed);
    StoreAccounts(Of(s, at), Of(s, at.Other()).phase.batch, size);
    assert side == at || side == at.Other();
  }

  lemma StepMissed(s: State, x: Action, side: Side, size: TableSize)
    requires Fits(s, size) && Enabled(s, x, size)
    ensures Of(Next(s, x, size), side).missed == Of(s, side).missed + Dropped(s, x, side, size)
  {
    match x
    case TakeReport(at, report) => ReportMissed(s, at, report, side, size);
    case TakeShare(at, id, junk) => ShareMissed(s, at, id, junk, side, size);
    case _ => PlusNothing(Of(s, side).missed);
  }

  lemma NonEmpty(records: seq<Record>)
    ensures multiset(records) == multiset{} <==> records == []
  {
    if records != [] {
      assert records[0] in multiset(records);
    }
  }

  /** A node drops all of some records only if its table is full, and none only if it has room. */
  lemma SurplusIs(node: Super, records: seq<Record>, size: TableSize)
    requires |node.log| <= size
    ensures multiset(Surplus(node, records, size)) == multiset{} <==> HasRoom(node, records, size)
    ensures multiset(Surplus(node, records, size)) == multiset(records) <==> records == [] || |node.log| == size
  {
    var rest := Surplus(node, records, size);
    NonEmpty(rest);
    assert |multiset(rest)| == |rest| && |multiset(records)| == |records|;
    if |node.log| == size {
      assert rest == records;
    }
  }

  // ---------- when the directories agree ----------

  /** A step that makes both nodes miss the same: a report that is stored is shared and finds room, or is not
      shared and finds a full table (or is empty); a share that is processed fits into the receive buffer and
      into the table. */
  ghost predicate Guarded(s: State, x: Action, size: TableSize) {
    match x
    case TakeReport(side, report) =>
      IsAccepted(s, side, report) ==>
        if CanShare(s, side) then HasRoom(Of(s, side), RecordsOf(Of(s, side), report), size)
        else report.files == [] || |Of(s, side).log| == size
    case TakeShare(side, id, junk) =>
      var sender := Of(s, side.Other());
      sender.phase.Sharing? ==> |sender.phase.batch| <= 8 && HasRoom(Of(s, side), sender.phase.batch, size)
    case _ => true
  }

  ghost predicate GuardedRun(s: State, acts: seq<Action>, size: TableSize)
    decreases |acts|
  {
    acts != [] ==>
      && Fits(s, size) && Enabled(s, acts[0], size)
      && Guarded(s, acts[0], size)
      && GuardedRun(Next(s, acts[0], size), acts[1..], size)
  }

  /** The directories agree in every state along the run. */
  ghost predicate AlwaysAgree(s: State, acts: seq<Action>, size: TableSize)
    decreases |acts|
  {
    && Agree(s)
    && (acts != [] ==>
         && Fits(s, size) && Enabled(s, acts[0], size)
         && AlwaysAgree(Next(s, acts[0], size), acts[1..], size))
  }

  lemma GuardedReportIff(s: State, side: Side, report: ChildReport, size: TableSize)
    requires Fits(s, size)
    ensures var x := TakeReport(side, report);
      Guarded(s, x, size) <==> Dropped(s, x, side, size) == Dropped(s, x, side.Other(), size)
  {
    SurplusIs(Of(s, side), RecordsOf(Of(s, side), report), size);
  }

  lemma GuardedShareIff(s: State, side: Side, id: nat, junk: seq<seq<int>>, size: TableSize)
    requires Fits(s, size)
    ensures var x := TakeShare(side, id, junk);
      Guarded(s, x, size) <==> Dropped(s, x, side, size) == Dropped(s, x, side.Other(), size)
  {
    if Of(s, side.Other()).phase.Sharing? {
      var batch := Of(s, side.Other()).phase.batch;
      SurplusIs(Of(s, side), batch, size);
      NonEmpty(batch);
    }
  }

  lemma GuardedIff(s: State, x: Action, size: TableSize)
    requires Fits(s, size)
    ensures Guarded(s, x, size) <==> Dropped(s, x, A, size) == Dropped(s, x, B, size)
  {
    match x
    case TakeReport(side, report) => GuardedReportIff(s, side, report, size);
    case TakeShare(side, id, junk) => GuardedShareIff(s, side, id, junk, size);
    case _ =>
  }

  lemma {:induction false} AlwaysAgreeFrom(s: State, acts: seq<Action>, t: State, size: TableSize)
    requires Inv(s, size) && Agree(s) && Run(s, acts, t, size)
    ensures AlwaysAgree(s, acts, size) <==> GuardedRun(s, acts, size)
    decreases |acts|
  {
    if acts != [] {
      var x, u := acts[0], Next(s, acts[0], size);
      NextInv(s, x, size);
      StepAgrees(s, x, size);
      if Guarded(s, x, size) {
        AlwaysAgreeFrom(u, acts[1..], t, size);
      }
    }
  }

  lemma AgreesAfter(s: State, t: State, a: multiset<Record>, b: multiset<Record>)
    requires Accounted(s, A) && Accounted(s, B) && Accounted(t, A) && Accounted(t, B) && Agree(s)
    requires t.a.missed == s.a.missed + a && t.b.missed == s.b.missed + b
    ensures Agree(t) <==> a == b
  {
    AgreeIffMissedSame(s);
    AgreeIffMissedSame(t);
    if s.a.missed + a == s.b.missed + b {
      CancelIff(s.a.missed, a, s.b.missed, b);
    }
  }

  lemma StepAgrees(s: State, x: Action, size: TableSize)
    requires Inv(s, size) && Agree(s) && Enabled(s, x, size)
    ensures Agree(Next(s, x, size)) <==> Guarded(s, x, size)
  {
    NextInv(s, x, size);
    StepMissed(s, x, A, size);
    StepMissed(s, x, B, size);
    GuardedIff(s, x, size);
    AgreesAfter(s, Next(s, x, size), Dropped(s, x, A, size), Dropped(s, x, B, size));
  }

  /** Replica agreement: along a run, in every interleaving, the directories agree in every state exactly if
      every step is guarded. */
  lemma AlwaysAgreeIff(bootA: Boot, bootB: Boot, acts: seq<Action>, t: State, size: TableSize)
    requires Run(Start(bootA, bootB), acts, t, size)
    ensures AlwaysAgree(Start(bootA, bootB), acts, size) <==> GuardedRun(Start(bootA, bootB), acts, size)
  {
    StartInv(bootA, bootB, size);
    AlwaysAgreeFrom(Start(bootA, bootB), acts, t, size);
  }

  // ---------- when the directories are complete ----------

  /** A step that makes nobody miss anything: a report that is stored finds room and is shared (or is empty);
      a share that is processed fits into the receive buffer and into the table. */
  ghost predicate Complete(s: State, x: Action, size: TableSize) {
    match x
    case TakeReport(side, report) =>
      IsAccepted(s, side, report) ==>
        && (CanShare(s, side) || report.files == [])
        && HasRoom(Of(s, side), RecordsOf(Of(s, side), report), size)
    case _ => Guarded(s, x, size)
  }

  ghost predicate CompleteRun(s: State, acts: seq<Action>, size: TableSize)
    decreases |acts|
  {
    acts != [] ==>
      && Fits(s, size) && Enabled(s, acts[0], size)
      && Complete(s, acts[0], size)
      && CompleteRun(Next(s, acts[0], size), acts[1..], size)
  }

  lemma CompleteIff(s: State, x: Action, size: TableSize)
    requires Fits(s, size) && Enabled(s, x, size)
    ensures Complete(s, x, size) <==> Dropped(s, x, A, size) == Dropped(s, x, B, size) == multiset{}
  {
    match x
    case TakeReport(side, report) =>
      SurplusIs(Of(s, side), RecordsOf(Of(s, side), report), size);
      NonEmpty(RecordsOf(Of(s, side), report));
    case TakeShare(side, id, junk) =>
      GuardedIff(s, x, size);
    case _ =>
  }

  /** Nothing is missed in t that was not in s. */
  ghost predicate MissesNoMore(s: State, t: State) {
    t.a.missed == s.a.missed && t.b.missed == s.b.missed
  }

  lemma AddedNothing<T>(m: multiset<T>, d: multiset<T>)
    ensures m + d == m <==> d == multiset{}
    ensures m <= m + d
  {
    assert (m + d) - m == d;
  }

  lemma StepMissesNoMore(s: State, x: Action, size: TableSize)
    requires Fits(s, size) && Enabled(s, x, size)
    ensures var t := Next(s, x, size);
      && s.a.missed <= t.a.missed && s.b.missed <= t.b.missed
      && (MissesNoMore(s, t) <==> Complete(s, x, size))
  {
    StepMissed(s, x, A, size);
    StepMissed(s, x, B, size);
    CompleteIff(s, x, size);
    AddedNothing(s.a.missed, Dropped(s, x, A, size));
    AddedNothing(s.b.missed, Dropped(s, x, B, size));
  }

  lemma Between<T>(x: multiset<T>, y: multiset<T>, z: multiset<T>)
    requires x <= y <= z
    ensures z == x <==> y == x && z == y
    ensures x <= z
  {
  }

  lemma {:induction false} RunMissesNoMore(s: State, acts: seq<Action>, t: State, size: TableSize)
    requires Run(s, acts, t, size)
    ensures s.a.missed <= t.a.missed && s.b.missed <= t.b.missed
    ensures MissesNoMore(s, t) <==> CompleteRun(s, acts, size)
    decreases |acts|
  {
    if acts != [] {
      var u := Next(s, acts[0], size);
      StepMissesNoMore(s, acts[0], size);
      RunMissesNoMore(u, acts[1..], t, size);
      Between(s.a.missed, u.a.missed, t.a.missed);
      Between(s.b.missed, u.b.missed, t.b.missed);
    }
  }

  lemma AllStored(s: State, side: Side)
    requires Accounted(s, side)
    ensures multiset(Of(s, side).log) + InFlightTo(s, side) == s.reported <==> Of(s, side).missed == multiset{}
  {
    AddedNothing(multiset(Of(s, side).log) + InFlightTo(s, side), Of(s, side).missed);
  }

  /** After a run, in every interleaving, either node's directory plus the share in flight to it is exactly
      what was reported, exactly if every step of the run was complete. */
  lemma ReplicasCompleteIff(bootA: Boot, bootB: Boot, acts: seq<Action>, t: State, size: TableSize)
    requires Run(Start(bootA, bootB), acts, t, size)
    ensures CompleteRun(Start(bootA, bootB), acts, size) <==>
      && multiset(t.a.log) + InFlightTo(t, A) == t.reported
      && multiset(t.b.log) + InFlightTo(t, B) == t.reported
  {
    StartInv(bootA, bootB, size);
    RunInv(Start(bootA, bootB), acts, t, size);
    RunMissesNoMore(Start(bootA, bootB), acts, t, size);
    AllStored(t, A);
    AllStored(t, B);
  }

  // ---------- one report ----------

  /** One report of a known child carried through undisturbed: the reporting node stores all of it, the
      other node stores all of it or nothing, and it stores it exactly when there are at most 8 files. */
  lemma ReportReachesReplicaIff(s: State, side: Side, report: ChildReport, id: nat, junk: seq<seq<int>>, size: TableSize)
    requires Inv(s, size) && CanShare(s, side) && s.a.phase.Idle? && s.b.phase.Idle?
    requires WellFormed(report, size) && report.conn < |Of(s, side).peers| && IsAccepted(s, side, report)
    requires id < WORD && JunkFor(junk, RECORD_LEN, |report.files|)
    requires |s.a.log| + |report.files| <= size && |s.b.log| + |report.files| <= size
    ensures Enabled(s, TakeReport(side, report), size)
    ensures var t := Next(s, TakeReport(side, report), size);
      && Fits(t, size) && Enabled(t, TakeShare(side.Other(), id, junk), size)
      && var u := Next(t, TakeShare(side.Other(), id, junk), size);
      var records := RecordsOf(Of(s, side), report);
      && Of(u, side).log == Of(s, side).log + records
      && (Of(u, side.Other()).log == Of(s, side.Other()).log + records <==>
           |report.files| <= 8)
      && (|report.files| > 8 ==> Of(u, side.Other()).log == Of(s, side.Other()).log)
  {
    TakeReportEffect(s, side, report, size);
    var t := Next(s, TakeReport(side, report), size);
    NextInv(s, TakeReport(side, report), size);
    TakeShareEffect(t, side.Other(), id, junk, size);
  }

  // ---------- searches ----------

  lemma FoundIffReported(log: seq<Record>, reported: multiset<Record>, size: TableSize, query: Name)
    requires multiset(log) == reported && |log| <= size
    requires AllIndexable(log, size) && Indexable(query, size) && NoneExtends(log, query)
    ensures Lookup(Table(log, size), query).Found? <==> exists r :: r in reported && r.name == query
  {
    LookupRefinesLog(log, size, query);
    FirstNamedMeaning(log, query);
    assert forall r :: r in log <==> r in reported;
  }

  lemma SameNames(log: seq<Record>, log': seq<Record>, query: Name)
    requires multiset(log) == multiset(log') && NoneExtends(log, query)
    ensures NoneExtends(log', query)
  {
    forall i | 0 <= i < |log'|
      ensures log'[i] in log
    {
      assert log'[i] in multiset(log');
    }
  }

  /** With nothing in flight after a run of complete steps, a name is found at one node exactly when it is
      found at the other, and exactly when a child reported it. */
  lemma SearchesAgree(bootA: Boot, bootB: Boot, acts: seq<Action>, t: State, size: TableSize, query: Name)
    requires Run(Start(bootA, bootB), acts, t, size) && CompleteRun(Start(bootA, bootB), acts, size)
    requires !t.a.phase.Sharing? && !t.b.phase.Sharing?
    requires Indexable(query, size) && NoneExtends(t.a.log, query)
    ensures AllIndexable(t.a.log, size) && AllIndexable(t.b.log, size)
    ensures Lookup(Table(t.a.log, size), query).Found? <==> Lookup(Table(t.b.log, size), query).Found?
    ensures Lookup(Table(t.a.log, size), query).Found? <==>
      exists r :: r in t.reported && r.name == query
  {
    StartInv(bootA, bootB, size);
    RunInv(Start(bootA, bootB), acts, t, size);
    ReplicasCompleteIff(bootA, bootB, acts, t, size);
    PlusNothing(multiset(t.a.log));
    PlusNothing(multiset(t.b.log));
    SameNames(t.a.log, t.b.log, query);
    FoundIffReported(t.a.log, t.reported, size, query);
    FoundIffReported(t.b.log, t.reported, size, query);
  }
}
