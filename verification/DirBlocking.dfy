/** What can block a super node: the two nodes waiting for each other's share, and a search that never
    ends. Nothing else does; the exact conditions, and the runs that lead there. */
module DirBlocking {
  import opened Wrappers
  import opened DirTable
  import opened DirLookup
  import opened DirRegistry
  import opened DirWire
  import opened DirReplicas

  // ---------- endless searches ----------

  /** Every record of a log that fits is in some cell. */
  lemma {:induction false} LogInTable(log: seq<Record>, n: nat, i: nat)
    requires 0 < n && AllIndexable(log, n) && i < |log| <= n
    ensures exists j :: 0 <= j < n && Table(log, n)[j] == Some(log[i])
    decreases |log|
  {
    var front, last := log[..|log| - 1], log[|log| - 1];
    var cells := Table(front, n);
    var h := HashIndex(last.name, n);
    var w := Walk(cells, h, 0, None);
    TableShape(front, n);
    FullCount(cells);
    EndlessIff(cells, h, None);
    assert Table(log, n) == cells[At(h, w, n) := Some(last)];
    if i < |front| {
      LogInTable(front, n, i);
      var j :| 0 <= j < n && cells[j] == Some(log[i]);
      assert Table(log, n)[j] == Some(log[i]);
    } else {
      assert Table(log, n)[At(h, w, n)] == Some(log[i]);
    }
  }

  /** A search that a caller can see to end: there is an empty cell, or a record whose name the query begins. */
  ghost predicate SafeQuery(log: seq<Record>, query: Name, size: TableSize) {
    |log| < size || exists i :: 0 <= i < |log| && query <= log[i].name
  }

  /** A search never ends exactly when the table is full and the query begins no name in it. */
  lemma SearchEndsIff(log: seq<Record>, query: Name, size: TableSize)
    requires |log| <= size && AllIndexable(log, size) && Indexable(query, size)
    ensures !Lookup(Table(log, size), query).Endless? <==> SafeQuery(log, query, size)
  {
    var cells := Table(log, size);
    TableShape(log, size);
    FullCount(cells);
    EndlessIff(cells, HashIndex(query, size), Some(query));
    if i :| 0 <= i < |log| && query <= log[i].name {
      LogInTable(log, size, i);
      var j :| 0 <= j < size && cells[j] == Some(log[i]);
      assert Stops(cells[j], Some(query));
    } else if |log| == size {
      forall j | 0 <= j < size
        ensures !Stops(cells[j], Some(query))
      {
        assert cells[j].value in log;
      }
    } else {
      var j :| 0 <= j < size && cells[j].None?;
      assert Stops(cells[j], Some(query));
    }
  }

  // ---------- completion ----------

  /** Some run of at most `steps` actions brings this node back to its select loop. */
  ghost predicate CanComplete(s: State, side: Side, size: TableSize, steps: nat) {
    exists acts, t :: |acts| <= steps && Run(s, acts, t, size) && Of(t, side).phase.Idle?
  }

  /** This node is in a search that never ends. */
  ghost predicate Lost(s: State, side: Side, size: TableSize) {
    Of(s, side).phase.Searching? && !SafeQuery(Of(s, side).log, Of(s, side).phase.query, size)
  }

  /** Each node waits for the other to process its share. */
  ghost predicate Deadlocked(s: State) {
    s.a.phase.Sharing? && s.b.phase.Sharing?
  }

  /** Lost, or waiting for a node that is lost or waits for this one. */
  ghost predicate Stuck(s: State, side: Side, size: TableSize) {
    || Lost(s, side, size)
    || (Of(s, side).phase.Sharing? && (Deadlocked(s) || Lost(s, side.Other(), size)))
  }

  lemma LostIff(s: State, side: Side, size: TableSize)
    requires Inv(s, size)
    ensures Of(s, side).phase.Searching? ==> (Lost(s, side, size) <==> !SearchEnds(Of(s, side), size))
  {
    if Of(s, side).phase.Searching? {
      SearchEndsIff(Of(s, side).log, Of(s, side).phase.query, size);
    }
  }

  lemma OneStep(s: State, x: Action, size: TableSize)
    requires Fits(s, size) && Enabled(s, x, size)
    ensures Run(s, [x], Next(s, x, size), size)
  {
    NextFits(s, x, size);
    assert [x][1..] == [];
  }

  lemma CompletesBy(s: State, acts: seq<Action>, t: State, side: Side, size: TableSize, steps: nat)
    requires |acts| <= steps && Run(s, acts, t, size) && Of(t, side).phase.Idle?
    ensures CanComplete(s, side, size, steps)
  {
  }

  lemma CompletesInOne(s: State, x: Action, side: Side, size: TableSize)
    requires Inv(s, size) && Enabled(s, x, size) && Of(Next(s, x, size), side).phase.Idle?
    ensures CanComplete(s, side, size, 1)
  {
    OneStep(s, x, size);
    CompletesBy(s, [x], Next(s, x, size), side, size, 1);
  }

  /** A node that can complete after a step can complete before it. */
  lemma StepThenComplete(s: State, x: Action, side: Side, size: TableSize, steps: nat)
    requires Fits(s, size) && Enabled(s, x, size)
    requires CanComplete(Next(s, x, size), side, size, steps)
    ensures CanComplete(s, side, size, steps + 1)
  {
    var acts, t :| |acts| <= steps && Run(Next(s, x, size), acts, t, size) && Of(t, side).phase.Idle?;
    PrependRun(s, x, acts, t, size);
    CompletesBy(s, [x] + acts, t, side, size, steps + 1);
  }

  lemma PrependRun(s: State, x: Action, acts: seq<Action>, t: State, size: TableSize)
    requires Fits(s, size) && Enabled(s, x, size) && Run(Next(s, x, size), acts, t, size)
    ensures Run(s, [x] + acts, t, size)
  {
    assert ([x] + acts)[1..] == acts;
  }

  lemma MoreSteps(s: State, side: Side, size: TableSize, steps: nat, more: nat)
    requires CanComplete(s, side, size, steps) && steps <= more
    ensures CanComplete(s, side, size, more)
  {
  }

  function Zeros(width: nat, count: nat): (junk: seq<seq<int>>)
    ensures JunkFor(junk, width, count)
  {
    seq(count, _ => seq(width, _ => 0))
  }

  /** With the other node idle, two steps complete a share. */
  lemma ShareCompletesWhenOtherIdle(s: State, side: Side, size: TableSize)
    requires Inv(s, size) && Of(s, side).phase.Sharing? && Of(s, side.Other()).phase.Idle?
    ensures CanComplete(s, side, size, 2)
  {
    var junk := Zeros(RECORD_LEN, |Of(s, side).phase.batch|);
    var x, y := TakeShare(side.Other(), 0, junk), TakeReply(side);
    TakeShareEffect(s, side.Other(), 0, junk, size);
    var t := Next(s, x, size);
    NextInv(s, x, size);
    CompletesInOne(t, y, side, size);
    StepThenComplete(s, x, side, size, 1);
  }

  /** One step of a node that is answered or searching makes it idle and leaves the other as it is. */
  lemma ShareCompletes(s: State, side: Side, size: TableSize)
    requires Inv(s, size) && Of(s, side).phase.Sharing? && !Stuck(s, side, size)
    ensures CanComplete(s, side, size, 3)
  {
    var other := side.Other();
    if Of(s, other).phase.Idle? {
      ShareCompletesWhenOtherIdle(s, side, size);
      MoreSteps(s, side, size, 2, 3);
    } else {
      LostIff(s, other, size);
      var first := if Of(s, other).phase.Answered? then TakeReply(other) else Answer(other);
      NextInv(s, first, size);
      ShareCompletesWhenOtherIdle(Next(s, first, size), side, size);
      StepThenComplete(s, first, side, size, 2);
    }
  }

  lemma CompletesUnlessStuck(s: State, side: Side, size: TableSize)
    requires Inv(s, size) && !Of(s, side).phase.Idle? && !Stuck(s, side, size)
    ensures CanComplete(s, side, size, 3)
  {
    if Of(s, side).phase.Sharing? {
      ShareCompletes(s, side, size);
    } else {
      LostIff(s, side, size);
      CompletesInOne(s, if Of(s, side).phase.Answered? then TakeReply(side) else Answer(side), side, size);
      MoreSteps(s, side, size, 1, 3);
    }
  }

  /** What a search depends on is as it was. */
  ghost predicate SameSearch(node: Super, after: Super) {
    after.phase == node.phase && after.log == node.log
  }

  lemma ReportLeavesSearch(s: State, at: Side, report: ChildReport, side: Side, size: TableSize)
    requires Fits(s, size) && Enabled(s, TakeReport(at, report), size) && Of(s, side).phase.Searching?
    ensures SameSearch(Of(s, side), Of(Next(s, TakeReport(at, report), size), side))
  {
    TakeReportEffect(s, at, report, size);
    assert side == at.Other();
  }

  /** A searching node does nothing else. */
  lemma SearchGoesOn(s: State, x: Action, side: Side, size: TableSize)
    requires Fits(s, size) && Enabled(s, x, size) && Of(s, side).phase.Searching? && x != Answer(side)
    ensures SameSearch(Of(s, side), Of(Next(s, x, size), side))
  {
    match x
    case TakeReport(at, report) => ReportLeavesSearch(s, at, report, side, size);
    case _ =>
  }

  /** A lost node never moves. */
  lemma LostStays(s: State, x: Action, side: Side, size: TableSize)
    requires Inv(s, size) && Enabled(s, x, size) && Lost(s, side, size)
    ensures Lost(Next(s, x, size), side, size)
  {
    LostIff(s, side, size);
    SearchGoesOn(s, x, side, size);
  }

  lemma SharingWaits(s: State, x: Action, side: Side, size: TableSize)
    requires Inv(s, size) && Enabled(s, x, size) && Of(s, side).phase.Sharing?
    requires !Of(s, side.Other()).phase.Idle?
    ensures Of(Next(s, x, size), side).phase == Of(s, side).phase
  {
    match x
    case TakeReport(at, report) => TakeReportEffect(s, at, report, size);
    case TakeShare(at, id, junk) => TakeShareEffect(s, at, id, junk, size);
    case _ =>
  }

  lemma StuckStays(s: State, x: Action, side: Side, size: TableSize)
    requires Inv(s, size) && Enabled(s, x, size) && Stuck(s, side, size)
    ensures Stuck(Next(s, x, size), side, size)
  {
    if Lost(s, side, size) {
      LostStays(s, x, side, size);
    } else if Lost(s, side.Other(), size) {
      LostStays(s, x, side.Other(), size);
      SharingWaits(s, x, side, size);
    } else {
      NothingEnabledInDeadlock(s, x, size);
      assert false;
    }
  }

  lemma {:induction false} StuckForEver(s: State, acts: seq<Action>, t: State, side: Side, size: TableSize)
    requires Inv(s, size) && Run(s, acts, t, size) && Stuck(s, side, size)
    ensures Stuck(t, side, size) && !Of(t, side).phase.Idle?
    decreases |acts|
  {
    if acts != [] {
      NextInv(s, acts[0], size);
      StuckStays(s, acts[0], side, size);
      StuckForEver(Next(s, acts[0], size), acts[1..], t, side, size);
    }
  }

  /** A busy node can return to its select loop, and then within three steps, exactly when it is not in an
      endless search and does not wait for a node that is or that waits for this one. */
  lemma CompletesIffNotStuck(s: State, side: Side, size: TableSize)
    requires Reachable(s, size) && !Of(s, side).phase.Idle?
    ensures CanComplete(s, side, size, 3) <==> !Stuck(s, side, size)
    ensures (exists steps :: CanComplete(s, side, size, steps)) <==> !Stuck(s, side, size)
  {
    ReachableInv(s, size);
    if Stuck(s, side, size) {
      forall acts, t | Run(s, acts, t, size)
        ensures !Of(t, side).phase.Idle?
      {
        StuckForEver(s, acts, t, side, size);
      }
    } else {
      CompletesUnlessStuck(s, side, size);
    }
  }

  lemma NothingEnabledInDeadlock(s: State, x: Action, size: TableSize)
    requires Inv(s, size) && Deadlocked(s)
    ensures !Enabled(s, x, size)
  {
  }

  /** Two nodes that wait for each other do nothing at all any more. */
  lemma DeadlockIsFinal(s: State, acts: seq<Action>, t: State, size: TableSize)
    requires Inv(s, size) && Deadlocked(s) && Run(s, acts, t, size)
    ensures acts == [] && t == s
  {
    if acts != [] {
      NothingEnabledInDeadlock(s, acts[0], size);
      assert false;
    }
  }

  // ---------- starting up ----------

  /** B's start-up, which waits for A to answer its greeting, can end in t. */
  ghost predicate CanLink(s: State, size: TableSize) {
    exists acts, t :: Run(s, acts, t, size) && t.linked
  }

  lemma LinksFromIdle(s: State, size: TableSize)
    requires Inv(s, size) && !s.linked && (s.greeted || s.a.phase.Idle?)
    ensures CanLink(s, size)
  {
    var u := s;
    if !s.greeted {
      u := Next(s, Hello, size);
      NextInv(s, Hello, size);
    }
    OneStep(u, Listen, size);
    if !s.greeted {
      PrependRun(s, Hello, [Listen], Next(u, Listen, size), size);
    }
  }

  lemma {:induction false} LostNeverGreets(s: State, acts: seq<Action>, t: State, size: TableSize)
    requires Inv(s, size) && Run(s, acts, t, size) && Lost(s, A, size) && !s.greeted
    ensures !t.linked
    decreases |acts|
  {
    if acts != [] {
      NextInv(s, acts[0], size);
      LostStays(s, acts[0], A, size);
      NotGreeted(s, acts[0], size);
      LostNeverGreets(Next(s, acts[0], size), acts[1..], t, size);
    }
  }

  lemma NotGreeted(s: State, x: Action, size: TableSize)
    requires Inv(s, size) && Enabled(s, x, size) && !s.greeted && !s.a.phase.Idle?
    ensures !Next(s, x, size).greeted
  {
    match x
    case TakeReport(side, report) => TakeReportEffect(s, side, report, size);
    case TakeShare(side, id, junk) => TakeShareEffect(s, side, id, junk, size);
    case _ =>
  }

  /** B's start-up can end exactly if A has answered its greeting already or is not in an endless search. */
  lemma LinksIff(s: State, size: TableSize)
    requires Reachable(s, size) && !s.linked
    ensures CanLink(s, size) <==> s.greeted || !Lost(s, A, size)
  {
    ReachableInv(s, size);
    if !s.greeted && Lost(s, A, size) {
      forall acts, t | Run(s, acts, t, size)
        ensures !t.linked
      {
        LostNeverGreets(s, acts, t, size);
      }
    } else if s.greeted || s.a.phase.Idle? {
      LinksFromIdle(s, size);
    } else {
      LostIff(s, A, size);
      var u := Next(s, Answer(A), size);
      NextInv(s, Answer(A), size);
      LinksFromIdle(u, size);
      var acts, t :| Run(u, acts, t, size) && t.linked;
      PrependRun(s, Answer(A), acts, t, size);
    }
  }

  // ---------- discipline ----------

  /** A report is taken only while the other node is not waiting for this one, and a query only if it can
      be seen to end. */
  ghost predicate Careful(s: State, x: Action, size: TableSize) {
    match x
    case TakeReport(side, report) => !Of(s, side.Other()).phase.Sharing?
    case TakeQuery(side, query) => SafeQuery(Of(s, side).log, query, size)
    case _ => true
  }

  ghost predicate CarefulRun(s: State, acts: seq<Action>, size: TableSize)
    decreases |acts|
  {
    acts != [] ==>
      && Fits(s, size) && Enabled(s, acts[0], size)
      && Careful(s, acts[0], size)
      && CarefulRun(Next(s, acts[0], size), acts[1..], size)
  }

  ghost predicate NobodyStuck(s: State, size: TableSize) {
    !Deadlocked(s) && !Lost(s, A, size) && !Lost(s, B, size)
  }

  lemma CarefulStep(s: State, x: Action, side: Side, size: TableSize)
    requires Inv(s, size) && NobodyStuck(s, size) && Enabled(s, x, size) && Careful(s, x, size)
    ensures !Lost(Next(s, x, size), side, size)
  {
    if Of(s, side).phase.Searching? && x != Answer(side) {
      SearchGoesOn(s, x, side, size);
    } else {
      match x
      case TakeReport(other, report) => TakeReportEffect(s, other, report, size);
      case TakeShare(other, id, junk) => TakeShareEffect(s, other, id, junk, size);
      case _ =>
    }
  }

  lemma NoNewDeadlock(s: State, x: Action, size: TableSize)
    requires Inv(s, size) && !Deadlocked(s) && Enabled(s, x, size) && Careful(s, x, size)
    ensures !Deadlocked(Next(s, x, size))
  {
    match x
    case TakeReport(other, report) => TakeReportEffect(s, other, report, size);
    case TakeShare(other, id, junk) => TakeShareEffect(s, other, id, junk, size);
    case _ =>
  }

  lemma {:induction false} CarefulRunKeeps(s: State, acts: seq<Action>, t: State, size: TableSize)
    requires Inv(s, size) && Run(s, acts, t, size) && CarefulRun(s, acts, size) && NobodyStuck(s, size)
    ensures NobodyStuck(t, size)
    decreases |acts|
  {
    if acts != [] {
      CarefulStep(s, acts[0], A, size);
      CarefulStep(s, acts[0], B, size);
      NoNewDeadlock(s, acts[0], size);
      NextInv(s, acts[0], size);
      CarefulRunKeeps(Next(s, acts[0], size), acts[1..], t, size);
    }
  }

  /** If reports are serialised and queries checked beforehand, every busy node can complete. */
  lemma CarefulRunsComplete(bootA: Boot, bootB: Boot, acts: seq<Action>, s: State, side: Side, size: TableSize)
    requires Run(Start(bootA, bootB), acts, s, size) && CarefulRun(Start(bootA, bootB), acts, size)
    requires !Of(s, side).phase.Idle?
    ensures CanComplete(s, side, size, 3)
  {
    StartInv(bootA, bootB, size);
    CarefulRunKeeps(Start(bootA, bootB), acts, s, size);
    assert Reachable(s, size);
    CompletesIffNotStuck(s, side, size);
  }

  /** The check on queries is exact: after an unchecked one the node never returns. */
  lemma QueryCompletesIff(s: State, side: Side, query: Name, size: TableSize)
    requires Reachable(s, size) && Enabled(s, TakeQuery(side, query), size)
    ensures Fits(s, size)
    ensures var t := Next(s, TakeQuery(side, query), size);
      (exists steps :: CanComplete(t, side, size, steps)) <==> SafeQuery(Of(s, side).log, query, size)
  {
    ReachableStep(s, TakeQuery(side, query), size);
    CompletesIffNotStuck(Next(s, TakeQuery(side, query), size), side, size);
  }

  // ---------- the two ways to block ----------

  const CHILD := Entry(0, 1)

  /** The first child connects and announces itself. */
  lemma Registers(s: State, side: Side, size: TableSize) returns (t: State)
    requires Reachable(s, size) && Serving(s, side) && Of(s, side).registry == [Entry(0, 0)]
    ensures Reachable(t, size) && t.linked == s.linked && t.known == s.known && t.greeted == s.greeted
    ensures Of(t, side).registry == [CHILD] && Of(t, side).phase.Idle? && Of(t, side).log == Of(s, side).log
    ensures Of(t, side).peers != [] && Of(t, side).accepted
    ensures Of(t, side.Other()) == Of(s, side.Other())
  {
    ReachableStep(s, Connect(side, []), size);
    var u := Next(s, Connect(side, []), size);
    ReachableStep(u, ChildHello(side, CHILD), size);
    t := Next(u, ChildHello(side, CHILD), size);
    assert Register([Entry(0, 0)], CHILD) == [CHILD];
  }

  const BOOT := Boot([0], [])

  lemma Starts(size: TableSize) returns (s: State)
    ensures s == Start(BOOT, BOOT) && Reachable(s, size)
    ensures s.a.registry == s.b.registry == [Entry(0, 0)]
  {
    s := Start(BOOT, BOOT);
    assert Run(s, [], s, size);
  }

  /** B greets A and begins to listen. */
  lemma Links(s: State, size: TableSize) returns (t: State)
    requires Reachable(s, size) && !s.greeted && !s.linked && s.a.phase.Idle?
    ensures Reachable(t, size) && t.linked && t.known == s.a.accepted
    ensures t.a == s.a.(accepted := true) && t.b == s.b
  {
    ReachableStep(s, Hello, size);
    var u := Next(s, Hello, size);
    ReachableStep(u, Listen, size);
    t := Next(u, Listen, size);
  }

  /** Both nodes listening, idle, and knowing each other and one child with id 0. */
  ghost predicate Ready(s: State, size: TableSize) {
    && Reachable(s, size) && s.linked && s.known && s.a.phase.Idle? && s.b.phase.Idle?
    && s.a.registry == [CHILD] && s.b.registry == [CHILD] && s.a.peers != [] && s.b.peers != []
  }

  lemma BothReady(size: TableSize) returns (s: State)
    ensures Ready(s, size) && s.a.log == s.b.log == []
  {
    s := Starts(size);
    s := Registers(s, A, size);
    s := Links(s, size);
    s := Registers(s, B, size);
  }

  const EMPTY_REPORT := ChildReport(0, [], 0, [])

  lemma EmptyReportShares(s: State, side: Side, size: TableSize)
    requires Reachable(s, size) && CanShare(s, side) && Of(s, side).phase.Idle?
    requires PortOf(Of(s, side).registry, 0) != 0 && Of(s, side).peers != []
    ensures Enabled(s, TakeReport(side, EMPTY_REPORT), size) && Fits(s, size)
    ensures var t := Next(s, TakeReport(side, EMPTY_REPORT), size);
      && Reachable(t, size) && t.linked && t.known == s.known && Of(t, side).phase.Sharing?
      && Of(t, side.Other()) == Of(s, side.Other()) && Of(t, side).registry == Of(s, side).registry
  {
    ReachableStep(s, TakeReport(side, EMPTY_REPORT), size);
    TakeReportEffect(s, side, EMPTY_REPORT, size);
  }

  /** Two simultaneous reports deadlock the nodes. */
  lemma DeadlockReachable(size: TableSize) returns (s: State)
    ensures Reachable(s, size) && Deadlocked(s)
  {
    var s0 := BothReady(size);
    assert PortOf([CHILD], 0) == 1;
    EmptyReportShares(s0, A, size);
    var s1 := Next(s0, TakeReport(A, EMPTY_REPORT), size);
    EmptyReportShares(s1, B, size);
    s := Next(s1, TakeReport(B, EMPTY_REPORT), size);
  }

  // A file name and a query that begins no such name.
  const NAME: Name := [97]
  const QUERY: Name := [98]

  const REPORT := ChildReport(0, [FileEntry(NAME, 0)], 0, Zeros(ENTRY_LEN, 1))

  lemma OneFileReported(s: State, size: TableSize) returns (t: State)
    requires Ready(s, size) && |s.a.log| < size
    ensures Reachable(t, size) && t.linked && t.known && t.a.registry == [CHILD] && t.a.peers != []
    ensures t.a.phase.Sharing? && |t.a.phase.batch| == 1 && t.a.phase.batch[0].name == NAME
    ensures |t.a.log| == |s.a.log| + 1 && t.b == s.b
  {
    SevenBitIndexable(NAME, size);
    ReachableStep(s, TakeReport(A, REPORT), size);
    t := Next(s, TakeReport(A, REPORT), size);
    TakeReportEffect(s, A, REPORT, size);
    assert PortOf([CHILD], 0) == 1;
  }

  lemma OneFileShared(s: State, size: TableSize) returns (t: State)
    requires Reachable(s, size) && s.linked && s.known && s.a.registry == [CHILD] && s.b.registry == [CHILD]
    requires s.a.peers != [] && s.b.peers != []
    requires s.a.phase.Sharing? && |s.a.phase.batch| == 1 && s.b.phase.Idle? && |s.b.log| < size
    ensures Ready(t, size) && t.a.log == s.a.log && t.b.log == s.b.log + s.a.phase.batch
  {
    ReachableInv(s, size);
    var x := TakeShare(B, 0, Zeros(RECORD_LEN, 1));
    ReachableStep(s, x, size);
    TakeShareEffect(s, B, 0, Zeros(RECORD_LEN, 1), size);
    var u := Next(s, x, size);
    ReachableStep(u, TakeReply(A), size);
    t := Next(u, TakeReply(A), size);
  }

  /** A report of one file that both nodes store, if they have room. */
  lemma OneFileStored(s: State, size: TableSize) returns (t: State)
    requires Ready(s, size) && |s.a.log| == |s.b.log| < size
    requires forall i :: 0 <= i < |s.b.log| ==> s.b.log[i].name == NAME
    ensures Ready(t, size) && |t.a.log| == |t.b.log| == |s.b.log| + 1
    ensures forall i :: 0 <= i < |t.b.log| ==> t.b.log[i].name == NAME
  {
    t := OneFileReported(s, size);
    t := OneFileShared(t, size);
  }

  lemma {:induction false} TablesFilled(size: TableSize, k: nat) returns (s: State)
    requires k <= size
    ensures Ready(s, size) && |s.a.log| == |s.b.log| == k
    ensures forall i :: 0 <= i < |s.b.log| ==> s.b.log[i].name == NAME
  {
    if k == 0 {
      s := BothReady(size);
    } else {
      s := TablesFilled(size, k - 1);
      s := OneFileStored(s, size);
    }
  }

  /** With full tables one query for an unknown name loses a node, and with it the other node as soon as
      that takes a report, although neither waits for the other's share at the same time. */
  lemma LostReachable(size: TableSize) returns (s: State)
    ensures Reachable(s, size) && !Deadlocked(s)
    ensures Lost(s, B, size) && s.a.phase.Sharing? && Stuck(s, A, size)
  {
    var s0 := TablesFilled(size, size);
    SevenBitIndexable(QUERY, size);
    ReachableStep(s0, TakeQuery(B, QUERY), size);
    var s1 := Next(s0, TakeQuery(B, QUERY), size);
    assert PortOf([CHILD], 0) == 1;
    EmptyReportShares(s1, A, size);
    s := Next(s1, TakeReport(A, EMPTY_REPORT), size);
  }
}
