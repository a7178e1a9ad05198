/**
 The two super nodes as a transition system. Each is a single thread that serves children and the other
 super node. It stores a child's report, sends the records to the other super node and blocks until the
 reply comes; it answers queries, which keeps it busy as long as the search takes. A share and its reply
 travel on a connection of their own, so a phase per node describes what is in flight. Packets pass
 through the byte formats of DirWire, tables have `size` cells. The first accept() of a node is given
 too short an address buffer and leaves the address as it was; the later ones fill it in.
 */
module DirReplicas {
  import opened CStrings
  import opened DirTable
  import opened DirFileTable
  import opened DirRegistry
  import opened DirWire

  type TableSize = n: nat | 0 < n witness 1

  datatype Side = A | B {
    function Other(): Side {
      if this == A then B else A
    }
  }

  /** Idle: in select. Sharing: blocked, the share not yet processed. Answered: blocked, reply in flight.
      Searching: in the loop of searchFileInfo. */
  datatype Phase = Idle | Sharing(batch: seq<Record>) | Answered | Searching(query: Name)

  /** An IP address in dotted form. */
  type Address = a: Name | |a| < IP_ADDR_LEN && NulFree(a)

  /** A child's connection: the child's address, and what the node keeps as its address. */
  datatype Peer = Peer(address: Address, stored: Address)

  /** What is never initialised: the ids of empty registry entries, and the address before the first accept. */
  datatype Boot = Boot(stale: seq<nat>, junk: Address)

  /** What a child sends on one of the connections, and the memory of the packet it travels in. */
  datatype ChildReport = ChildReport(id: nat, files: seq<FileEntry>, conn: nat, junk: seq<seq<int>>)

  /** `accepted`: accept() has been called. History: the announcements of children, the reports stored here,
      and the reported records that were never stored here. */
  datatype Super = Super(
    log: seq<Record>, phase: Phase, registry: seq<Entry>, boot: Boot, accepted: bool, peers: seq<Peer>,
    hellos: seq<Entry>, served: seq<ChildReport>, missed: multiset<Record>)

  /** B starts with A's address and introduces itself (`greeted`) before it opens its listening socket
      (`linked`). Until then B serves nobody and A cannot connect to it. `known`: A has B's address. */
  datatype State = State(
    a: Super, b: Super, greeted: bool, linked: bool, known: bool, reported: multiset<Record>)

  datatype Action =
    | Hello
    | Listen
    | Connect(side: Side, address: Address)                 // accept() for a child
    | ChildHello(side: Side, hello: Entry)
    | TakeReport(side: Side, report: ChildReport)
    | TakeShare(side: Side, id: nat, junk: seq<seq<int>>)   // `side` processes the other's share
    | TakeReply(side: Side)
    | TakeQuery(side: Side, query: Name)
    | Answer(side: Side)

  function Of(s: State, side: Side): Super {
    if side == A then s.a else s.b
  }

  function With(s: State, side: Side, node: Super): State {
    if side == A then s.(a := node) else s.(b := node)
  }

  function NewSuper(boot: Boot): Super {
    Super([], Idle, Entries(boot.stale, []), boot, false, [], [], [], multiset{})
  }

  function Start(bootA: Boot, bootB: Boot): State {
    State(NewSuper(bootA), NewSuper(bootB), false, false, false, multiset{})
  }

  /** What the node keeps as the address of this connection. */
  function StoredAddress(node: Super, conn: nat): Address {
    if conn < |node.peers| then node.peers[conn].stored else node.boot.junk
  }

  /** Connecting to the other node succeeds if it listens and its address is known. */
  predicate CanShare(s: State, side: Side) {
    s.linked && (side == B || s.known)
  }

  /** The records a super node makes of a report; the port comes from its registry. */
  function Records(files: seq<FileEntry>, ip: Name, port: nat): (r: seq<Record>)
    ensures |r| == |files|
  {
    seq(|files|, i requires 0 <= i < |files| => Record(files[i].name, files[i].size, ip, port))
  }

  /** The records of a report whose child has announced a port to this node. */
  function RecordsOf(node: Super, report: ChildReport): (r: seq<Record>)
    ensures |r| == |report.files|
  {
    Records(report.files, StoredAddress(node, report.conn), PortOf(node.registry, report.id))
  }

  ghost predicate WellFormed(r: ChildReport, size: TableSize) {
    && r.id < WORD && |r.files| <= MAX_FILES && JunkFor(r.junk, ENTRY_LEN, |r.files|)
    && (forall i :: 0 <= i < |r.files| ==> FitsEntry(r.files[i]) && Indexable(r.files[i].name, size))
  }

  ghost predicate Shareable(batch: seq<Record>, size: TableSize) {
    |batch| <= MAX_FILES && AllIndexable(batch, size) && forall i :: 0 <= i < |batch| ==> FitsRecord(batch[i])
  }

  predicate Serving(s: State, side: Side) {
    Of(s, side).phase.Idle? && (side == A || s.linked)
  }

  /** The search under way will end. */
  ghost predicate SearchEnds(node: Super, size: TableSize) {
    && node.phase.Searching? && AllIndexable(node.log, size) && Indexable(node.phase.query, size)
    && !Lookup(Table(node.log, size), node.phase.query).Endless?
  }

  ghost predicate Enabled(s: State, x: Action, size: TableSize) {
    match x
    case Hello => !s.greeted && s.a.phase.Idle?
    case Listen => s.greeted && !s.linked
    case Connect(side, address) => Serving(s, side)
    case ChildHello(side, hello) => Serving(s, side) && Of(s, side).peers != [] && hello.portNum < WORD
    case TakeReport(side, report) =>
      Serving(s, side) && report.conn < |Of(s, side).peers| && WellFormed(report, size)
    case TakeShare(side, id, junk) =>
      && Serving(s, side) && Of(s, side.Other()).phase.Sharing?
      && var batch := Of(s, side.Other()).phase.batch;
      && Shareable(batch, size) && id < WORD && JunkFor(junk, RECORD_LEN, |batch|)
    case TakeReply(side) => Of(s, side).phase.Answered?
    case TakeQuery(side, query) => Serving(s, side) && Indexable(query, size)
    case Answer(side) => SearchEnds(Of(s, side), size)
  }

  /** Storing records one by one while the table has room. */
  function Store(node: Super, records: seq<Record>, size: TableSize): Super
    requires |node.log| <= size
  {
    var after := Accept(node.log, records, size);
    node.(log := after, missed := node.missed + multiset(records) - multiset(after[|node.log|..]))
  }

  function Missing(node: Super, records: seq<Record>): Super {
    node.(missed := node.missed + multiset(records))
  }

  ghost predicate Fits(s: State, size: TableSize) {
    |s.a.log| <= size && |s.b.log| <= size
  }

  function Next(s: State, x: Action, size: TableSize): State
    requires Enabled(s, x, size) && Fits(s, size)
  {
    match x
    case Hello => s.(greeted := true, known := s.a.accepted, a := s.a.(accepted := true))
    case Listen => s.(linked := true)
    case Connect(side, address) =>
      var node := Of(s, side);
      var peer := Peer(address, if node.accepted then address else node.boot.junk);
      With(s, side, node.(accepted := true, peers := node.peers + [peer]))
    case ChildHello(side, hello) =>
      var node := Of(s, side);
      With(s, side, node.(registry := Register(node.registry, hello), hellos := node.hellos + [hello]))
    case TakeReport(side, report) =>
      var node, other := Of(s, side), Of(s, side.Other());
      var received := ReceiveReport(Delivered(Report(report.id, report.files, report.junk)));
      var port := PortOf(node.registry, report.id);
      if received.None? || port == 0 then s
      else
        var records := Records(received.value, StoredAddress(node, report.conn), port);
        var after := Store(node, records, size).(served := node.served + [report]);
        var t := s.(reported := s.reported + multiset(records));
        if CanShare(s, side) then With(t, side, after.(phase := Sharing(records)))
        else With(With(t, side, after), side.Other(), Missing(other, records))
    case TakeShare(side, id, junk) =>
      var node, sender := Of(s, side), Of(s, side.Other());
      var received := ReceiveShare(Delivered(Share(id, sender.phase.batch, junk)));
      var after :=
        if received.Some? then Store(node, received.value, size) else Missing(node, sender.phase.batch);
      With(With(s, side, after.(accepted := true)), side.Other(), sender.(phase := Answered))
    case TakeReply(side) => With(s, side, Of(s, side).(phase := Idle))
    case TakeQuery(side, query) => With(s, side, Of(s, side).(phase := Searching(query)))
    case Answer(side) => With(s, side, Of(s, side).(phase := Idle))
  }

  ghost predicate Run(s: State, acts: seq<Action>, t: State, size: TableSize)
    decreases |acts|
  {
    && Fits(s, size)
    && if acts == [] then s == t
       else Enabled(s, acts[0], size) && Run(Next(s, acts[0], size), acts[1..], t, size)
  }

  ghost predicate Reachable(s: State, size: TableSize) {
    exists bootA, bootB, acts :: Run(Start(bootA, bootB), acts, s, size)
  }

  // ---------- the account of every record ----------

  /** What is on its way to this side. */
  function InFlightTo(s: State, side: Side): multiset<Record> {
    var sender := Of(s, side.Other());
    if sender.phase.Sharing? then multiset(sender.phase.batch) else multiset{}
  }

  ghost predicate Accounted(s: State, side: Side) {
    multiset(Of(s, side).log) + InFlightTo(s, side) + Of(s, side).missed == s.reported
  }

  ghost predicate GoodNode(node: Super, size: TableSize) {
    && |node.log| <= size && AllIndexable(node.log, size)
    && (node.phase.Sharing? ==> Shareable(node.phase.batch, size))
    && (node.phase.Searching? ==> Indexable(node.phase.query, size))
    && node.registry == Entries(node.boot.stale, node.hellos)
    && (forall i :: 0 <= i < |node.registry| ==> node.registry[i].portNum < WORD)
  }

  ghost predicate Inv(s: State, size: TableSize) {
    && GoodNode(s.a, size) && GoodNode(s.b, size)
    && Accounted(s, A) && Accounted(s, B)
    && (s.linked ==> s.greeted)
    && (!s.linked ==> s.b.phase.Idle? && s.b.log == [])
    && (!CanShare(s, A) ==> !s.a.phase.Sharing? && !s.a.phase.Answered?)
    && (s.a.peers != [] ==> s.a.accepted)
  }

  lemma {:induction false} AcceptedPart(log: seq<Record>, records: seq<Record>, size: TableSize)
    requires |log| <= size && AllIndexable(log, size) && AllIndexable(records, size)
    ensures AllIndexable(Accept(log, records, size), size)
  {
    var after := Accept(log, records, size);
    forall i | 0 <= i < |after|
      ensures Indexable(after[i].name, size)
    {
      assert i >= |log| ==> after[i] == records[i - |log|];
    }
  }

  /** What does not fit into the table. */
  function Surplus(node: Super, records: seq<Record>, size: TableSize): seq<Record>
    requires |node.log| <= size
  {
    if |node.log| + |records| <= size then [] else records[size - |node.log|..]
  }

  lemma StoreAccounts(node: Super, records: seq<Record>, size: TableSize)
    requires |node.log| <= size
    ensures var after := Store(node, records, size);
      && multiset(after.log) + after.missed == multiset(node.log) + node.missed + multiset(records)
      && |after.log| <= size
      && after == node.(log := after.log, missed := after.missed)
      && after.missed == node.missed + multiset(Surplus(node, records, size))
  {
    var after := Accept(node.log, records, size);
    var kept, rest := after[|node.log|..], Surplus(node, records, size);
    assert after == node.log + kept;
    assert records == kept + rest;
    assert multiset(records) == multiset(kept) + multiset(rest);
    assert node.missed + multiset(records) - multiset(kept) == node.missed + multiset(rest);
  }

  /** t is s after `side` has stored these records and begun to share them, if it can. */
  ghost predicate Stored(s: State, t: State, side: Side, report: ChildReport, records: seq<Record>, size: TableSize)
    requires |Of(s, side).log| <= size
  {
    var node, other := Of(s, side), Of(s, side.Other());
    && t.reported == s.reported + multiset(records)
    && t.linked == s.linked && t.greeted == s.greeted && t.known == s.known
    && Of(t, side) == Store(node, records, size)
         .(phase := if CanShare(s, side) then Sharing(records) else node.phase, served := node.served + [report])
    && Of(t, side.Other()) == if CanShare(s, side) then other else Missing(other, records)
  }

  /** t is s after `side` has dealt with the other's share of this batch. */
  ghost predicate Shared(s: State, t: State, side: Side, batch: seq<Record>, size: TableSize)
    requires |Of(s, side).log| <= size
  {
    && t.reported == s.reported && t.linked == s.linked && t.greeted == s.greeted && t.known == s.known
    && Of(t, side.Other()) == Of(s, side.Other()).(phase := Answered)
    && Of(t, side) ==
      (if |batch| <= 8 then Store(Of(s, side), batch, size) else Missing(Of(s, side), batch)).(accepted := true)
  }

  /** The guard under which a report is stored. */
  predicate IsAccepted(s: State, side: Side, report: ChildReport) {
    |report.files| <= 10 && PortOf(Of(s, side).registry, report.id) != 0
  }

  /** What taking a report does, in terms of the number of files and the registry alone. */
  lemma TakeReportEffect(s: State, side: Side, report: ChildReport, size: TableSize)
    requires Fits(s, size) && Enabled(s, TakeReport(side, report), size)
    ensures var t := Next(s, TakeReport(side, report), size);
      if IsAccepted(s, side, report) then Stored(s, t, side, report, RecordsOf(Of(s, side), report), size)
      else t == s
  {
    ReportArrives(report.id, report.files, report.junk);
  }

  /** What taking a share does, in terms of the number of records alone. */
  lemma TakeShareEffect(s: State, side: Side, id: nat, junk: seq<seq<int>>, size: TableSize)
    requires Fits(s, size) && Enabled(s, TakeShare(side, id, junk), size)
    ensures Shared(s, Next(s, TakeShare(side, id, junk), size), side, Of(s, side.Other()).phase.batch, size)
  {
    ShareArrives(id, Of(s, side.Other()).phase.batch, junk);
  }

  lemma {:induction false} PortBelow(entries: seq<Entry>, id: nat, limit: nat)
    requires 0 < limit && forall i :: 0 <= i < |entries| ==> entries[i].portNum < limit
    ensures PortOf(entries, id) < limit
  {
    if entries != [] {
      PortBelow(entries[1..], id, limit);
    }
  }

  lemma RecordsShareable(node: Super, report: ChildReport, size: TableSize)
    requires GoodNode(node, size) && WellFormed(report, size)
    ensures Shareable(RecordsOf(node, report), size)
  {
    PortBelow(node.registry, report.id, WORD);
  }

  /** An account log + inFlight + missed == reported after `x` more was stored or missed, */
  lemma AccountStore<T>(log: multiset<T>, inFlight: multiset<T>, missed: multiset<T>, reported: multiset<T>,
      x: multiset<T>, log': multiset<T>, missed': multiset<T>)
    requires log + inFlight + missed == reported && log' + missed' == log + missed + x
    ensures log' + inFlight + missed' == reported + x
  {
    assert log' + inFlight + missed' == (log' + missed') + inFlight;
    assert (log + missed + x) + inFlight == (log + inFlight + missed) + x;
  }

  /** ... and after `x` went from in flight to stored or missed. */
  lemma AccountArrive<T>(log: multiset<T>, missed: multiset<T>, reported: multiset<T>,
      x: multiset<T>, log': multiset<T>, missed': multiset<T>)
    requires log + x + missed == reported && log' + missed' == log + missed + x
    ensures log' + multiset{} + missed' == reported
  {
    assert log + missed + x == log + x + missed;
  }

  lemma StoredAccountsHere(s: State, t: State, side: Side, report: ChildReport, records: seq<Record>, size: TableSize)
    requires Accounted(s, side) && |Of(s, side).log| <= size
    requires Stored(s, t, side, report, records, size)
    ensures Accounted(t, side)
  {
    StoreAccounts(Of(s, side), records, size);
    assert InFlightTo(t, side) == InFlightTo(s, side);
    AccountStore(multiset(Of(s, side).log), InFlightTo(s, side), Of(s, side).missed, s.reported,
                 multiset(records), multiset(Of(t, side).log), Of(t, side).missed);
  }

  lemma StoredAccountsThere(s: State, t: State, side: Side, report: ChildReport, records: seq<Record>, size: TableSize)
    requires Accounted(s, side.Other()) && |Of(s, side).log| <= size && Of(s, side).phase.Idle?
    requires Stored(s, t, side, report, records, size)
    ensures Accounted(t, side.Other())
  {
    var x := multiset(records);
    var log, missed := multiset(Of(s, side.Other()).log), Of(s, side.Other()).missed;
    assert log + multiset{} + missed == s.reported;
    assert log + missed == log + multiset{} + missed;
    if CanShare(s, side) {
      assert log + x + missed == log + missed + x;
    } else {
      assert log + multiset{} + (missed + x) == log + missed + x;
    }
  }

  lemma ArriveMissed<T>(log: multiset<T>, missed: multiset<T>, x: multiset<T>)
    ensures log + multiset{} + (missed + x) == log + x + missed
  {
  }

  lemma SharedAccountsHere(s: State, t: State, side: Side, batch: seq<Record>, size: TableSize)
    requires Accounted(s, side)
    requires |Of(s, side).log| <= size && Of(s, side.Other()).phase == Sharing(batch)
    requires Shared(s, t, side, batch, size)
    ensures Accounted(t, side)
  {
    var node, after := Of(s, side), Of(t, side);
    if |batch| <= 8 {
      StoreAccounts(node, batch, size);
      AccountArrive(multiset(node.log), node.missed, s.reported, multiset(batch),
                    multiset(after.log), after.missed);
    } else {
      ArriveMissed(multiset(node.log), node.missed, multiset(batch));
    }
  }

  lemma SharedAccounts(s: State, t: State, side: Side, batch: seq<Record>, size: TableSize)
    requires Accounted(s, side) && Accounted(s, side.Other())
    requires |Of(s, side).log| <= size && Of(s, side).phase.Idle? && Of(s, side.Other()).phase == Sharing(batch)
    requires Shared(s, t, side, batch, size)
    ensures Accounted(t, side) && Accounted(t, side.Other())
  {
    SharedAccountsHere(s, t, side, batch, size);
    StoreAccounts(Of(s, side), batch, size);
    assert InFlightTo(t, side.Other()) == InFlightTo(s, side.Other());
  }

  lemma StoredKeepsInv(s: State, t: State, side: Side, report: ChildReport, size: TableSize)
    requires Inv(s, size) && Serving(s, side) && WellFormed(report, size)
    requires Stored(s, t, side, report, RecordsOf(Of(s, side), report), size)
    ensures Inv(t, size)
  {
    var records := RecordsOf(Of(s, side), report);
    StoredAccountsHere(s, t, side, report, records, size);
    StoredAccountsThere(s, t, side, report, records, size);
    RecordsShareable(Of(s, side), report, size);
    AcceptedPart(Of(s, side).log, records, size);
  }

  lemma SharedKeepsInv(s: State, t: State, side: Side, batch: seq<Record>, size: TableSize)
    requires Inv(s, size) && Of(s, side).phase.Idle? && Of(s, side.Other()).phase == Sharing(batch)
    requires Shared(s, t, side, batch, size)
    ensures Inv(t, size)
  {
    SharedAccounts(s, t, side, batch, size);
    AcceptedPart(Of(s, side).log, batch, size);
  }

  lemma ReportKeepsInv(s: State, side: Side, report: ChildReport, size: TableSize)
    requires Inv(s, size) && Enabled(s, TakeReport(side, report), size)
    ensures Inv(Next(s, TakeReport(side, report), size), size)
  {
    TakeReportEffect(s, side, report, size);
    if IsAccepted(s, side, report) {
      StoredKeepsInv(s, Next(s, TakeReport(side, report), size), side, report, size);
    }
  }

  lemma ShareKeepsInv(s: State, side: Side, id: nat, junk: seq<seq<int>>, size: TableSize)
    requires Inv(s, size) && Enabled(s, TakeShare(side, id, junk), size)
    ensures Inv(Next(s, TakeShare(side, id, junk), size), size)
  {
    TakeShareEffect(s, side, id, junk, size);
    SharedKeepsInv(s, Next(s, TakeShare(side, id, junk), size), side, Of(s, side.Other()).phase.batch, size);
  }

  lemma HelloKeepsNode(node: Super, hello: Entry, size: TableSize)
    requires GoodNode(node, size) && hello.portNum < WORD
    ensures GoodNode(node.(registry := Register(node.registry, hello), hellos := node.hellos + [hello]), size)
  {
    assert (node.hellos + [hello])[..|node.hellos|] == node.hellos;
  }

  lemma HelloKeepsInv(s: State, side: Side, hello: Entry, size: TableSize)
    requires Inv(s, size) && Enabled(s, ChildHello(side, hello), size)
    ensures Inv(Next(s, ChildHello(side, hello), size), size)
  {
    var t := Next(s, ChildHello(side, hello), size);
    HelloKeepsNode(Of(s, side), hello, size);
    assert InFlightTo(t, A) == InFlightTo(s, A) && InFlightTo(t, B) == InFlightTo(s, B);
  }

  lemma ConnectKeepsInv(s: State, side: Side, address: Address, size: TableSize)
    requires Inv(s, size) && Enabled(s, Connect(side, address), size)
    ensures Inv(Next(s, Connect(side, address), size), size)
  {
    var t := Next(s, Connect(side, address), size);
    assert InFlightTo(t, A) == InFlightTo(s, A) && InFlightTo(t, B) == InFlightTo(s, B);
  }

  lemma GreetKeepsInv(s: State, x: Action, size: TableSize)
    requires Inv(s, size) && Enabled(s, x, size) && (x.Hello? || x.Listen?)
    ensures Inv(Next(s, x, size), size)
  {
    var t := Next(s, x, size);
    assert InFlightTo(t, A) == InFlightTo(s, A) && InFlightTo(t, B) == InFlightTo(s, B);
  }

  /** A node that leaves select to search, or returns to it. */
  lemma PhaseKeepsInv(s: State, side: Side, phase: Phase, size: TableSize)
    requires Inv(s, size) && !Of(s, side).phase.Sharing? && (side == A || s.linked)
    requires phase.Idle? || (phase.Searching? && Indexable(phase.query, size))
    ensures Inv(With(s, side, Of(s, side).(phase := phase)), size)
  {
    var t := With(s, side, Of(s, side).(phase := phase));
    assert InFlightTo(t, A) == InFlightTo(s, A) && InFlightTo(t, B) == InFlightTo(s, B);
  }

  lemma NextInv(s: State, x: Action, size: TableSize)
    requires Inv(s, size) && Enabled(s, x, size)
    ensures Inv(Next(s, x, size), size)
  {
    match x
    case Hello => GreetKeepsInv(s, x, size);
    case Listen => GreetKeepsInv(s, x, size);
    case Connect(side, address) => ConnectKeepsInv(s, side, address, size);
    case ChildHello(side, hello) => HelloKeepsInv(s, side, hello, size);
    case TakeReport(side, report) => ReportKeepsInv(s, side, report, size);
    case TakeShare(side, id, junk) => ShareKeepsInv(s, side, id, junk, size);
    case TakeReply(side) => PhaseKeepsInv(s, side, Idle, size);
    case TakeQuery(side, query) => PhaseKeepsInv(s, side, Searching(query), size);
    case Answer(side) => PhaseKeepsInv(s, side, Idle, size);
  }

  lemma {:induction false} RunInv(s: State, acts: seq<Action>, t: State, size: TableSize)
    requires Inv(s, size) && Run(s, acts, t, size)
    ensures Inv(t, size)
    decreases |acts|
  {
    if acts != [] {
      NextInv(s, acts[0], size);
      RunInv(Next(s, acts[0], size), acts[1..], t, size);
    }
  }

  lemma StartInv(bootA: Boot, bootB: Boot, size: TableSize)
    ensures Inv(Start(bootA, bootB), size)
  {
  }

  lemma ReachableInv(s: State, size: TableSize)
    requires Reachable(s, size)
    ensures Inv(s, size)
  {
    var bootA, bootB, acts :| Run(Start(bootA, bootB), acts, s, size);
    StartInv(bootA, bootB, size);
    RunInv(Start(bootA, bootB), acts, s, size);
  }

  // ---------- runs ----------

  lemma {:induction false} RunAppend(s: State, acts: seq<Action>, t: State, x: Action, size: TableSize)
    requires Run(s, acts, t, size) && Fits(t, size) && Enabled(t, x, size) && Fits(Next(t, x, size), size)
    ensures Run(s, acts + [x], Next(t, x, size), size)
    decreases |acts|
  {
    if acts == [] {
      assert ([] + [x])[1..] == [];
      assert acts + [x] == [x];
    } else {
      RunAppend(Next(s, acts[0], size), acts[1..], t, x, size);
      assert (acts + [x])[1..] == acts[1..] + [x];
    }
  }

  lemma {:induction false} RunFits(s: State, acts: seq<Action>, t: State, size: TableSize)
    requires Run(s, acts, t, size)
    ensures Fits(t, size)
    decreases |acts|
  {
    if acts != [] {
      RunFits(Next(s, acts[0], size), acts[1..], t, size);
    }
  }

  lemma QuietFits(s: State, x: Action, size: TableSize)
    requires Fits(s, size) && Enabled(s, x, size) && !x.TakeReport? && !x.TakeShare?
    ensures Fits(Next(s, x, size), size)
  {
  }

  lemma NextFits(s: State, x: Action, size: TableSize)
    requires Fits(s, size) && Enabled(s, x, size)
    ensures Fits(Next(s, x, size), size)
  {
    match x
    case TakeReport(side, report) => TakeReportEffect(s, side, report, size);
    case TakeShare(side, id, junk) => TakeShareEffect(s, side, id, junk, size);
    case _ => QuietFits(s, x, size);
  }

  lemma ReachableStep(s: State, x: Action, size: TableSize)
    requires Reachable(s, size) && Enabled(s, x, size)
    ensures Fits(s, size) && Reachable(Next(s, x, size), size)
  {
    var bootA, bootB, acts :| Run(Start(bootA, bootB), acts, s, size);
    RunFits(Start(bootA, bootB), acts, s, size);
    NextFits(s, x, size);
    RunAppend(Start(bootA, bootB), acts, s, x, size);
  }
}
