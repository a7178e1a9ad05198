/** All runs of the multiplexing server, client by client. */
module SelectClients {
  import opened Wrappers
  import opened SelectSession
  import opened SelectPool
  import opened SelectServer
  import opened SelectFaults
  import opened SelectClosing

  /** A connection: what it has sent since it was accepted, the effects of handling it, and whether reading
      from it has failed. */
  datatype Conn = Conn(fd: int, history: seq<Event>, effects: seq<Effect>, failed: bool)

  const NO_CONN := Conn(-1, [], [], false)

  datatype RoundIn = RoundIn(ready: set<int>, accepted: Option<int>, arrivals: map<int, Arrival>)

  /** The server's slots, the connection in each slot, and the connections that have been closed. */
  datatype Tracked = Tracked(slots: seq<Slot>, conns: seq<Conn>, closed: set<Conn>)

  function Start(size: nat): Tracked {
    Tracked(seq(size, _ => FREE_SLOT), seq(size, _ => NO_CONN), {})
  }

  ghost predicate Good(t: Tracked, listener: int, r: RoundIn) {
    && |t.conns| == |t.slots|
    && GoodRound(Fds(t.slots), listener, r.ready, r.accepted, r.arrivals)
  }

  /** A connection that the round accepts begins with an empty history. */
  function Welcome(t: Tracked, listener: int, r: RoundIn): (conns: seq<Conn>)
    requires |t.conns| == |t.slots|
    ensures |conns| == |t.conns|
  {
    var f := FirstFree(Fds(t.slots));
    if listener in r.ready && r.accepted.Some? && f < |t.slots|
    then t.conns[f := Conn(r.accepted.value, [], [], false)]
    else t.conns
  }

  predicate Closes(conn: Conn, r: RoundIn) {
    conn.fd > 0 && conn.fd in r.ready && conn.fd in r.arrivals && r.arrivals[conn.fd].Closed?
  }

  function ConnAfter(conn: Conn, r: RoundIn, out: seq<Effect>): Conn {
    if !(conn.fd > 0 && conn.fd in r.ready && conn.fd in r.arrivals) then conn
    else match r.arrivals[conn.fd]
      case Closed => NO_CONN
      case Unreadable => conn.(effects := conn.effects + out, failed := true)
      case Data(e) => conn.(history := conn.history + [e], effects := conn.effects + out)
  }

  /** One round: the slots move as SelectServer.Round moves them. */
  ghost function NextRound(t: Tracked, listener: int, r: RoundIn): Tracked
    requires Good(t, listener, r)
  {
    AdmittedReady(t.slots, listener, r.ready, r.accepted, r.arrivals);
    var slots := Admitted(t.slots, listener, r.ready, r.accepted);
    var conns := Welcome(t, listener, r);
    var out := EffectsOf(slots, r.ready, r.arrivals);
    Tracked(
      ServeAll(slots, r.ready, r.arrivals),
      seq(|conns|, i requires 0 <= i < |conns| => ConnAfter(conns[i], r, out[i])),
      t.closed + set i | 0 <= i < |conns| && Closes(conns[i], r) :: conns[i])
  }

  /** The server has ended, or used memory that is not its own. */
  ghost predicate Down(t: Tracked) {
    exists c :: (c in t.conns || c in t.closed) && Halts(c.effects)
  }

  /** A run ends when the server ends, and with its first fault: what it does after that is not determined. */
  ghost predicate Run(t: Tracked, listener: int, rounds: seq<RoundIn>, u: Tracked)
    decreases |rounds|
  {
    if rounds == [] then u == t
    else
      && Good(t, listener, rounds[0]) && !Down(t)
      && Run(NextRound(t, listener, rounds[0]), listener, rounds[1..], u)
  }

  /** What this connection alone causes. */
  function EffectsOn(conn: Conn): seq<Effect>
    requires AllWellFormed(conn.history)
  {
    CellRun(EMPTY_CELL, conn.history).1 + if conn.failed then [Exit] else []
  }

  /** Slot isolation: a slot's contents and its client's effects are a function of what this
      connection has sent, and of nothing else; a free slot holds nothing. */
  ghost predicate Isolated(slot: Slot, conn: Conn) {
    && slot.fd == conn.fd
    && AllWellFormed(conn.history)
    && slot.cell == CellRun(EMPTY_CELL, conn.history).0 && conn.effects == EffectsOn(conn)
    && (slot.fd < 0 ==> slot == FREE_SLOT && conn == NO_CONN)
  }

  ghost predicate Explained(conn: Conn) {
    AllWellFormed(conn.history) && conn.effects == EffectsOn(conn)
  }

  ghost predicate Inv(t: Tracked) {
    && |t.conns| == |t.slots|
    && (forall i :: 0 <= i < |t.slots| ==> Isolated(t.slots[i], t.conns[i]))
    && (forall c :: c in t.closed ==> Explained(c))
  }

  lemma {:induction false} HandlersDoNotExit(c: Cell, history: seq<Event>)
    requires AllWellFormed(history)
    ensures Exit !in CellRun(c, history).1
    decreases |history|
  {
    if history != [] {
      HandlersDoNotExit(CellStep(c, history[0]).0, history[1..]);
    }
  }

  /** A connection brings the server down by a failing read or by messages that are not tame. */
  lemma HaltsIff(conn: Conn)
    requires Explained(conn)
    ensures Halts(conn.effects) <==> conn.failed || !Tame(conn.history)
    ensures !Halts(conn.effects) ==> conn.effects == CellRun(EMPTY_CELL, conn.history).1
  {
    var out := CellRun(EMPTY_CELL, conn.history).1;
    HandlersDoNotExit(EMPTY_CELL, conn.history);
    FaultFreeIff(conn.history);
    if conn.failed {
      assert (out + [Exit])[|out|] == Exit;
    } else {
      assert out + [] == out;
    }
  }

  lemma HandledIsolated(slot: Slot, conn: Conn, e: Event)
    requires Isolated(slot, conn) && slot.fd >= 0 && WellFormed(e.packet) && !Halts(conn.effects)
    ensures var (cell, out) := CellStep(slot.cell, e);
      Isolated(slot.(cell := cell), conn.(history := conn.history + [e], effects := conn.effects + out))
  {
    HaltsIff(conn);
    CellRunSplit(EMPTY_CELL, conn.history, [e]);
    var (cell, out) := CellStep(slot.cell, e);
    assert [e][1..] == [] && out + [] == out;
    assert CellRun(slot.cell, [e]) == (cell, out);
  }

  /** After the accept of a round, before its scan. */
  lemma WelcomeIsolated(t: Tracked, listener: int, r: RoundIn)
    requires Inv(t) && Good(t, listener, r)
    ensures var slots, conns := Admitted(t.slots, listener, r.ready, r.accepted), Welcome(t, listener, r);
      && |slots| == |conns| == |t.slots|
      && Covers(r.arrivals, Fds(slots), r.ready)
      && forall i :: 0 <= i < |slots| ==> Isolated(slots[i], conns[i])
  {
    AdmittedReady(t.slots, listener, r.ready, r.accepted, r.arrivals);
    var f := FirstFree(Fds(t.slots));
    if f < |t.slots| {
      assert Isolated(t.slots[f], t.conns[f]);
      assert CellRun(EMPTY_CELL, []) == (EMPTY_CELL, []);
    }
  }

  lemma ServedIsolated(slots: seq<Slot>, conns: seq<Conn>, r: RoundIn, i: nat)
    requires Covers(r.arrivals, Fds(slots), r.ready) && i < |slots| == |conns|
    requires Isolated(slots[i], conns[i]) && !Halts(conns[i].effects)
    ensures var (slot, out) := SlotAfter(slots, r.ready, r.arrivals, i);
      Isolated(slot, ConnAfter(conns[i], r, out))
  {
    CoversEach(r.arrivals, Fds(slots), r.ready, i);
    var slot := slots[i];
    if Ready(slot, r.ready) {
      assert Fds(slots)[i] == slot.fd;
      match r.arrivals[slot.fd]
      case Closed =>
        assert CellRun(EMPTY_CELL, []) == (EMPTY_CELL, []);
      case Unreadable =>
        HaltsIff(conns[i]);
      case Data(e) =>
        HandledIsolated(slot, conns[i], e);
    }
  }

  lemma NextRoundInv(t: Tracked, listener: int, r: RoundIn)
    requires Inv(t) && Good(t, listener, r) && !Down(t)
    ensures Inv(NextRound(t, listener, r))
  {
    WelcomeIsolated(t, listener, r);
    var slots, conns := Admitted(t.slots, listener, r.ready, r.accepted), Welcome(t, listener, r);
    forall i | 0 <= i < |conns|
      ensures !Halts(conns[i].effects)
    {
      assert conns[i].effects == [] || conns[i] in t.conns;
    }
    forall i | 0 <= i < |slots|
      ensures var (slot, out) := SlotAfter(slots, r.ready, r.arrivals, i);
        Isolated(slot, ConnAfter(conns[i], r, out))
    {
      ServedIsolated(slots, conns, r, i);
    }
  }

  lemma {:induction false} RunInv(t: Tracked, listener: int, rounds: seq<RoundIn>, u: Tracked)
    requires Inv(t) && Run(t, listener, rounds, u)
    ensures Inv(u)
    decreases |rounds|
  {
    if rounds != [] {
      NextRoundInv(t, listener, rounds[0]);
      RunInv(NextRound(t, listener, rounds[0]), listener, rounds[1..], u);
    }
  }

  lemma StartInv(size: nat)
    ensures Inv(Start(size))
  {
    assert CellRun(EMPTY_CELL, []) == (EMPTY_CELL, []);
  }

  /** In every run of a server that is up, every open or closed connection has caused exactly the effects that
      its own messages cause in an empty slot, and open slots hold exactly the state those messages leave. */
  lemma SlotsIsolated(size: nat, listener: int, rounds: seq<RoundIn>, t: Tracked)
    requires Run(Start(size), listener, rounds, t) && !Down(t)
    ensures |t.conns| == |t.slots|
    ensures forall i :: 0 <= i < |t.slots| ==> Isolated(t.slots[i], t.conns[i])
    ensures forall c :: c in t.closed ==> Explained(c)
  {
    StartInv(size);
    RunInv(Start(size), listener, rounds, t);
  }

  lemma ConnsExplained(t: Tracked, c: Conn)
    requires Inv(t) && (c in t.conns || c in t.closed)
    ensures Explained(c)
  {
    if c in t.conns {
      var i :| 0 <= i < |t.conns| && t.conns[i] == c;
      assert Isolated(t.slots[i], t.conns[i]);
    }
  }

  /** The server is up exactly if every client, for itself, is tame and readable: having stored a file it
      neither delivers nor stores any more, its file names end, it delivers less than 2^32 bytes, and no
      read from its socket has failed. */
  lemma StaysUpIff(size: nat, listener: int, rounds: seq<RoundIn>, t: Tracked)
    requires Run(Start(size), listener, rounds, t)
    ensures !Down(t) <==>
      forall c :: c in t.conns || c in t.closed ==> AllWellFormed(c.history) && Tame(c.history) && !c.failed
  {
    StartInv(size);
    RunInv(Start(size), listener, rounds, t);
    forall c | c in t.conns || c in t.closed
      ensures AllWellFormed(c.history) && (!Halts(c.effects) <==> Tame(c.history) && !c.failed)
    {
      ConnsExplained(t, c);
      HaltsIff(c);
    }
  }

  /** The connection was served as by a dedicated process, up to and including the message that ends
      that process. */
  ghost predicate ServedAsByProcess(conn: Conn, uninitialised: nat) {
    && AllWellFormed(conn.history)
    && SessionRun(NewSession(uninitialised), conn.history).1 <= conn.effects
    && var k := Consumed(NewSession(uninitialised), conn.history);
      CellRun(EMPTY_CELL, conn.history[..k]).1 == SessionRun(NewSession(uninitialised), conn.history).1
  }

  /** The multiplexing server is indistinguishable from one process per client: in every run while it
      is up, for any interleaving of clients over the rounds and any reuse of slots and descriptors, every
      client that greets first gets what a process of its own would have given it. An open client whose
      process would still be running has in its slot the buffer and byte count of that process. */
  lemma SelectSimulatesProcesses(size: nat, listener: int, rounds: seq<RoundIn>, t: Tracked, uninitialised: nat)
    requires Run(Start(size), listener, rounds, t) && !Down(t)
    ensures |t.conns| == |t.slots|
    ensures forall c :: (c in t.conns || c in t.closed) && HelloFirst(c.history) ==>
      ServedAsByProcess(c, uninitialised)
    ensures forall i :: 0 <= i < |t.slots| && t.slots[i].fd > 0 && HelloFirst(t.conns[i].history) ==>
      && AllWellFormed(t.conns[i].history)
      && var s := SessionRun(NewSession(uninitialised), t.conns[i].history).0;
      !Done(s) ==> t.slots[i].cell.buffer == s.buffer && t.slots[i].cell.bytesRead == s.bytesRead
  {
    StartInv(size);
    RunInv(Start(size), listener, rounds, t);
    forall c | (c in t.conns || c in t.closed) && HelloFirst(c.history)
      ensures ServedAsByProcess(c, uninitialised)
    {
      ConnsExplained(t, c);
      HaltsIff(c);
      SlotSimulatesProcess(c.history, uninitialised);
    }
    forall i | 0 <= i < |t.slots| && HelloFirst(t.conns[i].history)
      ensures AllWellFormed(t.conns[i].history)
      ensures var s := SessionRun(NewSession(uninitialised), t.conns[i].history).0;
        !Done(s) ==> t.slots[i].cell.buffer == s.buffer && t.slots[i].cell.bytesRead == s.bytesRead
    {
      var history := t.conns[i].history;
      assert Isolated(t.slots[i], t.conns[i]);
      SlotSimulatesProcess(history, uninitialised);
      var k := Consumed(NewSession(uninitialised), history);
      if k == |history| {
        assert history[..k] == history;
      }
    }
  }

  /** What the process of a client that has closed its connection does in all, whatever its receive buffer
      held at first and whatever the system answers, is what the slot did for the messages it read. */
  ghost predicate SameToTheEnd(conn: Conn, uninitialised: nat)
    requires AllWellFormed(conn.history)
  {
    forall garbage: Packet, answers: seq<Env> :: WellFormed(garbage) ==>
      var k := Consumed(NewSession(uninitialised), conn.history);
      SessionRun(NewSession(uninitialised), Replayed(conn.history, garbage, answers)).1
        == CellRun(EMPTY_CELL, conn.history[..k]).1
  }

  lemma ClosedConn(c: Conn, uninitialised: nat)
    requires ServedAsByProcess(c, uninitialised) && !Halts(c.effects)
    ensures SameToTheEnd(c, uninitialised) <==>
      || Done(SessionRun(NewSession(uninitialised), c.history).0)
      || (c.history != [] && Silent(c.history[|c.history| - 1].packet))
  {
    EndsQuietlyIff(c.history, uninitialised);
    assert SameToTheEnd(c, uninitialised) <==> EndsQuietly(c.history, uninitialised);
  }

  /** Closed connections: slot and process also agree about the end exactly if the process had ended before
      the client closed, or the client's last packet is one that it does nothing about. */
  lemma ClosedAsByProcessIff(size: nat, listener: int, rounds: seq<RoundIn>, t: Tracked, c: Conn, uninitialised: nat)
    requires Run(Start(size), listener, rounds, t) && !Down(t)
    requires c in t.closed && HelloFirst(c.history)
    ensures AllWellFormed(c.history)
    ensures SameToTheEnd(c, uninitialised) <==>
      || Done(SessionRun(NewSession(uninitialised), c.history).0)
      || (c.history != [] && Silent(c.history[|c.history| - 1].packet))
  {
    SelectSimulatesProcesses(size, listener, rounds, t, uninitialised);
    ClosedConn(c, uninitialised);
  }

  // ---------- a client that does harm ----------

  const CLIENT: int := 1

  /** A server with room for two descriptors whose only client has sent these messages. */
  ghost predicate Serves(history: seq<Event>, rounds: seq<RoundIn>, t: Tracked) {
    && AllWellFormed(history)
    && Run(Start(2), 0, rounds, t)
    && |t.slots| == |t.conns| == 2
    && t.slots[0] == Slot(CLIENT, CellRun(EMPTY_CELL, history).0)
    && t.conns[0] == Conn(CLIENT, history, CellRun(EMPTY_CELL, history).1, false)
    && t.slots[1] == FREE_SLOT && t.conns[1] == NO_CONN && t.closed == {}
  }

  lemma OneRound(t: Tracked, listener: int, r: RoundIn)
    requires Good(t, listener, r) && !Down(t)
    ensures Run(t, listener, [r], NextRound(t, listener, r))
  {
    assert [r][1..] == [];
  }

  lemma RunHead(t: Tracked, listener: int, rounds: seq<RoundIn>, u: Tracked)
    requires Run(t, listener, rounds, u) && rounds != []
    ensures Good(t, listener, rounds[0]) && !Down(t)
    ensures Run(NextRound(t, listener, rounds[0]), listener, rounds[1..], u)
  {
  }

  lemma RunPrepend(t: Tracked, listener: int, r: RoundIn, rounds: seq<RoundIn>, u: Tracked)
    requires Good(t, listener, r) && !Down(t) && Run(NextRound(t, listener, r), listener, rounds, u)
    ensures Run(t, listener, [r] + rounds, u)
  {
    assert ([r] + rounds)[1..] == rounds;
  }

  lemma {:induction false} RunAppend(t: Tracked, listener: int, rounds: seq<RoundIn>, u: Tracked, r: RoundIn)
    requires Run(t, listener, rounds, u) && Good(u, listener, r) && !Down(u)
    ensures Run(t, listener, rounds + [r], NextRound(u, listener, r))
    decreases |rounds|
  {
    if rounds == [] {
      OneRound(t, listener, r);
      assert rounds + [r] == [r];
    } else {
      RunHead(t, listener, rounds, u);
      RunAppend(NextRound(t, listener, rounds[0]), listener, rounds[1..], u, r);
      RunPrepend(t, listener, rounds[0], rounds[1..] + [r], NextRound(u, listener, r));
      AppendTail(rounds, r);
    }
  }

  lemma AppendTail<T>(xs: seq<T>, x: T)
    requires xs != []
    ensures xs + [x] == [xs[0]] + (xs[1..] + [x])
  {
  }

  lemma FirstClient() returns (rounds: seq<RoundIn>, t: Tracked)
    ensures Serves([], rounds, t)
  {
    var s, r := Start(2), RoundIn({0}, Some(CLIENT), map[]);
    assert Good(s, 0, r);
    t := NextRound(s, 0, r);
    rounds := [r];
    assert rounds[1..] == [];
    assert CellRun(EMPTY_CELL, []) == (EMPTY_CELL, []);
    AdmittedReady(s.slots, 0, r.ready, r.accepted, r.arrivals);
    var slots := Admitted(s.slots, 0, r.ready, r.accepted);
    assert slots == [Slot(CLIENT, EMPTY_CELL), FREE_SLOT];
    assert SlotAfter(slots, r.ready, r.arrivals, 0) == (slots[0], []);
    assert SlotAfter(slots, r.ready, r.arrivals, 1) == (slots[1], []);
    assert Welcome(s, 0, r) == [Conn(CLIENT, [], [], false), NO_CONN];
    assert t.closed == {};
  }

  lemma NextMessage(history: seq<Event>, rounds: seq<RoundIn>, t: Tracked, e: Event)
      returns (more: seq<RoundIn>, u: Tracked)
    requires Serves(history, rounds, t) && !Down(t) && WellFormed(e.packet)
    ensures Serves(history + [e], more, u)
  {
    var r := RoundIn({CLIENT}, None, map[CLIENT := Data(e)]);
    assert Fds(t.slots)[0] == CLIENT && Fds(t.slots)[1] == -1;
    assert CLIENT in Clients(Fds(t.slots));
    assert Good(t, 0, r);
    u := NextRound(t, 0, r);
    more := rounds + [r];
    RunAppend(Start(2), 0, rounds, t, r);
    CellRunSplit(EMPTY_CELL, history, [e]);
    OneEvent(t.slots[0].cell, e);
    AdmittedReady(t.slots, 0, r.ready, r.accepted, r.arrivals);
    assert SlotAfter(t.slots, r.ready, r.arrivals, 1) == (t.slots[1], []);
    assert u.conns[0] == ConnAfter(t.conns[0], r, SlotAfter(t.slots, r.ready, r.arrivals, 0).1);
    assert u.closed == {};
  }

  lemma DownIffNotTame(history: seq<Event>, rounds: seq<RoundIn>, t: Tracked)
    requires Serves(history, rounds, t)
    ensures Down(t) <==> !Tame(history)
  {
    FaultFreeIff(history);
    HandlersDoNotExit(EMPTY_CELL, history);
    assert t.conns[0] in t.conns;
    assert forall c :: c in t.conns ==> c == t.conns[0] || c == t.conns[1];
  }

  lemma {:induction false} ServeAlone(history: seq<Event>) returns (rounds: seq<RoundIn>, t: Tracked)
    requires AllWellFormed(history) && (history != [] ==> Tame(history[..|history| - 1]))
    ensures Serves(history, rounds, t)
    ensures Down(t) <==> !Tame(history)
    decreases |history|
  {
    if history == [] {
      rounds, t := FirstClient();
    } else {
      var front, e := history[..|history| - 1], history[|history| - 1];
      if front != [] {
        TameBeginning(front, |front| - 1);
      }
      rounds, t := ServeAlone(front);
      rounds, t := NextMessage(front, rounds, t, e);
      assert history == front + [e];
    }
    DownIffNotTame(history, rounds, t);
  }

  /** One client that greets, delivers one byte and stores it twice makes the server fault. */
  lemma SecondStoreHarms() returns (rounds: seq<RoundIn>, t: Tracked)
    ensures Run(Start(2), 0, rounds, t) && Down(t)
    ensures |t.conns| == 2 && t.conns[0].history == StoreTwice() && HelloFirst(t.conns[0].history)
  {
    StoreTwiceFaults();
    rounds, t := ServeAlone(StoreTwice());
  }

  /** So does one that greets and stores under a name that has no end. */
  lemma EndlessNameHarms() returns (rounds: seq<RoundIn>, t: Tracked)
    ensures Run(Start(2), 0, rounds, t) && Down(t)
    ensures |t.conns| == 2 && t.conns[0].history == EndlessName() && HelloFirst(t.conns[0].history)
  {
    EndlessNameFaults();
    rounds, t := ServeAlone(EndlessName());
  }

  /** A round in which reading from client j fails and nothing else happens. */
  function FailingRead(t: Tracked, j: nat): RoundIn
    requires j < |t.slots|
  {
    RoundIn({t.slots[j].fd}, None, map[t.slots[j].fd := Unreadable])
  }

  lemma AfterFailingRead(t: Tracked, listener: int, j: nat)
    requires Inv(t) && j < |t.slots| && t.slots[j].fd > 0 && t.slots[j].fd != listener
    ensures Good(t, listener, FailingRead(t, j))
    ensures var u := NextRound(t, listener, FailingRead(t, j));
      && Down(u) && |u.conns| == |t.conns|
      && forall i :: 0 <= i < |t.slots| && t.slots[i].fd != t.slots[j].fd ==> u.conns[i] == t.conns[i]
  {
    var r := FailingRead(t, j);
    assert Fds(t.slots)[j] == t.slots[j].fd && t.slots[j].fd in Clients(Fds(t.slots));
    var u := NextRound(t, listener, r);
    AdmittedReady(t.slots, listener, r.ready, r.accepted, r.arrivals);
    forall i | 0 <= i < |t.slots|
      ensures t.slots[i].fd == t.conns[i].fd
      ensures u.conns[i] == ConnAfter(t.conns[i], r, SlotAfter(t.slots, r.ready, r.arrivals, i).1)
    {
      assert Isolated(t.slots[i], t.conns[i]);
    }
    assert SlotAfter(t.slots, r.ready, r.arrivals, j).1 == [Exit];
    assert u.conns[j].effects[|t.conns[j].effects|] == Exit;
    assert u.conns[j] in u.conns;
  }

  /** One failing read ends the service of all: from whatever state a run of the server has reached, if the
      next thing is that reading from one client fails, the server is down and no other client has got anything
      more, although its own process would go on. */
  lemma OneFailingReadEndsAll(size: nat, listener: int, rounds: seq<RoundIn>, t: Tracked, j: nat)
      returns (r: RoundIn, u: Tracked)
    requires Run(Start(size), listener, rounds, t) && !Down(t)
    requires j < |t.slots| && t.slots[j].fd > 0 && t.slots[j].fd != listener
    ensures Run(Start(size), listener, rounds + [r], u) && Down(u) && |u.conns| == |t.conns| == |t.slots|
    ensures forall i :: 0 <= i < |t.slots| && t.slots[i].fd != t.slots[j].fd ==> u.conns[i] == t.conns[i]
  {
    StartInv(size);
    RunInv(Start(size), listener, rounds, t);
    r := FailingRead(t, j);
    AfterFailingRead(t, listener, j);
    u := NextRound(t, listener, r);
    RunAppend(Start(size), listener, rounds, t, r);
  }
}
