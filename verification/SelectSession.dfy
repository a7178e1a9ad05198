/**
 One client's conversation with the storage server, in its two forms: the handler that a dedicated
 process runs (p2/src/multi_server_utilities.c, and the server of p1) and the per-slot handler of the
 multiplexing server (p2/src/select_server_utilities.c). Integers have the widths of the source:
 16 bits on the wire for sequence numbers, 32 bits for the count of bytes received.
 */
module SelectSession {
  import opened CStrings
  import opened Wrappers

  const CLIENT_HELLO: nat := 1
  const SERVER_HELLO: nat := 2
  const DATA_DELIVERY: nat := 3
  const DATA_STORE: nat := 4
  const ERROR: nat := 5
  const PKT_RECEIVED: nat := 6
  const FILE_STORED: nat := 7
  const STORED_ERROR: nat := 8

  const MAX_SEQUENCE: nat := 65535
  const DATA_SIZE: nat := 4022
  const HEADER_LENGTH: nat := 8
  const SHORT: nat := 0x1_0000
  const WORD: nat := 0x1_0000_0000

  /** What read() leaves in the receive buffer: `data` is the whole data area, of which the length
      field says how much belongs to this packet. */
  datatype Packet = Packet(sequence: nat, length: nat, command: nat, data: seq<int>)

  /** The answers of the environment: rand(), whether realloc and open succeed, what a heap block holds
      before it is written, and what write() returns, which is negative for an error and otherwise the number
      of bytes it took, if fewer than it was offered. */
  datatype Env = Env(random: nat, allocOk: bool, heap: seq<int>, openOk: bool, written: int)

  datatype Event = Event(packet: Packet, env: Env)

  /** `Fault`: the handler has used memory that is not its own. Nothing is known of the server process,
      and of any client it serves, from then on. `Exit`: the server process has ended. */
  datatype Effect =
    | Send(sequence: nat, length: nat, command: nat)
    | Opened(name: seq<int>)
    | Wrote(name: seq<int>, contents: seq<int>)
    | Fault
    | Exit

  ghost predicate WellFormed(p: Packet) {
    HEADER_LENGTH <= p.length <= HEADER_LENGTH + DATA_SIZE && |p.data| == DATA_SIZE
  }

  /** The useful data of a packet. */
  function Payload(p: Packet): (d: seq<int>)
    requires WellFormed(p)
    ensures |d| == p.length - HEADER_LENGTH
  {
    p.data[..p.length - HEADER_LENGTH]
  }

  /** The useful data, taken as a string, ends in the packet. */
  predicate NameEnds(p: Packet) {
    exists i :: 0 <= i < |p.data| && i < p.length - HEADER_LENGTH && p.data[i] == 0
  }

  /** The buffer pointer: NULL, a block with these bytes, or the address of a block that was freed. */
  datatype Buffer = Null | Bytes(data: seq<int>) | Dangling

  function Contents(buffer: Buffer): seq<int> {
    if buffer.Bytes? then buffer.data else []
  }

  /** realloc returns a block. Its size is a 32-bit number; a block resized to 0 is freed. */
  predicate Allocates(buffer: Buffer, bytesRead: nat, e: Event)
    requires WellFormed(e.packet)
  {
    e.env.allocOk && !(buffer.Bytes? && (bytesRead + |Payload(e.packet)|) % WORD == 0)
  }

  /** Handling e hands a freed block to realloc, write or free, copies past the end of a block because
      the size given to realloc has wrapped around, or opens a file name that does not end in its block. */
  predicate Faults(buffer: Buffer, bytesRead: nat, e: Event)
    requires WellFormed(e.packet)
  {
    if e.packet.command == DATA_DELIVERY then
      buffer.Dangling? || (Allocates(buffer, bytesRead, e) && bytesRead + |Payload(e.packet)| >= WORD)
    else
      e.packet.command == DATA_STORE && (!NameEnds(e.packet) || (e.env.openOk && buffer.Dangling?))
  }

  /** The first n bytes of a block that realloc made out of one with these bytes. */
  function Resized(data: seq<int>, heap: seq<int>, n: nat): (block: seq<int>)
    ensures |block| == n
  {
    seq(n, i => if 0 <= i < |data| then data[i] else if 0 <= i < |heap| then heap[i] else 0)
  }

  /** A successful realloc to bytesRead + |more| bytes and the copy to bytesRead. */
  function Append(buffer: Buffer, bytesRead: nat, heap: seq<int>, more: seq<int>): Buffer {
    Bytes(Resized(Contents(buffer), heap, bytesRead) + more)
  }

  /** What write(fd, buffer, bytesRead) takes from the buffer: None for an error. The system refuses to
      read from NULL. */
  function Written(buffer: Buffer, bytesRead: nat, written: int): Option<seq<int>> {
    if written < 0 || (buffer.Null? && bytesRead > 0) then None
    else
      var data := Contents(buffer);
      Some(if written < |data| then data[..written] else data)
  }

  /** The pointer after free(). */
  function Freed(buffer: Buffer): Buffer {
    if buffer.Null? then Null else Dangling
  }

  /** sendCmdPkt: htons keeps the low 16 bits. */
  function Reply(seqNum: nat, command: nat): Effect {
    Send(seqNum % SHORT, HEADER_LENGTH, command)
  }

  // ---------- the dedicated handler ----------

  /** `sequence` is the sequence field of the reply packet, reused from reply to reply. */
  datatype Session = Session(
    buffer: Buffer, bytesRead: nat, sequence: nat,
    fileStored: bool, storedError: bool, communicationError: bool)

  predicate Done(s: Session) {
    s.fileStored || s.storedError || s.communicationError
  }

  /** The handler before its first read; the reply packet's fields are not initialised. */
  function NewSession(uninitialised: nat): Session {
    Session(Null, 0, uninitialised, false, false, false)
  }

  function SessionStep(s: Session, e: Event): (Session, seq<Effect>)
    requires WellFormed(e.packet)
  {
    var p, env := e.packet, e.env;
    var nextSeq := s.sequence + 1;
    var sent := s.(sequence := nextSeq % SHORT);
    if Faults(s.buffer, s.bytesRead, e) then
      (s, [Fault])
    else if p.command == CLIENT_HELLO then
      var first := env.random % MAX_SEQUENCE;
      (s.(sequence := first % SHORT), [Reply(first, SERVER_HELLO)])
    else if p.command == DATA_DELIVERY then
      if !Allocates(s.buffer, s.bytesRead, e) then
        (sent.(buffer := Null, storedError := true), [Reply(nextSeq, ERROR)])
      else
        (sent.(buffer := Append(s.buffer, s.bytesRead, env.heap, Payload(p)),
               bytesRead := s.bytesRead + |Payload(p)|),
         [Reply(nextSeq, PKT_RECEIVED)])
    else if p.command == DATA_STORE then
      var name := CString(Payload(p));
      if !env.openOk then
        (sent.(storedError := true), [Reply(nextSeq, STORED_ERROR)])
      else (match Written(s.buffer, s.bytesRead, env.written)
        case None => (sent.(storedError := true), [Opened(name), Reply(nextSeq, STORED_ERROR)])
        case Some(contents) =>
          (sent.(buffer := Freed(s.buffer), fileStored := true),
           [Opened(name), Wrote(name, contents), Reply(nextSeq, FILE_STORED)]))
    else if p.command == ERROR then
      (s.(communicationError := true), [])
    else
      (s, [])
  }

  /** The dedicated process in its imperative form; Handle is one round of its message loop. */
  class DedicatedServer {
    var buffer: Buffer
    var bytesRead: nat
    var sequence: nat
    var recvPkt: Packet
    var fileStored: bool
    var storedError: bool
    var communicationError: bool

    ghost function Value(): Session
      reads this
    {
      Session(buffer, bytesRead, sequence, fileStored, storedError, communicationError)
    }

    constructor (uninitialised: nat, garbage: Packet)
      ensures Value() == NewSession(uninitialised) && recvPkt == garbage
    {
      buffer, bytesRead, sequence, recvPkt := Null, 0, uninitialised, garbage;
      fileStored, storedError, communicationError := false, false, false;
    }

    method SendCmdPkt(seqNum: nat, command: nat) returns (effect: Effect)
      modifies this`sequence
      ensures sequence == seqNum % SHORT
      ensures effect == Reply(seqNum, command)
    {
      sequence := seqNum % SHORT;
      effect := Send(sequence, HEADER_LENGTH % SHORT, command);
    }

    /** At the end of the stream nothing arrives, and the packet handled is the one read before. */
    method Handle(arrival: Option<Packet>, env: Env) returns (effects: seq<Effect>)
      requires WellFormed(if arrival.Some? then arrival.value else recvPkt)
      modifies this
      ensures recvPkt == if arrival.Some? then arrival.value else old(recvPkt)
      ensures (Value(), effects) == SessionStep(old(Value()), Event(recvPkt, env))
    {
      if arrival.Some? {
        recvPkt := arrival.value;
      }
      var p := recvPkt;
      effects := [];
      var reply;
      if Faults(buffer, bytesRead, Event(p, env)) {
        effects := [Fault];
      } else if p.command == CLIENT_HELLO {
        reply := SendCmdPkt(env.random % MAX_SEQUENCE, SERVER_HELLO);
        effects := [reply];
      } else if p.command == DATA_DELIVERY {
        var more := Payload(p);
        var nextSeq := sequence + 1;
        if !Allocates(buffer, bytesRead, Event(p, env)) {
          buffer := Null;
          reply := SendCmdPkt(nextSeq, ERROR);
          effects := [reply];
          storedError := true;
        } else {
          buffer := Append(buffer, bytesRead, env.heap, more);
          bytesRead := bytesRead + |more|;
          reply := SendCmdPkt(nextSeq, PKT_RECEIVED);
          effects := [reply];
        }
      } else if p.command == DATA_STORE {
        var name := CString(Payload(p));
        var nextSeq := sequence + 1;
        if !env.openOk {
          storedError := true;
          reply := SendCmdPkt(nextSeq, STORED_ERROR);
          effects := [reply];
        } else {
          var contents := Written(buffer, bytesRead, env.written);
          if contents.None? {
            storedError := true;
            reply := SendCmdPkt(nextSeq, STORED_ERROR);
            effects := [Opened(name), reply];
          } else {
            buffer := Freed(buffer);
            fileStored := true;
            reply := SendCmdPkt(nextSeq, FILE_STORED);
            effects := [Opened(name), Wrote(name, contents.value), reply];
          }
        }
      } else if p.command == ERROR {
        communicationError := true;
      }
    }
  }

  // ---------- the handler of one slot ----------

  /** One slot's entries in buffer, lastSeqNum and bytes_read. */
  datatype Cell = Cell(buffer: Buffer, lastSeq: nat, bytesRead: nat)

  const EMPTY_CELL := Cell(Null, 0, 0)

  function CellStep(c: Cell, e: Event): (Cell, seq<Effect>)
    requires WellFormed(e.packet)
  {
    var p, env := e.packet, e.env;
    var seqNum := c.lastSeq + 1;
    var sent := c.(lastSeq := seqNum % SHORT);
    if Faults(c.buffer, c.bytesRead, e) then
      (c, [Fault])
    else if p.command == CLIENT_HELLO then
      var first := env.random % MAX_SEQUENCE;
      (c.(lastSeq := first % SHORT), [Reply(first, SERVER_HELLO)])
    else if p.command == DATA_DELIVERY then
      if !Allocates(c.buffer, c.bytesRead, e) then
        (sent.(buffer := Null), [Reply(seqNum, ERROR)])
      else
        (sent.(buffer := Append(c.buffer, c.bytesRead, env.heap, Payload(p)),
               bytesRead := c.bytesRead + |Payload(p)|),
         [Reply(seqNum, PKT_RECEIVED)])
    else if p.command == DATA_STORE then
      var name := CString(Payload(p));
      if !env.openOk then
        (sent, [Reply(seqNum, STORED_ERROR)])
      else (match Written(c.buffer, c.bytesRead, env.written)
        case None => (sent, [Opened(name), Reply(seqNum, STORED_ERROR)])
        case Some(contents) =>
          (sent.(buffer := Freed(c.buffer)),
           [Opened(name), Wrote(name, contents), Reply(seqNum, FILE_STORED)]))
    else
      (c, [])
  }

  // ---------- whole conversations ----------

  ghost predicate AllWellFormed(history: seq<Event>) {
    forall i :: 0 <= i < |history| ==> WellFormed(history[i].packet)
  }

  /** The dedicated process reads until it is done; what comes later it never sees. After a fault nothing is
      determined, and these runs end. */
  function SessionRun(s: Session, history: seq<Event>): (Session, seq<Effect>)
    requires AllWellFormed(history)
    decreases |history|
  {
    if history == [] || Done(s) then (s, [])
    else
      var (s1, now) := SessionStep(s, history[0]);
      if Fault in now then (s1, now)
      else
        var (s2, later) := SessionRun(s1, history[1..]);
        (s2, now + later)
  }

  /** The slot handles whatever arrives. */
  function CellRun(c: Cell, history: seq<Event>): (Cell, seq<Effect>)
    requires AllWellFormed(history)
    decreases |history|
  {
    if history == [] then (c, [])
    else
      var (c1, now) := CellStep(c, history[0]);
      if Fault in now then (c1, now)
      else
        var (c2, later) := CellRun(c1, history[1..]);
        (c2, now + later)
  }

  /** How many messages the dedicated process reads. */
  function Consumed(s: Session, history: seq<Event>): (k: nat)
    requires AllWellFormed(history)
    ensures k <= |history|
    ensures k < |history| ==> Done(SessionRun(s, history).0) || Fault in SessionRun(s, history).1
    decreases |history|
  {
    if history == [] || Done(s) then 0
    else
      var (s1, now) := SessionStep(s, history[0]);
      if Fault in now then 1 else 1 + Consumed(s1, history[1..])
  }

  /** The states agree, sequence numbers included once the client has been greeted. */
  ghost predicate Match(c: Cell, s: Session, greeted: bool) {
    c.buffer == s.buffer && c.bytesRead == s.bytesRead && (greeted ==> c.lastSeq == s.sequence)
  }

  predicate DrawsReply(p: Packet) {
    p.command == CLIENT_HELLO || p.command == DATA_DELIVERY || (p.command == DATA_STORE && NameEnds(p))
  }

  /** The message ends a process that has not stored anything, or makes it fault. */
  predicate EndsWithoutReply(p: Packet) {
    p.command == ERROR || (p.command == DATA_STORE && !NameEnds(p))
  }

  /** The first message that draws a reply, if the client gets that far, is a CLIENT_HELLO. */
  predicate HelloFirst(history: seq<Event>) {
    history == []
    || EndsWithoutReply(history[0].packet)
    || (if DrawsReply(history[0].packet) then history[0].packet.command == CLIENT_HELLO
        else HelloFirst(history[1..]))
  }

  lemma StepsMatch(c: Cell, s: Session, greeted: bool, e: Event)
    requires WellFormed(e.packet) && Match(c, s, greeted)
    requires greeted || e.packet.command == CLIENT_HELLO || !DrawsReply(e.packet)
    ensures var (c1, out) := CellStep(c, e); var (s1, out') := SessionStep(s, e);
      out == out' && Match(c1, s1, greeted || e.packet.command == CLIENT_HELLO)
  {
  }

  lemma {:induction false} RunsMatch(c: Cell, s: Session, greeted: bool, history: seq<Event>)
    requires AllWellFormed(history) && Match(c, s, greeted) && !Done(s)
    requires greeted || HelloFirst(history)
    ensures var k := Consumed(s, history);
      var (c1, out) := CellRun(c, history[..k]); var (s1, out') := SessionRun(s, history);
      && out == out' && c1.buffer == s1.buffer && c1.bytesRead == s1.bytesRead
      && (greeted ==> c1.lastSeq == s1.sequence)
    decreases |history|
  {
    var k := Consumed(s, history);
    if history != [] {
      var e := history[0];
      StepsMatch(c, s, greeted, e);
      var (c1, out) := CellStep(c, e);
      var (s1, out') := SessionStep(s, e);
      assert history[..k][1..] == history[1..][..k - 1];
      if Done(s1) || Fault in out {
        assert k == 1;
        assert history[..k][1..] == [];
      } else {
        RunsMatch(c1, s1, greeted || e.packet.command == CLIENT_HELLO, history[1..]);
      }
    }
  }

  /** A slot handles a conversation in parts as it would handle it at once; nothing follows a fault. */
  lemma {:induction false} CellRunSplit(c: Cell, first: seq<Event>, second: seq<Event>)
    requires AllWellFormed(first) && AllWellFormed(second)
    ensures AllWellFormed(first + second)
    ensures var (c1, out) := CellRun(c, first); var (c2, more) := CellRun(c1, second);
      CellRun(c, first + second) == if Fault in out then (c1, out) else (c2, out + more)
    decreases |first|
  {
    if first == [] {
      assert first + second == second;
      assert [] + CellRun(c, second).1 == CellRun(c, second).1;
    } else {
      assert (first + second)[1..] == first[1..] + second;
      var (c1, now) := CellStep(c, first[0]);
      if Fault !in now {
        CellRunSplit(c1, first[1..], second);
        var (c2, out) := CellRun(c1, first[1..]);
        assert now + (out + CellRun(c2, second).1) == (now + out) + CellRun(c2, second).1;
      }
    }
  }

  /** A client that greets first is served by its slot as by a process of its own, whatever the
      uninitialised reply packet held: the same replies with the same sequence numbers, the same file
      system calls and the same buffer, up to and including the message that ends the dedicated
      process, or the first fault; only then may the slot go on. */
  lemma SlotSimulatesProcess(history: seq<Event>, uninitialised: nat)
    requires AllWellFormed(history) && HelloFirst(history)
    ensures var k := Consumed(NewSession(uninitialised), history);
      var (c, out) := CellRun(EMPTY_CELL, history[..k]);
      var (s, out') := SessionRun(NewSession(uninitialised), history);
      && out == out' && c.buffer == s.buffer && c.bytesRead == s.bytesRead
      && out' <= CellRun(EMPTY_CELL, history).1
  {
    var k := Consumed(NewSession(uninitialised), history);
    RunsMatch(EMPTY_CELL, NewSession(uninitialised), false, history);
    CellRunBegins(EMPTY_CELL, history, k);
  }

  lemma CellRunBegins(c: Cell, history: seq<Event>, k: nat)
    requires AllWellFormed(history) && k <= |history|
    ensures CellRun(c, history[..k]).1 <= CellRun(c, history).1
  {
    CellRunSplit(c, history[..k], history[k..]);
    assert history == history[..k] + history[k..];
  }

  /** Ungreeted, the slot counts from 0 and the process from whatever it found, here 1. */
  lemma {:induction false} FirstReplyDiffers(history: seq<Event>)
    requires AllWellFormed(history) && !HelloFirst(history)
    ensures CellRun(EMPTY_CELL, history[..Consumed(NewSession(1), history)]).1
         != SessionRun(NewSession(1), history).1
    decreases |history|
  {
    var c, s := EMPTY_CELL, NewSession(1);
    var k := Consumed(s, history);
    var e := history[0];
    assert history[..k][0] == e && history[..k][1..] == history[1..][..k - 1];
    var (c1, out) := CellStep(c, e);
    var (s1, out') := SessionStep(s, e);
    if DrawsReply(e.packet) {
      FirstStepsDiffer(e);
      assert out <= CellRun(c, history[..k]).1 && out' <= SessionRun(s, history).1;
      var i := |out| - 1;
      assert CellRun(c, history[..k]).1[i] != SessionRun(s, history).1[i];
    } else {
      FirstReplyDiffers(history[1..]);
      var rest, rest' := CellRun(c, history[1..][..k - 1]).1, SessionRun(s, history[1..]).1;
      assert out + rest == rest && out' + rest' == rest';
    }
  }

  lemma FirstStepsDiffer(e: Event)
    requires WellFormed(e.packet) && DrawsReply(e.packet) && e.packet.command != CLIENT_HELLO
    ensures var out, out' := CellStep(EMPTY_CELL, e).1, SessionStep(NewSession(1), e).1;
      |out| == |out'| > 0 && out[|out| - 1] != out'[|out| - 1]
  {
  }

  /** The simulation needs nothing more and nothing less than the greeting: a conversation has the
      same effects in both servers for every uninitialised sequence field iff HelloFirst. */
  lemma SameEffectsIffHelloFirst(history: seq<Event>)
    requires AllWellFormed(history)
    ensures HelloFirst(history) <==>
      forall u: nat :: CellRun(EMPTY_CELL, history[..Consumed(NewSession(u), history)]).1
        == SessionRun(NewSession(u), history).1
  {
    if HelloFirst(history) {
      forall u: nat
        ensures CellRun(EMPTY_CELL, history[..Consumed(NewSession(u), history)]).1
          == SessionRun(NewSession(u), history).1
      {
        RunsMatch(EMPTY_CELL, NewSession(u), false, history);
      }
    } else {
      FirstReplyDiffers(history);
    }
  }

  // ---------- sequence numbers ----------

  /** The sequence numbers of the replies among some effects. */
  function Numbers(effects: seq<Effect>): seq<nat> {
    if effects == [] then []
    else (if effects[0].Send? then [effects[0].sequence] else []) + Numbers(effects[1..])
  }

  lemma {:induction false} NumbersConcat(first: seq<Effect>, second: seq<Effect>)
    ensures Numbers(first + second) == Numbers(first) + Numbers(second)
  {
    if first == [] {
      assert first + second == second;
    } else {
      var now := if first[0].Send? then [first[0].sequence] else [];
      var a, b := Numbers(first[1..]), Numbers(second);
      assert (first + second)[0] == first[0] && (first + second)[1..] == first[1..] + second;
      NumbersConcat(first[1..], second);
      assert now + (a + b) == (now + a) + b;
    }
  }

  lemma StepNumber(c: Cell, e: Event)
    requires WellFormed(e.packet) && e.packet.command != CLIENT_HELLO
    ensures var (c1, out) := CellStep(c, e);
      (Numbers(out) == [] && c1.lastSeq == c.lastSeq)
      || (Numbers(out) == [(c.lastSeq + 1) % SHORT] && c1.lastSeq == (c.lastSeq + 1) % SHORT)
  {
    var out := CellStep(c, e).1;
    if |out| == 1 {
      NumbersLast([], out[0]);
      assert out == [] + [out[0]];
    } else if |out| > 1 {
      NumbersLast(out[..|out| - 1], out[|out| - 1]);
      assert out == out[..|out| - 1] + [out[|out| - 1]];
    }
  }

  lemma SessionStepNumber(s: Session, e: Event)
    requires WellFormed(e.packet) && e.packet.command != CLIENT_HELLO
    ensures var (s1, out) := SessionStep(s, e);
      (Numbers(out) == [] && (out == [] || out == [Fault]))
      || (Numbers(out) == [(s.sequence + 1) % SHORT] && s1.sequence == (s.sequence + 1) % SHORT)
  {
    var out := SessionStep(s, e).1;
    if |out| == 1 {
      NumbersLast([], out[0]);
      assert out == [] + [out[0]];
    } else if |out| > 1 {
      NumbersLast(out[..|out| - 1], out[|out| - 1]);
      assert out == out[..|out| - 1] + [out[|out| - 1]];
    }
  }

  /** Replies come last among the effects of a message. */
  lemma {:induction false} NumbersLast(first: seq<Effect>, last: Effect)
    requires forall i :: 0 <= i < |first| ==> !first[i].Send?
    ensures Numbers(first + [last]) == if last.Send? then [last.sequence] else []
  {
    if first == [] {
      assert first + [last] == [last] && [last][1..] == [];
    } else {
      assert (first + [last])[1..] == first[1..] + [last];
      NumbersLast(first[1..], last);
    }
  }

  lemma CountOn(last: nat, now: seq<nat>, next: nat, later: seq<nat>)
    requires (now == [] && next == last) || (now == [(last + 1) % SHORT] && next == (last + 1) % SHORT)
    requires forall k :: 0 <= k < |later| ==> later[k] == (next + 1 + k) % SHORT
    ensures forall k :: 0 <= k < |now + later| ==> (now + later)[k] == (last + 1 + k) % SHORT
  {
    if now == [] {
      assert now + later == later;
    } else {
      forall k | 1 <= k < |now + later|
        ensures (now + later)[k] == (last + 1 + k) % SHORT
      {
        assert (now + later)[k] == later[k - 1] == (next + k) % SHORT;
      }
    }
  }

  /** Counted from the slot's last number, without a gap, wrapping at 16 bits. */
  lemma {:induction false} RepliesNumberedFrom(c: Cell, history: seq<Event>)
    requires AllWellFormed(history)
    requires forall i :: 0 <= i < |history| ==> history[i].packet.command != CLIENT_HELLO
    ensures forall k :: 0 <= k < |Numbers(CellRun(c, history).1)| ==>
      Numbers(CellRun(c, history).1)[k] == (c.lastSeq + 1 + k) % SHORT
    decreases |history|
  {
    if history != [] {
      var (c1, now) := CellStep(c, history[0]);
      StepNumber(c, history[0]);
      RepliesNumberedFrom(c1, history[1..]);
      var later := CellRun(c1, history[1..]).1;
      NumbersConcat(now, later);
      CountOn(c.lastSeq, Numbers(now), c1.lastSeq, Numbers(later));
    }
  }

  /** The k-th reply to a client that greets once, and first, carries the number of the greeting's reply
      plus k, modulo 2^16. */
  lemma RepliesNumbered(c: Cell, history: seq<Event>)
    requires AllWellFormed(history) && history != [] && history[0].packet.command == CLIENT_HELLO
    requires forall i :: 0 < i < |history| ==> history[i].packet.command != CLIENT_HELLO
    ensures var numbers := Numbers(CellRun(c, history).1);
      && numbers != []
      && numbers[0] < MAX_SEQUENCE
      && forall k :: 0 <= k < |numbers| ==> numbers[k] == (numbers[0] + k) % SHORT
  {
    var (c1, now) := CellStep(c, history[0]);
    RepliesNumberedFrom(c1, history[1..]);
    NumbersConcat(now, CellRun(c1, history[1..]).1);
    assert now[1..] == [];
    assert Numbers(now) == [c1.lastSeq];
  }
}
