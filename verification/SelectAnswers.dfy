/**
 What a handler answers, in the numbers of the protocol: messages 1 (hello), 3 (delivery) and 4 (store),
 replies 2 (hello), 5 (error), 6 (received), 7 (stored) and 8 (not stored), all replies 8 bytes long.
 */
module SelectAnswers {
  import opened CStrings
  import opened SelectSession

  /** The data of the packet begins with this text and a NUL. */
  ghost predicate NamedBy(p: Packet, text: seq<int>) {
    && p.length >= 8 + |text| + 1 && |p.data| > |text|
    && (forall i :: 0 <= i < |text| ==> p.data[i] == text[i] != 0)
    && p.data[|text|] == 0
  }

  lemma NameOf(p: Packet, text: seq<int>)
    requires WellFormed(p) && NamedBy(p, text)
    ensures NameEnds(p) && CString(Payload(p)) == text
  {
    var rest := Payload(p)[|text| + 1..];
    assert Payload(p) == text + [0] + rest;
    TerminatedText(text, rest);
  }

  /** What is written of the buffer: its first bytes, as many as write() takes. */
  ghost predicate IsWritten(buffer: Buffer, written: int, contents: seq<int>) {
    match buffer
    case Bytes(data) => |contents| == (if written < |data| then written else |data|) && contents <= data
    case _ => contents == []
  }

  /** The block after a delivery: what it held, then the data of the packet. */
  ghost predicate IsGrown(before: Buffer, bytesRead: nat, p: Packet, after: Buffer)
    requires WellFormed(p)
  {
    && after.Bytes? && |after.data| == bytesRead + p.length - 8
    && (forall i :: 0 <= i < p.length - 8 ==> after.data[bytesRead + i] == p.data[i])
    && (before.Bytes? ==> forall i :: 0 <= i < |before.data| && i < bytesRead ==> after.data[i] == before.data[i])
  }

  // ---------- one message to a slot ----------

  lemma SlotAnswersHello(c: Cell, e: Event)
    requires WellFormed(e.packet) && e.packet.command == 1
    ensures CellStep(c, e) == (c.(lastSeq := e.env.random % 65535), [Send(e.env.random % 65535, 8, 2)])
  {
  }

  lemma SlotAnswersDelivery(c: Cell, e: Event)
    requires WellFormed(e.packet) && e.packet.command == 3
    ensures var (c1, out) := CellStep(c, e);
      var p, next, total := e.packet, (c.lastSeq + 1) % 65536, c.bytesRead + e.packet.length - 8;
      var allocates := e.env.allocOk && !(c.buffer.Bytes? && total % 0x1_0000_0000 == 0);
      if c.buffer.Dangling? || (allocates && total >= 0x1_0000_0000) then out == [Fault]
      else if allocates then
        && out == [Send(next, 8, 6)] && c1.lastSeq == next && c1.bytesRead == total
        && IsGrown(c.buffer, c.bytesRead, p, c1.buffer)
      else out == [Send(next, 8, 5)] && c1 == Cell(Null, next, c.bytesRead)
  {
    var p := e.packet;
    assert Payload(p) == p.data[..p.length - 8];
  }

  lemma SlotAnswersStore(c: Cell, e: Event, text: seq<int>)
    requires WellFormed(e.packet) && e.packet.command == 4 && NamedBy(e.packet, text)
    ensures var (c1, out) := CellStep(c, e);
      var next, env := (c.lastSeq + 1) % 65536, e.env;
      if !env.openOk then out == [Send(next, 8, 8)] && c1 == c.(lastSeq := next)
      else if c.buffer.Dangling? then out == [Fault]
      else if env.written < 0 || (c.buffer.Null? && c.bytesRead > 0) then
        out == [Opened(text), Send(next, 8, 8)] && c1 == c.(lastSeq := next)
      else
        && |out| == 3 && out[0] == Opened(text) && out[2] == Send(next, 8, 7)
        && out[1].Wrote? && out[1].name == text && IsWritten(c.buffer, env.written, out[1].contents)
        && c1 == c.(lastSeq := next, buffer := if c.buffer.Null? then Null else Dangling)
  {
    NameOf(e.packet, text);
  }

  /** A name without an end, and messages of other kinds. */
  lemma SlotAnswersElse(c: Cell, e: Event)
    requires WellFormed(e.packet)
    ensures e.packet.command == 4 && (forall i :: 0 <= i < e.packet.length - 8 ==> e.packet.data[i] != 0) ==>
      CellStep(c, e).1 == [Fault]
    ensures e.packet.command != 1 && e.packet.command != 3 && e.packet.command != 4 ==> CellStep(c, e) == (c, [])
  {
  }

  // ---------- one message to a process ----------

  /** The flags after a message: at most one is raised. */
  function Flags(s: Session): (bool, bool, bool) {
    (s.fileStored, s.storedError, s.communicationError)
  }

  lemma ProcessAnswersHello(s: Session, e: Event)
    requires WellFormed(e.packet) && e.packet.command == 1
    ensures SessionStep(s, e) == (s.(sequence := e.env.random % 65535), [Send(e.env.random % 65535, 8, 2)])
  {
  }

  lemma ProcessAnswersDelivery(s: Session, e: Event)
    requires WellFormed(e.packet) && e.packet.command == 3 && !Done(s)
    ensures var (s1, out) := SessionStep(s, e);
      var p, next, total := e.packet, (s.sequence + 1) % 65536, s.bytesRead + e.packet.length - 8;
      var allocates := e.env.allocOk && !(s.buffer.Bytes? && total % 0x1_0000_0000 == 0);
      if s.buffer.Dangling? || (allocates && total >= 0x1_0000_0000) then out == [Fault]
      else if allocates then
        && out == [Send(next, 8, 6)] && s1.sequence == next && s1.bytesRead == total
        && IsGrown(s.buffer, s.bytesRead, p, s1.buffer) && Flags(s1) == (false, false, false)
      else out == [Send(next, 8, 5)] && s1 == Session(Null, s.bytesRead, next, false, true, false)
  {
    var p := e.packet;
    assert Payload(p) == p.data[..p.length - 8];
  }

  lemma ProcessAnswersStore(s: Session, e: Event, text: seq<int>)
    requires WellFormed(e.packet) && e.packet.command == 4 && NamedBy(e.packet, text) && !Done(s)
    ensures var (s1, out) := SessionStep(s, e);
      var next, env := (s.sequence + 1) % 65536, e.env;
      if !env.openOk then out == [Send(next, 8, 8)] && Flags(s1) == (false, true, false)
      else if s.buffer.Dangling? then out == [Fault]
      else if env.written < 0 || (s.buffer.Null? && s.bytesRead > 0) then
        out == [Opened(text), Send(next, 8, 8)] && Flags(s1) == (false, true, false)
      else
        && |out| == 3 && out[0] == Opened(text) && out[2] == Send(next, 8, 7)
        && out[1].Wrote? && out[1].name == text && IsWritten(s.buffer, env.written, out[1].contents)
        && Flags(s1) == (true, false, false)
  {
    NameOf(e.packet, text);
  }

  lemma ProcessAnswersElse(s: Session, e: Event)
    requires WellFormed(e.packet) && !Done(s)
    ensures e.packet.command == 4 && (forall i :: 0 <= i < e.packet.length - 8 ==> e.packet.data[i] != 0) ==>
      SessionStep(s, e).1 == [Fault]
    ensures e.packet.command == 5 ==> SessionStep(s, e) == (s.(communicationError := true), [])
    ensures e.packet.command !in {1, 3, 4, 5} ==> SessionStep(s, e) == (s, [])
  {
  }

  // ---------- whole conversations ----------

  /** A reply has 8 bytes and is one of the server's five. */
  predicate IsReply(effect: Effect) {
    effect.Send? ==> effect.sequence < 65536 && effect.length == 8 && effect.command in {2, 5, 6, 7, 8}
  }

  predicate AllReplies(effects: seq<Effect>) {
    forall i :: 0 <= i < |effects| ==> IsReply(effects[i])
  }

  lemma {:induction false} SlotReplies(c: Cell, history: seq<Event>)
    requires AllWellFormed(history)
    ensures AllReplies(CellRun(c, history).1)
    decreases |history|
  {
    if history != [] {
      SlotReplies(CellStep(c, history[0]).0, history[1..]);
    }
  }

  lemma {:induction false} ProcessReplies(s: Session, history: seq<Event>)
    requires AllWellFormed(history)
    ensures AllReplies(SessionRun(s, history).1)
    decreases |history|
  {
    if history != [] && !Done(s) {
      ProcessReplies(SessionStep(s, history[0]).0, history[1..]);
    }
  }

  /** The names a conversation opens or writes are the names its stores carry. */
  ghost predicate Named(history: seq<Event>, name: seq<int>) {
    exists i :: 0 <= i < |history| && history[i].packet.command == 4 && NamedBy(history[i].packet, name)
  }

  function NamesOf(effect: Effect): set<seq<int>> {
    match effect
    case Opened(name) => {name}
    case Wrote(name, _) => {name}
    case _ => {}
  }

  lemma StepNames(c: Cell, e: Event, name: seq<int>, i: nat)
    requires WellFormed(e.packet) && i < |CellStep(c, e).1| && name in NamesOf(CellStep(c, e).1[i])
    ensures e.packet.command == 4 && NamedBy(e.packet, name)
  {
    var text := FirstText(e.packet.data, e.packet.length - 8);
    if NamedBy(e.packet, text) {
      SlotAnswersStore(c, e, text);
    } else {
      SlotAnswersElse(c, e);
    }
  }

  /** The bytes before the first NUL, if there is one among the first n. */
  function FirstText(data: seq<int>, n: nat): (text: seq<int>)
    requires n <= |data|
    ensures |text| <= n && forall i :: 0 <= i < |text| ==> data[i] == text[i] != 0
    ensures |text| < n ==> data[|text|] == 0
  {
    if n == 0 || data[0] == 0 then [] else [data[0]] + FirstText(data[1..], n - 1)
  }

  lemma {:induction false} SlotNames(c: Cell, history: seq<Event>, name: seq<int>, i: nat)
    requires AllWellFormed(history)
    requires i < |CellRun(c, history).1| && name in NamesOf(CellRun(c, history).1[i])
    ensures Named(history, name)
    decreases |history|
  {
    var (c1, now) := CellStep(c, history[0]);
    if i < |now| {
      assert CellRun(c, history).1[i] == now[i];
      StepNames(c, history[0], name, i);
    } else {
      SlotNames(c1, history[1..], name, i - |now|);
      var k :| 0 <= k < |history[1..]| && history[1..][k].packet.command == 4 && NamedBy(history[1..][k].packet, name);
      assert history[k + 1] == history[1..][k];
    }
  }
}
