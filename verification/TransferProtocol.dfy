/**
 The stop-and-wait file transfer of p1: the client of p1/src/client.c and the server of
 p1/src/server.c (a dedicated session), each reacting to the message the other has sent. A read of
 the file returns any positive number of bytes that fits, 0 at its end, or a negative number if it fails.
 */
module TransferProtocol {
  import opened CStrings
  import opened Wrappers
  import opened SelectSession

  /** A client packet on the wire: only the useful data is sent. */
  datatype Message = Message(sequence: nat, length: nat, command: nat, payload: seq<int>)

  /** `sequence` is the sequence field of the client's packet, reused from packet to packet. */
  datatype Client = Client(offset: nat, sequence: nat, fileStored: bool, storedError: bool)

  predicate ClientDone(c: Client) {
    c.fileStored || c.storedError
  }

  /** sendDataPkt: htons keeps the low 16 bits of sequence and length. */
  function DataPacket(seqNum: nat, command: nat, payload: seq<int>): Message {
    Message(seqNum % SHORT, (HEADER_LENGTH + |payload|) % SHORT, command, payload)
  }

  /** One round of the client's message loop; `count` is what read() on the file returns, if called. */
  function ClientStep(c: Client, file: seq<int>, fileName: seq<int>, command: nat, count: int)
      : (Client, Option<Message>)
    requires count >= 0 ==> c.offset + count <= |file|
  {
    var nextSeq := c.sequence + 1;
    var sent := c.(sequence := nextSeq % SHORT);
    if command == SERVER_HELLO || command == PKT_RECEIVED then
      if count < 0 then (sent, Some(DataPacket(nextSeq, ERROR, [])))
      else if command == PKT_RECEIVED && count == 0 then
        (sent, Some(DataPacket(nextSeq, DATA_STORE, fileName + [0])))
      else
        (sent.(offset := c.offset + count),
         Some(DataPacket(nextSeq, DATA_DELIVERY, file[c.offset..c.offset + count])))
    else if command == ERROR || command == STORED_ERROR then
      (c.(storedError := true), None)
    else if command == FILE_STORED then
      (c.(fileStored := true), None)
    else
      (c, None)
  }

  /** The client in its imperative form. */
  class FileClient {
    const file: seq<int>
    const fileName: seq<int>
    var offset: nat
    var sequence: nat
    var fileStored: bool
    var storedError: bool

    ghost function Value(): Client
      reads this
    {
      Client(offset, sequence, fileStored, storedError)
    }

    constructor (file: seq<int>, fileName: seq<int>, random: nat)
      ensures this.file == file && this.fileName == fileName
      ensures Value() == Client(0, random % 65535, false, false)
    {
      this.file, this.fileName := file, fileName;
      offset, sequence := 0, random % MAX_SEQUENCE % SHORT;
      fileStored, storedError := false, false;
    }

    method SendDataPkt(seqNum: nat, command: nat, payload: seq<int>) returns (packet: Message)
      modifies this`sequence
      ensures sequence == seqNum % SHORT
      ensures packet == DataPacket(seqNum, command, payload)
    {
      sequence := seqNum % SHORT;
      packet := Message(sequence, (HEADER_LENGTH + |payload|) % SHORT, command, payload);
    }

    method Handle(command: nat, count: int) returns (out: Option<Message>)
      requires count >= 0 ==> offset + count <= |file|
      modifies this
      ensures (Value(), out) == ClientStep(old(Value()), file, fileName, command, count)
    {
      out := None;
      if command == SERVER_HELLO || command == PKT_RECEIVED {
        var packet;
        if count < 0 {
          packet := SendDataPkt(sequence + 1, ERROR, []);
        } else if command == PKT_RECEIVED && count == 0 {
          packet := SendDataPkt(sequence + 1, DATA_STORE, fileName + [0]);
        } else {
          var chunk := file[offset..offset + count];
          offset := offset + count;
          packet := SendDataPkt(sequence + 1, DATA_DELIVERY, chunk);
        }
        out := Some(packet);
      } else if command == ERROR || command == STORED_ERROR {
        storedError := true;
      } else if command == FILE_STORED {
        fileStored := true;
      }
    }
  }

  // ---------- the two machines together ----------

  /** `target` is the file the server opens, if it exists. History: the sequence numbers that the client
      and the server have sent, how many bytes the server's write took, the client's packets, and what the
      server has done. */
  datatype State = State(
    client: Client, server: Session,
    toServer: Option<Message>, toClient: Option<Effect>,
    target: Option<seq<int>>,
    sent: seq<nat>, replied: seq<nat>, written: nat, packets: seq<Message>, effects: seq<Effect>)

  /** What stays fixed during a transfer. `original` is the target file as it was before. */
  datatype Setting = Setting(file: seq<int>, fileName: seq<int>, clientSeq: nat, uninitialised: nat, original: Option<seq<int>>)

  datatype Action = ClientAct(count: int) | ServerAct(env: Env, leftover: seq<int>)

  ghost predicate Good(x: Setting) {
    |x.fileName| + 1 <= DATA_SIZE && NulFree(x.fileName)
  }

  function Init(x: Setting): State {
    State(Client(0, x.clientSeq % SHORT, false, false), NewSession(x.uninitialised),
          Some(DataPacket(x.clientSeq, CLIENT_HELLO, [])), None, x.original,
          [x.clientSeq % SHORT], [], 0, [DataPacket(x.clientSeq, CLIENT_HELLO, [])], [])
  }

  /** What a read of the file may return. */
  predicate MayRead(x: Setting, offset: nat, count: int) {
    || count < 0
    || if offset >= |x.file| then count == 0 else 1 <= count <= DATA_SIZE && offset + count <= |x.file|
  }

  /** The packet in the server's receive buffer: beyond the payload there are leftovers. */
  function Received(m: Message, leftover: seq<int>): Packet
    requires |m.payload| <= |leftover|
  {
    Packet(m.sequence, m.length, m.command, m.payload + leftover[|m.payload|..])
  }

  ghost predicate Enabled(x: Setting, s: State, a: Action) {
    match a
    case ClientAct(count) =>
      && !ClientDone(s.client) && s.toClient.Some? && s.toClient.value.Send?
      && s.client.offset <= |x.file| && MayRead(x, s.client.offset, count)
    case ServerAct(env, leftover) =>
      && !Done(s.server) && s.toServer.Some?
      && |leftover| == DATA_SIZE && |s.toServer.value.payload| <= DATA_SIZE
      && WellFormed(Received(s.toServer.value, leftover))
  }

  /** open with O_CREAT but without O_TRUNC, then write from the start. */
  function Overwrite(before: seq<int>, contents: seq<int>): seq<int> {
    if |before| <= |contents| then contents else contents + before[|contents|..]
  }

  function Apply(target: Option<seq<int>>, effects: seq<Effect>): Option<seq<int>>
    decreases |effects|
  {
    if effects == [] then target
    else match effects[0]
      case Opened(_) => Apply(if target.None? then Some([]) else target, effects[1..])
      case Wrote(_, contents) =>
        Apply(Some(Overwrite(if target.None? then [] else target.value, contents)), effects[1..])
      case _ => Apply(target, effects[1..])
  }

  function Last(effects: seq<Effect>): Option<Effect> {
    if effects == [] then None else Some(effects[|effects| - 1])
  }

  function Taken(effects: seq<Effect>, otherwise: nat): nat {
    if effects == [] then otherwise
    else if effects[0].Wrote? then |effects[0].contents|
    else Taken(effects[1..], otherwise)
  }

  function Next(x: Setting, s: State, a: Action): State
    requires Enabled(x, s, a)
  {
    match a
    case ClientAct(count) =>
      var (client, out) := ClientStep(s.client, x.file, x.fileName, s.toClient.value.command, count);
      s.(client := client, toClient := None, toServer := out,
         sent := s.sent + (if out.Some? then [out.value.sequence] else []),
         packets := s.packets + if out.Some? then [out.value] else [])
    case ServerAct(env, leftover) =>
      var (server, effects) := SessionStep(s.server, Event(Received(s.toServer.value, leftover), env));
      s.(server := server, toServer := None, toClient := Last(effects), target := Apply(s.target, effects),
         replied := s.replied + Numbers(effects), written := Taken(effects, s.written),
         effects := s.effects + effects)
  }

  ghost predicate Run(x: Setting, s: State, acts: seq<Action>, t: State)
    decreases |acts|
  {
    if acts == [] then t == s else Enabled(x, s, acts[0]) && Run(x, Next(x, s, acts[0]), acts[1..], t)
  }

  // ---------- the invariant ----------

  /** The server holds the first d bytes of the file, taken from at least one packet. */
  ghost predicate ServerHolds(x: Setting, s: Session, d: nat) {
    d <= |x.file| && d < WORD && !Done(s) && s.bytesRead == d && s.buffer == Bytes(x.file[..d])
  }

  /** Exactly one message is under way until the server's last reply has been read. Abandoned: the client
      could not read its file, has said so, and has got no answer. Crashed: the server's byte count wrapped. */
  datatype Stage =
    | Greeting | Greeted | Delivering | Acknowledged | Storing | Ending | Over
    | Abandoning | Abandoned | Crashed

  predicate Crash(s: State) {
    s.toClient == Some(Fault)
  }

  ghost predicate AtStage(x: Setting, s: State, stage: Stage) {
    var c := s.client;
    && c.offset <= |x.file|
    && (stage != Over ==> !ClientDone(c))
    && match stage {
      case Greeting =>
        && s.toClient == None && s.server == NewSession(x.uninitialised) && c.offset == 0 && s.target == x.original
        && s.toServer.Some? && s.toServer.value.command == CLIENT_HELLO
        && s.toServer.value.payload == [] && s.toServer.value.length == HEADER_LENGTH
      case Greeted =>
        && s.toServer == None && ServerEmpty(s.server)
        && c.offset == 0 && s.target == x.original
        && s.toClient.Some? && s.toClient.value.Send? && s.toClient.value.command == SERVER_HELLO
      case Delivering =>
        && s.toClient == None && s.toServer.Some? && s.toServer.value.command == DATA_DELIVERY
        && var p := s.toServer.value.payload;
        && |p| <= c.offset && p == x.file[c.offset - |p|..c.offset]
        && |p| <= DATA_SIZE && s.toServer.value.length == HEADER_LENGTH + |p| && s.target == x.original
        && ((ServerHolds(x, s.server, c.offset - |p|) && p != []) || (c.offset == |p| && ServerEmpty(s.server)))
      case Acknowledged =>
        && s.toServer == None && s.toClient.Some? && s.toClient.value.Send?
        && s.toClient.value.command == PKT_RECEIVED && s.target == x.original
        && ServerHolds(x, s.server, c.offset)
      case Storing =>
        && s.toClient == None && s.toServer.Some? && s.toServer.value.command == DATA_STORE
        && s.toServer.value.payload == x.fileName + [0]
        && s.toServer.value.length == HEADER_LENGTH + |x.fileName| + 1
        && c.offset == |x.file| && s.target == x.original
        && ServerHolds(x, s.server, |x.file|)
      case Ending =>
        && s.toServer == None && Done(s.server) && s.toClient.Some? && s.toClient.value.Send?
        && Outcome(x, s, s.toClient.value.command)
      case Over =>
        && s.toServer == None && s.toClient == None && Done(s.server) && c.fileStored != c.storedError
        && Outcome(x, s, if c.fileStored then FILE_STORED else STORED_ERROR)
      case Abandoning =>
        && s.toClient == None && s.toServer.Some? && s.toServer.value.command == ERROR
        && s.toServer.value.payload == [] && s.toServer.value.length == HEADER_LENGTH
        && s.target == x.original && (ServerHolds(x, s.server, c.offset) || (c.offset == 0 && ServerEmpty(s.server)))
      case Abandoned =>
        && s.toServer == None && s.toClient == None && s.target == x.original
        && s.server.communicationError && !s.server.fileStored && !s.server.storedError
      case Crashed =>
        && s.toServer == None && Crash(s) && s.target == x.original && !Done(s.server) && c.offset > WORD
    }
  }

  predicate ServerEmpty(s: Session) {
    s.buffer == Null && s.bytesRead == 0 && !Done(s)
  }

  function Before(x: Setting): seq<int> {
    if x.original.None? then [] else x.original.value
  }

  /** What the server's last reply says about its state and about the target file. */
  ghost predicate Outcome(x: Setting, s: State, command: nat) {
    if command == FILE_STORED then
      && s.server.fileStored && !s.server.communicationError && s.client.offset == |x.file| < WORD
      && s.written <= |x.file| && s.target == Some(Overwrite(Before(x), x.file[..s.written]))
    else
      && (command == ERROR || command == STORED_ERROR) && s.server.storedError
      && !s.server.fileStored && !s.server.communicationError
      && (s.target == x.original || s.target == Some(Before(x)))
  }

  /** How many bytes the server will have been sent, the message under way included. */
  function Total(s: State): nat {
    s.server.bytesRead + if s.toServer.Some? then |s.toServer.value.payload| else 0
  }

  /** The stage that follows. */
  function NextStage(s: State, stage: Stage, a: Action): Stage {
    match stage
    case Greeting => Greeted
    case Greeted => if a.ClientAct? && a.count < 0 then Abandoning else Delivering
    case Delivering =>
      if a.ServerAct? && (!a.env.allocOk || Total(s) == WORD) then Ending
      else if Total(s) > WORD then Crashed
      else Acknowledged
    case Acknowledged =>
      if a.ClientAct? && a.count < 0 then Abandoning
      else if a.ClientAct? && a.count == 0 then Storing
      else Delivering
    case Storing => Ending
    case Ending => Over
    case Abandoning => Abandoned
    case _ => stage
  }

  lemma ClientFromGreeted(x: Setting, s: State, count: int)
    requires Good(x) && AtStage(x, s, Greeted) && Enabled(x, s, ClientAct(count))
    ensures AtStage(x, Next(x, s, ClientAct(count)), if count < 0 then Abandoning else Delivering)
  {
  }

  lemma ClientFromAcknowledged(x: Setting, s: State, count: int)
    requires Good(x) && AtStage(x, s, Acknowledged) && Enabled(x, s, ClientAct(count))
    ensures AtStage(x, Next(x, s, ClientAct(count)),
                    if count < 0 then Abandoning else if count == 0 then Storing else Delivering)
  {
  }

  lemma ClientFromEnding(x: Setting, s: State, count: int)
    requires Good(x) && AtStage(x, s, Ending) && Enabled(x, s, ClientAct(count))
    ensures AtStage(x, Next(x, s, ClientAct(count)), Over)
  {
  }

  lemma ClientKeepsStage(x: Setting, s: State, stage: Stage, count: int)
    requires Good(x) && AtStage(x, s, stage) && Enabled(x, s, ClientAct(count))
    ensures AtStage(x, Next(x, s, ClientAct(count)), NextStage(s, stage, ClientAct(count)))
    ensures stage.Greeted? || stage.Acknowledged? || stage.Ending?
  {
    match stage
    case Greeted => ClientFromGreeted(x, s, count);
    case Acknowledged => ClientFromAcknowledged(x, s, count);
    case Ending => ClientFromEnding(x, s, count);
    case _ =>
  }

  lemma ApplySend(target: Option<seq<int>>, effect: Effect)
    requires !effect.Opened? && !effect.Wrote?
    ensures Apply(target, [effect]) == target
  {
    assert [effect][1..] == [];
  }

  lemma GreetingServed(x: Setting, s: State, env: Env, leftover: seq<int>)
    requires AtStage(x, s, Greeting) && Enabled(x, s, ServerAct(env, leftover))
    ensures AtStage(x, Next(x, s, ServerAct(env, leftover)), Greeted)
  {
    ApplySend(s.target, SessionStep(s.server, Event(Received(s.toServer.value, leftover), env)).1[0]);
  }

  /** One more chunk in the buffer. */
  lemma ChunkBuffered(x: Setting, server: Session, heap: seq<int>, d: nat, p: seq<int>)
    requires d + |p| <= |x.file| && p == x.file[d..d + |p|]
    requires ServerHolds(x, server, d) || (d == 0 && ServerEmpty(server))
    ensures Append(server.buffer, server.bytesRead, heap, p) == Bytes(x.file[..d + |p|])
  {
    assert Resized(Contents(server.buffer), heap, d) == x.file[..d];
    assert x.file[..d] + p == x.file[..d + |p|];
  }

  /** What the server makes of a delivery that it takes. */
  lemma DeliveryTaken(x: Setting, s: State, env: Env, leftover: seq<int>)
    requires AtStage(x, s, Delivering) && Enabled(x, s, ServerAct(env, leftover))
    requires env.allocOk && Total(s) < WORD
    ensures AtStage(x, Next(x, s, ServerAct(env, leftover)), Acknowledged)
  {
    var m := s.toServer.value;
    var packet := Received(m, leftover);
    assert Payload(packet) == m.payload;
    ChunkBuffered(x, s.server, env.heap, s.client.offset - |m.payload|, m.payload);
    ApplySend(s.target, SessionStep(s.server, Event(packet, env)).1[0]);
  }

  /** And of one that it cannot take. */
  lemma DeliveryRefused(x: Setting, s: State, env: Env, leftover: seq<int>)
    requires AtStage(x, s, Delivering) && Enabled(x, s, ServerAct(env, leftover))
    requires !env.allocOk || Total(s) >= WORD
    ensures AtStage(x, Next(x, s, ServerAct(env, leftover)),
                    if !env.allocOk || Total(s) == WORD then Ending else Crashed)
  {
    var m := s.toServer.value;
    var packet := Received(m, leftover);
    assert Payload(packet) == m.payload;
    ApplySend(s.target, SessionStep(s.server, Event(packet, env)).1[0]);
  }

  lemma DeliveryServed(x: Setting, s: State, env: Env, leftover: seq<int>)
    requires AtStage(x, s, Delivering) && Enabled(x, s, ServerAct(env, leftover))
    ensures AtStage(x, Next(x, s, ServerAct(env, leftover)), NextStage(s, Delivering, ServerAct(env, leftover)))
  {
    if env.allocOk && Total(s) < WORD {
      DeliveryTaken(x, s, env, leftover);
    } else {
      DeliveryRefused(x, s, env, leftover);
    }
  }

  lemma StoreEffects(x: Setting, name: seq<int>, contents: seq<int>, reply: Effect, otherwise: nat)
    requires reply.Send?
    ensures Apply(x.original, [Opened(name), Wrote(name, contents), reply]) == Some(Overwrite(Before(x), contents))
    ensures Apply(x.original, [Opened(name), reply]) == Some(Before(x))
    ensures Taken([Opened(name), Wrote(name, contents), reply], otherwise) == |contents|
  {
    assert [Opened(name), Wrote(name, contents), reply][1..] == [Wrote(name, contents), reply];
    assert [Wrote(name, contents), reply][1..] == [reply] && [Opened(name), reply][1..] == [reply];
    ApplySend(Some(Before(x)), reply);
    ApplySend(Some(Overwrite(Before(x), contents)), reply);
    assert Apply(x.original, [Opened(name), Wrote(name, contents), reply])
        == Apply(Some(Before(x)), [Wrote(name, contents), reply]);
  }

  /** The least of the numbers of bytes that write() was offered and that it took. */
  function WriteCount(env: Env, size: nat): nat
    requires env.written >= 0
  {
    if env.written < size then env.written else size
  }

  /** The server opens the file under the name that the client was given. */
  lemma StoreName(x: Setting, packet: Packet)
    requires Good(x) && WellFormed(packet) && Payload(packet) == x.fileName + [0]
    ensures NameEnds(packet) && CString(Payload(packet)) == x.fileName
  {
    TerminatedText(x.fileName, []);
    assert x.fileName + [0] + [] == x.fileName + [0];
    assert packet.data[|x.fileName|] == 0;
  }

  lemma StoreServed(x: Setting, s: State, env: Env, leftover: seq<int>)
    requires Good(x) && AtStage(x, s, Storing) && Enabled(x, s, ServerAct(env, leftover))
    ensures AtStage(x, Next(x, s, ServerAct(env, leftover)), Ending)
    ensures var t := Next(x, s, ServerAct(env, leftover));
      t.server.fileStored <==> env.openOk && env.written >= 0
    ensures env.openOk && env.written >= 0 ==>
      Next(x, s, ServerAct(env, leftover)).written == WriteCount(env, |x.file|)
  {
    var packet := Received(s.toServer.value, leftover);
    var effects := SessionStep(s.server, Event(packet, env)).1;
    var name := CString(Payload(packet));
    StoreName(x, packet);
    assert x.file[..|x.file|] == x.file;
    if env.openOk && env.written >= 0 {
      var n := WriteCount(env, |x.file|);
      StoreEffects(x, name, x.file[..n], effects[2], s.written);
      assert effects == [Opened(name), Wrote(name, x.file[..n]), effects[2]];
      assert effects[1..] == [effects[1], effects[2]];
    } else if env.openOk {
      StoreEffects(x, name, [], effects[1], s.written);
      assert effects == [Opened(name), effects[1]];
    } else {
      ApplySend(s.target, effects[0]);
    }
  }

  lemma NextKeepsStage(x: Setting, s: State, stage: Stage, a: Action)
    requires Good(x) && AtStage(x, s, stage) && Enabled(x, s, a)
    ensures AtStage(x, Next(x, s, a), NextStage(s, stage, a))
    ensures !stage.Over? && !stage.Abandoned? && !stage.Crashed?
  {
    match a
    case ClientAct(count) => ClientKeepsStage(x, s, stage, count);
    case ServerAct(env, leftover) =>
      match stage {
        case Greeting => GreetingServed(x, s, env, leftover);
        case Delivering => DeliveryServed(x, s, env, leftover);
        case Storing => StoreServed(x, s, env, leftover);
        case _ =>
      }
  }

  lemma {:induction false} RunKeepsStage(x: Setting, s: State, stage: Stage, acts: seq<Action>, t: State)
      returns (end: Stage)
    requires Good(x) && AtStage(x, s, stage) && Run(x, s, acts, t)
    ensures AtStage(x, t, end)
    decreases |acts|
  {
    if acts == [] {
      end := stage;
    } else {
      NextKeepsStage(x, s, stage, acts[0]);
      end := RunKeepsStage(x, Next(x, s, acts[0]), NextStage(s, stage, acts[0]), acts[1..], t);
    }
  }

  lemma InitStage(x: Setting)
    ensures AtStage(x, Init(x), Greeting)
  {
  }
}
