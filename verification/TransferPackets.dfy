/** What travels and what is opened in an upload, in the numbers of the protocol. */
module TransferPackets {
  import opened SelectSession
  import opened SelectAnswers
  import opened TransferProtocol

  // ---------- the client's packets ----------

  /** A delivery of at most 4022 bytes, the store with the file's name, or the error; the length field counts
      8 bytes of header. */
  predicate IsClientPacket(x: Setting, m: Message) {
    && m.sequence < 65536 && m.length == 8 + |m.payload| && |m.payload| <= 4022
    && match m.command
       case 3 => true
       case 4 => m.payload == x.fileName + [0]
       case 5 => m.payload == []
       case _ => false
  }

  /** The data of the deliveries, one after the other. */
  function DataOf(packets: seq<Message>): seq<int> {
    if packets == [] then []
    else
      var front, last := packets[..|packets| - 1], packets[|packets| - 1];
      DataOf(front) + if last.command == 3 then last.payload else []
  }

  ghost predicate GoodPackets(x: Setting, s: State) {
    && s.packets != [] && s.packets[0] == Message(x.clientSeq % 65536, 8, 1, [])
    && (forall i :: 1 <= i < |s.packets| ==> IsClientPacket(x, s.packets[i]))
    && s.client.offset <= |x.file| && DataOf(s.packets) == x.file[..s.client.offset]
  }

  lemma DataAppend(packets: seq<Message>, m: Message)
    ensures DataOf(packets + [m]) == DataOf(packets) + if m.command == 3 then m.payload else []
  {
    assert (packets + [m])[..|packets|] == packets;
  }

  lemma ClientSends(x: Setting, s: State, stage: Stage, count: int)
    requires Good(x) && AtStage(x, s, stage) && Enabled(x, s, ClientAct(count))
    ensures var t := Next(x, s, ClientAct(count));
      match t.toServer
      case None => t.packets == s.packets && t.client.offset == s.client.offset
      case Some(m) =>
        && t.packets == s.packets + [m] && IsClientPacket(x, m)
        && s.client.offset <= t.client.offset <= |x.file|
        && (if m.command == 3 then m.payload == x.file[s.client.offset..t.client.offset]
            else t.client.offset == s.client.offset)
  {
    var t := Next(x, s, ClientAct(count));
    if t.toServer.None? {
      assert s.packets + [] == s.packets;
    }
  }

  lemma PacketsStep(x: Setting, s: State, stage: Stage, a: Action)
    requires Good(x) && AtStage(x, s, stage) && Enabled(x, s, a) && GoodPackets(x, s)
    ensures GoodPackets(x, Next(x, s, a))
  {
    match a
    case ServerAct(_, _) =>
    case ClientAct(count) =>
      var t := Next(x, s, a);
      ClientSends(x, s, stage, count);
      if t.toServer.Some? {
        DataAppend(s.packets, t.toServer.value);
        assert x.file[..s.client.offset] + x.file[s.client.offset..t.client.offset] == x.file[..t.client.offset];
        assert x.file[..s.client.offset] + [] == x.file[..s.client.offset];
      }
  }

  lemma {:induction false} RunPackets(x: Setting, s: State, stage: Stage, acts: seq<Action>, t: State)
    requires Good(x) && AtStage(x, s, stage) && Run(x, s, acts, t) && GoodPackets(x, s)
    ensures GoodPackets(x, t)
    decreases |acts|
  {
    if acts != [] {
      NextKeepsStage(x, s, stage, acts[0]);
      PacketsStep(x, s, stage, acts[0]);
      RunPackets(x, Next(x, s, acts[0]), NextStage(s, stage, acts[0]), acts[1..], t);
    }
  }

  /** In every run the client's first packet is the hello, all others are deliveries, the store or the error, and
      the deliveries together are what has been read of the file, in order. */
  lemma ClientPackets(x: Setting, acts: seq<Action>, s: State)
    requires Good(x) && Run(x, Init(x), acts, s)
    ensures s.packets != [] && s.packets[0] == Message(x.clientSeq % 65536, 8, 1, [])
    ensures forall i :: 1 <= i < |s.packets| ==> IsClientPacket(x, s.packets[i])
    ensures s.client.offset <= |x.file| && DataOf(s.packets) == x.file[..s.client.offset]
  {
    InitStage(x);
    assert Init(x).packets[..0] == [];
    RunPackets(x, Init(x), Greeting, acts, s);
  }

  // ---------- what the server does ----------

  /** It opens and writes no file but the client's, and replies as servers do. */
  predicate IsServerEffect(x: Setting, effect: Effect) {
    match effect
    case Opened(name) => name == x.fileName
    case Wrote(name, contents) => name == x.fileName && contents <= x.file
    case Send(sequence, length, command) => sequence < 65536 && length == 8 && command in {2, 5, 6, 7, 8}
    case Fault => true
    case Exit => false
  }

  ghost predicate GoodEffects(x: Setting, effects: seq<Effect>) {
    forall i :: 0 <= i < |effects| ==> IsServerEffect(x, effects[i])
  }

  lemma StoreNamed(x: Setting, packet: Packet)
    requires Good(x) && WellFormed(packet) && Payload(packet) == x.fileName + [0]
    ensures NamedBy(packet, x.fileName)
  {
    assert packet.length - 8 == |x.fileName| + 1;
    forall i | 0 <= i < |x.fileName|
      ensures packet.data[i] == x.fileName[i] != 0
    {
      assert Payload(packet)[i] == packet.data[i] && (x.fileName + [0])[i] == x.fileName[i];
    }
    assert Payload(packet)[|x.fileName|] == packet.data[|x.fileName|];
  }

  lemma ServerDoes(x: Setting, s: State, stage: Stage, env: Env, leftover: seq<int>)
    requires Good(x) && AtStage(x, s, stage) && Enabled(x, s, ServerAct(env, leftover))
    ensures GoodEffects(x, SessionStep(s.server, Event(Received(s.toServer.value, leftover), env)).1)
  {
    var e := Event(Received(s.toServer.value, leftover), env);
    match stage
    case Greeting => ProcessAnswersHello(s.server, e);
    case Delivering => ProcessAnswersDelivery(s.server, e);
    case Storing =>
      StoreNamed(x, e.packet);
      ProcessAnswersStore(s.server, e, x.fileName);
      assert x.file[..|x.file|] == x.file;
    case Abandoning => ProcessAnswersElse(s.server, e);
    case _ =>
  }

  lemma {:induction false} RunEffects(x: Setting, s: State, stage: Stage, acts: seq<Action>, t: State)
    requires Good(x) && AtStage(x, s, stage) && Run(x, s, acts, t) && GoodEffects(x, s.effects)
    ensures GoodEffects(x, t.effects)
    decreases |acts|
  {
    if acts != [] {
      NextKeepsStage(x, s, stage, acts[0]);
      match acts[0] {
        case ServerAct(env, leftover) => ServerDoes(x, s, stage, env, leftover);
        case ClientAct(_) =>
      }
      RunEffects(x, Next(x, s, acts[0]), NextStage(s, stage, acts[0]), acts[1..], t);
    }
  }

  /** In every run the server opens and writes only the file that the client was told to send, writes only a
      beginning of it, and its replies are 8 bytes long. */
  lemma ServerEffects(x: Setting, acts: seq<Action>, s: State)
    requires Good(x) && Run(x, Init(x), acts, s)
    ensures forall i :: 0 <= i < |s.effects| ==> IsServerEffect(x, s.effects[i])
  {
    InitStage(x);
    RunEffects(x, Init(x), Greeting, acts, s);
  }
}
