/** What the file transfer of p1 guarantees over all runs: every file, every way of cutting it into
    reads, every answer of the operating system. */
module TransferTheorems {
  import opened Wrappers
  import opened SelectSession
  import opened TransferProtocol

  lemma ReachedStage(x: Setting, acts: seq<Action>, s: State) returns (stage: Stage)
    requires Good(x) && Run(x, Init(x), acts, s)
    ensures AtStage(x, s, stage)
  {
    InitStage(x);
    stage := RunKeepsStage(x, Init(x), Greeting, acts, s);
  }

  // ---------- nothing is lost, duplicated or reordered ----------

  /** The piece of the file that is on its way. */
  function InFlight(s: State): seq<int> {
    if s.toServer.Some? && s.toServer.value.command == DATA_DELIVERY then s.toServer.value.payload else []
  }

  lemma StageConserves(x: Setting, s: State, stage: Stage)
    requires AtStage(x, s, stage) && !Done(s.server) && !Crash(s)
    ensures s.client.offset <= |x.file|
    ensures Contents(s.server.buffer) + InFlight(s) == x.file[..s.client.offset]
  {
    if stage.Delivering? {
      var d := s.client.offset - |InFlight(s)|;
      assert x.file[..d] + x.file[d..s.client.offset] == x.file[..s.client.offset];
    }
  }

  /** At every moment until the server ends or crashes: what it has buffered, then what is in flight, then
      what the client has not yet read, is the file. */
  lemma NothingLost(x: Setting, acts: seq<Action>, s: State)
    requires Good(x) && Run(x, Init(x), acts, s) && !Done(s.server) && !Crash(s)
    ensures s.client.offset <= |x.file|
    ensures Contents(s.server.buffer) + InFlight(s) + x.file[s.client.offset..] == x.file
  {
    var stage := ReachedStage(x, acts, s);
    StageConserves(x, s, stage);
    assert x.file[..s.client.offset] + x.file[s.client.offset..] == x.file;
  }

  /** When DATA_STORE is on its way the buffer is the whole file; it is never on its way for a file of
      2^32 bytes or more. */
  lemma WholeFileBuffered(x: Setting, acts: seq<Action>, s: State)
    requires Good(x) && Run(x, Init(x), acts, s)
    requires s.toServer.Some? && s.toServer.value.command == DATA_STORE
    ensures s.server.buffer == Bytes(x.file) && s.server.bytesRead == |x.file| < WORD
  {
    var stage := ReachedStage(x, acts, s);
    assert x.file[..|x.file|] == x.file;
  }

  // ---------- sequence numbers ----------

  /** Numbers count from the first one without a gap, modulo 2^16. */
  ghost predicate Consecutive(numbers: seq<nat>) {
    forall k :: 0 <= k < |numbers| ==> numbers[k] == (numbers[0] + k) % SHORT
  }

  ghost predicate Numbered(s: State) {
    && s.sent != [] && Consecutive(s.sent) && s.client.sequence == s.sent[|s.sent| - 1]
    && Consecutive(s.replied) && (s.replied != [] ==> s.server.sequence == s.replied[|s.replied| - 1])
    && |s.replied| <= |s.sent| <= |s.replied| + 1
    && (s.toServer.Some? ==> |s.sent| == |s.replied| + 1)
    && (s.toClient.Some? && s.toClient.value.Send? ==> |s.sent| == |s.replied|)
  }

  lemma NextNumber(numbers: seq<nat>)
    requires numbers != [] && Consecutive(numbers)
    ensures Consecutive(numbers + [(numbers[|numbers| - 1] + 1) % SHORT])
  {
  }

  lemma ClientNumbered(x: Setting, s: State, stage: Stage, count: int)
    requires Good(x) && AtStage(x, s, stage) && Enabled(x, s, ClientAct(count)) && Numbered(s)
    ensures Numbered(Next(x, s, ClientAct(count)))
  {
    NextNumber(s.sent);
  }

  lemma ServerReplies(x: Setting, s: State, stage: Stage, env: Env, leftover: seq<int>)
    requires Good(x) && AtStage(x, s, stage) && Enabled(x, s, ServerAct(env, leftover))
    requires stage.Greeting? <==> s.replied == []
    ensures var (server, out) := SessionStep(s.server, Event(Received(s.toServer.value, leftover), env));
      && (!stage.Greeting? ==>
          (Numbers(out) == [] && (out == [] || out == [Fault]))
          || (Numbers(out) == [(s.server.sequence + 1) % SHORT] && server.sequence == (s.server.sequence + 1) % SHORT))
      && (stage.Greeting? ==> Numbers(out) == [server.sequence] && server.sequence < SHORT)
  {
    var e := Event(Received(s.toServer.value, leftover), env);
    if stage.Greeting? {
      var out := SessionStep(s.server, e).1;
      NumbersLast([], out[0]);
      assert out == [] + [out[0]];
    } else {
      SessionStepNumber(s.server, e);
    }
  }

  lemma ServerNumbered(x: Setting, s: State, stage: Stage, env: Env, leftover: seq<int>)
    requires Good(x) && AtStage(x, s, stage) && Enabled(x, s, ServerAct(env, leftover)) && Numbered(s)
    requires stage.Greeting? <==> s.replied == []
    ensures var t := Next(x, s, ServerAct(env, leftover)); Numbered(t) && t.replied != []
  {
    ServerReplies(x, s, stage, env, leftover);
    if !stage.Greeting? {
      NextNumber(s.replied);
    }
  }

  lemma {:induction false} RunNumbered(x: Setting, s: State, stage: Stage, acts: seq<Action>, t: State)
    requires Good(x) && AtStage(x, s, stage) && Run(x, s, acts, t) && Numbered(s)
    requires stage.Greeting? <==> s.replied == []
    ensures Numbered(t)
    decreases |acts|
  {
    if acts != [] {
      NextKeepsStage(x, s, stage, acts[0]);
      match acts[0] {
        case ClientAct(count) => ClientNumbered(x, s, stage, count);
        case ServerAct(env, leftover) => ServerNumbered(x, s, stage, env, leftover);
      }
      RunNumbered(x, Next(x, s, acts[0]), NextStage(s, stage, acts[0]), acts[1..], t);
    }
  }

  /** In every run the k-th packet of either side carries that side's first number plus k modulo 2^16,
      and the two sides take turns. */
  lemma SequenceNumbers(x: Setting, acts: seq<Action>, s: State)
    requires Good(x) && Run(x, Init(x), acts, s)
    ensures s.sent != [] && s.sent[0] == x.clientSeq % SHORT
    ensures forall k :: 0 <= k < |s.sent| ==> s.sent[k] == (x.clientSeq + k) % SHORT
    ensures forall k :: 0 <= k < |s.replied| ==> s.replied[k] == (s.replied[0] + k) % SHORT
    ensures |s.replied| <= |s.sent| <= |s.replied| + 1
  {
    InitStage(x);
    RunNumbered(x, Init(x), Greeting, acts, s);
    SentBegins(x, Init(x), acts, s);
  }

  lemma {:induction false} SentBegins(x: Setting, s: State, acts: seq<Action>, t: State)
    requires Run(x, s, acts, t) && s.sent != []
    ensures t.sent != [] && t.sent[0] == s.sent[0]
    decreases |acts|
  {
    if acts != [] {
      SentBegins(x, Next(x, s, acts[0]), acts[1..], t);
    }
  }

  // ---------- what is stored ----------

  /** If the client reports success, the server's write took the first `written` bytes of the file and laid
      them over whatever the target held. The target begins with the file exactly if that was all of it or
      the old target happened to hold the rest, and equals it exactly if the old target was, moreover,
      not longer. */
  lemma StoredFile(x: Setting, acts: seq<Action>, s: State)
    requires Good(x) && Run(x, Init(x), acts, s) && s.client.fileStored
    ensures s.server.fileStored && s.client.offset == |x.file| < WORD && s.written <= |x.file|
    ensures s.target == Some(Overwrite(Before(x), x.file[..s.written]))
    ensures x.file <= s.target.value <==> RestWasThere(x, s.written)
    ensures s.target.value == x.file <==> RestWasThere(x, s.written) && |Before(x)| <= |x.file|
  {
    var stage := ReachedStage(x, acts, s);
    OverwriteBegins(x.file, Before(x), s.written);
  }

  /** The bytes of the file beyond the first n are in the old target, at their place. */
  ghost predicate RestWasThere(x: Setting, n: nat)
    requires n <= |x.file|
  {
    n == |x.file| || (|x.file| <= |Before(x)| && Before(x)[n..|x.file|] == x.file[n..])
  }

  lemma OverwriteBegins(file: seq<int>, before: seq<int>, n: nat)
    requires n <= |file|
    ensures var t := Overwrite(before, file[..n]);
      var there := n == |file| || (|file| <= |before| && before[n..|file|] == file[n..]);
      && (file <= t <==> there)
      && (t == file <==> there && |before| <= |file|)
  {
    var t := Overwrite(before, file[..n]);
    assert file == file[..n] + file[n..];
    assert |t| == if |before| <= n then n else |before|;
    if |before| > n {
      assert t[n..] == before[n..];
      assert t[..n] == file[..n];
      if |file| <= |before| {
        assert t[..|file|] == file[..n] + before[n..|file|];
        if file <= t {
          assert t[..|file|][n..] == before[n..|file|];
        }
      }
    }
  }

  /** A failed transfer leaves the contents of the target as they were. */
  lemma FailureKeepsTarget(x: Setting, acts: seq<Action>, s: State)
    requires Good(x) && Run(x, Init(x), acts, s) && s.client.storedError
    ensures s.target == x.original || (x.original.None? && s.target == Some([]))
  {
    var stage := ReachedStage(x, acts, s);
  }

  // ---------- termination ----------

  function Larger(a: int, b: int): int {
    if a < b then b else a
  }

  ghost function Measure(x: Setting, s: State, stage: Stage): int {
    var left := |x.file| - s.client.offset;
    match stage
    case Greeting => 2 * Larger(1, left) + 4
    case Greeted => 2 * Larger(1, left) + 3
    case Delivering => 2 * left + 4
    case Acknowledged => 2 * left + 3
    case Storing => 2
    case Ending => 1
    case Abandoning => 1
    case _ => 0
  }

  lemma MeasureFalls(x: Setting, s: State, stage: Stage, a: Action)
    requires Good(x) && AtStage(x, s, stage) && Enabled(x, s, a)
    ensures 0 <= Measure(x, Next(x, s, a), NextStage(s, stage, a)) < Measure(x, s, stage)
  {
    NextKeepsStage(x, s, stage, a);
  }

  lemma {:induction false} RunBounded(x: Setting, s: State, stage: Stage, acts: seq<Action>, t: State)
    requires Good(x) && AtStage(x, s, stage) && Run(x, s, acts, t)
    ensures |acts| <= Measure(x, s, stage)
    decreases |acts|
  {
    if acts != [] {
      NextKeepsStage(x, s, stage, acts[0]);
      MeasureFalls(x, s, stage, acts[0]);
      RunBounded(x, Next(x, s, acts[0]), NextStage(s, stage, acts[0]), acts[1..], t);
    }
  }

  /** The client has told the server that it cannot read its file, and the server has ended. */
  predicate GivenUp(s: State) {
    s.server.communicationError && !ClientDone(s.client)
  }

  /** Both machines terminate: no run is longer than two steps per byte and four more (with an empty
      file counting as one byte, for its one empty DATA_DELIVERY), and a run that cannot go on has ended
      on both sides, with the same verdict, unless the client could not read or the server's count wrapped. */
  lemma Terminates(x: Setting, acts: seq<Action>, s: State)
    requires Good(x) && Run(x, Init(x), acts, s)
    ensures |acts| <= 2 * Larger(1, |x.file|) + 4
    ensures (forall a :: !Enabled(x, s, a)) <==> (ClientDone(s.client) && Done(s.server)) || GivenUp(s) || Crash(s)
    ensures ClientDone(s.client) ==> s.client.fileStored == s.server.fileStored
    ensures Crash(s) ==> |x.file| > WORD
  {
    InitStage(x);
    RunBounded(x, Init(x), Greeting, acts, s);
    var stage := ReachedStage(x, acts, s);
    if Final(stage) {
      NoAction(x, s, stage);
    } else {
      var a := SomeAction(x, s, stage);
      NotYet(x, s, stage);
    }
  }

  predicate Final(stage: Stage) {
    stage.Over? || stage.Abandoned? || stage.Crashed?
  }

  lemma NoAction(x: Setting, s: State, stage: Stage)
    requires AtStage(x, s, stage) && Final(stage)
    ensures forall a :: !Enabled(x, s, a)
    ensures (ClientDone(s.client) && Done(s.server)) || GivenUp(s) || Crash(s)
    ensures ClientDone(s.client) ==> s.client.fileStored == s.server.fileStored
    ensures Crash(s) ==> |x.file| > WORD
  {
  }

  lemma NotYet(x: Setting, s: State, stage: Stage)
    requires AtStage(x, s, stage) && !Final(stage)
    ensures !ClientDone(s.client) && !GivenUp(s) && !Crash(s)
  {
  }

  const NO_FAILURE := Env(0, true, [], true, 0)

  /** Until the end the receiver of the message under way can act, with success. */
  lemma SomeAction(x: Setting, s: State, stage: Stage) returns (a: Action)
    requires Good(x) && AtStage(x, s, stage)
    requires !Final(stage)
    ensures Enabled(x, s, a)
    ensures a == ServerAct(NO_FAILURE, seq(DATA_SIZE, _ => 0)) || (a.ClientAct? && a.count >= 0)
  {
    if s.toServer.Some? {
      a := ServerAct(NO_FAILURE, seq(DATA_SIZE, _ => 0));
    } else {
      var left := |x.file| - s.client.offset;
      a := ClientAct(if left == 0 then 0 else 1);
    }
  }

  /** Nothing fails: neither reading the file, nor memory, open or write. */
  predicate AllOk(acts: seq<Action>) {
    forall i :: 0 <= i < |acts| ==>
      match acts[i]
      case ServerAct(env, _) => env.allocOk && env.openOk && env.written >= 0
      case ClientAct(count) => count >= 0
  }

  /** The only error is that the count has reached 2^32 exactly, and memory has been given back. */
  predicate CountableOnly(s: State) {
    !s.server.communicationError && (s.server.storedError ==> s.client.offset == WORD)
  }

  lemma {:induction false} OkRunHasNoError(x: Setting, s: State, stage: Stage, acts: seq<Action>, t: State)
    requires Good(x) && AtStage(x, s, stage) && Run(x, s, acts, t) && AllOk(acts)
    requires CountableOnly(s) && !stage.Abandoning?
    ensures CountableOnly(t)
    decreases |acts|
  {
    if acts != [] {
      NextKeepsStage(x, s, stage, acts[0]);
      OkStep(x, s, stage, acts[0]);
      OkRunHasNoError(x, Next(x, s, acts[0]), NextStage(s, stage, acts[0]), acts[1..], t);
    }
  }

  lemma OkStep(x: Setting, s: State, stage: Stage, a: Action)
    requires Good(x) && AtStage(x, s, stage) && Enabled(x, s, a) && AllOk([a])
    requires CountableOnly(s) && !stage.Abandoning?
    ensures CountableOnly(Next(x, s, a))
    ensures !NextStage(s, stage, a).Abandoning?
  {
    assert match [a][0]
      case ServerAct(env, _) => env.allocOk && env.openOk && env.written >= 0
      case ClientAct(count) => count >= 0;
    if a.ServerAct? && stage.Storing? {
      StoreServed(x, s, a.env, a.leftover);
    }
  }

  /** If nothing fails, a run that cannot go on has reported success exactly if the file has less than 2^32
      bytes. Of the others the server crashes, unless a chunk ended at 2^32 exactly: then it reports an error. */
  lemma SucceedsIffCountable(x: Setting, acts: seq<Action>, s: State)
    requires Good(x) && Run(x, Init(x), acts, s) && AllOk(acts)
    requires forall a :: !Enabled(x, s, a)
    ensures s.client.fileStored && s.server.fileStored <==> |x.file| < 0x1_0000_0000
    ensures Crash(s) <==> |x.file| >= 0x1_0000_0000 && s.client.offset != 0x1_0000_0000
    ensures s.client.storedError <==> |x.file| >= 0x1_0000_0000 && s.client.offset == 0x1_0000_0000
  {
    Terminates(x, acts, s);
    InitStage(x);
    OkRunHasNoError(x, Init(x), Greeting, acts, s);
    var stage := ReachedStage(x, acts, s);
  }

  // ---------- short writes ----------

  /** From here the run goes on to a reported success, whose write takes the n bytes given. */
  ghost predicate OnItsWay(s: State, stage: Stage, n: nat) {
    || stage.Greeting? || stage.Greeted? || stage.Delivering? || stage.Acknowledged? || stage.Storing?
    || (stage.Ending? && s.written == n && s.toClient.Some? && s.toClient.value.Send?
        && s.toClient.value.command == FILE_STORED)
  }

  lemma {:induction false} DriveToEnd(x: Setting, s: State, stage: Stage, n: nat) returns (acts: seq<Action>, t: State)
    requires Good(x) && AtStage(x, s, stage) && OnItsWay(s, stage, n) && n <= |x.file| < WORD
    ensures Run(x, s, acts, t) && t.client.fileStored && t.written == n
    decreases Measure(x, s, stage)
  {
    var a := SomeAction(x, s, stage);
    if a.ServerAct? {
      a := ServerAct(NO_FAILURE.(written := n), a.leftover);
    }
    var u := Next(x, s, a);
    NextKeepsStage(x, s, stage, a);
    MeasureFalls(x, s, stage, a);
    if stage.Ending? {
      acts, t := [a], u;
      assert [a][1..] == [];
    } else {
      StaysOnItsWay(x, s, stage, a, n);
      acts, t := DriveToEnd(x, u, NextStage(s, stage, a), n);
      acts := [a] + acts;
    }
  }

  lemma StaysOnItsWay(x: Setting, s: State, stage: Stage, a: Action, n: nat)
    requires Good(x) && AtStage(x, s, stage) && Enabled(x, s, a) && OnItsWay(s, stage, n) && !stage.Ending?
    requires n <= |x.file| < WORD
    requires (a.ServerAct? && a.env == NO_FAILURE.(written := n)) || (a.ClientAct? && a.count >= 0)
    ensures OnItsWay(Next(x, s, a), NextStage(s, stage, a), n)
  {
    if stage.Storing? {
      StoreServed(x, s, a.env, a.leftover);
    }
  }

  /** Any part of any file may be all that is written although both sides report success. */
  lemma ShortWriteReportsSuccess(x: Setting, n: nat) returns (acts: seq<Action>, s: State)
    requires Good(x) && n <= |x.file| < WORD
    ensures Run(x, Init(x), acts, s) && s.client.fileStored
    ensures s.target == Some(Overwrite(Before(x), x.file[..n]))
  {
    InitStage(x);
    acts, s := DriveToEnd(x, Init(x), Greeting, n);
    StoredFile(x, acts, s);
  }
}
