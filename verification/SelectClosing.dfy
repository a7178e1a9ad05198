/**
 The end of a connection. The slot is closed when nothing is left to read. The dedicated process takes
 the end of the stream, for which read() returns 0, for success and handles the packet in its receive
 buffer once more, again and again, until it is done.
 */
module SelectClosing {
  import opened SelectSession

  /** What the process handles if its client closes the connection after this history: with n answers of
      the system, the first n repetitions of the last packet, or of whatever its receive buffer held. */
  function Replayed(history: seq<Event>, garbage: Packet, answers: seq<Env>): (all: seq<Event>)
    requires AllWellFormed(history) && WellFormed(garbage)
    ensures AllWellFormed(all)
  {
    var stale := if history == [] then garbage else history[|history| - 1].packet;
    history + seq(|answers|, i requires 0 <= i < |answers| => Event(stale, answers[i]))
  }

  lemma {:induction false} SessionRunSplit(s: Session, first: seq<Event>, second: seq<Event>)
    requires AllWellFormed(first) && AllWellFormed(second)
    ensures AllWellFormed(first + second)
    ensures var (s1, out) := SessionRun(s, first); var (s2, more) := SessionRun(s1, second);
      SessionRun(s, first + second) == if Fault in out then (s1, out) else (s2, out + more)
    decreases |first|
  {
    if first == [] {
      assert first + second == second;
      assert [] + SessionRun(s, second).1 == SessionRun(s, second).1;
    } else if Done(s) {
      assert [] + SessionRun(s, second).1 == SessionRun(s, second).1;
    } else {
      assert (first + second)[1..] == first[1..] + second;
      var (s1, now) := SessionStep(s, first[0]);
      if Fault !in now {
        SessionRunSplit(s1, first[1..], second);
        var (s2, out) := SessionRun(s1, first[1..]);
        assert now + (out + SessionRun(s2, second).1) == (now + out) + SessionRun(s2, second).1;
      }
    }
  }

  /** The end of the stream makes no difference to what the process does. */
  ghost predicate EndsQuietly(history: seq<Event>, uninitialised: nat)
    requires AllWellFormed(history)
  {
    forall garbage: Packet, answers: seq<Env> :: WellFormed(garbage) ==>
      SessionRun(NewSession(uninitialised), Replayed(history, garbage, answers)).1
        == SessionRun(NewSession(uninitialised), history).1
  }

  /** A process does nothing about this packet, except perhaps end. */
  predicate Silent(p: Packet) {
    p.command != CLIENT_HELLO && p.command != DATA_DELIVERY && p.command != DATA_STORE
  }

  lemma {:induction false} SilentRun(s: Session, events: seq<Event>)
    requires AllWellFormed(events) && forall i :: 0 <= i < |events| ==> Silent(events[i].packet)
    ensures SessionRun(s, events).1 == []
    decreases |events|
  {
    if events != [] && !Done(s) {
      SilentRun(SessionStep(s, events[0]).0, events[1..]);
    }
  }

  lemma NoisyStep(s: Session, e: Event)
    requires WellFormed(e.packet) && !Silent(e.packet) && !Done(s)
    ensures SessionRun(s, [e]).1 != []
  {
    assert [e][1..] == [];
  }

  lemma QuietEnd(history: seq<Event>, s0: Session, garbage: Packet, answers: seq<Env>)
    requires AllWellFormed(history) && WellFormed(garbage)
    requires Fault !in SessionRun(s0, history).1
    requires Done(SessionRun(s0, history).0) || (history != [] && Silent(history[|history| - 1].packet))
    ensures SessionRun(s0, Replayed(history, garbage, answers)).1 == SessionRun(s0, history).1
  {
    var (s, out) := SessionRun(s0, history);
    var more := Replayed(history, garbage, answers)[|history|..];
    assert Replayed(history, garbage, answers) == history + more;
    SessionRunSplit(s0, history, more);
    if !Done(s) {
      SilentRun(s, more);
    }
    assert out + [] == out;
  }

  lemma NoisyEnd(history: seq<Event>, s0: Session, garbage: Packet, env: Env)
    requires AllWellFormed(history) && WellFormed(garbage) && !Silent(garbage)
    requires !Done(SessionRun(s0, history).0) && Fault !in SessionRun(s0, history).1
    requires history == [] || !Silent(history[|history| - 1].packet)
    ensures SessionRun(s0, Replayed(history, garbage, [env])).1 != SessionRun(s0, history).1
  {
    var (s, out) := SessionRun(s0, history);
    var e := Event(if history == [] then garbage else history[|history| - 1].packet, env);
    assert Replayed(history, garbage, [env]) == history + [e];
    SessionRunSplit(s0, history, [e]);
    NoisyStep(s, e);
    assert |out + SessionRun(s, [e]).1| > |out|;
  }

  /** A client of a process that has not faulted may close its connection without the process acting on it
      exactly if the process had ended before, or the last packet is one that it does nothing about. */
  lemma EndsQuietlyIff(history: seq<Event>, uninitialised: nat)
    requires AllWellFormed(history)
    ensures Fault !in SessionRun(NewSession(uninitialised), history).1 ==>
      (EndsQuietly(history, uninitialised) <==>
        || Done(SessionRun(NewSession(uninitialised), history).0)
        || (history != [] && Silent(history[|history| - 1].packet)))
  {
    var s0 := NewSession(uninitialised);
    if Fault in SessionRun(s0, history).1 {
    } else if Done(SessionRun(s0, history).0) || (history != [] && Silent(history[|history| - 1].packet)) {
      forall garbage: Packet, answers: seq<Env> | WellFormed(garbage)
        ensures SessionRun(s0, Replayed(history, garbage, answers)).1 == SessionRun(s0, history).1
      {
        QuietEnd(history, s0, garbage, answers);
      }
    } else {
      var garbage := Packet(0, HEADER_LENGTH, CLIENT_HELLO, seq(DATA_SIZE, _ => 0));
      var env := Env(0, true, [], true, 0);
      NoisyEnd(history, s0, garbage, env);
    }
  }
}
