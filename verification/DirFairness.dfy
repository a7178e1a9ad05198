/**
 Liveness of the super nodes: in every infinite run that serialises reports and checks queries, and in which
 no duty is for ever put off that could be done infinitely often, every busy node returns to its select loop.
 */
module DirFairness {
  import opened DirReplicas
  import opened DirBlocking

  /** What a node owes: to process the other's share, to read a reply, to finish a search. */
  datatype Duty = Process(side: Side) | ReadReply(side: Side) | Finish(side: Side)

  ghost predicate CanDo(s: State, d: Duty, size: TableSize) {
    match d
    case Process(side) => Serving(s, side) && Of(s, side.Other()).phase.Sharing?
    case ReadReply(side) => Of(s, side).phase.Answered?
    case Finish(side) => SearchEnds(Of(s, side), size)
  }

  predicate Does(a: Action, d: Duty) {
    match d
    case Process(side) => a.TakeShare? && a.side == side
    case ReadReply(side) => a == TakeReply(side)
    case Finish(side) => a == Answer(side)
  }

  ghost predicate StepAt(st: nat -> State, ac: nat -> Action, n: nat, size: TableSize) {
    && Fits(st(n), size) && Enabled(st(n), ac(n), size) && Careful(st(n), ac(n), size)
    && st(n + 1) == Next(st(n), ac(n), size)
  }

  ghost predicate Execution(st: nat -> State, ac: nat -> Action, size: TableSize) {
    && (exists bootA, bootB :: st(0) == Start(bootA, bootB))
    && forall n: nat :: StepAt(st, ac, n, size)
  }

  ghost predicate DoesOnce(ac: nat -> Action, d: Duty, n: nat) {
    exists m: nat :: n <= m && Does(ac(m), d)
  }

  ghost predicate DoesOften(ac: nat -> Action, d: Duty) {
    forall n: nat :: DoesOnce(ac, d, n)
  }

  ghost predicate CanDoOnce(st: nat -> State, d: Duty, n: nat, size: TableSize) {
    exists m: nat :: n <= m && CanDo(st(m), d, size)
  }

  ghost predicate CanDoOften(st: nat -> State, d: Duty, size: TableSize) {
    forall n: nat :: CanDoOnce(st, d, n, size)
  }

  /** A duty that can be done infinitely often is done infinitely often. */
  ghost predicate StronglyFair(st: nat -> State, ac: nat -> Action, size: TableSize) {
    forall d :: CanDoOften(st, d, size) ==> DoesOften(ac, d)
  }

  lemma {:induction false} InvAt(st: nat -> State, ac: nat -> Action, n: nat, size: TableSize)
    requires Execution(st, ac, size)
    ensures Inv(st(n), size) && NobodyStuck(st(n), size)
  {
    if n == 0 {
      var bootA, bootB :| st(0) == Start(bootA, bootB);
      StartInv(bootA, bootB, size);
    } else {
      InvAt(st, ac, n - 1, size);
      assert StepAt(st, ac, n - 1, size);
      NextInv(st(n - 1), ac(n - 1), size);
      CarefulStep(st(n - 1), ac(n - 1), A, size);
      CarefulStep(st(n - 1), ac(n - 1), B, size);
      NoNewDeadlock(st(n - 1), ac(n - 1), size);
    }
  }

  lemma {:induction false} FirstTime(ac: nat -> Action, d: Duty, n: nat, last: nat) returns (m: nat)
    requires n <= last && Does(ac(last), d)
    ensures n <= m && Does(ac(m), d) && forall k: nat :: n <= k < m ==> !Does(ac(k), d)
    decreases last - n
  {
    if Does(ac(n), d) {
      m := n;
    } else {
      m := FirstTime(ac, d, n + 1, last);
    }
  }

  /** A duty is done if, as long as it is not, it can be done again and again. */
  lemma Done(st: nat -> State, ac: nat -> Action, d: Duty, n: nat, size: TableSize) returns (m: nat)
    requires StronglyFair(st, ac, size)
    requires (forall k: nat :: n <= k ==> !Does(ac(k), d)) ==> CanDoOften(st, d, size)
    ensures n <= m && Does(ac(m), d) && forall k: nat :: n <= k < m ==> !Does(ac(k), d)
  {
    assert DoesOnce(ac, d, n) by {
      if CanDoOften(st, d, size) {
        assert DoesOften(ac, d);
      } else {
        var k: nat :| n <= k && Does(ac(k), d);
      }
    }
    var last: nat :| n <= last && Does(ac(last), d);
    m := FirstTime(ac, d, n, last);
  }

  // ---------- replies and searches ----------

  /** The duty of a node that waits for nobody. */
  function OwnDuty(s: State, side: Side): Duty {
    if Of(s, side).phase.Answered? then ReadReply(side) else Finish(side)
  }

  ghost predicate Independent(s: State, side: Side) {
    Of(s, side).phase.Answered? || Of(s, side).phase.Searching?
  }

  lemma CanDoOwn(s: State, side: Side, size: TableSize)
    requires Inv(s, size) && NobodyStuck(s, size) && Independent(s, side)
    ensures CanDo(s, OwnDuty(s, side), size)
  {
    LostIff(s, side, size);
  }

  lemma AnsweredWaits(s: State, x: Action, side: Side, size: TableSize)
    requires Fits(s, size) && Enabled(s, x, size) && Of(s, side).phase.Answered? && x != TakeReply(side)
    ensures Of(Next(s, x, size), side).phase.Answered?
  {
    match x
    case TakeReport(at, report) => TakeReportEffect(s, at, report, size);
    case _ =>
  }

  lemma OwnDutyStays(s: State, x: Action, side: Side, size: TableSize)
    requires Fits(s, size) && Enabled(s, x, size) && Independent(s, side) && !Does(x, OwnDuty(s, side))
    ensures var t := Next(s, x, size); Independent(t, side) && OwnDuty(t, side) == OwnDuty(s, side)
  {
    if Of(s, side).phase.Answered? {
      AnsweredWaits(s, x, side, size);
    } else {
      SearchGoesOn(s, x, side, size);
    }
  }

  lemma {:induction false} OwnDutyKept(st: nat -> State, ac: nat -> Action, side: Side, n: nat, m: nat, size: TableSize)
    requires Execution(st, ac, size) && Independent(st(n), side) && n <= m
    requires forall k: nat :: n <= k < m ==> !Does(ac(k), OwnDuty(st(n), side))
    ensures Independent(st(m), side) && OwnDuty(st(m), side) == OwnDuty(st(n), side)
    decreases m
  {
    if n < m {
      OwnDutyKept(st, ac, side, n, m - 1, size);
      assert StepAt(st, ac, m - 1, size);
      OwnDutyStays(st(m - 1), ac(m - 1), side, size);
    }
  }

  lemma DoesOwn(s: State, x: Action, side: Side, size: TableSize)
    requires Fits(s, size) && Enabled(s, x, size) && Independent(s, side) && Does(x, OwnDuty(s, side))
    ensures Of(Next(s, x, size), side).phase.Idle?
  {
  }

  lemma IndependentReturns(st: nat -> State, ac: nat -> Action, side: Side, n: nat, size: TableSize) returns (m: nat)
    requires Execution(st, ac, size) && StronglyFair(st, ac, size) && Independent(st(n), side)
    ensures n <= m && Of(st(m), side).phase.Idle?
  {
    var d := OwnDuty(st(n), side);
    if forall k: nat :: n <= k ==> !Does(ac(k), d) {
      forall k: nat
        ensures CanDoOnce(st, d, k, size)
      {
        var from := if n < k then k else n;
        OwnDutyKept(st, ac, side, n, from, size);
        InvAt(st, ac, from, size);
        CanDoOwn(st(from), side, size);
        assert k <= from && CanDo(st(from), d, size);
      }
    }
    m := Done(st, ac, d, n, size);
    OwnDutyKept(st, ac, side, n, m, size);
    assert StepAt(st, ac, m, size);
    DoesOwn(st(m), ac(m), side, size);
    m := m + 1;
  }

  // ---------- shares ----------

  lemma SharingStays(s: State, x: Action, side: Side, size: TableSize)
    requires Fits(s, size) && Enabled(s, x, size) && Of(s, side).phase.Sharing? && !Does(x, Process(side.Other()))
    ensures Of(Next(s, x, size), side).phase.Sharing?
  {
    match x
    case TakeReport(at, report) => TakeReportEffect(s, at, report, size);
    case _ =>
  }

  lemma {:induction false} SharingKept(st: nat -> State, ac: nat -> Action, side: Side, n: nat, m: nat, size: TableSize)
    requires Execution(st, ac, size) && Of(st(n), side).phase.Sharing? && n <= m
    requires forall k: nat :: n <= k < m ==> !Does(ac(k), Process(side.Other()))
    ensures Of(st(m), side).phase.Sharing?
    decreases m
  {
    if n < m {
      SharingKept(st, ac, side, n, m - 1, size);
      assert StepAt(st, ac, m - 1, size);
      SharingStays(st(m - 1), ac(m - 1), side, size);
    }
  }

  lemma CanProcess(s: State, side: Side, size: TableSize)
    requires Inv(s, size) && Of(s, side).phase.Sharing? && Of(s, side.Other()).phase.Idle?
    ensures CanDo(s, Process(side.Other()), size)
  {
  }

  lemma OtherNotSharing(s: State, side: Side, size: TableSize)
    requires NobodyStuck(s, size) && Of(s, side).phase.Sharing?
    ensures Of(s, side.Other()).phase.Idle? || Independent(s, side.Other())
  {
  }

  /** While a share waits the other node is idle again and again. */
  lemma ProcessLater(st: nat -> State, ac: nat -> Action, side: Side, n: nat, k: nat, size: TableSize)
    requires Execution(st, ac, size) && StronglyFair(st, ac, size) && Of(st(n), side).phase.Sharing?
    requires forall m: nat :: n <= m ==> !Does(ac(m), Process(side.Other()))
    ensures CanDoOnce(st, Process(side.Other()), k, size)
  {
    var m := if n < k then k else n;
    SharingKept(st, ac, side, n, m, size);
    InvAt(st, ac, m, size);
    OtherNotSharing(st(m), side, size);
    if !Of(st(m), side.Other()).phase.Idle? {
      m := IndependentReturns(st, ac, side.Other(), m, size);
      SharingKept(st, ac, side, n, m, size);
      InvAt(st, ac, m, size);
    }
    CanProcess(st(m), side, size);
    assert k <= m && CanDo(st(m), Process(side.Other()), size);
  }

  lemma Processed(s: State, x: Action, side: Side, size: TableSize)
    requires Fits(s, size) && Enabled(s, x, size) && Does(x, Process(side.Other()))
    ensures Of(Next(s, x, size), side).phase.Answered?
  {
    TakeShareEffect(s, side.Other(), x.id, x.junk, size);
  }

  lemma ShareReturns(st: nat -> State, ac: nat -> Action, side: Side, n: nat, size: TableSize) returns (m: nat)
    requires Execution(st, ac, size) && StronglyFair(st, ac, size) && Of(st(n), side).phase.Sharing?
    ensures n <= m && Of(st(m), side).phase.Idle?
  {
    var d := Process(side.Other());
    if forall k: nat :: n <= k ==> !Does(ac(k), d) {
      forall k: nat
        ensures CanDoOnce(st, d, k, size)
      {
        ProcessLater(st, ac, side, n, k, size);
      }
    }
    m := Done(st, ac, d, n, size);
    assert StepAt(st, ac, m, size);
    Processed(st(m), ac(m), side, size);
    m := IndependentReturns(st, ac, side, m + 1, size);
  }

  /** In every strongly fair infinite run that serialises reports and checks queries, every busy node
      returns to its select loop. */
  lemma BusyNodeReturns(st: nat -> State, ac: nat -> Action, side: Side, n: nat, size: TableSize) returns (m: nat)
    requires Execution(st, ac, size) && StronglyFair(st, ac, size)
    ensures n <= m && Of(st(m), side).phase.Idle?
  {
    if Of(st(n), side).phase.Idle? {
      m := n;
    } else if Of(st(n), side).phase.Sharing? {
      m := ShareReturns(st, ac, side, n, size);
    } else {
      m := IndependentReturns(st, ac, side, n, size);
    }
  }
}
