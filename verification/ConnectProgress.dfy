/** Why `connect()` ends: every thread of the protocol makes finitely many steps, and they get
    stuck only while the Runtime owes a completion for a managed attempt it was told to cancel. */
module ConnectProgress {
  import opened Wrappers
  import opened ConnectBlocks
  import opened ConnectProtocol
  import opened ConnectOutcome

  predicate Protocol(step: Step) {
    step.Connect? || step.TimeOut? || step.CancelMove?
  }

  // ---- Finitely many steps ----------------------------------------------------------------------

  function CancelRank(pc: CancelPc): nat {
    match pc
    case Entering => 9
    case Performing => 8
    case CheckingStart => 7
    case NativeCancelling => 6
    case AwaitingDone => 5
    case Disconnecting => 4
    case Settling => 3
    case Tail => 2
    case Recording(_) => 2
    case Joining => 1
    case Ending(_) => 1
    case _ => 0
  }

  function PcRank(pc: Pc): nat {
    match pc
    case Starting => 30
    case Started => 29
    case Waiting => 28
    case InTimeout(_) => 12
    case Deciding => 11
    case AwaitCancel => 10
    case Checking => 9
    case ClosingHandle => 8
    case InBarrier => 7
    case Finishing => 6
    case ReadingError(_) => 5
    case ReadingCode(_) => 4
    case FailStarted => 3
    case FailClearing => 2
    case FailFinishing => 1
    case Aborting => 1
    case Ended(_) => 0
  }

  function PcTotal(pcs: seq<Pc>): nat {
    if pcs == [] then 0 else PcTotal(pcs[..|pcs| - 1]) + PcRank(pcs[|pcs| - 1])
  }

  function CancelTotal(cancels: seq<Cancel>): nat {
    if cancels == [] then 0 else CancelTotal(cancels[..|cancels| - 1]) + CancelRank(cancels[|cancels| - 1].pc)
  }

  function Measure(s: System): nat {
    PcTotal(s.pcs) + CancelTotal(s.cancels)
  }

  lemma {:induction false} PcTotalUpdate(pcs: seq<Pc>, i: nat, pc: Pc)
    requires i < |pcs|
    ensures PcTotal(pcs[i := pc]) == PcTotal(pcs) - PcRank(pcs[i]) + PcRank(pc)
  {
    var n := |pcs| - 1;
    if i == n {
      assert pcs[i := pc][..n] == pcs[..n];
    } else {
      PcTotalUpdate(pcs[..n], i, pc);
      assert pcs[i := pc][..n] == pcs[..n][i := pc];
    }
  }

  lemma {:induction false} CancelTotalUpdate(cancels: seq<Cancel>, k: nat, c: Cancel)
    requires k < |cancels|
    ensures CancelTotal(cancels[k := c]) == CancelTotal(cancels) - CancelRank(cancels[k].pc) + CancelRank(c.pc)
  {
    var n := |cancels| - 1;
    if k == n {
      assert cancels[k := c][..n] == cancels[..n];
    } else {
      CancelTotalUpdate(cancels[..n], k, c);
      assert cancels[k := c][..n] == cancels[..n][k := c];
    }
  }

  lemma ConnectRankDown(a: Attempt, pc: Pc, ok: bool, timeout: Option<CancelPc>)
    requires CanConnect(a, pc, timeout)
    ensures PcRank(ConnectPc(a, pc, ok, timeout)) < PcRank(pc)
  {
  }

  lemma CancelRankDown(active: bool, a: Attempt, c: Cancel, failure: Option<Error>)
    requires CanCancel(a, c.pc)
    ensures CancelRank(CancelNext(active, a, c, failure).1) < CancelRank(c.pc)
  {
  }

  lemma MeasureDecreases(s: System, step: Step)
    requires CanStep(s, step) && Protocol(step)
    ensures Measure(Next(s, step)) < Measure(s)
  {
    var r := Next(s, step);
    match step
    case Connect(i, ok) =>
      ConnectRankDown(s.attempts[i], s.pcs[i], ok, TimeoutPc(s, s.pcs[i]));
      PcTotalUpdate(s.pcs, i, r.pcs[i]);
    case TimeOut(i, _) =>
      PcTotalUpdate(s.pcs, i, r.pcs[i]);
      assert r.cancels[..|s.cancels|] == s.cancels;
    case CancelMove(k, failure) =>
      var c := s.cancels[k];
      CancelRankDown(s.active == Some(c.target), s.attempts[c.target], c, failure);
      CancelTotalUpdate(s.cancels, k, r.cancels[k]);
  }

  ghost predicate ProtocolPath(s: System, steps: seq<Step>, r: System)
    decreases |steps|
  {
    if steps == [] then r == s
    else CanStep(s, steps[0]) && Protocol(steps[0]) && ProtocolPath(Next(s, steps[0]), steps[1..], r)
  }

  /** The threads already in `connect()`, `disconnect()` or `close()` make boundedly many steps. */
  lemma {:induction false} ProtocolTerminates(s: System, steps: seq<Step>, r: System)
    requires ProtocolPath(s, steps, r)
    ensures |steps| <= Measure(s)
    decreases |steps|
  {
    if steps != [] {
      MeasureDecreases(s, steps[0]);
      ProtocolTerminates(Next(s, steps[0]), steps[1..], r);
    }
  }

  // ---- No deadlock ------------------------------------------------------------------------------

  ghost predicate HasPerformer(s: System, i: nat) {
    exists k :: 0 <= k < |s.cancels| && s.cancels[k].target == i && Performs(s.cancels[k].pc)
  }

  /** An announced cancel that is not finished has a thread performing it. */
  ghost predicate PerformersPresent(s: System) {
    forall i :: 0 <= i < |s.attempts| && s.attempts[i].cancelling && !s.attempts[i].cancelFinished ==>
      HasPerformer(s, i)
  }

  lemma PerformerCancel(active: bool, a: Attempt, c: Cancel, failure: Option<Error>)
    requires CanCancel(a, c.pc)
    ensures
      var (b, pc) := CancelNext(active, a, c, failure);
      && (Performs(c.pc) ==> Performs(pc) || b.cancelFinished)
      && (b.cancelling && !b.cancelFinished ==> (a.cancelling && !a.cancelFinished) || Performs(pc))
  {
  }

  lemma PerformersMoved(s: System, k: nat, failure: Option<Error>)
    requires Shape(s) && PerformersPresent(s) && CanStep(s, CancelMove(k, failure))
    ensures PerformersPresent(Next(s, CancelMove(k, failure)))
  {
    var r := Next(s, CancelMove(k, failure));
    var c := s.cancels[k];
    PerformerCancel(s.active == Some(c.target), s.attempts[c.target], c, failure);
    forall i | 0 <= i < |r.attempts| && r.attempts[i].cancelling && !r.attempts[i].cancelFinished
      ensures HasPerformer(r, i)
    {
      if i == c.target && Performs(r.cancels[k].pc) {
        assert r.cancels[k].target == i;
      } else {
        assert HasPerformer(s, i);
        var l :| 0 <= l < |s.cancels| && s.cancels[l].target == i && Performs(s.cancels[l].pc);
        assert l != k;
        assert r.cancels[l] == s.cancels[l];
      }
    }
  }

  lemma PerformersKept(s: System, step: Step)
    requires Inv(s) && PerformersPresent(s) && CanStep(s, step)
    ensures PerformersPresent(Next(s, step))
  {
    if step.CancelMove? {
      PerformersMoved(s, step.k, step.failure);
    } else {
      PerformersStay(s, step);
    }
  }

  lemma PerformersStay(s: System, step: Step)
    requires Shape(s) && PerformersPresent(s) && CanStep(s, step) && !step.CancelMove?
    ensures PerformersPresent(Next(s, step))
  {
    var r := Next(s, step);
    assert s.cancels <= r.cancels;
    forall i | 0 <= i < |r.attempts| && r.attempts[i].cancelling && !r.attempts[i].cancelFinished
      ensures HasPerformer(r, i)
    {
      if i < |s.attempts| {
        OthersKeepCancel(s, step, i);
        var l :| 0 <= l < |s.cancels| && s.cancels[l].target == i && Performs(s.cancels[l].pc);
        assert r.cancels[l] == s.cancels[l];
      }
    }
  }

  lemma {:induction false} PerformersAlong(s: System, steps: seq<Step>, r: System)
    requires Inv(s) && PerformersPresent(s) && Path(s, steps, r)
    ensures Inv(r) && PerformersPresent(r)
    decreases |steps|
  {
    if steps != [] {
      InvKept(s, steps[0]);
      PerformersKept(s, steps[0]);
      PerformersAlong(Next(s, steps[0]), steps[1..], r);
    }
  }

  /** A cancel call of attempt `i` waits for the Runtime to complete the managed attempt. */
  ghost predicate AwaitsRuntime(s: System, i: nat) {
    exists k :: 0 <= k < |s.cancels| && s.cancels[k].target == i && s.cancels[k].pc.AwaitingDone?
  }

  lemma PerformerStuck(s: System, i: nat)
    requires Inv(s) && i < |s.attempts| && HasPerformer(s, i) && s.attempts[i].nativeStarted
    requires forall step :: Protocol(step) ==> !CanStep(s, step)
    ensures AwaitsRuntime(s, i)
  {
    var k :| 0 <= k < |s.cancels| && s.cancels[k].target == i && Performs(s.cancels[k].pc);
    assert !CanStep(s, CancelMove(k, None));
  }

  /** In every reachable state where no thread of the protocol can move, each `connect()` has ended
      or waits, through a cancel call, for the Runtime's completion of a managed attempt. */
  lemma ConnectEnds(steps: seq<Step>, s: System, i: nat)
    requires Path(INITIAL, steps, s) && i < |s.attempts| == |s.pcs|
    requires forall step :: Protocol(step) ==> !CanStep(s, step)
    ensures s.pcs[i].Ended? || (AwaitsRuntime(s, i) && s.attempts[i].managed && s.attempts[i].terminal.None?)
  {
    PerformersAlong(INITIAL, steps, s);
    var a, pc := s.attempts[i], s.pcs[i];
    assert AttemptOk(a, pc);
    assert !CanStep(s, Connect(i, true)) && !CanStep(s, TimeOut(i, 0));
    if !pc.Ended? {
      if pc.InTimeout? {
        var c := s.cancels[pc.k];
        assert !CanStep(s, CancelMove(pc.k, None));
        assert CancelOk(a, pc, c);
        assert a.cancelling && !a.cancelFinished;
      }
      PerformerStuck(s, i);
      var k :| 0 <= k < |s.cancels| && s.cancels[k].target == i && s.cancels[k].pc.AwaitingDone?;
      assert CancelOk(a, pc, s.cancels[k]);
      assert !CanStep(s, CancelMove(k, None));
    }
  }

  /** In every reachable state where no thread of the protocol can move and attempt `i` has a code,
      `disconnect()` and `close()` get past their wait for `finished` if and only if its `connect()`
      did not escape through the timeout's own cancel. */
  lemma WaitEndsIff(steps: seq<Step>, s: System, i: nat)
    requires Path(INITIAL, steps, s) && i < |s.attempts| == |s.pcs| && s.attempts[i].terminal.Some?
    requires forall step :: Protocol(step) ==> !CanStep(s, step)
    ensures s.pcs[i].Ended?
    ensures s.attempts[i].finished <==> s.pcs[i] != Ended(Escaped)
  {
    ConnectEnds(steps, s, i);
    FinishedIff(steps, s, i);
  }
}
