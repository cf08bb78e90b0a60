/** What a `connect()` and its cancel have done by the time they are over, and what they leave in the
    fields of the connection (src/tirtc/_core.py), over every run. */
module ConnectEffects {
  import opened Wrappers
  import opened ConnectBlocks
  import opened ConnectProtocol
  import opened ConnectOutcome
  import opened ConnectOrigin

  // ---- The handle of a managed attempt --------------------------------------------------------------

  /** The connecting thread of attempt `i` closes its handle. */
  predicate ClosesHandle(s: System, step: Step, i: nat) {
    step == Connect(i, true) && i < |s.pcs| && s.pcs[i].ClosingHandle?
  }

  predicate HandleClosedIn(s: System, steps: seq<Step>, i: nat)
    decreases |steps|
  {
    steps != [] && CanStep(s, steps[0]) &&
    (ClosesHandle(s, steps[0], i) || HandleClosedIn(Next(s, steps[0]), steps[1..], i))
  }

  ghost predicate HandleOk(s: System, i: nat, closed: bool) {
    i < |s.pcs| && i < |s.attempts| && AtFinish(s.pcs[i]) && s.attempts[i].managed ==> closed
  }

  lemma HandleStep(s: System, step: Step, i: nat, closed: bool)
    requires Inv(s) && CanStep(s, step) && HandleOk(s, i, closed)
    ensures HandleOk(Next(s, step), i, closed || ClosesHandle(s, step, i))
  {
    if i < |s.attempts| {
      ManagedFixed(s, step, i);
      if step.Connect? && step.i == i {
        assert AttemptOk(s.attempts[i], s.pcs[i]);
      } else {
        OtherPc(s, step, i);
      }
    }
  }

  /** Only the connecting thread itself comes to its finish. */
  lemma OtherPc(s: System, step: Step, i: nat)
    requires Inv(s) && CanStep(s, step) && i < |s.attempts| && !(step.Connect? && step.i == i)
    ensures i < |Next(s, step).pcs| && (Next(s, step).pcs[i] == s.pcs[i] || Next(s, step).pcs[i].InTimeout?)
  {
  }

  lemma ManagedFixed(s: System, step: Step, i: nat)
    requires Inv(s) && CanStep(s, step) && i < |s.attempts|
    ensures i < |Next(s, step).attempts| && Next(s, step).attempts[i].managed == s.attempts[i].managed
  {
    match step
    case Connect(j, ok) =>
      assert Next(s, step).attempts == s.attempts[j := ConnectAttempt(s.attempts[j], s.pcs[j], ok)];
    case CancelMove(k, failure) =>
      var c := s.cancels[k];
      var b := CancelNext(s.active == Some(c.target), s.attempts[c.target], c, failure).0;
      assert b.managed == s.attempts[c.target].managed;
      assert Next(s, step).attempts == s.attempts[c.target := b];
    case _ =>
  }

  lemma {:induction false} HandleAlong(s: System, steps: seq<Step>, r: System, i: nat, closed: bool)
    requires Inv(s) && Path(s, steps, r) && HandleOk(s, i, closed)
    ensures HandleOk(r, i, closed || HandleClosedIn(s, steps, i))
    decreases |steps|
  {
    if steps != [] {
      HandleStep(s, steps[0], i, closed);
      InvKept(s, steps[0]);
      HandleAlong(Next(s, steps[0]), steps[1..], r, i, closed || ClosesHandle(s, steps[0], i));
    }
  }

  /** A managed attempt that `connect()` has finished had its handle closed with success. */
  lemma FinishedClosesHandle(steps: seq<Step>, r: System, i: nat)
    requires Path(INITIAL, steps, r) && i < |r.pcs| == |r.attempts| && AtFinish(r.pcs[i]) && r.attempts[i].managed
    ensures HandleClosedIn(INITIAL, steps, i)
  {
    HandleAlong(INITIAL, steps, r, i, false);
  }

  // ---- The work of a cancel -------------------------------------------------------------------------

  /** The native cancel, or the native disconnect, of a cancel of attempt `i` succeeds. */
  predicate CancelsNow(s: System, step: Step, i: nat) {
    step.CancelMove? && step.k < |s.cancels| && s.cancels[step.k].target == i && step.failure.None? &&
    s.cancels[step.k].pc.NativeCancelling?
  }

  predicate DisconnectsNow(s: System, step: Step, i: nat) {
    step.CancelMove? && step.k < |s.cancels| && s.cancels[step.k].target == i && step.failure.None? &&
    s.cancels[step.k].pc.Disconnecting?
  }

  predicate CancelledIn(s: System, steps: seq<Step>, i: nat)
    decreases |steps|
  {
    steps != [] && CanStep(s, steps[0]) &&
    (CancelsNow(s, steps[0], i) || CancelledIn(Next(s, steps[0]), steps[1..], i))
  }

  predicate DisconnectedIn(s: System, steps: seq<Step>, i: nat)
    decreases |steps|
  {
    steps != [] && CanStep(s, steps[0]) &&
    (DisconnectsNow(s, steps[0], i) || DisconnectedIn(Next(s, steps[0]), steps[1..], i))
  }

  /** Nothing is left up: with a token from outside the connection was disconnected; a managed attempt was
      cancelled, and disconnected if the Runtime had it connected. */
  predicate WorkDone(a: Attempt, cancelled: bool, disconnected: bool) {
    if a.managed then cancelled && (a.terminal == Some(0) ==> disconnected) else disconnected
  }

  predicate CancelWork(a: Attempt, pc: Pc, c: Cancel, cancelled: bool, disconnected: bool) {
    && (c.pc.AwaitingDone? || (c.pc.Disconnecting? && a.managed) ==> cancelled)
    && (c.pc.Settling? ==> disconnected)
    && (c.pc.Tail? || c.pc == Ending(false) ==> StartRaised(pc) || WorkDone(a, cancelled, disconnected))
  }

  ghost predicate WorkOk(s: System, i: nat, cancelled: bool, disconnected: bool) {
    if i >= |s.attempts| then true
    else
      && |s.pcs| == |s.attempts|
      && (forall k :: 0 <= k < |s.cancels| && s.cancels[k].target == i ==>
            CancelWork(s.attempts[i], s.pcs[i], s.cancels[k], cancelled, disconnected))
      && (s.attempts[i].cancelFinished && s.attempts[i].cancelError.None? ==>
            StartRaised(s.pcs[i]) || WorkDone(s.attempts[i], cancelled, disconnected))
  }

  /** One cancel call takes a step. */
  lemma WorkLocal(active: bool, a: Attempt, pc: Pc, c: Cancel, failure: Option<Error>,
                  cancelled: bool, disconnected: bool)
    requires AttemptOk(a, pc) && CancelOk(a, pc, c) && CanCancel(a, c.pc)
    requires CancelWork(a, pc, c, cancelled, disconnected)
    requires a.cancelFinished && a.cancelError.None? ==> StartRaised(pc) || WorkDone(a, cancelled, disconnected)
    ensures
      var (b, q) := CancelNext(active, a, c, failure);
      var cancels := cancelled || (c.pc.NativeCancelling? && failure.None?);
      var disconnects := disconnected || (c.pc.Disconnecting? && failure.None?);
      && CancelWork(b, pc, c.(pc := q), cancels, disconnects)
      && (b.cancelFinished && b.cancelError.None? ==> StartRaised(pc) || WorkDone(b, cancels, disconnects))
  {
  }

  /** What a step of anything else leaves alone, as far as the work of a cancel goes. */
  ghost predicate WorkSame(a: Attempt, pc: Pc, b: Attempt, q: Pc) {
    && b.managed == a.managed && TerminalStep(a.terminal, b.terminal)
    && b.cancelFinished == a.cancelFinished && b.cancelError == a.cancelError && (StartRaised(pc) ==> StartRaised(q))
  }

  lemma WorkStays(a: Attempt, pc: Pc, b: Attempt, q: Pc, c: Cancel, cancelled: bool, disconnected: bool)
    requires WorkSame(a, pc, b, q) && CancelOk(a, pc, c) && CancelWork(a, pc, c, cancelled, disconnected)
    ensures CancelWork(b, q, c, cancelled, disconnected)
  {
  }

  lemma FinishedStays(a: Attempt, pc: Pc, b: Attempt, q: Pc, cancelled: bool, disconnected: bool)
    requires WorkSame(a, pc, b, q) && AttemptOk(a, pc) && a.cancelFinished && a.cancelError.None?
    requires StartRaised(pc) || WorkDone(a, cancelled, disconnected)
    ensures StartRaised(q) || WorkDone(b, cancelled, disconnected)
  {
  }

  /** A step other than one of a cancel call of the attempt. */
  lemma OthersSame(s: System, step: Step, i: nat)
    requires Inv(s) && CanStep(s, step) && i < |s.attempts| && !(step.CancelMove? && s.cancels[step.k].target == i)
    ensures
      var r := Next(s, step);
      i < |r.attempts| && i < |r.pcs| && WorkSame(s.attempts[i], s.pcs[i], r.attempts[i], r.pcs[i])
  {
    var r := Next(s, step);
    TerminalUpStep(s, step, i);
    ManagedFixed(s, step, i);
    if !step.CancelMove? {
      OthersKeepCancel(s, step, i);
    }
  }

  lemma CancelsLater(s: System, step: Step, k: nat)
    requires CanStep(s, step) && k < |Next(s, step).cancels| && !(step.CancelMove? && step.k == k)
    ensures
      var c := Next(s, step).cancels[k];
      if k < |s.cancels| then c == s.cancels[k] else c.pc.Entering?
  {
  }

  lemma WorkOther(s: System, step: Step, i: nat, cancelled: bool, disconnected: bool)
    requires Inv(s) && CanStep(s, step) && i < |s.attempts| && WorkOk(s, i, cancelled, disconnected)
    requires !(step.CancelMove? && s.cancels[step.k].target == i)
    ensures WorkOk(Next(s, step), i, cancelled, disconnected)
  {
    var r := Next(s, step);
    OthersSame(s, step, i);
    InvKept(s, step);
    forall k | 0 <= k < |r.cancels| && r.cancels[k].target == i
      ensures CancelWork(r.attempts[i], r.pcs[i], r.cancels[k], cancelled, disconnected)
    {
      if !(step.CancelMove? && step.k == k) {
        CancelsLater(s, step, k);
        if k < |s.cancels| {
          assert CancelOk(s.attempts[i], s.pcs[i], s.cancels[k]);
          WorkStays(s.attempts[i], s.pcs[i], r.attempts[i], r.pcs[i], s.cancels[k], cancelled, disconnected);
        }
      }
    }
    if s.attempts[i].cancelFinished && s.attempts[i].cancelError.None? {
      assert AttemptOk(s.attempts[i], s.pcs[i]);
      FinishedStays(s.attempts[i], s.pcs[i], r.attempts[i], r.pcs[i], cancelled, disconnected);
    }
  }

  /** A call of the attempt that does not step: only a performing one has work to show. */
  lemma WorkBeside(a: Attempt, pc: Pc, b: Attempt, c: Cancel,
                   cancelled: bool, disconnected: bool, cancels: bool, disconnects: bool)
    requires CancelOk(a, pc, c) && CancelWork(a, pc, c, cancelled, disconnected)
    requires b.managed == a.managed && TerminalStep(a.terminal, b.terminal)
    requires (cancelled ==> cancels) && (disconnected ==> disconnects)
    ensures CancelWork(b, pc, c, cancels, disconnects)
  {
  }

  lemma WorkOwn(s: System, step: Step, i: nat, cancelled: bool, disconnected: bool)
    requires Inv(s) && CanStep(s, step) && i < |s.attempts| && WorkOk(s, i, cancelled, disconnected)
    requires step.CancelMove? && s.cancels[step.k].target == i
    ensures WorkOk(Next(s, step), i, cancelled || CancelsNow(s, step, i), disconnected || DisconnectsNow(s, step, i))
  {
    var r, c := Next(s, step), s.cancels[step.k];
    var cancels, disconnects := cancelled || CancelsNow(s, step, i), disconnected || DisconnectsNow(s, step, i);
    assert AttemptOk(s.attempts[i], s.pcs[i]) && CancelOk(s.attempts[i], s.pcs[i], c);
    WorkLocal(s.active == Some(i), s.attempts[i], s.pcs[i], c, step.failure, cancelled, disconnected);
    TerminalUpStep(s, step, i);
    ManagedFixed(s, step, i);
    forall k | 0 <= k < |r.cancels| && r.cancels[k].target == i
      ensures CancelWork(r.attempts[i], r.pcs[i], r.cancels[k], cancels, disconnects)
    {
      if k != step.k {
        CancelsLater(s, step, k);
        assert CancelOk(s.attempts[i], s.pcs[i], s.cancels[k]);
        WorkBeside(s.attempts[i], s.pcs[i], r.attempts[i], s.cancels[k], cancelled, disconnected, cancels, disconnects);
      }
    }
  }

  lemma WorkKept(s: System, step: Step, i: nat, cancelled: bool, disconnected: bool)
    requires Inv(s) && CanStep(s, step) && WorkOk(s, i, cancelled, disconnected)
    ensures WorkOk(Next(s, step), i, cancelled || CancelsNow(s, step, i), disconnected || DisconnectsNow(s, step, i))
  {
    if i < |s.attempts| {
      if step.CancelMove? && s.cancels[step.k].target == i {
        WorkOwn(s, step, i, cancelled, disconnected);
      } else {
        WorkOther(s, step, i, cancelled, disconnected);
      }
    } else {
      WorkNew(s, step, i, cancelled, disconnected);
    }
  }

  lemma WorkNew(s: System, step: Step, i: nat, cancelled: bool, disconnected: bool)
    requires Inv(s) && CanStep(s, step) && i >= |s.attempts|
    ensures WorkOk(Next(s, step), i, cancelled, disconnected)
  {
  }

  lemma {:induction false} WorkAlong(s: System, steps: seq<Step>, r: System, i: nat,
                                     cancelled: bool, disconnected: bool)
    requires Inv(s) && Path(s, steps, r) && WorkOk(s, i, cancelled, disconnected)
    ensures WorkOk(r, i, cancelled || CancelledIn(s, steps, i), disconnected || DisconnectedIn(s, steps, i))
    decreases |steps|
  {
    if steps != [] {
      WorkKept(s, steps[0], i, cancelled, disconnected);
      InvKept(s, steps[0]);
      WorkAlong(Next(s, steps[0]), steps[1..], r, i,
                cancelled || CancelsNow(s, steps[0], i), disconnected || DisconnectsNow(s, steps[0], i));
    }
  }

  /** A cancel that is over without an error has left nothing up, unless the connect never started: the
      attempt with a token from outside has been disconnected; the managed one has been cancelled, and
      disconnected, too, if the Runtime had connected it. */
  lemma CancelLeavesNothing(steps: seq<Step>, r: System, i: nat)
    requires Path(INITIAL, steps, r) && i < |r.attempts| == |r.pcs|
    requires r.attempts[i].cancelFinished && r.attempts[i].cancelError.None? && !StartRaised(r.pcs[i])
    ensures r.attempts[i].managed ==> CancelledIn(INITIAL, steps, i)
    ensures !r.attempts[i].managed || r.attempts[i].terminal == Some(0) ==> DisconnectedIn(INITIAL, steps, i)
  {
    WorkAlong(INITIAL, steps, r, i, false, false);
  }

  // ---- The fields of the connection -----------------------------------------------------------------

  /** What the connecting thread writes to `_state` and `_active_connect`: CONNECTED exactly when success
      and no failure has been reported and nobody has cancelled, IDLE after a start that raised, and
      nothing at any other time. */
  lemma ConnectWrites(steps: seq<Step>, s: System, i: nat, ok: bool)
    requires Path(INITIAL, steps, s) && CanStep(s, Connect(i, ok))
    ensures
      var r := Next(s, Connect(i, ok));
      if s.pcs[i].Finishing? then
        && r.active.None?
        && r.state == (if Succeeded(Reports(INITIAL, steps, i)) && s.attempts[i].error.None? then Connected
                       else Disconnected)
      else if s.pcs[i].FailClearing? then r.active.None? && r.state == IdleState
      else r.active == s.active && r.state == s.state
  {
    InvAlong(INITIAL, steps, s);
    CodeOrigin(steps, s, i);
  }

  /** Nothing is up from this step on: `disconnect()` is over, a cancel has got through, or a `connect()`
      is over without being connected. */
  predicate SettlesNow(s: System, step: Step) {
    match step
    case CallerDisconnected => true
    case CancelMove(k, _) => k < |s.cancels| && s.cancels[k].pc.Tail?
    case Connect(i, _) =>
      i < |s.pcs| && i < |s.attempts| && s.pcs[i].Finishing? &&
      (s.attempts[i].terminal != Some(0) || s.attempts[i].error.Some?)
    case _ => false
  }

  predicate NoBegin(steps: seq<Step>) {
    forall j :: 0 <= j < |steps| ==> !steps[j].Begin?
  }

  predicate SettledSince(s: System, steps: seq<Step>)
    decreases |steps|
  {
    steps != [] && CanStep(s, steps[0]) &&
    ((SettlesNow(s, steps[0]) && NoBegin(steps[1..])) || SettledSince(Next(s, steps[0]), steps[1..]))
  }

  lemma {:induction false} SettledAlong(s: System, steps: seq<Step>, r: System)
    requires Path(s, steps, r)
    ensures r.disconnectFinished <==> (s.disconnectFinished && NoBegin(steps)) || SettledSince(s, steps)
    decreases |steps|
  {
    if steps != [] {
      SettledAlong(Next(s, steps[0]), steps[1..], r);
      assert NoBegin(steps) <==> !steps[0].Begin? && NoBegin(steps[1..]) by {
        assert forall j :: 0 < j < |steps| ==> steps[j] == steps[1..][j - 1];
      }
    }
  }

  /** `_disconnect_finished`, by which a close decides whether to disconnect, says exactly that nothing is
      up since the last `connect()` began. */
  lemma SettledIff(steps: seq<Step>, r: System)
    requires Path(INITIAL, steps, r)
    ensures r.disconnectFinished <==> SettledSince(INITIAL, steps)
  {
    SettledAlong(INITIAL, steps, r);
  }
}
