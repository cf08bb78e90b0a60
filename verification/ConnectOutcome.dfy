/** What the connect protocol guarantees to its callers, over every run. */
module ConnectOutcome {
  import opened Wrappers
  import opened ConnectBlocks
  import opened ConnectProtocol

  ghost predicate Path(s: System, steps: seq<Step>, r: System)
    decreases |steps|
  {
    if steps == [] then r == s else CanStep(s, steps[0]) && Path(Next(s, steps[0]), steps[1..], r)
  }

  lemma {:induction false} InvAlong(s: System, steps: seq<Step>, r: System)
    requires Inv(s) && Path(s, steps, r)
    ensures Inv(r) && |s.attempts| <= |r.attempts|
    decreases |steps|
  {
    if steps != [] {
      InvKept(s, steps[0]);
      InvAlong(Next(s, steps[0]), steps[1..], r);
    }
  }

  // ---- terminal_code only moves up --------------------------------------------------------------

  function Rank(terminal: Option<int>): nat {
    match terminal
    case None => 0
    case Some(code) => if code == 0 then 1 else 2
  }

  /** `error` is written once, with `cancelling`. */
  predicate ErrorKept(a: Attempt, b: Attempt) {
    a.cancelling ==> b.cancelling && b.error == a.error
  }

  lemma CancelUp(active: bool, a: Attempt, c: Cancel, failure: Option<Error>)
    ensures
      var b := CancelNext(active, a, c, failure).0;
      TerminalStep(a.terminal, b.terminal) && ErrorKept(a, b)
  {
  }

  lemma TerminalUpStep(s: System, step: Step, i: nat)
    requires Shape(s) && CanStep(s, step) && i < |s.attempts|
    ensures
      var r := Next(s, step);
      && i < |r.attempts| && ErrorKept(s.attempts[i], r.attempts[i])
      && TerminalStep(s.attempts[i].terminal, r.attempts[i].terminal)
  {
    match step
    case Connect(j, ok) =>
      var b := ConnectAttempt(s.attempts[j], s.pcs[j], ok);
      assert Next(s, step).attempts == s.attempts[j := b];
      assert b.terminal == s.attempts[j].terminal && b.error == s.attempts[j].error;
      assert b.cancelling == s.attempts[j].cancelling;
    case CancelMove(k, failure) =>
      var c := s.cancels[k];
      CancelUp(s.active == Some(c.target), s.attempts[c.target], c, failure);
      assert Next(s, step).attempts ==
        s.attempts[c.target := CancelNext(s.active == Some(c.target), s.attempts[c.target], c, failure).0];
    case Event(event, code) =>
      if s.active == Some(i) { ActiveAttemptAbsorbs(s.state, s.attempts[i], event, code); }
    case _ =>
  }

  /** None < 0 < nonzero, and a nonzero code is final; `done` is set exactly when there is a code;
      the error of a cancelled attempt is written once. */
  lemma {:induction false} TerminalUp(s: System, steps: seq<Step>, r: System, i: nat)
    requires Inv(s) && Path(s, steps, r) && i < |s.attempts|
    ensures i < |r.attempts| && Rank(s.attempts[i].terminal) <= Rank(r.attempts[i].terminal)
    ensures Rank(s.attempts[i].terminal) == 2 ==> r.attempts[i].terminal == s.attempts[i].terminal
    ensures r.attempts[i].done <==> r.attempts[i].terminal.Some?
    ensures ErrorKept(s.attempts[i], r.attempts[i])
    decreases |steps|
  {
    if steps == [] {
      assert AttemptOk(r.attempts[i], r.pcs[i]);
    } else {
      TerminalUpStep(s, steps[0], i);
      InvKept(s, steps[0]);
      TerminalUp(Next(s, steps[0]), steps[1..], r, i);
    }
  }

  // ---- The cancel decision ----------------------------------------------------------------------

  /** A step on which a cancel call starts to perform the native cancel of attempt `i`. */
  ghost predicate StartsCancel(s: System, step: Step, i: nat)
    requires CanStep(s, step)
  {
    step.CancelMove? && s.cancels[step.k].target == i && s.cancels[step.k].pc.Entering? &&
    Performs(Next(s, step).cancels[step.k].pc)
  }

  lemma StartsCancelOnce(s: System, step: Step, i: nat)
    requires Inv(s) && CanStep(s, step) && i < |s.attempts| && StartsCancel(s, step, i)
    ensures !s.attempts[i].cancelling && s.attempts[i].terminal.None? && !PastDecision(s.pcs[i])
    ensures Next(s, step).attempts[i].cancelling
  {
    assert AttemptOk(s.attempts[i], s.pcs[i]);
  }

  /** At most one cancel is ever performed for an attempt, and none starts once its connecting
      thread is past its cancel decision. */
  lemma {:induction false} AtMostOneCancel(s: System, first: Step, steps: seq<Step>, r: System, second: Step, i: nat)
    requires Inv(s) && CanStep(s, first) && i < |s.attempts|
    requires StartsCancel(s, first, i) || PastDecision(s.pcs[i])
    requires Path(Next(s, first), steps, r) && CanStep(r, second)
    ensures !StartsCancel(r, second, i)
  {
    var n := Next(s, first);
    InvKept(s, first);
    InvAlong(n, steps, r);
    if StartsCancel(s, first, i) {
      StartsCancelOnce(s, first, i);
    } else {
      assert AttemptOk(s.attempts[i], s.pcs[i]);
    }
    TerminalUpStep(s, first, i);
    TerminalUp(n, steps, r, i);
  }

  // ---- The result of connect() ------------------------------------------------------------------

  lemma FrozenStep(s: System, step: Step, i: nat)
    requires Inv(s) && CanStep(s, step) && i < |s.attempts| && Finished(s.pcs[i])
    ensures Finished(Next(s, step).pcs[i])
    ensures Next(s, step).attempts[i].terminal == s.attempts[i].terminal
    ensures Next(s, step).attempts[i].error == s.attempts[i].error
  {
    assert s.active != Some(i);
    assert AttemptOk(s.attempts[i], s.pcs[i]);
    if step.CancelMove? {
      FrozenCancel(s, step.k, step.failure, i);
    }
  }

  lemma FrozenCancel(s: System, k: nat, failure: Option<Error>, i: nat)
    requires Inv(s) && CanStep(s, CancelMove(k, failure)) && i < |s.attempts| && Finished(s.pcs[i])
    ensures
      var r := Next(s, CancelMove(k, failure));
      && Finished(r.pcs[i])
      && r.attempts[i].terminal == s.attempts[i].terminal && r.attempts[i].error == s.attempts[i].error
  {
    assert s.active != Some(i);
    if s.cancels[k].target == i {
      assert AttemptOk(s.attempts[i], s.pcs[i]);
      assert CancelOk(s.attempts[i], s.pcs[i], s.cancels[k]);
    }
  }

  /** Once `_finish_connect` has cleared the attempt, its code and error never change again, so
      the final reads need no lock. */
  lemma {:induction false} Frozen(s: System, steps: seq<Step>, r: System, i: nat)
    requires Inv(s) && Path(s, steps, r) && i < |s.attempts| && Finished(s.pcs[i])
    ensures i < |r.attempts| == |r.pcs| && Finished(r.pcs[i])
    ensures r.attempts[i].terminal == s.attempts[i].terminal && r.attempts[i].error == s.attempts[i].error
    decreases |steps|
  {
    if steps != [] {
      FrozenStep(s, steps[0], i);
      InvKept(s, steps[0]);
      Frozen(Next(s, steps[0]), steps[1..], r, i);
    }
  }

  /** Over all races, `connect()` returns normally exactly when `_finish_connect` stored CONNECTED,
      and it does so exactly for code 0 without error; a cancel error always raises. */
  lemma ConnectReturnsIff(steps: seq<Step>, r: System, i: nat)
    requires Path(INITIAL, steps, r) && i < |r.pcs| == |r.attempts| && r.pcs[i].Ended?
    ensures
      var how, a := r.pcs[i].how, r.attempts[i];
      && (how.Returned? ==> (how.ok <==> how.stored == Connected))
      && (how.Returned? ==> (how.stored == Connected <==> a.terminal == Some(0) && a.error.None?))
      && (how.Returned? ==> a.terminal.Some? && a.cancelError.None?)
  {
    InvAlong(INITIAL, steps, r);
    assert AttemptOk(r.attempts[i], r.pcs[i]);
  }

  // ---- finished, and the attempt that never goes away ---------------------------------------------

  /** When `connect()` has ended, `finished` is set if and only if it did not end by the timeout's
      own cancel raising, which happens outside the `try` that would set it. */
  lemma FinishedIff(steps: seq<Step>, r: System, i: nat)
    requires Path(INITIAL, steps, r) && i < |r.pcs| == |r.attempts| && r.pcs[i].Ended?
    ensures r.attempts[i].finished <==> r.pcs[i].how != Escaped
    ensures r.pcs[i].how == Escaped ==> r.attempts[i].cancelError.Some?
  {
    InvAlong(INITIAL, steps, r);
    assert AttemptOk(r.attempts[i], r.pcs[i]);
  }

  predicate LeftActive(pc: Pc) {
    pc == Ended(Escaped) || pc == Ended(Aborted)
  }

  /** An attempt whose `connect()` raised a cancel error, or could not close its handle, stays
      active for ever: no later `connect()` can begin, and `finished` never changes. */
  lemma {:induction false} AttemptLeftActive(s: System, steps: seq<Step>, r: System, i: nat)
    requires Inv(s) && Path(s, steps, r) && i < |s.attempts| && LeftActive(s.pcs[i])
    ensures i < |r.attempts| == |r.pcs| && r.pcs[i] == s.pcs[i] && r.active == Some(i)
    ensures r.attempts[i].finished == s.attempts[i].finished
    ensures forall managed :: !CanStep(r, Begin(managed))
    decreases |steps|
  {
    assert s.active == Some(i);
    if steps != [] {
      InvKept(s, steps[0]);
      AttemptLeftActive(Next(s, steps[0]), steps[1..], r, i);
    }
  }

  /** When `connect()` has ended the attempt is cleared if and only if it did not end by a raised
      cancel error or a failed close of its handle. */
  lemma ActiveIff(steps: seq<Step>, r: System, i: nat)
    requires Path(INITIAL, steps, r) && i < |r.pcs| && r.pcs[i].Ended?
    ensures r.active == Some(i) <==> LeftActive(r.pcs[i])
  {
    InvAlong(INITIAL, steps, r);
    assert AttemptOk(r.attempts[i], r.pcs[i]);
  }

  /** Seen from the cancel: a recorded cancel error always leaves the attempt active, and when no handle
      is closed at the end, because the token came from outside, nothing else does. */
  lemma ActiveByCancel(steps: seq<Step>, r: System, i: nat)
    requires Path(INITIAL, steps, r) && i < |r.pcs| == |r.attempts|
    requires r.pcs[i].Ended? && !r.pcs[i].how.StartFailed?
    ensures r.attempts[i].cancelError.Some? ==> r.active == Some(i)
    ensures !r.attempts[i].managed ==> (r.active == Some(i) <==> r.attempts[i].cancelError.Some?)
  {
    InvAlong(INITIAL, steps, r);
    assert AttemptOk(r.attempts[i], r.pcs[i]);
  }

  // ---- Exactly when a timed-out connect() escapes -------------------------------------------------

  /** The thread has left the timeout branch by its normal exit. */
  predicate PastTimeout(pc: Pc) {
    pc.Deciding? || PastDecision(pc)
  }

  lemma PastTimeoutStep(s: System, step: Step, i: nat)
    requires Shape(s) && CanStep(s, step) && i < |s.pcs| && PastTimeout(s.pcs[i])
    ensures i < |Next(s, step).pcs| && PastTimeout(Next(s, step).pcs[i])
  {
  }

  lemma {:induction false} PastTimeoutStays(s: System, steps: seq<Step>, r: System, i: nat)
    requires Inv(s) && Path(s, steps, r) && i < |s.pcs| && PastTimeout(s.pcs[i])
    ensures i < |r.pcs| && PastTimeout(r.pcs[i])
    decreases |steps|
  {
    if steps != [] {
      PastTimeoutStep(s, steps[0], i);
      InvKept(s, steps[0]);
      PastTimeoutStays(Next(s, steps[0]), steps[1..], r, i);
    }
  }

  /** Attempt `i` timed out with cancel call `k`, which performs or joins the native cancel: how far
      the two have come, and how that depends on the cancel error. */
  ghost predicate Cancelling(s: System, i: nat, k: nat) {
    && i < |s.attempts| == |s.pcs| && k < |s.cancels| && s.cancels[k].target == i
    && var a, pc, c := s.attempts[i], s.pcs[i], s.cancels[k].pc;
       || (pc == InTimeout(k) && (c.Joining? || Performs(c)))
       || (pc == InTimeout(k) && a.cancelFinished && c == if a.cancelError.Some? then CancelRaised else CancelReturned)
       || (pc == Ended(Escaped) && a.cancelFinished && a.cancelError.Some?)
       || (PastTimeout(pc) && a.cancelFinished && a.cancelError.None?)
  }

  lemma CancelErrorLocal(active: bool, a: Attempt, pc: Pc, c: Cancel, failure: Option<Error>)
    requires CancelOk(a, pc, c) && a.cancelFinished && FieldsOk(a) && a.cancelling
    ensures
      var b := CancelNext(active, a, c, failure).0;
      b.cancelFinished && b.cancelError == a.cancelError
  {
  }

  /** Once the cancel is finished nobody writes its error any more. */
  lemma CancelErrorFixed(s: System, step: Step, i: nat)
    requires Inv(s) && CanStep(s, step) && i < |s.attempts| && s.attempts[i].cancelFinished
    ensures Next(s, step).attempts[i].cancelFinished
    ensures Next(s, step).attempts[i].cancelError == s.attempts[i].cancelError
  {
    if step.CancelMove? {
      var c := s.cancels[step.k];
      if c.target == i {
        CancelErrorLocal(s.active == Some(i), s.attempts[i], s.pcs[i], c, step.failure);
      }
    } else {
      OthersKeepCancel(s, step, i);
    }
  }

  predicate CancelSame(a: Attempt, b: Attempt) {
    b.cancelling == a.cancelling && b.cancelFinished == a.cancelFinished && b.cancelError == a.cancelError
  }

  ghost predicate CancelsSame(s: System, r: System) {
    |s.attempts| == |r.attempts| && forall i :: 0 <= i < |s.attempts| ==> CancelSame(s.attempts[i], r.attempts[i])
  }

  lemma ConnectKeepsCancel(s: System, j: nat, ok: bool)
    requires Shape(s) && CanStep(s, Connect(j, ok))
    ensures CancelsSame(s, Next(s, Connect(j, ok)))
  {
    var b := ConnectAttempt(s.attempts[j], s.pcs[j], ok);
    assert CancelSame(s.attempts[j], b);
    assert Next(s, Connect(j, ok)).attempts == s.attempts[j := b];
  }

  lemma EventKeepsCancel(s: System, event: ConnState, code: int)
    requires Shape(s) && CanStep(s, Event(event, code))
    ensures CancelsSame(s, Next(s, Event(event, code)))
  {
    if s.active.Some? {
      var b := StateEvent(s.state, Some(s.attempts[s.active.value]), event, code).1;
      assert b.Some? && CancelSame(s.attempts[s.active.value], b.value);
      assert Next(s, Event(event, code)).attempts == s.attempts[s.active.value := b.value];
    }
  }

  lemma CompleteKeepsCancel(s: System, j: nat, code: int)
    requires Shape(s) && CanStep(s, Complete(j, code))
    ensures CancelsSame(s, Next(s, Complete(j, code)))
  {
    var b := ManagedComplete(s.active == Some(j), s.attempts[j], code);
    assert Next(s, Complete(j, code)).attempts == s.attempts[j := b];
  }

  /** Only a cancel call announces or finishes a cancel, or records its error. */
  lemma OthersKeepCancel(s: System, step: Step, i: nat)
    requires Shape(s) && CanStep(s, step) && !step.CancelMove? && i < |s.attempts|
    ensures i < |Next(s, step).attempts| && CancelSame(s.attempts[i], Next(s, step).attempts[i])
  {
    match step
    case Connect(j, ok) => ConnectKeepsCancel(s, j, ok);
    case Event(event, code) => EventKeepsCancel(s, event, code);
    case Complete(j, code) => CompleteKeepsCancel(s, j, code);
    case _ =>
  }

  lemma CancellingOwn(s: System, i: nat, k: nat, failure: Option<Error>)
    requires Inv(s) && CanStep(s, CancelMove(k, failure)) && Cancelling(s, i, k)
    ensures Cancelling(Next(s, CancelMove(k, failure)), i, k)
  {
    assert CancelOk(s.attempts[i], s.pcs[i], s.cancels[k]);
    assert AttemptOk(s.attempts[i], s.pcs[i]);
    if s.attempts[i].cancelFinished {
      CancelErrorFixed(s, CancelMove(k, failure), i);
    }
  }

  lemma CancellingThread(s: System, i: nat, k: nat, ok: bool)
    requires Inv(s) && CanStep(s, Connect(i, ok)) && Cancelling(s, i, k)
    ensures Cancelling(Next(s, Connect(i, ok)), i, k)
  {
    assert AttemptOk(s.attempts[i], s.pcs[i]);
    assert CancelOk(s.attempts[i], s.pcs[i], s.cancels[k]);
  }

  lemma CancellingStep(s: System, step: Step, i: nat, k: nat)
    requires Inv(s) && CanStep(s, step) && Cancelling(s, i, k)
    ensures Cancelling(Next(s, step), i, k)
  {
    if step.CancelMove? && step.k == k {
      CancellingOwn(s, i, k, step.failure);
    } else if step.Connect? && step.i == i {
      CancellingThread(s, i, k, step.ok);
    } else {
      var r := Next(s, step);
      assert r.cancels[k] == s.cancels[k] && r.pcs[i] == s.pcs[i];
      if s.attempts[i].cancelFinished {
        CancelErrorFixed(s, step, i);
      }
    }
  }

  lemma {:induction false} CancellingAlong(s: System, steps: seq<Step>, r: System, i: nat, k: nat)
    requires Inv(s) && Path(s, steps, r) && Cancelling(s, i, k)
    ensures Cancelling(r, i, k)
    decreases |steps|
  {
    if steps != [] {
      CancellingStep(s, steps[0], i, k);
      InvKept(s, steps[0]);
      CancellingAlong(Next(s, steps[0]), steps[1..], r, i, k);
    }
  }

  /** The call found a code already there and returned at once. */
  ghost predicate TooLate(s: System, i: nat, k: nat) {
    && i < |s.pcs| && k < |s.cancels|
    && ((s.pcs[i] == InTimeout(k) && s.cancels[k].pc == CancelReturned) || PastTimeout(s.pcs[i]))
  }

  lemma TooLateStep(s: System, step: Step, i: nat, k: nat)
    requires Shape(s) && CanStep(s, step) && TooLate(s, i, k)
    ensures TooLate(Next(s, step), i, k)
  {
    if PastTimeout(s.pcs[i]) {
      PastTimeoutStep(s, step, i);
    }
  }

  lemma {:induction false} TooLateAlong(s: System, steps: seq<Step>, r: System, i: nat, k: nat)
    requires Inv(s) && Path(s, steps, r) && TooLate(s, i, k)
    ensures TooLate(r, i, k)
    decreases |steps|
  {
    if steps != [] {
      TooLateStep(s, steps[0], i, k);
      InvKept(s, steps[0]);
      TooLateAlong(Next(s, steps[0]), steps[1..], r, i, k);
    }
  }

  /** The guard of the failing branch.  A timed-out `connect()` whose own cancel call is about to run
      its first block escapes, leaving `finished` unset, if and only if the attempt has no code yet at
      that block and the cancel it performs or joins fails. */
  lemma EscapeIff(s: System, k: nat, failure: Option<Error>, steps: seq<Step>, r: System, i: nat)
    requires Inv(s) && i < |s.pcs| && s.pcs[i] == InTimeout(k) && k < |s.cancels| && s.cancels[k].pc == Entering
    requires CanStep(s, CancelMove(k, failure)) && Path(Next(s, CancelMove(k, failure)), steps, r)
    requires i < |r.pcs| == |r.attempts| && r.pcs[i].Ended?
    ensures r.pcs[i] == Ended(Escaped) <==> s.attempts[i].terminal.None? && r.attempts[i].cancelError.Some?
  {
    var n := Next(s, CancelMove(k, failure));
    assert s.active == Some(i) && s.cancels[k].target == i;
    InvKept(s, CancelMove(k, failure));
    if s.attempts[i].terminal.None? {
      CancellingAlong(n, steps, r, i, k);
    } else {
      TooLateAlong(n, steps, r, i, k);
    }
  }

  /** A `connect()` that has not timed out by the time its wait is over never escapes. */
  lemma NoEscapeInTime(s: System, ok: bool, steps: seq<Step>, r: System, i: nat)
    requires Inv(s) && i < |s.pcs| && s.pcs[i].Waiting? && CanStep(s, Connect(i, ok))
    requires Path(Next(s, Connect(i, ok)), steps, r)
    ensures i < |r.pcs| && r.pcs[i] != Ended(Escaped)
  {
    InvKept(s, Connect(i, ok));
    PastTimeoutStays(Next(s, Connect(i, ok)), steps, r, i);
  }

  /** After such an escape, a late disconnect event makes every later `disconnect()` or `close()`
      pass its cancel call at once and then wait for `finished`, which no continuation sets. */
  lemma CloseWaitsForever(s: System, i: nat, error: Error, steps: seq<Step>, r: System)
    requires Inv(s) && i < |s.attempts| && s.pcs[i] == Ended(Escaped) && s.attempts[i].terminal.Some?
    requires
      var k := |s.cancels|;
      Path(Next(Next(s, CallCancel(i, error)), CancelMove(k, None)), steps, r)
    ensures Next(Next(s, CallCancel(i, error)), CancelMove(|s.cancels|, None)).cancels[|s.cancels|].pc == CancelReturned
    ensures i < |r.attempts| && !r.attempts[i].finished
  {
    assert s.active == Some(i);
    var n := Next(s, CallCancel(i, error));
    InvKept(s, CallCancel(i, error));
    InvKept(n, CancelMove(|s.cancels|, None));
    assert AttemptOk(s.attempts[i], s.pcs[i]);
    AttemptLeftActive(Next(n, CancelMove(|s.cancels|, None)), steps, r, i);
  }

  lemma PathCons(s: System, step: Step, m: System, rest: seq<Step>, r: System)
    requires CanStep(s, step) && Next(s, step) == m && Path(m, rest, r)
    ensures Path(s, [step] + rest, r)
  {
    assert ([step] + rest)[1..] == rest;
  }

  const STARTED := NewAttempt(false).(nativeStarted := true)
  const CANCELLING := STARTED.(error := Some(1), cancelling := true)
  const CANCEL_FAILED := CANCELLING.(cancelError := Some(2), cancelFinished := true)
  const DISCONNECTED := CANCEL_FAILED.(terminal := Some(REMOTE_CLOSED), done := true)

  function Timed(a: Attempt, pc: Pc, cancel: CancelPc): System {
    System(Connecting, Some(0), false, [a], [pc], [Cancel(0, 1, cancel)])
  }

  const ESCAPED := Timed(DISCONNECTED, Ended(Escaped), CancelRaised).(state := Disconnected)

  /** The cancel error is recorded and raised out of `connect()`; then the device leaves. */
  lemma EscapeRaised()
    ensures exists steps :: Path(Timed(CANCELLING.(cancelError := Some(2)), InTimeout(0), Ending(true)), steps, ESCAPED)
  {
    var s2 := Timed(CANCELLING.(cancelError := Some(2)), InTimeout(0), Ending(true));
    var s3 := Timed(CANCEL_FAILED, InTimeout(0), CancelRaised);
    var s4 := Timed(CANCEL_FAILED, Ended(Escaped), CancelRaised);
    PathCons(s4, Event(Disconnected, 0), ESCAPED, [], ESCAPED);
    PathCons(s3, Connect(0, true), s4, [Event(Disconnected, 0)], ESCAPED);
    PathCons(s2, CancelMove(0, None), s3, [Connect(0, true)] + [Event(Disconnected, 0)], ESCAPED);
  }

  /** The timeout's own cancel call performs the native disconnect in vain. */
  lemma EscapeCancel()
    ensures exists steps :: Path(Timed(CANCELLING, InTimeout(0), Performing), steps, ESCAPED)
  {
    var s0 := Timed(CANCELLING, InTimeout(0), Performing);
    var s1 := Timed(CANCELLING, InTimeout(0), CheckingStart);
    var s2 := Timed(CANCELLING, InTimeout(0), Disconnecting);
    var s3 := Timed(CANCELLING, InTimeout(0), Recording(2));
    var s4 := Timed(CANCELLING.(cancelError := Some(2)), InTimeout(0), Ending(true));
    EscapeRaised();
    var steps :| Path(s4, steps, ESCAPED);
    var move := CancelMove(0, None);
    PathCons(s3, move, s4, steps, ESCAPED);
    PathCons(s2, CancelMove(0, Some(2)), s3, [move] + steps, ESCAPED);
    var t := [CancelMove(0, Some(2))] + ([move] + steps);
    PathCons(s1, move, s2, t, ESCAPED);
    PathCons(s0, move, s1, [move] + t, ESCAPED);
  }

  lemma EscapeTimeout()
    ensures exists steps ::
              Path(System(Connecting, Some(0), false, [STARTED], [Waiting], []), steps, ESCAPED)
  {
    EscapeCancel();
    var s3 := System(Connecting, Some(0), false, [STARTED], [Waiting], []);
    var s4 := Timed(STARTED, InTimeout(0), Entering);
    var s5 := Timed(CANCELLING, InTimeout(0), Performing);
    var steps :| Path(s5, steps, ESCAPED);
    PathCons(s4, CancelMove(0, None), s5, steps, ESCAPED);
    PathCons(s3, TimeOut(0, 1), s4, [CancelMove(0, None)] + steps, ESCAPED);
  }

  /** The run that gets there: a timeout whose native disconnect fails, then the device leaves. */
  lemma EscapeReachable()
    ensures exists steps, r :: Path(INITIAL, steps, r) && |r.pcs| == 1 == |r.attempts| &&
              r.pcs[0] == Ended(Escaped) && r.attempts[0].terminal.Some?
  {
    EscapeTimeout();
    var s1 := System(Connecting, Some(0), false, [NewAttempt(false)], [Starting], []);
    var s2 := s1.(pcs := [Started]);
    var s3 := s2.(attempts := [STARTED], pcs := [Waiting]);
    var steps :| Path(s3, steps, ESCAPED);
    PathCons(s2, Connect(0, true), s3, steps, ESCAPED);
    PathCons(s1, Connect(0, true), s2, [Connect(0, true)] + steps, ESCAPED);
    PathCons(INITIAL, Begin(false), s1, [Connect(0, true)] + ([Connect(0, true)] + steps), ESCAPED);
  }
}
