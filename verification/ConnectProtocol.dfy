/** The race of one connection's `connect()`, `disconnect()`, `close()`, timeouts, state events and
    managed completions (src/tirtc/_core.py).  One step is one lock-protected block, one wait that
    ends, or one unprotected read or write of an attempt's field; native calls may fail at will. */
module ConnectProtocol {
  import opened Wrappers
  import opened ConnectBlocks

  datatype How = StartFailed | Escaped | Aborted | Returned(stored: ConnState, ok: bool)

  /** The thread inside `connect()`; every attempt has exactly one. */
  datatype Pc =
    | Starting                          // in the native start call
    | Started                           // it succeeded; native_started not yet set
    | Waiting                           // _wait_connect, on done
    | InTimeout(k: nat)                 // its own _cancel_connect, outside the try
    | Deciding                          // about to read `cancelling`
    | AwaitCancel
    | Checking                          // about to read `cancel_error`
    | ClosingHandle
    | InBarrier
    | Finishing                         // block of _finish_connect
    | ReadingError(stored: ConnState)   // the unlocked reads
    | ReadingCode(stored: ConnState)
    | Aborting                          // except branch: about to set `finished`
    | FailStarted                       // native start raised
    | FailClearing
    | FailFinishing
    | Ended(how: How)

  /** A call of `_cancel_connect`. */
  datatype CancelPc =
    | Entering
    | Joining
    | Performing                        // waiting for native_started
    | CheckingStart
    | NativeCancelling                  // managed attempts
    | AwaitingDone
    | Disconnecting                     // native disconnect and the barrier after it
    | Settling
    | Tail
    | Recording(failure: Error)         // about to write cancel_error
    | Ending(failed: bool)              // about to set cancel_finished
    | CancelReturned
    | CancelRaised

  datatype Cancel = Cancel(target: nat, error: Error, pc: CancelPc)

  datatype System = System(
    state: ConnState,
    active: Option<nat>,
    disconnectFinished: bool,
    attempts: seq<Attempt>,
    pcs: seq<Pc>,
    cancels: seq<Cancel>)

  const INITIAL := System(IdleState, None, false, [], [], [])

  datatype Step =
    | Begin(managed: bool)
    | Connect(i: nat, ok: bool)
    | TimeOut(i: nat, error: Error)
    | CallCancel(i: nat, error: Error)
    | CancelMove(k: nat, failure: Option<Error>)
    | Event(event: ConnState, code: int)
    | Complete(i: nat, code: int)
    | CallerDisconnected

  /** The step a connecting thread can make on its own; `timeout` is the state of its cancel call. */
  predicate CanConnect(a: Attempt, pc: Pc, timeout: Option<CancelPc>) {
    match pc
    case Waiting => a.done
    case InTimeout(_) => timeout == Some(CancelReturned) || timeout == Some(CancelRaised)
    case AwaitCancel => a.cancelFinished
    case Ended(_) => false
    case _ => true
  }

  function ConnectPc(a: Attempt, pc: Pc, ok: bool, timeout: Option<CancelPc>): Pc {
    match pc
    case Starting => if ok then Started else FailStarted
    case Started => Waiting
    case Waiting => Deciding
    case InTimeout(_) => if timeout == Some(CancelRaised) then Ended(Escaped) else Deciding
    case Deciding => if a.cancelling then AwaitCancel else Checking
    case AwaitCancel => Checking
    case Checking => if a.cancelError.Some? then Aborting else if a.handle then ClosingHandle else InBarrier
    case ClosingHandle => if ok then InBarrier else Aborting
    case InBarrier => Finishing
    case Finishing => ReadingError(FinishedState(a))
    case ReadingError(stored) => if a.error.Some? then Ended(Returned(stored, false)) else ReadingCode(stored)
    case ReadingCode(stored) => Ended(Returned(stored, a.terminal.None? || a.terminal == Some(0)))
    case Aborting => Ended(Aborted)
    case FailStarted => FailClearing
    case FailClearing => FailFinishing
    case FailFinishing => Ended(StartFailed)
    case Ended(how) => pc
  }

  function ConnectAttempt(a: Attempt, pc: Pc, ok: bool): Attempt {
    match pc
    case Starting => a.(handle := ok && a.managed)
    case Started => a.(nativeStarted := true)
    case FailStarted => a.(nativeStarted := true)
    case Finishing => a.(finished := true)
    case Aborting => a.(finished := true)
    case FailFinishing => a.(finished := true)
    case _ => a
  }

  predicate CanCancel(a: Attempt, pc: CancelPc) {
    match pc
    case Joining => a.cancelFinished
    case Performing => a.nativeStarted
    case AwaitingDone => a.done
    case CancelReturned => false
    case CancelRaised => false
    case _ => true
  }

  function CancelNext(active: bool, a: Attempt, c: Cancel, failure: Option<Error>): (Attempt, CancelPc) {
    match c.pc
    case Entering =>
      var (b, entry) := EnterCancel(active, a, c.error);
      (b, match entry case Nothing => CancelReturned case JoinCancel => Joining case PerformCancel => Performing)
    case Joining => (a, if a.cancelError.Some? then CancelRaised else CancelReturned)
    case Performing => (a, CheckingStart)
    case CheckingStart =>
      (a, if a.finished || (a.managed && !a.handle) then Ending(false)
          else if a.managed then NativeCancelling else Disconnecting)
    case NativeCancelling => (a, if failure.Some? then Recording(failure.value) else AwaitingDone)
    case AwaitingDone => (a, if a.terminal == Some(0) then Disconnecting else Tail)
    case Disconnecting => (a, if failure.Some? then Recording(failure.value) else if a.managed then Tail else Settling)
    case Settling => (SettleCancelled(a), Tail)
    case Tail => (a, Ending(false))
    case Recording(e) => (a.(cancelError := Some(e)), Ending(true))
    case Ending(failed) => (a.(cancelFinished := true), if failed then CancelRaised else CancelReturned)
    case _ => (a, c.pc)
  }

  function TimeoutPc(s: System, pc: Pc): Option<CancelPc> {
    if pc.InTimeout? && pc.k < |s.cancels| then Some(s.cancels[pc.k].pc) else None
  }

  predicate CanStep(s: System, step: Step) {
    match step
    case Begin(_) => s.active.None?
    case Connect(i, _) => i < |s.attempts| && i < |s.pcs| && CanConnect(s.attempts[i], s.pcs[i], TimeoutPc(s, s.pcs[i]))
    case TimeOut(i, _) => i < |s.attempts| && i < |s.pcs| && s.pcs[i].Waiting?
    case CallCancel(i, _) => i < |s.attempts| && s.active == Some(i)
    case CancelMove(k, _) =>
      && k < |s.cancels| && s.cancels[k].target < |s.attempts|
      && CanCancel(s.attempts[s.cancels[k].target], s.cancels[k].pc)
    case Event(_, _) => s.active.Some? ==> s.active.value < |s.attempts|
    case Complete(i, _) => i < |s.attempts|
    case CallerDisconnected => true
  }

  function Next(s: System, step: Step): System
    requires CanStep(s, step)
  {
    match step
    case Begin(managed) =>
      s.(state := Connecting, active := Some(|s.attempts|), disconnectFinished := false,
         attempts := s.attempts + [NewAttempt(managed)], pcs := s.pcs + [Starting])
    case Connect(i, ok) =>
      var a, pc := s.attempts[i], s.pcs[i];
      var r := s.(attempts := s.attempts[i := ConnectAttempt(a, pc, ok)],
                  pcs := s.pcs[i := ConnectPc(a, pc, ok, TimeoutPc(s, pc))]);
      if pc.Finishing? then
        var stored := FinishedState(a);
        r.(state := stored, active := if s.active == Some(i) then None else s.active,
           disconnectFinished := s.disconnectFinished || stored == Disconnected)
      else if pc.FailClearing? && s.active == Some(i) then r.(state := IdleState, active := None)
      else r
    case TimeOut(i, error) =>
      s.(pcs := s.pcs[i := InTimeout(|s.cancels|)], cancels := s.cancels + [Cancel(i, error, Entering)])
    case CallCancel(i, error) => s.(cancels := s.cancels + [Cancel(i, error, Entering)])
    case CancelMove(k, failure) =>
      var c := s.cancels[k];
      var (b, pc) := CancelNext(s.active == Some(c.target), s.attempts[c.target], c, failure);
      s.(attempts := s.attempts[c.target := b], cancels := s.cancels[k := c.(pc := pc)],
         disconnectFinished := s.disconnectFinished || c.pc.Tail?)
    case Event(event, code) =>
      if s.active.Some? then
        var (state, a, _) := StateEvent(s.state, Some(s.attempts[s.active.value]), event, code);
        s.(state := state, attempts := if a.Some? then s.attempts[s.active.value := a.value] else s.attempts)
      else s.(state := StateEvent(s.state, None, event, code).0)
    case Complete(i, code) =>
      s.(attempts := s.attempts[i := ManagedComplete(s.active == Some(i), s.attempts[i], code)])
    case CallerDisconnected => s.(state := Disconnected, disconnectFinished := true)
  }

  // ---- Regions of the program -------------------------------------------------------------------

  /** `_active_connect` no longer points at the attempt. */
  predicate Cleared(pc: Pc) {
    pc.ReadingError? || pc.ReadingCode? || pc.FailFinishing? ||
    (pc.Ended? && (pc.how.StartFailed? || pc.how.Returned?))
  }

  predicate StartRaised(pc: Pc) {
    pc.FailStarted? || pc.FailClearing? || pc.FailFinishing? || pc == Ended(StartFailed)
  }

  /** The cancel decision is behind the thread. */
  predicate PastDecision(pc: Pc) {
    pc.AwaitCancel? || PastCancel(pc) || pc.Aborting? || pc == Ended(Aborted)
  }

  /** It no longer waits for a cancel. */
  predicate PastCancel(pc: Pc) {
    pc.Checking? || pc.ClosingHandle? || AtFinish(pc)
  }

  predicate AtFinish(pc: Pc) {
    pc.InBarrier? || pc.Finishing? || Finished(pc)
  }

  predicate Finished(pc: Pc) {
    pc.ReadingError? || pc.ReadingCode? || (pc.Ended? && pc.how.Returned?)
  }

  predicate Performs(pc: CancelPc) {
    pc.Performing? || pc.CheckingStart? || pc.NativeCancelling? || pc.AwaitingDone? || pc.Disconnecting? ||
    pc.Settling? || pc.Tail? || pc.Recording? || pc.Ending?
  }

  // ---- The invariant ----------------------------------------------------------------------------

  /** What the fields of an attempt say by themselves. */
  ghost predicate FieldsOk(a: Attempt) {
    && (a.done <==> a.terminal.Some?)
    && (a.cancelling <==> a.error.Some?)
    && (a.cancelFinished || a.cancelError.Some? ==> a.cancelling)
  }

  /** What the position of the connecting thread says about its attempt. */
  ghost predicate PcOk(a: Attempt, pc: Pc) {
    && (pc.Starting? ==> !a.nativeStarted && !a.handle)
    && (pc.Started? ==> !a.nativeStarted)
    && (!pc.Starting? && !pc.Started? && !pc.FailStarted? ==> a.nativeStarted)
    && (!pc.Starting? && !StartRaised(pc) ==> a.handle == a.managed)
    && (StartRaised(pc) ==> !a.handle)
    && (a.finished <==> Finished(pc) || pc == Ended(Aborted) || pc == Ended(StartFailed))
    && (pc.Deciding? || PastDecision(pc) ==> a.cancelling || a.terminal.Some?)
    && (PastCancel(pc) || pc.Aborting? || pc == Ended(Aborted) || pc == Ended(Escaped) ==>
          (a.cancelling ==> a.cancelFinished))
    && (pc.AwaitCancel? ==> a.cancelling)
    && (pc.ClosingHandle? || AtFinish(pc) ==> a.cancelError.None?)
    && (a.cancelFinished && a.cancelError.None? && !StartRaised(pc) ==> a.terminal.Some?)
    && (pc == Ended(Escaped) ==> a.cancelError.Some?)
    && (pc.Aborting? || pc == Ended(Aborted) ==> a.cancelError.Some? || a.handle)
    && (pc.ClosingHandle? ==> a.handle)
  }

  /** The result is decided by the fields as `_finish_connect` saw them. */
  ghost predicate ResultOk(a: Attempt, pc: Pc) {
    && (pc.ReadingError? || pc.ReadingCode? ==> pc.stored == FinishedState(a))
    && (pc.ReadingCode? ==> a.error.None?)
    && (pc.Ended? && pc.how.Returned? ==>
          pc.how.stored == FinishedState(a) && (pc.how.ok <==> FinishedState(a) == Connected))
  }

  ghost predicate AttemptOk(a: Attempt, pc: Pc) {
    FieldsOk(a) && PcOk(a, pc) && ResultOk(a, pc)
  }

  /** What a cancel call knows. */
  ghost predicate CancelOk(a: Attempt, pc: Pc, c: Cancel) {
    && (c.pc != Entering ==> a.cancelling || a.terminal.Some? || Cleared(pc))
    && (Performs(c.pc) ==> a.cancelling && !a.cancelFinished)
    && (Performs(c.pc) && !c.pc.Performing? ==> a.nativeStarted)
    && (c.pc.Joining? ==> a.cancelling)
    && (Performs(c.pc) && !(c.pc == Ending(true)) ==> a.cancelError.None?)
    && (c.pc == Ending(true) ==> a.cancelError.Some?)
    && (c.pc.Tail? || c.pc == Ending(false) ==> a.terminal.Some? || StartRaised(pc))
    && (c.pc.NativeCancelling? || c.pc.AwaitingDone? ==> a.managed)
    && (c.pc.Disconnecting? && a.managed ==> a.terminal.Some?)
    && (c.pc.Settling? ==> !a.managed)
    && (c.pc.CancelRaised? ==> a.cancelFinished && a.cancelError.Some?)
  }

  ghost predicate Shape(s: System) {
    && |s.attempts| == |s.pcs|
    && (forall k :: 0 <= k < |s.cancels| ==> s.cancels[k].target < |s.attempts|)
    && (forall i :: 0 <= i < |s.pcs| ==> (s.active == Some(i) <==> !Cleared(s.pcs[i])))
    && (s.active.Some? ==> s.active.value < |s.attempts|)
    && (forall i :: 0 <= i < |s.pcs| && s.pcs[i].InTimeout? ==>
          s.pcs[i].k < |s.cancels| && s.cancels[s.pcs[i].k].target == i)
  }

  /** At most one thread performs the cancel of an attempt; an unfinished cancel has one. */
  ghost predicate OnePerformer(s: System) {
    && (forall k, l :: 0 <= k < l < |s.cancels| && Performs(s.cancels[k].pc) && Performs(s.cancels[l].pc) ==>
          s.cancels[k].target != s.cancels[l].target)
  }

  ghost predicate Inv(s: System) {
    && Shape(s)
    && OnePerformer(s)
    && (forall i :: 0 <= i < |s.attempts| ==> AttemptOk(s.attempts[i], s.pcs[i]))
    && (forall k :: 0 <= k < |s.cancels| ==>
          CancelOk(s.attempts[s.cancels[k].target], s.pcs[s.cancels[k].target], s.cancels[k]))
  }

  // ---- Preservation, one kind of step at a time --------------------------------------------------

  lemma ConnectPosition(a: Attempt, pc: Pc, ok: bool, timeout: Option<CancelPc>)
    requires AttemptOk(a, pc) && CanConnect(a, pc, timeout)
    requires pc.InTimeout? && timeout == Some(CancelReturned) ==> a.cancelling || a.terminal.Some?
    requires pc.InTimeout? && timeout == Some(CancelRaised) ==> a.cancelFinished && a.cancelError.Some?
    ensures PcOk(ConnectAttempt(a, pc, ok), ConnectPc(a, pc, ok, timeout))
  {
  }

  lemma ConnectResult(a: Attempt, pc: Pc, ok: bool, timeout: Option<CancelPc>)
    requires AttemptOk(a, pc) && CanConnect(a, pc, timeout)
    ensures FieldsOk(ConnectAttempt(a, pc, ok))
    ensures ResultOk(ConnectAttempt(a, pc, ok), ConnectPc(a, pc, ok, timeout))
  {
  }

  lemma ConnectCancelOk(a: Attempt, pc: Pc, ok: bool, timeout: Option<CancelPc>, c: Cancel)
    requires FieldsOk(a) && PcOk(a, pc) && CancelOk(a, pc, c)
    ensures CancelOk(ConnectAttempt(a, pc, ok), ConnectPc(a, pc, ok, timeout), c)
  {
  }

  lemma ConnectCleared(a: Attempt, pc: Pc, ok: bool, timeout: Option<CancelPc>)
    requires CanConnect(a, pc, timeout)
    ensures Cleared(ConnectPc(a, pc, ok, timeout)) <==> Cleared(pc) || pc.Finishing? || pc.FailClearing?
  {
  }

  /** Putting a step of one attempt back into the whole system. */
  lemma Reassemble(s: System, r: System, i: nat)
    requires Inv(s) && i < |s.attempts| && Shape(r) && OnePerformer(r)
    requires |r.attempts| == |s.attempts| && |r.cancels| == |s.cancels|
    requires forall j :: 0 <= j < |s.attempts| && j != i ==> r.attempts[j] == s.attempts[j] && r.pcs[j] == s.pcs[j]
    requires forall k :: 0 <= k < |s.cancels| ==> r.cancels[k].target == s.cancels[k].target
    requires forall k :: 0 <= k < |s.cancels| && s.cancels[k].target != i ==> r.cancels[k] == s.cancels[k]
    requires AttemptOk(r.attempts[i], r.pcs[i])
    requires forall k :: 0 <= k < |s.cancels| && s.cancels[k].target == i ==>
               CancelOk(r.attempts[i], r.pcs[i], r.cancels[k])
    ensures Inv(r)
  {
  }

  lemma ShapeConnect(s: System, i: nat, ok: bool)
    requires Shape(s) && CanStep(s, Connect(i, ok))
    ensures Shape(Next(s, Connect(i, ok)))
  {
    ConnectCleared(s.attempts[i], s.pcs[i], ok, TimeoutPc(s, s.pcs[i]));
  }

  lemma InvConnect(s: System, i: nat, ok: bool)
    requires Inv(s) && CanStep(s, Connect(i, ok))
    ensures Inv(Next(s, Connect(i, ok)))
  {
    var r := Next(s, Connect(i, ok));
    var a, pc := s.attempts[i], s.pcs[i];
    var timeout := TimeoutPc(s, pc);
    ShapeConnect(s, i, ok);
    TimeoutKnows(s, i);
    ConnectPosition(a, pc, ok, timeout);
    ConnectResult(a, pc, ok, timeout);
    forall k | 0 <= k < |s.cancels| && s.cancels[k].target == i
      ensures CancelOk(r.attempts[i], r.pcs[i], r.cancels[k])
    {
      ConnectCancelOk(a, pc, ok, timeout, s.cancels[k]);
    }
    Reassemble(s, r, i);
  }

  /** What the cancel call of a timed-out thread has told it. */
  lemma TimeoutKnows(s: System, i: nat)
    requires Inv(s) && i < |s.pcs|
    ensures s.pcs[i].InTimeout? && TimeoutPc(s, s.pcs[i]) == Some(CancelReturned) ==>
              s.attempts[i].cancelling || s.attempts[i].terminal.Some?
    ensures s.pcs[i].InTimeout? && TimeoutPc(s, s.pcs[i]) == Some(CancelRaised) ==>
              s.attempts[i].cancelFinished && s.attempts[i].cancelError.Some?
  {
  }

  /** What one move of a cancel call does to its attempt. */
  lemma CancelLocal(active: bool, a: Attempt, pc: Pc, c: Cancel, failure: Option<Error>)
    requires AttemptOk(a, pc) && CancelOk(a, pc, c) && CanCancel(a, c.pc)
    requires active <==> !Cleared(pc)
    ensures AttemptOk(CancelNext(active, a, c, failure).0, pc)
  {
  }

  lemma CancelSelf(active: bool, a: Attempt, pc: Pc, c: Cancel, failure: Option<Error>)
    requires AttemptOk(a, pc) && CancelOk(a, pc, c) && CanCancel(a, c.pc)
    requires active <==> !Cleared(pc)
    ensures
      var (b, r) := CancelNext(active, a, c, failure);
      CancelOk(b, pc, c.(pc := r))
  {
  }

  /** Other cancel calls on the same attempt, of which at most the mover performs. */
  lemma CancelOthers(active: bool, a: Attempt, pc: Pc, c: Cancel, failure: Option<Error>, d: Cancel)
    requires FieldsOk(a) && CancelOk(a, pc, c) && CancelOk(a, pc, d)
    requires !(Performs(c.pc) && Performs(d.pc)) && (active <==> !Cleared(pc))
    ensures
      var (b, r) := CancelNext(active, a, c, failure);
      CancelOk(b, pc, d) && !(Performs(r) && Performs(d.pc))
  {
  }

  lemma InvCancel(s: System, k: nat, failure: Option<Error>)
    requires Inv(s) && CanStep(s, CancelMove(k, failure))
    ensures Inv(Next(s, CancelMove(k, failure)))
  {
    var r := Next(s, CancelMove(k, failure));
    var c := s.cancels[k];
    var i := c.target;
    var a, pc := s.attempts[i], s.pcs[i];
    var active := s.active == Some(i);
    CancelLocal(active, a, pc, c, failure);
    CancelSelf(active, a, pc, c, failure);
    forall l | 0 <= l < |s.cancels| && l != k && s.cancels[l].target == i
      ensures CancelOk(r.attempts[i], pc, s.cancels[l]) && !(Performs(r.cancels[k].pc) && Performs(s.cancels[l].pc))
    {
      CancelOthers(active, a, pc, c, failure, s.cancels[l]);
    }
    Reassemble(s, r, i);
  }

  /** Events and completions only move `terminal` and `done` of the active attempt. */
  lemma InvTerminal(s: System, i: nat, b: Attempt, state: ConnState)
    requires Inv(s) && s.active == Some(i)
    requires b == s.attempts[i] || (b.terminal.Some? && b == s.attempts[i].(terminal := b.terminal, done := true))
    ensures Inv(s.(attempts := s.attempts[i := b], state := state))
  {
    assert !Cleared(s.pcs[i]);
  }

  lemma InvBegin(s: System, managed: bool)
    requires Inv(s) && CanStep(s, Begin(managed))
    ensures Inv(Next(s, Begin(managed)))
  {
    var r := Next(s, Begin(managed));
    assert forall k :: 0 <= k < |s.cancels| ==>
      r.attempts[s.cancels[k].target] == s.attempts[s.cancels[k].target] &&
      r.pcs[s.cancels[k].target] == s.pcs[s.cancels[k].target];
  }

  /** A new cancel call, made by a caller or by the attempt's own timeout. */
  lemma InvNewCancel(s: System, c: Cancel)
    requires Inv(s) && c.target < |s.attempts| && c.pc == Entering
    ensures Inv(s.(cancels := s.cancels + [c]))
  {
  }

  lemma TimeOutLocal(a: Attempt, k: nat, c: Cancel)
    requires AttemptOk(a, Waiting)
    ensures AttemptOk(a, InTimeout(k))
    ensures CancelOk(a, Waiting, c) ==> CancelOk(a, InTimeout(k), c)
  {
  }

  lemma InvTimeOut(s: System, i: nat, error: Error)
    requires Inv(s) && CanStep(s, TimeOut(i, error))
    ensures Inv(Next(s, TimeOut(i, error)))
  {
    var m := s.(cancels := s.cancels + [Cancel(i, error, Entering)]);
    InvNewCancel(s, Cancel(i, error, Entering));
    var r := Next(s, TimeOut(i, error));
    forall k | 0 <= k < |m.cancels| && m.cancels[k].target == i
      ensures CancelOk(r.attempts[i], r.pcs[i], r.cancels[k])
    {
      TimeOutLocal(s.attempts[i], |s.cancels|, m.cancels[k]);
    }
    TimeOutLocal(s.attempts[i], |s.cancels|, m.cancels[|s.cancels|]);
    Reassemble(m, r, i);
  }

  lemma InvKept(s: System, step: Step)
    requires Inv(s) && CanStep(s, step)
    ensures Inv(Next(s, step))
  {
    match step
    case Begin(managed) => InvBegin(s, managed);
    case Connect(i, ok) => InvConnect(s, i, ok);
    case TimeOut(i, error) => InvTimeOut(s, i, error);
    case CallCancel(i, error) => InvNewCancel(s, Cancel(i, error, Entering));
    case CancelMove(k, failure) => InvCancel(s, k, failure);
    case Event(event, code) =>
      if s.active.Some? {
        var i := s.active.value;
        var (state, a, _) := StateEvent(s.state, Some(s.attempts[i]), event, code);
        InvTerminal(s, i, a.value, state);
      }
    case Complete(i, code) =>
      if s.active == Some(i) {
        InvTerminal(s, i, ManagedComplete(true, s.attempts[i], code), s.state);
      }
    case CallerDisconnected =>
  }
}
