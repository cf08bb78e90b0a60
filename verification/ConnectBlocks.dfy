/** The lock-protected blocks of `Connection.connect`, `disconnect` and the state events, on the
    values of the fields they read and write (src/tirtc/_core.py), and the two classes whose
    methods are those blocks. */
module ConnectBlocks {
  import opened Wrappers

  type Error = int

  datatype ConnState = IdleState | Connecting | Connected | Disconnected

  const REMOTE_CLOSED := 6012
  const CANCELLED := 6115

  /** `_ConnectState`; an Event is a bool, `handle` says whether `managed_handle` is set. */
  datatype Attempt = Attempt(
    managed: bool,
    done: bool,
    finished: bool,
    nativeStarted: bool,
    error: Option<Error>,
    terminal: Option<int>,
    handle: bool,
    cancelling: bool,
    cancelError: Option<Error>,
    cancelFinished: bool)

  function NewAttempt(managed: bool): Attempt {
    Attempt(managed, false, false, false, None, None, false, false, None, false)
  }

  predicate Failing(event: ConnState, code: int) {
    code != 0 || event == Disconnected
  }

  /** The "state" branch of `_handle_event`: the new `_state`, the active attempt, and the call of
      `on_state_changed`, if any. */
  function StateEvent(state: ConnState, attempt: Option<Attempt>, event: ConnState, code: int)
    : (ConnState, Option<Attempt>, Option<(ConnState, int)>)
  {
    match attempt
    case Some(a) =>
      if a.terminal.None? || (a.terminal == Some(0) && Failing(event, code)) then
        (event,
         Some(if event == Connected && code == 0 then a.(terminal := Some(0), done := true)
              else if Failing(event, code) then
                a.(terminal := Some(if code != 0 then code else REMOTE_CLOSED), done := true)
              else a),
         None)
      else (state, attempt, None)
    case None =>
      if state == Connected && event == Connecting then (state, None, None)
      else (event, None, if state != event || code != 0 then Some((event, code)) else None)
  }

  /** `_managed_complete`. */
  function ManagedComplete(active: bool, a: Attempt, code: int): Attempt {
    if active && (a.terminal.None? || (a.terminal == Some(0) && code != 0)) then
      a.(terminal := Some(code), done := true)
    else a
  }

  datatype CancelEntry = Nothing | JoinCancel | PerformCancel

  /** First block of `_cancel_connect`. */
  function EnterCancel(active: bool, a: Attempt, error: Error): (Attempt, CancelEntry) {
    if !active || a.terminal.Some? then (a, Nothing)
    else if a.cancelling then (a, JoinCancel)
    else (a.(error := Some(error), cancelling := true), PerformCancel)
  }

  /** The block that settles a cancelled external-token attempt. */
  function SettleCancelled(a: Attempt): Attempt {
    a.(terminal := if a.terminal.None? then Some(CANCELLED) else a.terminal, done := true)
  }

  /** What the block of `_finish_connect` stores in `_state`. */
  function FinishedState(a: Attempt): ConnState {
    if a.terminal == Some(0) && a.error.None? then Connected else Disconnected
  }

  datatype Begun = BeginOk | BeginInUse | BeginClosed

  class ConnectState {
    const managed: bool
    var done: bool
    var finished: bool
    var nativeStarted: bool
    var error: Option<Error>
    var terminal: Option<int>
    var handle: bool
    var cancelling: bool
    var cancelError: Option<Error>
    var cancelFinished: bool

    ghost function State(): Attempt
      reads this
    {
      Attempt(managed, done, finished, nativeStarted, error, terminal, handle, cancelling, cancelError, cancelFinished)
    }

    constructor (managed: bool)
      ensures State() == NewAttempt(managed)
    {
      this.managed := managed;
      done, finished, nativeStarted, error, terminal := false, false, false, None, None;
      handle, cancelling, cancelError, cancelFinished := false, false, None, false;
    }
  }

  class Connection {
    var state: ConnState
    var active: ConnectState?
    var disconnectFinished: bool

    ghost function Current(): Option<Attempt>
      reads this, active
    {
      if active == null then None else Some(active.State())
    }

    constructor ()
      ensures state == IdleState && active == null && !disconnectFinished
    {
      state, active, disconnectFinished := IdleState, null, false;
    }

    method HandleStateEvent(event: ConnState, code: int) returns (callback: Option<(ConnState, int)>)
      modifies this, active
      ensures active == old(active) && disconnectFinished == old(disconnectFinished)
      ensures (state, Current(), callback) == StateEvent(old(state), old(Current()), event, code)
    {
      var previous := state;
      callback := None;
      if active != null {
        var terminal := active.terminal;
        if terminal.None? || (terminal == Some(0) && (code != 0 || event == Disconnected)) {
          state := event;
          if event == Connected && code == 0 {
            active.terminal := Some(0);
            active.done := true;
          } else if code != 0 || event == Disconnected {
            active.terminal := Some(if code != 0 then code else REMOTE_CLOSED);
            active.done := true;
          }
        }
        return;
      }
      if previous == Connected && event == Connecting {
        return;
      }
      var changed := previous != event;
      state := event;
      if changed || code != 0 {
        callback := Some((event, code));
      }
    }

    method HandleManagedComplete(attempt: ConnectState, code: int)
      modifies attempt
      ensures attempt.State() == ManagedComplete(active == attempt, old(attempt.State()), code)
    {
      if active == attempt && (attempt.terminal.None? || (attempt.terminal == Some(0) && code != 0)) {
        attempt.terminal := Some(code);
        attempt.done := true;
      }
    }

    /** `_begin_connect` with its refusals in order; the deadline is not kept. */
    method BeginConnect(inCallback: bool, open: bool, modeMatches: bool, managed: bool)
      returns (result: Begun, attempt: ConnectState?)
      modifies this
      ensures result == BeginOk <==> !inCallback && open && modeMatches && old(active) == null
      ensures result == BeginClosed <==> !inCallback && !open
      ensures result != BeginOk ==> attempt == null && active == old(active)
      ensures result != BeginOk ==> state == old(state) && disconnectFinished == old(disconnectFinished)
      ensures result == BeginOk ==>
                attempt != null && fresh(attempt) && attempt.State() == NewAttempt(managed) &&
                active == attempt && state == Connecting && !disconnectFinished
    {
      attempt := null;
      if inCallback {
        return BeginInUse, attempt;
      }
      if !open {
        return BeginClosed, attempt;
      }
      if !modeMatches || active != null {
        return BeginInUse, attempt;
      }
      attempt := new ConnectState(managed);
      active, state, disconnectFinished := attempt, Connecting, false;
      result := BeginOk;
    }

    method EnterCancelConnect(attempt: ConnectState, error: Error) returns (entry: CancelEntry)
      modifies attempt
      ensures (attempt.State(), entry) == EnterCancel(active == attempt, old(attempt.State()), error)
    {
      if active != attempt {
        return Nothing;
      }
      if attempt.terminal.Some? {
        return Nothing;
      }
      if attempt.cancelling {
        return JoinCancel;
      }
      attempt.error := Some(error);
      attempt.cancelling := true;
      return PerformCancel;
    }

    /** The block of `_finish_connect`, after its barrier. */
    method FinishConnect(attempt: ConnectState)
      modifies this, attempt
      ensures active == if old(active) == attempt then null else old(active)
      ensures state == FinishedState(old(attempt.State()))
      ensures disconnectFinished == (old(disconnectFinished) || state == Disconnected)
      ensures attempt.State() == old(attempt.State()).(finished := true)
    {
      if active == attempt {
        active := null;
      }
      if attempt.terminal == Some(0) && attempt.error.None? {
        state := Connected;
      } else {
        state := Disconnected;
        disconnectFinished := true;
      }
      attempt.finished := true;
    }
  }

  // ---- What one event means ---------------------------------------------------------------------

  /** A disconnect or error event is folded into a failing attempt or handed to the user callback,
      except exactly when no attempt is active and it either changes nothing or says CONNECTING
      while the connection is CONNECTED: that branch drops it, error code and all. */
  lemma FailingEventAccounted(state: ConnState, attempt: Option<Attempt>, event: ConnState, code: int)
    requires Failing(event, code)
    ensures
      var (_, after, callback) := StateEvent(state, attempt, event, code);
      (callback == Some((event, code)) ||
       (after.Some? && after.value.terminal.Some? && after.value.terminal != Some(0)))
      <==> !(attempt.None? && ((state == event && code == 0) || (state == Connected && event == Connecting)))
  {
  }

  /** The dropped event, concretely. */
  lemma ErrorEventDropped()
    ensures StateEvent(Connected, None, Connecting, 6014) == (Connected, None, None)
  {
  }

  /** With no attempt active, `_state` and the user never disagree: an event changes `_state` only if
      it is reported, a report carries the event and is what `_state` then says, and an event is
      kept from the user exactly when it brings no news or says CONNECTING while CONNECTED. */
  lemma ChangesReported(state: ConnState, event: ConnState, code: int)
    ensures
      var (after, _, callback) := StateEvent(state, None, event, code);
      && (callback.None? ==> after == state)
      && (callback.Some? ==> callback.value == (after, code) && after == event)
      && (callback.None? <==> (state == event && code == 0) || (state == Connected && event == Connecting))
  {
  }

  predicate TerminalStep(before: Option<int>, after: Option<int>) {
    before == after || before.None? || (before == Some(0) && after.Some? && after.value != 0)
  }

  /** While an attempt is active no event reaches the user; a CONNECTED event completes it. */
  lemma ActiveAttemptAbsorbs(state: ConnState, a: Attempt, event: ConnState, code: int)
    ensures StateEvent(state, Some(a), event, code).2.None?
    ensures StateEvent(state, Some(a), event, code).1.Some?
    ensures TerminalStep(a.terminal, StateEvent(state, Some(a), event, code).1.value.terminal)
    ensures a.terminal.None? && event == Connected && code == 0 ==>
              StateEvent(state, Some(a), event, code).1.value.terminal == Some(0)
    ensures
      var (after, b, _) := StateEvent(state, Some(a), event, code);
      after == if a.terminal.None? || b.value.terminal != a.terminal then event else state
  {
  }
}
