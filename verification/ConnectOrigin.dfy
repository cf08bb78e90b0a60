/** Where the code and the errors of a `connect()` come from (src/tirtc/_core.py): over every run they
    are decided by what the Runtime reported and by what the cancel calls were given. */
module ConnectOrigin {
  import opened Wrappers
  import opened ConnectBlocks
  import opened ConnectProtocol
  import opened ConnectOutcome

  /** What reaches an attempt: success or failure, in a state event or a managed completion, while it is
      active, or the end of its cancel. */
  datatype Report = Success | Failure(code: int) | Settled

  function ReportOf(s: System, step: Step, i: nat): seq<Report> {
    match step
    case Event(event, code) =>
      if s.active != Some(i) then []
      else if code != 0 then [Failure(code)]
      else if event == Disconnected then [Failure(6012)]
      else if event == Connected then [Success]
      else []
    case Complete(j, code) =>
      if j != i || s.active != Some(i) then [] else if code != 0 then [Failure(code)] else [Success]
    case CancelMove(k, _) =>
      if k < |s.cancels| && s.cancels[k].target == i && s.cancels[k].pc.Settling? then [Settled] else []
    case _ => []
  }

  /** Everything that reaches attempt `i` in a run. */
  function Reports(s: System, steps: seq<Step>, i: nat): seq<Report>
    decreases |steps|
  {
    if steps == [] || !CanStep(s, steps[0]) then []
    else ReportOf(s, steps[0], i) + Reports(Next(s, steps[0]), steps[1..], i)
  }

  lemma Regroup<T>(a: seq<T>, b: seq<T>, c: seq<T>)
    ensures a + b + c == a + (b + c)
  {
  }

  predicate NoFailure(reports: seq<Report>) {
    forall j :: 0 <= j < |reports| ==> !reports[j].Failure?
  }

  predicate FirstFailure(reports: seq<Report>, j: nat, code: int) {
    j < |reports| && reports[j] == Failure(code) && forall m :: 0 <= m < j ==> !reports[m].Failure?
  }

  predicate Succeeded(reports: seq<Report>) {
    reports != [] && reports[0].Success? && NoFailure(reports)
  }

  /** The first failure decides, unless the cancel was settled before anything was reported. */
  ghost predicate FailedWith(reports: seq<Report>, code: int) {
    reports != [] &&
    if reports[0].Settled? then code == 6115 else exists j: nat :: FirstFailure(reports, j, code)
  }

  ghost predicate CodeIs(terminal: Option<int>, reports: seq<Report>) {
    match terminal
    case None => reports == []
    case Some(code) => if code == 0 then Succeeded(reports) else FailedWith(reports, code)
  }

  /** No failure report carries the code 0. */
  predicate RealFailures(reports: seq<Report>) {
    forall j :: 0 <= j < |reports| ==> reports[j] != Failure(0)
  }

  lemma FailedStays(reports: seq<Report>, more: seq<Report>, code: int)
    requires FailedWith(reports, code)
    ensures FailedWith(reports + more, code)
  {
    if !reports[0].Settled? {
      var j: nat :| FirstFailure(reports, j, code);
      assert FirstFailure(reports + more, j, code);
    }
  }

  /** One report more. */
  lemma CodeReported(terminal: Option<int>, reports: seq<Report>, report: Report, after: Option<int>)
    requires CodeIs(terminal, reports) && report != Failure(0)
    requires after ==
             if terminal.None? then Some(if report.Success? then 0 else if report.Settled? then 6115 else report.code)
             else if terminal == Some(0) && report.Failure? then Some(report.code)
             else terminal
    ensures CodeIs(after, reports + [report])
  {
    var all := reports + [report];
    if terminal.Some? && terminal != Some(0) {
      FailedStays(reports, [report], terminal.value);
    } else if report.Failure? {
      assert FirstFailure(all, |reports|, report.code);
    }
  }

  lemma CancelReport(active: bool, a: Attempt, c: Cancel, failure: Option<Error>)
    ensures
      var b := CancelNext(active, a, c, failure).0;
      b.terminal == if c.pc.Settling? && a.terminal.None? then Some(6115) else a.terminal
  {
  }

  /** How one step changes the code of an attempt. */
  lemma CodeStep(s: System, step: Step, i: nat)
    requires Inv(s) && CanStep(s, step) && i < |s.attempts|
    ensures i < |Next(s, step).attempts|
    ensures
      var before, after, report := s.attempts[i].terminal, Next(s, step).attempts[i].terminal, ReportOf(s, step, i);
      if report == [] then after == before
      else
        && |report| == 1 && report[0] != Failure(0)
        && after ==
           if before.None? then
             Some(if report[0].Success? then 0 else if report[0].Settled? then 6115 else report[0].code)
           else if before == Some(0) && report[0].Failure? then Some(report[0].code)
           else before
  {
    match step
    case CancelMove(k, failure) =>
      var c := s.cancels[k];
      CancelReport(s.active == Some(c.target), s.attempts[c.target], c, failure);
      assert Next(s, step).attempts ==
        s.attempts[c.target := CancelNext(s.active == Some(c.target), s.attempts[c.target], c, failure).0];
    case Connect(j, ok) =>
      assert Next(s, step).attempts == s.attempts[j := ConnectAttempt(s.attempts[j], s.pcs[j], ok)];
    case _ =>
  }

  ghost predicate CodeOk(s: System, i: nat, reports: seq<Report>) {
    if i < |s.attempts| then CodeIs(s.attempts[i].terminal, reports) else reports == []
  }

  lemma CodeOkKept(s: System, step: Step, i: nat, reports: seq<Report>)
    requires Inv(s) && CanStep(s, step) && CodeOk(s, i, reports)
    ensures CodeOk(Next(s, step), i, reports + ReportOf(s, step, i))
  {
    var more := ReportOf(s, step, i);
    if i < |s.attempts| {
      CodeStep(s, step, i);
      if more == [] {
        assert reports + more == reports;
      } else {
        assert more == [more[0]];
        CodeReported(s.attempts[i].terminal, reports, more[0], Next(s, step).attempts[i].terminal);
      }
    }
  }

  lemma {:induction false} CodeAlong(s: System, steps: seq<Step>, r: System, i: nat, reports: seq<Report>)
    requires Inv(s) && Path(s, steps, r) && CodeOk(s, i, reports)
    ensures CodeOk(r, i, reports + Reports(s, steps, i))
    decreases |steps|
  {
    if steps == [] {
      assert reports + [] == reports;
    } else {
      var n, more := Next(s, steps[0]), ReportOf(s, steps[0], i);
      InvKept(s, steps[0]);
      CodeOkKept(s, steps[0], i, reports);
      CodeAlong(n, steps[1..], r, i, reports + more);
      Regroup(reports, more, Reports(n, steps[1..], i));
    }
  }

  /** Over every run, the recorded code is decided by what reached the attempt: there is none exactly
      when nothing did; it is 0 exactly when success was reported first and no failure ever; and it is
      nonzero exactly when a failure was reported, which gives the code of the first one, 6012 for a
      disconnect without a code, or when the cancel was settled before anything else, which gives 6115. */
  lemma CodeOrigin(steps: seq<Step>, r: System, i: nat)
    requires Path(INITIAL, steps, r) && i < |r.attempts|
    ensures
      var reports, terminal := Reports(INITIAL, steps, i), r.attempts[i].terminal;
      && (terminal.None? <==> reports == [])
      && (terminal == Some(0) <==> Succeeded(reports))
      && (forall code :: code != 0 ==> (terminal == Some(code) <==> FailedWith(reports, code)))
  {
    var reports := Reports(INITIAL, steps, i);
    CodeAlong(INITIAL, steps, r, i, []);
    assert [] + reports == reports;
    RealReports(INITIAL, steps, i);
    forall code: int | code != 0 && FailedWith(reports, code) ensures r.attempts[i].terminal == Some(code) {
      if !reports[0].Settled? {
        var j: nat :| FirstFailure(reports, j, code);
        assert r.attempts[i].terminal != Some(0);
        var k: nat :| FirstFailure(reports, k, r.attempts[i].terminal.value);
      }
    }
  }

  lemma {:induction false} RealReports(s: System, steps: seq<Step>, i: nat)
    ensures RealFailures(Reports(s, steps, i))
    decreases |steps|
  {
    if steps != [] && CanStep(s, steps[0]) {
      RealReports(Next(s, steps[0]), steps[1..], i);
    }
  }

  /** So `connect()` returns normally only when the Runtime has reported success and no failure, and
      nobody has cancelled; and an attempt that nobody cancelled and that failed raises. */
  lemma ReturnsOnSuccess(steps: seq<Step>, r: System, i: nat)
    requires Path(INITIAL, steps, r) && i < |r.pcs| == |r.attempts|
    requires r.pcs[i].Ended? && r.pcs[i].how.Returned?
    ensures r.pcs[i].how.ok <==> Succeeded(Reports(INITIAL, steps, i)) && r.attempts[i].error.None?
  {
    ConnectReturnsIff(steps, r, i);
    CodeOrigin(steps, r, i);
  }

  /** One completion: the first code is recorded as it is, a later one replaces success only. */
  lemma CompletionRecorded(s: System, i: nat, code: int)
    requires Inv(s) && CanStep(s, Complete(i, code)) && s.active == Some(i)
    ensures
      var before, after := s.attempts[i].terminal, Next(s, Complete(i, code)).attempts[i].terminal;
      && (before.None? || (before == Some(0) && code != 0) ==> after == Some(code))
      && (before.Some? && (before != Some(0) || code == 0) ==> after == before)
  {
  }

  // ---- The errors -----------------------------------------------------------------------------------

  /** The error of the cancel call that begins to cancel attempt `i` in this step. */
  function StartOf(s: System, step: Step, i: nat): seq<Error> {
    if step.CancelMove? && step.k < |s.cancels| && s.cancels[step.k].target == i && s.cancels[step.k].pc.Entering? &&
       s.active == Some(i) && i < |s.attempts| && s.attempts[i].terminal.None? && !s.attempts[i].cancelling
    then [s.cancels[step.k].error]
    else []
  }

  /** The native cancel or disconnect that fails for attempt `i` in this step. */
  function FailureOf(s: System, step: Step, i: nat): seq<Error> {
    if step.CancelMove? && step.k < |s.cancels| && s.cancels[step.k].target == i && step.failure.Some? &&
       (s.cancels[step.k].pc.NativeCancelling? || s.cancels[step.k].pc.Disconnecting?)
    then [step.failure.value]
    else []
  }

  function Starts(s: System, steps: seq<Step>, i: nat): seq<Error>
    decreases |steps|
  {
    if steps == [] || !CanStep(s, steps[0]) then []
    else StartOf(s, steps[0], i) + Starts(Next(s, steps[0]), steps[1..], i)
  }

  function Failures(s: System, steps: seq<Step>, i: nat): seq<Error>
    decreases |steps|
  {
    if steps == [] || !CanStep(s, steps[0]) then []
    else FailureOf(s, steps[0], i) + Failures(Next(s, steps[0]), steps[1..], i)
  }

  function Listed(error: Option<Error>): seq<Error> {
    if error.Some? then [error.value] else []
  }

  /** A native failure that is about to be written. */
  ghost predicate Pending(s: System, i: nat, error: Error) {
    exists k :: 0 <= k < |s.cancels| && s.cancels[k].target == i && s.cancels[k].pc == Recording(error)
  }

  ghost predicate ErrorsOk(s: System, i: nat, starts: seq<Error>, failures: seq<Error>) {
    if i < |s.attempts| then
      && starts == Listed(s.attempts[i].error)
      && (s.attempts[i].cancelError.Some? ==> failures == Listed(s.attempts[i].cancelError))
      && (forall e :: Pending(s, i, e) ==> failures == [e])
      && (s.attempts[i].cancelError.None? && failures != [] ==> Pending(s, i, failures[0]))
    else starts == [] && failures == []
  }

  /** A cancel call other than the performing one has nothing to write. */
  lemma OnlyPending(s: System, k: nat, i: nat, error: Error)
    requires Inv(s) && k < |s.cancels| && s.cancels[k].target == i && Performs(s.cancels[k].pc) && Pending(s, i, error)
    ensures s.cancels[k].pc == Recording(error)
  {
  }

  lemma PendingKept(s: System, r: System, i: nat, error: Error)
    requires |s.cancels| <= |r.cancels| && forall k :: 0 <= k < |s.cancels| ==> r.cancels[k] == s.cancels[k]
    requires forall k :: |s.cancels| <= k < |r.cancels| ==> !r.cancels[k].pc.Recording?
    ensures Pending(r, i, error) <==> Pending(s, i, error)
  {
    if Pending(s, i, error) {
      var k :| 0 <= k < |s.cancels| && s.cancels[k].target == i && s.cancels[k].pc == Recording(error);
      assert r.cancels[k].pc == Recording(error);
    }
  }

  /** Steps that are not of a cancel call. */
  lemma ErrorsOther(s: System, step: Step, i: nat, starts: seq<Error>, failures: seq<Error>)
    requires Inv(s) && CanStep(s, step) && !step.CancelMove? && ErrorsOk(s, i, starts, failures)
    ensures ErrorsOk(Next(s, step), i, starts, failures)
  {
    var r := Next(s, step);
    if i < |s.attempts| {
      ErrorsKeptBy(s, step, i);
    }
    forall e ensures Pending(r, i, e) <==> Pending(s, i, e) {
      PendingKept(s, r, i, e);
    }
  }

  lemma ErrorsKeptBy(s: System, step: Step, i: nat)
    requires Inv(s) && CanStep(s, step) && !step.CancelMove? && i < |s.attempts|
    ensures i < |Next(s, step).attempts|
    ensures Next(s, step).attempts[i].error == s.attempts[i].error
    ensures Next(s, step).attempts[i].cancelError == s.attempts[i].cancelError
  {
    match step
    case Connect(j, ok) =>
      assert Next(s, step).attempts == s.attempts[j := ConnectAttempt(s.attempts[j], s.pcs[j], ok)];
    case _ =>
  }

  /** A cancel call of another attempt. */
  lemma ErrorsElsewhere(s: System, k: nat, failure: Option<Error>, i: nat, starts: seq<Error>, failures: seq<Error>)
    requires Inv(s) && CanStep(s, CancelMove(k, failure)) && ErrorsOk(s, i, starts, failures)
    requires s.cancels[k].target != i
    ensures ErrorsOk(Next(s, CancelMove(k, failure)), i, starts, failures)
  {
    var r := Next(s, CancelMove(k, failure));
    forall e ensures Pending(r, i, e) <==> Pending(s, i, e) {
      if Pending(s, i, e) {
        var l :| 0 <= l < |s.cancels| && s.cancels[l].target == i && s.cancels[l].pc == Recording(e);
        assert r.cancels[l].pc == Recording(e);
      }
    }
  }

  lemma CancelWrites(active: bool, a: Attempt, pc: Pc, c: Cancel, failure: Option<Error>)
    requires FieldsOk(a) && CancelOk(a, pc, c)
    ensures
      var (b, q) := CancelNext(active, a, c, failure);
      && b.error == (if c.pc.Entering? && active && a.terminal.None? && !a.cancelling then Some(c.error) else a.error)
      && b.cancelError == (if c.pc.Recording? then Some(c.pc.failure) else a.cancelError)
      && (q.Recording? <==> failure.Some? && (c.pc.NativeCancelling? || c.pc.Disconnecting?))
      && (q.Recording? ==> q == Recording(failure.value))
  {
  }

  /** A cancel call of the attempt itself. */
  lemma ErrorsOwn(s: System, k: nat, failure: Option<Error>, i: nat, starts: seq<Error>, failures: seq<Error>)
    requires Inv(s) && CanStep(s, CancelMove(k, failure)) && ErrorsOk(s, i, starts, failures)
    requires s.cancels[k].target == i
    ensures
      var step := CancelMove(k, failure);
      ErrorsOk(Next(s, step), i, starts + StartOf(s, step, i), failures + FailureOf(s, step, i))
  {
    var step := CancelMove(k, failure);
    var r, c := Next(s, step), s.cancels[k];
    assert AttemptOk(s.attempts[i], s.pcs[i]) && CancelOk(s.attempts[i], s.pcs[i], c);
    CancelWrites(s.active == Some(i), s.attempts[i], s.pcs[i], c, failure);
    assert r.attempts[i] == CancelNext(s.active == Some(i), s.attempts[i], c, failure).0;
    assert r.cancels == s.cancels[k := r.cancels[k]];
    if Performs(c.pc) {
      ErrorsPerformer(s, k, failure, i, starts, failures);
    } else {
      forall e ensures Pending(r, i, e) <==> Pending(s, i, e) {
        if Pending(s, i, e) {
          var l :| 0 <= l < |s.cancels| && s.cancels[l].target == i && s.cancels[l].pc == Recording(e);
          assert r.cancels[l].pc == Recording(e);
        }
      }
      assert failures + [] == failures && starts + [] == starts;
    }
  }

  lemma ErrorsPerformer(s: System, k: nat, failure: Option<Error>, i: nat, starts: seq<Error>, failures: seq<Error>)
    requires Inv(s) && CanStep(s, CancelMove(k, failure)) && ErrorsOk(s, i, starts, failures)
    requires s.cancels[k].target == i && Performs(s.cancels[k].pc)
    ensures
      var step := CancelMove(k, failure);
      ErrorsOk(Next(s, step), i, starts + StartOf(s, step, i), failures + FailureOf(s, step, i))
  {
    var step := CancelMove(k, failure);
    var r, c := Next(s, step), s.cancels[k];
    CancelWrites(s.active == Some(i), s.attempts[i], s.pcs[i], c, failure);
    assert r.attempts[i] == CancelNext(s.active == Some(i), s.attempts[i], c, failure).0;
    assert starts + [] == starts;
    forall e ensures Pending(s, i, e) <==> c.pc == Recording(e) {
      if Pending(s, i, e) {
        OnlyPending(s, k, i, e);
      }
    }
    assert r.cancels == s.cancels[k := r.cancels[k]] && r.cancels[k].target == i;
    forall l | 0 <= l < |s.cancels| && l != k && s.cancels[l].target == i ensures !Performs(s.cancels[l].pc) {
    }
    assert forall e :: Pending(r, i, e) <==> r.cancels[k].pc == Recording(e);
    assert CancelOk(s.attempts[i], s.pcs[i], c);
    if FailureOf(s, step, i) != [] {
      assert failures == [];
    } else {
      assert failures + [] == failures;
    }
  }

  lemma ErrorsKept(s: System, step: Step, i: nat, starts: seq<Error>, failures: seq<Error>)
    requires Inv(s) && CanStep(s, step) && ErrorsOk(s, i, starts, failures)
    ensures ErrorsOk(Next(s, step), i, starts + StartOf(s, step, i), failures + FailureOf(s, step, i))
  {
    if step.CancelMove? && s.cancels[step.k].target == i {
      ErrorsOwn(s, step.k, step.failure, i, starts, failures);
    } else {
      assert starts + [] == starts && failures + [] == failures;
      if step.CancelMove? {
        ErrorsElsewhere(s, step.k, step.failure, i, starts, failures);
      } else {
        ErrorsOther(s, step, i, starts, failures);
      }
    }
  }

  lemma {:induction false} ErrorsAlong(s: System, steps: seq<Step>, r: System, i: nat,
                                       starts: seq<Error>, failures: seq<Error>)
    requires Inv(s) && Path(s, steps, r) && ErrorsOk(s, i, starts, failures)
    ensures ErrorsOk(r, i, starts + Starts(s, steps, i), failures + Failures(s, steps, i))
    decreases |steps|
  {
    if steps == [] {
      assert starts + [] == starts && failures + [] == failures;
    } else {
      var n, first, failed := Next(s, steps[0]), StartOf(s, steps[0], i), FailureOf(s, steps[0], i);
      InvKept(s, steps[0]);
      ErrorsKept(s, steps[0], i, starts, failures);
      ErrorsAlong(n, steps[1..], r, i, starts + first, failures + failed);
      Regroup(starts, first, Starts(n, steps[1..], i));
      Regroup(failures, failed, Failures(n, steps[1..], i));
    }
  }

  /** Over every run, the error of an attempt is the one given to the cancel call that began to cancel
      it, and there is such a call at most once; its cancel error, once the cancel is finished, is that of
      the native cancel or disconnect that failed, if one did. */
  lemma ErrorOrigin(steps: seq<Step>, r: System, i: nat)
    requires Path(INITIAL, steps, r) && i < |r.attempts|
    ensures Starts(INITIAL, steps, i) == Listed(r.attempts[i].error)
    ensures r.attempts[i].cancelError.Some? ==> Failures(INITIAL, steps, i) == Listed(r.attempts[i].cancelError)
    ensures r.attempts[i].cancelFinished ==> Failures(INITIAL, steps, i) == Listed(r.attempts[i].cancelError)
  {
    ErrorsAlong(INITIAL, steps, r, i, [], []);
    var starts, failures := Starts(INITIAL, steps, i), Failures(INITIAL, steps, i);
    assert [] + starts == starts && [] + failures == failures;
    InvAlong(INITIAL, steps, r);
    if failures != [] && Pending(r, i, failures[0]) {
      PendingUnfinished(r, i, failures[0]);
    }
  }

  lemma PendingUnfinished(s: System, i: nat, error: Error)
    requires Inv(s) && i < |s.attempts| && Pending(s, i, error)
    ensures !s.attempts[i].cancelFinished
  {
    var k :| 0 <= k < |s.cancels| && s.cancels[k].target == i && s.cancels[k].pc == Recording(error);
    assert CancelOk(s.attempts[i], s.pcs[i], s.cancels[k]);
  }
}
