/** The two teardown steps of `OwnershipTree` that keep a result: `RecordingTask.stop` run by the
    owner of a closing generation, and `RawDump.stop` and `close` under the dump's own lock. */
module Teardown {
  import opened Wrappers

  // ---- RecordingTask ----------------------------------------------------------------------------

  datatype Recording = Recording(
    stopped: bool,
    result: Option<int>,
    error: Option<int>,
    destroyed: bool,
    parentFinished: bool)

  const NEW_RECORDING := Recording(false, None, None, false, false)

  /** What the native calls of one attempt answer: `stop` is None when the bounded retry of the
      native stop gives up, otherwise its code and file. */
  datatype Attempt = Attempt(stop: Option<(int, int)>, destroyOk: bool)

  /** One owned run of `stop`; true when it ends in `succeed`. */
  function StopAttempt(r: Recording, a: Attempt): (Recording, bool) {
    if !r.stopped && a.stop.None? then (r, false)
    else
      var stopped :=
        if r.stopped then r
        else
          var (code, file) := a.stop.value;
          r.(stopped := true, result := if code == 0 then Some(file) else None,
             error := if code != 0 then Some(code) else None);
      if !a.destroyOk then (stopped, false)
      else (stopped.(destroyed := true, parentFinished := true), true)
  }

  class RecordingTask {
    var stopped: bool
    var result: Option<int>
    var error: Option<int>
    var destroyed: bool
    var parentFinished: bool

    ghost function State(): Recording
      reads this
    {
      Recording(stopped, result, error, destroyed, parentFinished)
    }

    constructor ()
      ensures State() == NEW_RECORDING
    {
      stopped, result, error, destroyed, parentFinished := false, None, None, false, false;
    }

    method Stop(a: Attempt) returns (succeeded: bool)
      modifies this
      ensures (State(), succeeded) == StopAttempt(old(State()), a)
    {
      if !stopped {
        if a.stop.None? {
          return false;
        }
        var (code, file) := a.stop.value;
        error := if code != 0 then Some(code) else None;
        result := if code == 0 then Some(file) else None;
        stopped := true;
      }
      if !a.destroyOk {
        return false;
      }
      destroyed := true;
      if !parentFinished {
        parentFinished := true;
      }
      return true;
    }
  }

  function StopAll(r: Recording, attempts: seq<Attempt>): Recording
    decreases |attempts|
  {
    if attempts == [] then r else StopAll(StopAttempt(r, attempts[0]).0, attempts[1..])
  }

  /** The first accepted native stop among the attempts. */
  function FirstStop(attempts: seq<Attempt>): Option<(int, int)>
    decreases |attempts|
  {
    if attempts == [] then None
    else if attempts[0].stop.Some? then attempts[0].stop
    else FirstStop(attempts[1..])
  }

  lemma {:induction false} StoppedStays(r: Recording, attempts: seq<Attempt>)
    requires r.stopped
    ensures
      var end := StopAll(r, attempts);
      end.stopped && end.result == r.result && end.error == r.error
    decreases |attempts|
  {
    if attempts != [] {
      StoppedStays(StopAttempt(r, attempts[0]).0, attempts[1..]);
    }
  }

  /** However often the close is tried, the recorded outcome is that of the first native stop that
      was accepted, exactly one of file and error, and later answers of the Runtime do not count. */
  lemma {:induction false} FirstStopWins(attempts: seq<Attempt>)
    ensures
      var r := StopAll(NEW_RECORDING, attempts);
      match FirstStop(attempts)
      case None => !r.stopped && r.result.None? && r.error.None? && !r.destroyed
      case Some((code, file)) =>
        && r.stopped && r.result == (if code == 0 then Some(file) else None)
        && r.error == (if code != 0 then Some(code) else None)
    decreases |attempts|
  {
    if attempts != [] {
      if attempts[0].stop.Some? {
        StoppedStays(StopAttempt(NEW_RECORDING, attempts[0]).0, attempts[1..]);
      } else {
        FirstStopWins(attempts[1..]);
      }
    }
  }

  /** A run of `stop` got everything done: the native stop was accepted by then, and the destroy. */
  ghost predicate GotDone(attempts: seq<Attempt>) {
    exists k :: 0 <= k < |attempts| && attempts[k].destroyOk && FirstStop(attempts[..k + 1]).Some?
  }

  lemma {:induction false} StopAllAppend(r: Recording, attempts: seq<Attempt>, a: Attempt)
    ensures StopAll(r, attempts + [a]) == StopAttempt(StopAll(r, attempts), a).0
    decreases |attempts|
  {
    if attempts == [] {
      assert attempts + [a] == [a];
    } else {
      assert (attempts + [a])[1..] == attempts[1..] + [a];
      StopAllAppend(StopAttempt(r, attempts[0]).0, attempts[1..], a);
    }
  }

  lemma {:induction false} FirstStopAppend(attempts: seq<Attempt>, a: Attempt)
    ensures FirstStop(attempts + [a]) == if FirstStop(attempts).Some? then FirstStop(attempts) else a.stop
    decreases |attempts|
  {
    if attempts == [] {
      assert attempts + [a] == [a];
    } else {
      assert (attempts + [a])[1..] == attempts[1..] + [a];
      FirstStopAppend(attempts[1..], a);
    }
  }

  lemma GotDoneAppend(attempts: seq<Attempt>, a: Attempt)
    ensures GotDone(attempts + [a]) <==> GotDone(attempts) || (a.destroyOk && FirstStop(attempts + [a]).Some?)
  {
    var all := attempts + [a];
    forall k | 0 <= k < |attempts| ensures all[k] == attempts[k] && all[..k + 1] == attempts[..k + 1] {
    }
    assert all[..|attempts| + 1] == all;
    if GotDone(attempts) {
      var k :| 0 <= k < |attempts| && attempts[k].destroyOk && FirstStop(attempts[..k + 1]).Some?;
      assert all[k].destroyOk && FirstStop(all[..k + 1]).Some?;
    }
    if a.destroyOk && FirstStop(all).Some? {
      assert all[|attempts|].destroyOk;
    }
  }

  /** After any number of runs the native object is destroyed, and the parent told, exactly when one of
      them found the stop accepted, by itself or before, and the destroy succeed; and it is exactly then
      that a run says so. */
  lemma {:induction false} ClosedByRun(attempts: seq<Attempt>, a: Attempt)
    ensures
      var r := StopAll(NEW_RECORDING, attempts);
      && (r.destroyed <==> GotDone(attempts)) && (r.parentFinished <==> GotDone(attempts))
      && (StopAttempt(r, a).1 <==> a.destroyOk && (FirstStop(attempts).Some? || a.stop.Some?))
    decreases |attempts|
  {
    FirstStopWins(attempts);
    if attempts != [] {
      var n := |attempts| - 1;
      assert attempts == attempts[..n] + [attempts[n]];
      ClosedByRun(attempts[..n], attempts[n]);
      StopAllAppend(NEW_RECORDING, attempts[..n], attempts[n]);
      FirstStopAppend(attempts[..n], attempts[n]);
      GotDoneAppend(attempts[..n], attempts[n]);
    }
  }

  // ---- RawDump ----------------------------------------------------------------------------------

  /** `registered`: the dump is still in its parent's set.  `owed`: the call that closed the dump has
      left the dump's lock and not yet told the parent. */
  datatype Dump = Dump(archive: Option<int>, closed: bool, owed: bool, registered: bool)

  const NEW_DUMP := Dump(None, false, false, true)

  datatype Answer = Archive(archive: int) | StopError(code: int) | DestroyError(code: int) | ClosedError | Done

  function StopDump(d: Dump, code: int, archive: int): (Dump, Answer) {
    if d.closed then (d, ClosedError)
    else if d.archive.Some? then (d, Archive(d.archive.value))
    else if code != 0 then (d, StopError(code))
    else (d.(archive := Some(archive)), Archive(archive))
  }

  /** The part of `close` under the dump's lock. */
  function CloseDump(d: Dump, stopCode: int, archive: int, destroyCode: int): (Dump, Answer) {
    if d.closed then (d, Done)
    else
      var (stopped, answer) := StopDump(d, stopCode, archive);
      if destroyCode != 0 then (stopped, DestroyError(destroyCode))
      else (stopped.(closed := true, owed := true), if answer.StopError? then answer else Done)
  }

  /** `parent._finish_raw_dump`, after the lock. */
  function ReportDump(d: Dump): Dump {
    if d.owed then d.(owed := false, registered := false) else d
  }

  class RawDump {
    var archive: Option<int>
    var closed: bool
    var owed: bool
    var registered: bool

    ghost function State(): Dump
      reads this
    {
      Dump(archive, closed, owed, registered)
    }

    constructor ()
      ensures State() == NEW_DUMP
    {
      archive, closed, owed, registered := None, false, false, true;
    }

    method Stop(code: int, value: int) returns (answer: Answer)
      modifies this
      ensures (State(), answer) == StopDump(old(State()), code, value)
    {
      if closed {
        return ClosedError;
      }
      if archive.None? {
        if code != 0 {
          return StopError(code);
        }
        archive := Some(value);
      }
      return Archive(archive.value);
    }

    method Close(stopCode: int, value: int, destroyCode: int) returns (answer: Answer)
      modifies this
      ensures (State(), answer) == CloseDump(old(State()), stopCode, value, destroyCode)
    {
      if closed {
        return Done;
      }
      var stopAnswer := Stop(stopCode, value);
      if destroyCode != 0 {
        return DestroyError(destroyCode);
      }
      closed := true;
      owed := true;
      return if stopAnswer.StopError? then stopAnswer else Done;
    }

    method Report()
      modifies this
      ensures State() == ReportDump(old(State()))
    {
      if owed {
        owed := false;
        registered := false;
      }
    }
  }

  datatype DumpOp =
    | CallStop(code: int, value: int)
    | CallClose(code: int, value: int, destroyCode: int)
    | CallReport

  function ApplyDump(d: Dump, op: DumpOp): Dump {
    match op
    case CallStop(code, value) => StopDump(d, code, value).0
    case CallClose(code, value, destroyCode) => CloseDump(d, code, value, destroyCode).0
    case CallReport => ReportDump(d)
  }

  function RunDump(d: Dump, ops: seq<DumpOp>): Dump
    decreases |ops|
  {
    if ops == [] then d else RunDump(ApplyDump(d, ops[0]), ops[1..])
  }

  /** Registered until the call that closed the dump has reported it. */
  predicate DumpOk(d: Dump) {
    (d.registered <==> !d.closed || d.owed) && (d.owed ==> d.closed)
  }

  /** In every history of calls on any threads: the archive of a dump is fixed by the first accepted
      stop, a closed dump never reopens, and it is in its parent's set exactly until it is closed and
      the closing call has reported it, once. */
  lemma {:induction false} DumpStable(d: Dump, ops: seq<DumpOp>)
    requires DumpOk(d)
    ensures
      var r := RunDump(d, ops);
      && DumpOk(r)
      && (d.archive.Some? ==> r.archive == d.archive)
      && (d.closed ==> r.closed && r.archive == d.archive)
      && (!d.registered ==> r == d)
    decreases |ops|
  {
    if ops != [] {
      DumpStable(ApplyDump(d, ops[0]), ops[1..]);
    }
  }

  /** Some close got its destroy through. */
  predicate DestroyedIn(ops: seq<DumpOp>) {
    exists k :: 0 <= k < |ops| && ops[k].CallClose? && ops[k].destroyCode == 0
  }

  /** The archive of the first native stop that is accepted, by a stop or by a close, up to and including
      the close that destroys the dump. */
  function FirstArchive(ops: seq<DumpOp>): Option<int>
    decreases |ops|
  {
    if ops == [] then None
    else if !ops[0].CallReport? && ops[0].code == 0 then Some(ops[0].value)
    else if ops[0].CallClose? && ops[0].destroyCode == 0 then None
    else FirstArchive(ops[1..])
  }

  lemma {:induction false} DumpAlong(d: Dump, ops: seq<DumpOp>)
    ensures
      var r := RunDump(d, ops);
      && (r.closed <==> d.closed || DestroyedIn(ops))
      && r.archive == (if d.closed || d.archive.Some? then d.archive else FirstArchive(ops))
    decreases |ops|
  {
    if ops != [] {
      DumpAlong(ApplyDump(d, ops[0]), ops[1..]);
      if DestroyedIn(ops) && !(ops[0].CallClose? && ops[0].destroyCode == 0) {
        var k :| 0 <= k < |ops| && ops[k].CallClose? && ops[k].destroyCode == 0;
        assert ops[1..][k - 1] == ops[k];
      }
      if DestroyedIn(ops[1..]) {
        var k :| 0 <= k < |ops[1..]| && ops[1..][k].CallClose? && ops[1..][k].destroyCode == 0;
        assert ops[k + 1].CallClose?;
      }
    }
  }

  /** What a new `stop` and a new `close` answer after any history: a closed dump refuses to be stopped
      and lets itself be closed again; an archive once made is the one every later stop returns; and a
      native refusal is raised with its own code, that of a stop within a close only if the destroy
      succeeds. */
  lemma DumpAnswers(ops: seq<DumpOp>, code: int, value: int, destroyCode: int)
    ensures
      var d := RunDump(NEW_DUMP, ops);
      var stop, close := StopDump(d, code, value).1, CloseDump(d, code, value, destroyCode).1;
      var closed, first := DestroyedIn(ops), FirstArchive(ops);
      && (stop == ClosedError <==> closed)
      && (stop.Archive? <==> !closed && (first.Some? || code == 0))
      && (stop.Archive? ==> stop.archive == if first.Some? then first.value else value)
      && (stop.StopError? ==> stop.code == code)
      && !stop.DestroyError? && stop != Done
      && (close == Done <==> closed || (destroyCode == 0 && (first.Some? || code == 0)))
      && (close.DestroyError? <==> !closed && destroyCode != 0)
      && (close.DestroyError? ==> close.code == destroyCode)
      && (close.StopError? ==> close.code == code)
      && !close.Archive? && close != ClosedError
  {
    DumpAlong(NEW_DUMP, ops);
  }

  /** A close that raises has closed the dump exactly when what failed was the stop and not the
      destroy: the case in which a Connection's or a Replay's own close goes on. */
  lemma CloseRaisedButClosed(d: Dump, stopCode: int, archive: int, destroyCode: int)
    requires !d.closed
    ensures
      var (r, answer) := CloseDump(d, stopCode, archive, destroyCode);
      && (r.closed <==> destroyCode == 0)
      && (r.closed && answer != Done <==> destroyCode == 0 && d.archive.None? && stopCode != 0)
      && (answer != Done && !r.closed <==> destroyCode != 0)
  {
  }
}
