/** `ExportTask` (src/tirtc/storage/__init__.py): the races of the completed event, `stop`, `wait`,
    progress, the report and the parent's close over one terminal result. */
module ExportTasks {
  import opened Wrappers
  import CloseCoordinators

  type Status = CloseCoordinators.Status

  /** A file by identity. */
  type File = int

  datatype Export = Export(
    terminal: bool,
    done: bool,
    file: Option<File>,
    error: Option<int>,
    progress: real,
    reported: bool)

  const FRESH := Export(false, false, None, None, 0.0, false)

  /** The "progress" branch of `_handle_event`; true when the user callback is called. */
  function ProgressEvent(x: Export, fraction: real): (Export, bool) {
    if x.terminal || fraction < x.progress then (x, false) else (x.(progress := fraction), true)
  }

  /** The block that writes the terminal result, in `_handle_event` and in `stop`. */
  function Terminate(x: Export, code: int, file: File): Export {
    if x.terminal then x
    else x.(terminal := true, done := true,
            file := if code == 0 then Some(file) else None, error := if code != 0 then Some(code) else None)
  }

  function Clamp(fraction: real): (r: real)
    ensures 0.0 <= r <= 1.0
    ensures 0.0 <= fraction <= 1.0 ==> r == fraction
    ensures fraction < 0.0 ==> r == 0.0
    ensures fraction > 1.0 ==> r == 1.0
  {
    if fraction < 0.0 then 0.0 else if fraction > 1.0 then 1.0 else fraction
  }

  /** `progress_detail` when the Runtime answers; it does not ask once the task is closing. */
  function ReadProgress(x: Export, open: bool, fraction: real): Export {
    if open && Clamp(fraction) >= x.progress then x.(progress := Clamp(fraction)) else x
  }

  /** `_load_report` when both native calls succeed. */
  function LoadReport(x: Export, fraction: real): Export {
    if x.reported then x else x.(progress := fraction, reported := true)
  }

  class ExportTask {
    var terminal: bool
    var done: bool
    var file: Option<File>
    var error: Option<int>
    var progress: real
    var reported: bool

    ghost function State(): Export
      reads this
    {
      Export(terminal, done, file, error, progress, reported)
    }

    constructor ()
      ensures State() == FRESH
    {
      terminal, done, file, error, progress, reported := false, false, None, None, 0.0, false;
    }

    method HandleProgress(fraction: real) returns (notify: bool)
      modifies this
      ensures (State(), notify) == ProgressEvent(old(State()), fraction)
    {
      if terminal || fraction < progress {
        return false;
      }
      progress := fraction;
      return true;
    }

    method HandleCompleted(code: int, path: File)
      modifies this
      ensures State() == Terminate(old(State()), code, path)
    {
      if terminal {
        return;
      }
      terminal := true;
      file := if code == 0 then Some(path) else None;
      error := if code != 0 then Some(code) else None;
      done := true;
    }

    method ProgressDetail(open: bool, code: int, fraction: real) returns (detail: Option<real>)
      modifies this
      ensures State() == if open && code != 0 then old(State()) else ReadProgress(old(State()), open, fraction)
      ensures detail == if open && code != 0 then None else Some(progress)
    {
      if open {
        if code != 0 {
          return None;
        }
        var current := if fraction < 0.0 then 0.0 else if fraction > 1.0 then 1.0 else fraction;
        if current >= progress {
          progress := current;
        }
      }
      return Some(progress);
    }

    method Report(reportCode: int, progressCode: int, fraction: real) returns (ok: bool)
      modifies this
      ensures ok == (old(reported) || (reportCode == 0 && progressCode == 0))
      ensures State() == if ok then LoadReport(old(State()), fraction) else old(State())
    {
      if reported {
        return true;
      }
      if reportCode != 0 || progressCode != 0 {
        return false;
      }
      progress := fraction;
      reported := true;
      return true;
    }
  }

  // ---- All callers ------------------------------------------------------------------------------

  /** How a closing generation ended; `CloseCoordinators.CloseProtocol` shows that each thread that
      waited for generation `g` gets `endings[g]`. */
  datatype Ending = Failed(exception: int) | SucceededWith(error: Option<int>)

  datatype Call =
    | Stopping                // in stop(), before begin
    | AwaitingDone            // in wait(), on _done
    | Finishing               // in _finish(), before begin
    | NativeStop(g: nat)
    | Loading(g: nat)
    | Destroying(g: nat)
    | Succeeding(g: nat)
    | Failing(g: nat)
    | Joined(g: nat)
    | Reading                 // in _result_or_error
    | GotFile(file: File)
    | GotError(code: int)
    | Raised

  datatype System = System(x: Export, status: Status, generation: nat, endings: map<nat, Ending>, calls: seq<Call>)

  const INITIAL := System(FRESH, CloseCoordinators.Open, 0, map[], [])

  datatype Step =
    | CallStop
    | CallWait
    | Completed(code: int, file: File)
    | Progress(fraction: real)
    | PollProgress(fraction: real)
    | AskReport(fraction: real)
    | Move(a: nat, ok: bool, code: int, file: File, fraction: real)

  ghost predicate CanStep(s: System, step: Step) {
    match step
    case AskReport(_) => s.x.terminal
    case Move(a, _, _, _, _) =>
      a < |s.calls| &&
      (match s.calls[a]
       case AwaitingDone => s.x.done
       case Joined(g) => g in s.endings
       case GotFile(_) => false
       case GotError(_) => false
       case Raised => false
       case _ => true)
    case _ => true
  }

  function Owned(g: nat, stop: bool, terminal: bool): Call {
    if stop && !terminal then NativeStop(g) else Loading(g)
  }

  function Put(s: System, a: nat, c: Call): System
    requires a < |s.calls|
  {
    s.(calls := s.calls[a := c])
  }

  ghost function Next(s: System, step: Step): System
    requires CanStep(s, step)
  {
    match step
    case CallStop => s.(calls := s.calls + [Stopping])
    case CallWait => s.(calls := s.calls + [AwaitingDone])
    case Completed(code, file) => s.(x := Terminate(s.x, code, file))
    case Progress(fraction) => s.(x := ProgressEvent(s.x, fraction).0)
    case PollProgress(fraction) => s.(x := ReadProgress(s.x, s.status == CloseCoordinators.Open, fraction))
    case AskReport(fraction) => s.(x := LoadReport(s.x, fraction))
    case Move(a, ok, code, file, fraction) =>
      match s.calls[a]
      case AwaitingDone => Put(s, a, Finishing)
      case Stopping => Begin(s, a, true)
      case Finishing => Begin(s, a, false)
      case NativeStop(g) =>
        if ok then Put(s.(x := Terminate(s.x, code, file)), a, Loading(g)) else Put(s, a, Failing(g))
      case Loading(g) =>
        if ok then Put(s.(x := LoadReport(s.x, fraction)), a, Destroying(g)) else Put(s, a, Failing(g))
      case Destroying(g) => Put(s, a, if ok then Succeeding(g) else Failing(g))
      case Succeeding(g) =>
        Put(s.(status := CloseCoordinators.Closed, endings := s.endings[g := SucceededWith(s.x.error)]), a, Reading)
      case Failing(g) =>
        Put(s.(status := CloseCoordinators.CloseFailed, endings := s.endings[g := Failed(code)]), a, Raised)
      case Joined(g) =>
        Put(s, a, match s.endings[g]
                  case Failed(_) => Raised
                  case SucceededWith(error) => if error.Some? then GotError(error.value) else Reading)
      case Reading =>
        Put(s, a, if s.x.error.Some? then GotError(s.x.error.value)
                  else if s.x.file.Some? then GotFile(s.x.file.value) else Raised)
      case _ => s
  }

  /** `_close.begin()` as the first lock block of `stop` and `_finish`. */
  function Begin(s: System, a: nat, stop: bool): System
    requires a < |s.calls|
  {
    match s.status
    case Closing => Put(s, a, Joined(s.generation))
    case Closed => Put(s, a, Reading)
    case _ =>
      Put(s.(status := CloseCoordinators.Closing, generation := s.generation + 1), a,
          Owned(s.generation + 1, stop, s.x.terminal))
  }

  // ---- The invariant ----------------------------------------------------------------------------

  /** Nothing is recorded, or exactly one of file and error is. */
  ghost predicate ResultOk(x: Export) {
    && (x.done <==> x.terminal)
    && (x.terminal <==> x.file.Some? || x.error.Some?)
    && !(x.file.Some? && x.error.Some?)
    && (x.reported ==> x.terminal)
  }

  predicate Owns(c: Call) {
    c.NativeStop? || c.Loading? || c.Destroying? || c.Succeeding? || c.Failing?
  }

  ghost predicate CallOk(s: System, c: Call) {
    && (Owns(c) ==> s.status == CloseCoordinators.Closing && c.g == s.generation)
    && (c.Finishing? || c.Loading? || c.Destroying? || c.Succeeding? || c.Reading? ==> s.x.terminal)
    && (c.GotFile? ==> s.x.file == Some(c.file))
    && (c.GotError? ==> s.x.error == Some(c.code))
  }

  ghost predicate Inv(s: System) {
    && ResultOk(s.x)
    && (forall a :: 0 <= a < |s.calls| ==> CallOk(s, s.calls[a]))
    && (forall a, b :: 0 <= a < b < |s.calls| ==> !(Owns(s.calls[a]) && Owns(s.calls[b])))
    && (s.status == CloseCoordinators.Closed ==> s.x.terminal)
    && (forall g :: g in s.endings && s.endings[g].SucceededWith? ==> s.x.terminal && s.endings[g].error == s.x.error)
  }

  /** What a step may do to the shared record. */
  ghost predicate Advances(x: Export, y: Export) {
    && (x.terminal ==> y.terminal && y.done == x.done && y.file == x.file && y.error == x.error)
    && (!y.reported ==> y.progress >= x.progress)
    && (x.reported ==> y.reported)
  }

  /** The result is written once, and progress falls only by loading the report. */
  lemma StepAdvances(s: System, step: Step)
    requires Inv(s) && CanStep(s, step)
    ensures Advances(s.x, Next(s, step).x)
  {
  }

  lemma InvKept(s: System, step: Step)
    requires Inv(s) && CanStep(s, step)
    ensures Inv(Next(s, step))
  {
    var r := Next(s, step);
    if step.Move? {
      assert CallOk(s, s.calls[step.a]);
      InvMove(s, step);
    } else {
      StepAdvances(s, step);
      assert forall a :: 0 <= a < |s.calls| ==> r.calls[a] == s.calls[a] && CallOk(s, s.calls[a]);
    }
  }

  lemma InvMove(s: System, step: Step)
    requires Inv(s) && CanStep(s, step) && step.Move?
    ensures Inv(Next(s, step))
  {
    var r := Next(s, step);
    StepAdvances(s, step);
    assert CallOk(s, s.calls[step.a]);
    forall b | 0 <= b < |r.calls| ensures CallOk(r, r.calls[b]) {
      if b != step.a {
        assert r.calls[b] == s.calls[b] && CallOk(s, s.calls[b]);
        assert !(Owns(s.calls[b]) && Owns(s.calls[step.a]));
      }
    }
    assert s.status != CloseCoordinators.Closing ==> forall b :: 0 <= b < |s.calls| ==> !Owns(s.calls[b]);
  }

  ghost predicate Path(s: System, steps: seq<Step>, r: System)
    decreases |steps|
  {
    if steps == [] then r == s else CanStep(s, steps[0]) && Path(Next(s, steps[0]), steps[1..], r)
  }

  lemma {:induction false} InvAlong(s: System, steps: seq<Step>, r: System)
    requires Inv(s) && Path(s, steps, r)
    ensures Inv(r) && Advances(s.x, r.x)
    decreases |steps|
  {
    if steps != [] {
      InvKept(s, steps[0]);
      StepAdvances(s, steps[0]);
      InvAlong(Next(s, steps[0]), steps[1..], r);
    }
  }

  /** Over all races: `_done` is set exactly when the task is terminal, exactly one of file and
      error is then there and never changes, progress never falls before the report is loaded. */
  lemma ResultWrittenOnce(prefix: seq<Step>, s: System, steps: seq<Step>, r: System)
    requires Path(INITIAL, prefix, s) && Path(s, steps, r)
    ensures r.x.done <==> r.x.terminal
    ensures r.x.terminal <==> (r.x.file.Some? != r.x.error.Some?)
    ensures !r.x.terminal ==> r.x.file.None? && r.x.error.None?
    ensures s.x.terminal ==> r.x.file == s.x.file && r.x.error == s.x.error
    ensures !r.x.reported ==> s.x.progress <= r.x.progress
  {
    InvAlong(INITIAL, prefix, s);
    InvAlong(s, steps, r);
  }

  // ---- Which result it is -----------------------------------------------------------------------

  /** The code and file of the first completed event or accepted native stop of a run. */
  ghost function FirstResult(s: System, steps: seq<Step>): Option<(int, File)>
    decreases |steps|
  {
    if steps == [] || !CanStep(s, steps[0]) then None
    else
      match steps[0]
      case Completed(code, file) => Some((code, file))
      case Move(a, ok, code, file, _) =>
        if s.calls[a].NativeStop? && ok then Some((code, file)) else FirstResult(Next(s, steps[0]), steps[1..])
      case _ => FirstResult(Next(s, steps[0]), steps[1..])
  }

  /** The record says that `result` came first. */
  ghost predicate Records(x: Export, result: Option<(int, File)>) {
    match result
    case None => x.file.None? && x.error.None?
    case Some((code, file)) =>
      if code == 0 then x.file == Some(file) && x.error.None? else x.file.None? && x.error == Some(code)
  }

  lemma {:induction false} FirstRecorded(s: System, steps: seq<Step>, r: System)
    requires Inv(s) && Path(s, steps, r) && !s.x.terminal
    ensures Records(r.x, FirstResult(s, steps))
    decreases |steps|
  {
    if steps != [] {
      var n := Next(s, steps[0]);
      InvKept(s, steps[0]);
      InvAlong(n, steps[1..], r);
      if !n.x.terminal {
        FirstRecorded(n, steps[1..], r);
      }
    }
  }

  /** Over every run, the first completed event or accepted native stop decides: with code 0 its file is
      the result and every caller that gets one gets that file; with another code there is no file, and
      every caller that gets a result gets that code. */
  lemma FirstResultWins(steps: seq<Step>, r: System, a: nat)
    requires Path(INITIAL, steps, r) && a < |r.calls|
    ensures Records(r.x, FirstResult(INITIAL, steps))
    ensures r.calls[a].GotFile? ==> FirstResult(INITIAL, steps) == Some((0, r.calls[a].file))
    ensures
      var first := FirstResult(INITIAL, steps);
      r.calls[a].GotError? ==> first.Some? && first.value.0 == r.calls[a].code != 0
  {
    FirstRecorded(INITIAL, steps, r);
    InvAlong(INITIAL, steps, r);
    assert CallOk(r, r.calls[a]);
  }

  /** Any two callers of `stop`, `wait` or the parent's close that get a result get the same one, it
      is the recorded one, and the read of the result never finds it missing. */
  lemma SameResultForAll(steps: seq<Step>, r: System, a: nat, b: nat)
    requires Path(INITIAL, steps, r) && a < |r.calls| && b < |r.calls|
    ensures r.calls[a].GotFile? ==> r.x.file == Some(r.calls[a].file)
    ensures r.calls[a].GotError? ==> r.x.error == Some(r.calls[a].code)
    ensures (r.calls[a].GotFile? || r.calls[a].GotError?) && (r.calls[b].GotFile? || r.calls[b].GotError?) ==>
              r.calls[a] == r.calls[b]
    ensures r.calls[a].Reading? ==> !Next(r, Move(a, true, 0, 0, 0.0)).calls[a].Raised?
  {
    InvAlong(INITIAL, steps, r);
    assert CallOk(r, r.calls[a]) && CallOk(r, r.calls[b]);
  }
}
