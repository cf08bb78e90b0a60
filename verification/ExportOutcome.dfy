/** What the callers of an export see, over every run of `ExportTasks`: the progress, the answer of a
    close that begins or is joined, and what has been done by the time the task is closed. */
module ExportOutcome {
  import opened Wrappers
  import opened ExportTasks
  import CloseCoordinators

  // ---- Progress -----------------------------------------------------------------------------------

  /** The fraction that a step reports: an event before the result, or an answer while the task is open,
      which is cut to the range from 0 to 1. */
  function Reported(s: System, step: Step): seq<real> {
    match step
    case Progress(fraction) => if s.x.terminal then [] else [fraction]
    case PollProgress(fraction) =>
      if s.status != CloseCoordinators.Open then []
      else [if fraction < 0.0 then 0.0 else if fraction > 1.0 then 1.0 else fraction]
    case _ => []
  }

  /** The first report that is loaded, with its fraction. */
  function Loaded(s: System, step: Step): Option<real> {
    if s.x.reported then None
    else
      match step
      case AskReport(fraction) => Some(fraction)
      case Move(a, ok, _, _, fraction) => if ok && a < |s.calls| && s.calls[a].Loading? then Some(fraction) else None
      case _ => None
  }

  /** The fraction progress starts from, and those reported since: the loaded report starts anew. */
  ghost function Fractions(s: System, steps: seq<Step>, base: real, seen: seq<real>): (real, seq<real>)
    decreases |steps|
  {
    if steps == [] || !CanStep(s, steps[0]) then (base, seen)
    else if Loaded(s, steps[0]).Some? then Fractions(Next(s, steps[0]), steps[1..], Loaded(s, steps[0]).value, [])
    else Fractions(Next(s, steps[0]), steps[1..], base, seen + Reported(s, steps[0]))
  }

  ghost predicate IsMaximum(progress: real, base: real, seen: seq<real>) {
    && base <= progress && (forall k :: 0 <= k < |seen| ==> seen[k] <= progress)
    && (progress == base || progress in seen)
  }

  lemma MaximumStep(s: System, step: Step, base: real, seen: seq<real>)
    requires CanStep(s, step) && IsMaximum(s.x.progress, base, seen)
    ensures
      var x := Next(s, step).x;
      if Loaded(s, step).Some? then IsMaximum(x.progress, Loaded(s, step).value, [])
      else IsMaximum(x.progress, base, seen + Reported(s, step))
  {
    var more := Reported(s, step);
    if Loaded(s, step).None? {
      if more == [] {
        assert seen + more == seen;
      } else {
        assert (seen + more)[|seen|] == more[0];
      }
    }
  }

  lemma {:induction false} MaximumAlong(s: System, steps: seq<Step>, r: System, base: real, seen: seq<real>)
    requires Path(s, steps, r) && IsMaximum(s.x.progress, base, seen)
    ensures
      var (b, fractions) := Fractions(s, steps, base, seen);
      IsMaximum(r.x.progress, b, fractions)
    decreases |steps|
  {
    if steps != [] {
      MaximumStep(s, steps[0], base, seen);
      if Loaded(s, steps[0]).Some? {
        MaximumAlong(Next(s, steps[0]), steps[1..], r, Loaded(s, steps[0]).value, []);
      } else {
        MaximumAlong(Next(s, steps[0]), steps[1..], r, base, seen + Reported(s, steps[0]));
      }
    }
  }

  /** Over every run the progress is the largest fraction reported so far, from 0 on, and after the report
      has been loaded from the fraction of the report on; a progress event reaches the user exactly when
      there is no result yet and nothing larger has been reported. */
  lemma ProgressIsMaximum(steps: seq<Step>, r: System, fraction: real)
    requires Path(INITIAL, steps, r)
    ensures
      var (base, fractions) := Fractions(INITIAL, steps, 0.0, []);
      && IsMaximum(r.x.progress, base, fractions)
      && (ProgressEvent(r.x, fraction).1 <==>
            FirstResult(INITIAL, steps).None? && base <= fraction &&
            forall k :: 0 <= k < |fractions| ==> fractions[k] <= fraction)
  {
    MaximumAlong(INITIAL, steps, r, 0.0, []);
    FirstRecorded(INITIAL, steps, r);
    InvAlong(INITIAL, steps, r);
  }

  // ---- Who closes ---------------------------------------------------------------------------------

  predicate SomeOwner(s: System) {
    exists a :: 0 <= a < |s.calls| && Owns(s.calls[a])
  }

  ghost predicate SomeSuccess(s: System) {
    exists g :: g in s.endings && s.endings[g].SucceededWith?
  }

  /** What the status says about the closes so far. */
  ghost predicate StatusTrue(s: System) {
    && (s.status == CloseCoordinators.Closing <==> SomeOwner(s))
    && (s.status == CloseCoordinators.Closed <==> SomeSuccess(s))
    && (forall g :: g in s.endings ==> g <= s.generation)
    && (s.status == CloseCoordinators.Closing ==> s.generation !in s.endings)
  }

  lemma OwnerStays(s: System, step: Step, b: nat)
    requires CanStep(s, step) && b < |s.calls| && Owns(s.calls[b])
    requires !(step.Move? && step.a == b && (s.calls[b].Succeeding? || s.calls[b].Failing?))
    ensures b < |Next(s, step).calls| && Owns(Next(s, step).calls[b])
  {
  }

  lemma StatusMoves(s: System, step: Step)
    requires Inv(s) && StatusTrue(s) && CanStep(s, step)
    ensures
      var r := Next(s, step);
      if step.Move? && (s.calls[step.a].Succeeding? || s.calls[step.a].Failing?) then !SomeOwner(r)
      else if step.Move? && Owns(r.calls[step.a]) then SomeOwner(r)
      else SomeOwner(r) <==> SomeOwner(s)
  {
    var r := Next(s, step);
    if step.Move? {
      assert CallOk(s, s.calls[step.a]);
      assert r.calls == s.calls[step.a := r.calls[step.a]];
      forall b | 0 <= b < |s.calls| && b != step.a ensures r.calls[b] == s.calls[b] {
      }
    } else {
      forall b | 0 <= b < |s.calls| ensures r.calls[b] == s.calls[b] {
      }
    }
    if SomeOwner(s) {
      var b :| 0 <= b < |s.calls| && Owns(s.calls[b]);
      if !(step.Move? && (s.calls[step.a].Succeeding? || s.calls[step.a].Failing?)) {
        OwnerStays(s, step, b);
      }
    }
  }

  lemma EndingsKept(s: System, step: Step)
    requires Inv(s) && StatusTrue(s) && CanStep(s, step)
    ensures
      var r := Next(s, step);
      && (forall g :: g in r.endings ==> g <= r.generation)
      && (r.status == CloseCoordinators.Closing ==> r.generation !in r.endings)
      && (SomeSuccess(r) <==> SomeSuccess(s) || (step.Move? && s.calls[step.a].Succeeding?))
  {
    var r := Next(s, step);
    if step.Move? {
      assert CallOk(s, s.calls[step.a]);
    }
    if SomeSuccess(s) {
      var g :| g in s.endings && s.endings[g].SucceededWith?;
      assert g in r.endings && r.endings[g].SucceededWith?;
    }
    if step.Move? && s.calls[step.a].Succeeding? {
      assert r.endings[s.calls[step.a].g].SucceededWith?;
    }
  }

  lemma StatusKept(s: System, step: Step)
    requires Inv(s) && StatusTrue(s) && CanStep(s, step)
    ensures StatusTrue(Next(s, step))
  {
    StatusMoves(s, step);
    EndingsKept(s, step);
    if step.Move? {
      assert CallOk(s, s.calls[step.a]);
    }
  }

  lemma {:induction false} StatusAlong(s: System, steps: seq<Step>, r: System)
    requires Inv(s) && StatusTrue(s) && Path(s, steps, r)
    ensures Inv(r) && StatusTrue(r)
    decreases |steps|
  {
    if steps != [] {
      StatusKept(s, steps[0]);
      InvKept(s, steps[0]);
      StatusAlong(Next(s, steps[0]), steps[1..], r);
    }
  }

  /** What a `stop`, a `wait` or the parent's close meets when it begins, by what has happened alone: the
      result, if some close has succeeded; the close of another caller, if one is in progress; and otherwise,
      after any number of failed ones, it owns a new one.  It stops the native task only when there is no
      result yet. */
  lemma BeginMeets(steps: seq<Step>, s: System, a: nat, m: Step)
    requires Path(INITIAL, steps, s) && CanStep(s, m) && m.Move? && m.a == a
    requires s.calls[a].Stopping? || s.calls[a].Finishing?
    ensures
      var answer := Next(s, m).calls[a];
      && (answer.Reading? <==> SomeSuccess(s))
      && (answer.Joined? <==> SomeOwner(s))
      && (Owns(answer) <==> !SomeSuccess(s) && !SomeOwner(s))
      && (Owns(answer) ==> forall g :: g in s.endings ==> g < answer.g)
      && (answer.Joined? ==> exists b :: 0 <= b < |s.calls| && Owns(s.calls[b]) && s.calls[b].g == answer.g)
      && (answer.NativeStop? <==> Owns(answer) && s.calls[a].Stopping? && FirstResult(INITIAL, steps).None?)
  {
    StatusAlong(INITIAL, steps, s);
    FirstRecorded(INITIAL, steps, s);
    if SomeOwner(s) {
      var b :| 0 <= b < |s.calls| && Owns(s.calls[b]);
      assert CallOk(s, s.calls[b]);
    }
  }

  /** What a caller gets that joined a close: an exception if that close failed, and otherwise the error
      that came first, or else it reads the file. */
  lemma JoinGets(steps: seq<Step>, s: System, a: nat, m: Step)
    requires Path(INITIAL, steps, s) && CanStep(s, m) && m.Move? && m.a == a && s.calls[a].Joined?
    ensures
      var answer, ending, first := Next(s, m).calls[a], s.endings[s.calls[a].g], FirstResult(INITIAL, steps);
      && (answer == Raised <==> ending.Failed?)
      && (ending.SucceededWith? ==>
            && first.Some?
            && (first.value.0 != 0 ==> answer == GotError(first.value.0))
            && (first.value.0 == 0 ==> answer == Reading))
  {
    InvAlong(INITIAL, steps, s);
    FirstRecorded(INITIAL, steps, s);
  }

  /** The caller that closes raises exactly if its close failed, and otherwise reads the result. */
  lemma OwnerGets(s: System, a: nat, m: Step)
    requires CanStep(s, m) && m.Move? && m.a == a && (s.calls[a].Succeeding? || s.calls[a].Failing?)
    ensures
      var answer, ending := Next(s, m).calls[a], Next(s, m).endings[s.calls[a].g];
      && (answer == Raised <==> ending.Failed?)
      && (answer.Reading? <==> ending.SucceededWith?)
  {
  }

  // ---- What a closed task has behind it -------------------------------------------------------------

  /** Some owner got its native destroy through. */
  ghost predicate DestroyedIn(s: System, steps: seq<Step>)
    decreases |steps|
  {
    steps != [] && CanStep(s, steps[0]) &&
    ((steps[0].Move? && steps[0].ok && s.calls[steps[0].a].Destroying?) || DestroyedIn(Next(s, steps[0]), steps[1..]))
  }

  /** Past its destroy a close has loaded the report and destroyed the native task. */
  ghost predicate PastDestroy(s: System, destroyed: bool) {
    && (forall a :: 0 <= a < |s.calls| && (s.calls[a].Destroying? || s.calls[a].Succeeding?) ==> s.x.reported)
    && (forall a :: 0 <= a < |s.calls| && s.calls[a].Succeeding? ==> destroyed)
    && (s.status == CloseCoordinators.Closed ==> s.x.reported && destroyed)
  }

  lemma PastDestroyKept(s: System, step: Step, destroyed: bool)
    requires Inv(s) && CanStep(s, step) && PastDestroy(s, destroyed)
    ensures PastDestroy(Next(s, step), destroyed || (step.Move? && step.ok && s.calls[step.a].Destroying?))
  {
    StepAdvances(s, step);
    var r := Next(s, step);
    if step.Move? {
      assert CallOk(s, s.calls[step.a]);
      assert r.calls == s.calls[step.a := r.calls[step.a]];
    }
  }

  lemma {:induction false} PastDestroyAlong(s: System, steps: seq<Step>, r: System, destroyed: bool)
    requires Inv(s) && Path(s, steps, r) && PastDestroy(s, destroyed)
    ensures PastDestroy(r, destroyed || DestroyedIn(s, steps))
    decreases |steps|
  {
    if steps != [] {
      var done := steps[0].Move? && steps[0].ok && s.calls[steps[0].a].Destroying?;
      PastDestroyKept(s, steps[0], destroyed);
      InvKept(s, steps[0]);
      PastDestroyAlong(Next(s, steps[0]), steps[1..], r, destroyed || done);
    }
  }

  /** A closed task has its result and its report, and its native object has been destroyed. */
  lemma ClosedHasAll(steps: seq<Step>, r: System)
    requires Path(INITIAL, steps, r) && r.status == CloseCoordinators.Closed
    ensures r.x.terminal && r.x.reported && DestroyedIn(INITIAL, steps)
  {
    InvAlong(INITIAL, steps, r);
    PastDestroyAlong(INITIAL, steps, r, false);
  }
}
