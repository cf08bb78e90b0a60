/** What every run of `CloseWaits` keeps about outputs on their way in and out of a replay, and about
    the objects whose callbacks are running. */
module CloseFlags {
  import opened Wrappers
  import opened CloseWaits

  /** The thread is past the check of a detach of output `o` and has not unbound it. */
  predicate Releasing(c: Call, o: nat) {
    (c.phase == Waiting(o) && c.stack != [] && Top(c).target != o) || (c.phase.Detaching? && c.phase.o == o)
  }

  function ReleasedFrom(c: Call): Option<nat> {
    match c.phase
    case Waiting(_) => if c.stack != [] then Some(Top(c).target) else None
    case Detaching(_, r) => Some(r)
    case _ => None
  }

  predicate Attaching(c: Call, o: nat) {
    c.phase.AttachHeld? && c.phase.o == o
  }

  ghost predicate HasReleaser(s: System, o: nat) {
    exists a: nat :: a < |s.calls| && Releasing(s.calls[a], o)
  }

  /** An output that is being released stays bound where it was, and one that is being attached is
      unbound: one thread at a time does either. */
  ghost predicate ReleasersOk(s: System) {
    && (forall a: nat, o: nat {:trigger Releasing(s.calls[a], o)} :: a < |s.calls| && Releasing(s.calls[a], o) ==>
          o < |s.objects| && s.objects[o].detaching && s.objects[o].bound == ReleasedFrom(s.calls[a]))
    && (forall a: nat, b: nat, o: nat {:trigger Releasing(s.calls[a], o), Releasing(s.calls[b], o)} ::
          a < |s.calls| && b < |s.calls| && Releasing(s.calls[a], o) && Releasing(s.calls[b], o) ==> a == b)
    && (forall o: nat :: o < |s.objects| && s.objects[o].detaching ==> HasReleaser(s, o))
  }

  ghost predicate AttachersOk(s: System) {
    && (forall a: nat, o: nat {:trigger Attaching(s.calls[a], o)} :: a < |s.calls| && Attaching(s.calls[a], o) ==>
          o < |s.objects| && s.objects[o].bound.None? && !s.objects[o].detaching && s.objects[o].status.Open?)
    && (forall a: nat, b: nat, o: nat {:trigger Attaching(s.calls[a], o), Attaching(s.calls[b], o)} ::
          a < |s.calls| && b < |s.calls| && Attaching(s.calls[a], o) && Attaching(s.calls[b], o) ==> a == b)
  }

  /** Outputs are not closed here, nothing is done to an unborn object, and no callback of a closed
      object is running. */
  ghost predicate StatusOk(s: System) {
    && |s.objects| == |s.kinds|
    && (forall o :: 0 <= o < |s.objects| && s.kinds[o].OutputKind? ==>
          s.objects[o].status.Unborn? || s.objects[o].status.Open?)
    && (forall x :: 0 <= x < |s.objects| && s.objects[x].status.Unborn? ==> s.objects[x] == UNBORN)
    && (forall a :: 0 <= a < |s.calls| && s.calls[a].owner.Some? ==>
          s.calls[a].owner.value < |s.objects| &&
          OwnerLive(s.kinds[s.calls[a].owner.value], s.objects[s.calls[a].owner.value]))
  }

  predicate OwnerLive(k: Kind, y: Object) {
    !y.status.Unborn? && (HasDispatcher(k) ==> !y.status.Closed?)
  }

  ghost predicate FlagsOk(s: System) {
    ReleasersOk(s) && AttachersOk(s) && StatusOk(s)
  }

  // ---- What a step does to an output ----------------------------------------------------------------

  function FlagsAfter(s: System, step: Step, o: nat): (Option<nat>, bool)
    requires o < |s.objects|
  {
    var now := (s.objects[o].bound, s.objects[o].detaching);
    match step
    case Create(x) => if x == o then (None, false) else now
    case VisitOutput(a, x) =>
      if a < |s.calls| && s.calls[a].stack != [] && x == o && now.0 == Some(Top(s.calls[a]).target) && !now.1 &&
         s.calls[a].owner != Some(o) && s.calls[a].owner != Some(Top(s.calls[a]).target)
      then (now.0, true) else now
    case WaitDone(a) =>
      if a < |s.calls| && s.calls[a].phase == Waiting(o) && s.calls[a].stack != [] && Top(s.calls[a]).target != o
      then (None, false) else now
    case AttachEnd(a, ok) =>
      if ok && a < |s.calls| && Attaching(s.calls[a], o) then (Some(s.calls[a].phase.r), now.1) else now
    case DetachStart(_, x) => if x == o then (now.0, true) else now
    case DetachDone(a) => if a < |s.calls| && Releasing(s.calls[a], o) then (None, false) else now
    case _ => now
  }

  lemma FlagsStep(s: System, step: Step, o: nat)
    requires CanStep(s, step) && o < |s.objects|
    ensures o < |Next(s, step).objects|
    ensures (Next(s, step).objects[o].bound, Next(s, step).objects[o].detaching) == FlagsAfter(s, step, o)
  {
  }

  /** How a step changes what its thread releases and attaches. */
  lemma ReleaseStep(s: System, step: Step, o: nat)
    requires CanStep(s, step) && Moves(step)
    ensures
      var c, d := s.calls[step.a], Next(s, step).calls[step.a];
      && (Releasing(d, o) && !Releasing(c, o) ==>
            o < |s.objects| && FlagsAfter(s, step, o) == (s.objects[o].bound, true) && !s.objects[o].detaching &&
            s.objects[o].bound == ReleasedFrom(d) && LockFree(s, o))
      && !(Releasing(d, o) && Releasing(c, o))
      && (Releasing(c, o) && !Releasing(d, o) && o < |s.objects| ==> FlagsAfter(s, step, o) == (None, false))
  {
  }

  lemma AttachStep(s: System, step: Step, o: nat)
    requires CanStep(s, step) && Moves(step)
    ensures
      var c, d := s.calls[step.a], Next(s, step).calls[step.a];
      && (Attaching(d, o) && !Attaching(c, o) ==>
            o < |s.objects| && s.objects[o].status.Open? && s.objects[o].bound.None? && LockFree(s, o) &&
            FlagsAfter(s, step, o) == (s.objects[o].bound, s.objects[o].detaching))
      && !(Attaching(c, o) && Attaching(d, o))
  {
  }

  lemma TopNoOutput(s: System, a: nat)
    requires Inv(s) && a < |s.calls|
    ensures
      var c := s.calls[a];
      c.stack != [] ==> Top(c).target < |s.kinds| && !s.kinds[Top(c).target].OutputKind?
    ensures
      var c := s.calls[a];
      c.stack != [] ==> s.objects[Top(c).target].status.Closing?
  {
    var c := s.calls[a];
    assert CallOk(s.kinds, c);
    if c.stack != [] {
      assert Passed(s.kinds, c.owner, Top(c).seen, Top(c).target);
      assert Holds(s, a, |c.stack| - 1, Top(c).target);
    }
  }

  /** Only its releaser and its attacher change the flags of an output, and whoever begins to release. */
  lemma FlagsOthers(s: System, step: Step, o: nat)
    requires Inv(s) && CanStep(s, step) && o < |s.objects|
    requires FlagsAfter(s, step, o) != (s.objects[o].bound, s.objects[o].detaching)
    ensures step.Create? || Moves(step)
    ensures step.Create? ==> s.objects[o].status.Unborn?
    ensures Moves(step) ==>
              var c, d := s.calls[step.a], Next(s, step).calls[step.a];
              || (Releasing(c, o) && !Releasing(d, o))
              || (Releasing(d, o) && !Releasing(c, o))
              || (Attaching(c, o) && !Attaching(d, o) && FlagsAfter(s, step, o).1 == s.objects[o].detaching)
  {
    if Moves(step) {
      TopNoOutput(s, step.a);
    }
  }

  lemma UnboundStays(s: System, o: nat)
    requires ReleasersOk(s) && o < |s.objects| && s.objects[o].bound.None?
    ensures !s.objects[o].detaching
  {
    forall a: nat | a < |s.calls| ensures !Releasing(s.calls[a], o) {
      assert Releasing(s.calls[a], o) ==> s.objects[o].bound == ReleasedFrom(s.calls[a]);
      assert ReleasedFrom(s.calls[a]).None? ==> !Releasing(s.calls[a], o);
    }
    assert s.objects[o].detaching ==> HasReleaser(s, o);
  }

  // ---- Preservation ---------------------------------------------------------------------------------

  lemma UniqueReleaser(s: System, step: Step, a: nat, b: nat, o: nat)
    requires Inv(s) && FlagsOk(s) && CanStep(s, step)
    requires a < |Next(s, step).calls| && b < |Next(s, step).calls|
    requires Releasing(Next(s, step).calls[a], o) && Releasing(Next(s, step).calls[b], o)
    ensures a == b
  {
    CallsLength(s, step);
    if Moves(step) {
      ReleaseStep(s, step, o);
    }
    if a < |s.calls| && !(Moves(step) && a == step.a) { OthersStay(s, step, a); }
    if b < |s.calls| && !(Moves(step) && b == step.a) { OthersStay(s, step, b); }
  }

  lemma ReleaserFacts(s: System, a: nat, o: nat)
    requires ReleasersOk(s) && a < |s.calls| && Releasing(s.calls[a], o)
    ensures o < |s.objects| && s.objects[o].detaching && s.objects[o].bound == ReleasedFrom(s.calls[a])
  {
  }

  lemma ReleaserKeptOwn(s: System, step: Step, o: nat)
    requires Inv(s) && FlagsOk(s) && CanStep(s, step) && Moves(step) && Releasing(Next(s, step).calls[step.a], o)
    ensures o < |Next(s, step).objects| && Next(s, step).objects[o].detaching
    ensures Next(s, step).objects[o].bound == ReleasedFrom(Next(s, step).calls[step.a])
  {
    ReleaseStep(s, step, o);
    FlagsStep(s, step, o);
  }

  lemma ReleaserKept(s: System, step: Step, a: nat, o: nat)
    requires Inv(s) && FlagsOk(s) && CanStep(s, step)
    requires a < |Next(s, step).calls| && Releasing(Next(s, step).calls[a], o)
    ensures o < |Next(s, step).objects| && Next(s, step).objects[o].detaching
    ensures Next(s, step).objects[o].bound == ReleasedFrom(Next(s, step).calls[a])
  {
    CallsLength(s, step);
    if Moves(step) && a == step.a {
      ReleaserKeptOwn(s, step, o);
    } else {
      assert a < |s.calls|;
      OthersStay(s, step, a);
      ReleaserFacts(s, a, o);
      FlagsStep(s, step, o);
      if FlagsAfter(s, step, o) != (s.objects[o].bound, s.objects[o].detaching) {
        FlagsOthers(s, step, o);
        if Moves(step) {
          ReleaseStep(s, step, o);
        }
      }
    }
  }

  lemma HasReleaserKept(s: System, step: Step, o: nat)
    requires Inv(s) && FlagsOk(s) && CanStep(s, step)
    requires o < |Next(s, step).objects| && Next(s, step).objects[o].detaching
    ensures HasReleaser(Next(s, step), o)
  {
    ObjectsLength(s, step);
    FlagsStep(s, step, o);
    if Moves(step) && Releasing(Next(s, step).calls[step.a], o) {
    } else if s.objects[o].detaching {
      assert HasReleaser(s, o);
      var a: nat :| a < |s.calls| && Releasing(s.calls[a], o);
      if Moves(step) && a == step.a {
        ReleaseStep(s, step, o);
      } else {
        OthersStay(s, step, a);
      }
    } else {
      FlagsOthers(s, step, o);
      if Moves(step) {
        ReleaseStep(s, step, o);
      }
    }
  }

  lemma ObjectsLength(s: System, step: Step)
    requires CanStep(s, step)
    ensures |Next(s, step).objects| == |s.objects| == |s.kinds| && Next(s, step).kinds == s.kinds
  {
  }

  lemma ReleasersKept(s: System, step: Step)
    requires Inv(s) && FlagsOk(s) && CanStep(s, step)
    ensures ReleasersOk(Next(s, step))
  {
    var r := Next(s, step);
    forall a: nat, o: nat | a < |r.calls| && Releasing(r.calls[a], o)
      ensures o < |r.objects| && r.objects[o].detaching && r.objects[o].bound == ReleasedFrom(r.calls[a])
    {
      ReleaserKept(s, step, a, o);
    }
    forall a: nat, b: nat, o: nat |
      a < |r.calls| && b < |r.calls| && Releasing(r.calls[a], o) && Releasing(r.calls[b], o)
      ensures a == b
    {
      UniqueReleaser(s, step, a, b, o);
    }
    forall o: nat | o < |r.objects| && r.objects[o].detaching ensures HasReleaser(r, o) {
      HasReleaserKept(s, step, o);
    }
  }

  lemma AttacherKeptOwn(s: System, step: Step, o: nat)
    requires Inv(s) && FlagsOk(s) && CanStep(s, step) && Moves(step) && Attaching(Next(s, step).calls[step.a], o)
    ensures
      var y := Next(s, step).objects;
      o < |y| && y[o].bound.None? && !y[o].detaching && y[o].status.Open?
  {
    AttachStep(s, step, o);
    UnboundStays(s, o);
    FlagsStep(s, step, o);
    AttachStatus(s, step, o);
  }

  lemma AttachStatus(s: System, step: Step, o: nat)
    requires CanStep(s, step) && Moves(step)
    requires Attaching(Next(s, step).calls[step.a], o) && !Attaching(s.calls[step.a], o)
    ensures o < |s.objects| && o < |Next(s, step).objects| && Next(s, step).objects[o].status == s.objects[o].status
  {
  }

  lemma AttacherKeptOther(s: System, step: Step, a: nat, o: nat)
    requires Inv(s) && FlagsOk(s) && CanStep(s, step) && a < |s.calls| && Attaching(s.calls[a], o)
    requires Moves(step) ==> a != step.a
    ensures
      var y := Next(s, step).objects;
      o < |y| && y[o].bound.None? && !y[o].detaching && y[o].status.Open?
  {
    StatusStep(s, step, o);
    FlagsStep(s, step, o);
    assert CallOk(s.kinds, s.calls[a]);
    if FlagsAfter(s, step, o) != (s.objects[o].bound, s.objects[o].detaching) {
      FlagsOthers(s, step, o);
      if Moves(step) {
        ReleaseStep(s, step, o);
        AttachStep(s, step, o);
      }
    }
  }

  lemma AttacherKept(s: System, step: Step, a: nat, o: nat)
    requires Inv(s) && FlagsOk(s) && CanStep(s, step)
    requires a < |Next(s, step).calls| && Attaching(Next(s, step).calls[a], o)
    ensures
      var y := Next(s, step).objects;
      o < |y| && y[o].bound.None? && !y[o].detaching && y[o].status.Open?
  {
    CallsLength(s, step);
    if Moves(step) && a == step.a {
      AttacherKeptOwn(s, step, o);
    } else {
      assert a < |s.calls|;
      OthersStay(s, step, a);
      AttacherKeptOther(s, step, a, o);
    }
  }

  lemma UniqueAttacher(s: System, step: Step, a: nat, b: nat, o: nat)
    requires FlagsOk(s) && CanStep(s, step)
    requires a < |Next(s, step).calls| && b < |Next(s, step).calls|
    requires Attaching(Next(s, step).calls[a], o) && Attaching(Next(s, step).calls[b], o)
    ensures a == b
  {
    CallsLength(s, step);
    if Moves(step) {
      AttachStep(s, step, o);
    }
    if a < |s.calls| && !(Moves(step) && a == step.a) { OthersStay(s, step, a); }
    if b < |s.calls| && !(Moves(step) && b == step.a) { OthersStay(s, step, b); }
  }

  // ---- Statuses ---------------------------------------------------------------------------------------

  /** The status of an output changes only by its birth, and no status goes back to unborn. */
  lemma StatusStep(s: System, step: Step, x: nat)
    requires Inv(s) && CanStep(s, step) && x < |s.objects|
    ensures x < |Next(s, step).objects|
    ensures s.kinds[x].OutputKind? ==>
              Next(s, step).objects[x].status == s.objects[x].status || Next(s, step).objects[x].status.Open?
    ensures !s.objects[x].status.Unborn? ==> !Next(s, step).objects[x].status.Unborn?
  {
    if Moves(step) {
      TopNoOutput(s, step.a);
    }
  }

  lemma OwnersKept(s: System, step: Step, b: nat)
    requires Inv(s) && FlagsOk(s) && CanStep(s, step) && b < |Next(s, step).calls| && Next(s, step).calls[b].owner.Some?
    ensures
      var r, x := Next(s, step), Next(s, step).calls[b].owner.value;
      x < |r.objects| && OwnerLive(r.kinds[x], r.objects[x])
  {
    CallsLength(s, step);
    ObjectsLength(s, step);
    var x := Next(s, step).calls[b].owner.value;
    if b < |s.calls| {
      OwnerSame(s, step, b);
    }
    StatusStep(s, step, x);
    if HasDispatcher(s.kinds[x]) && Next(s, step).objects[x].status.Closed? && !s.objects[x].status.Closed? {
      ClosedQuiet(s, step, x);
    }
  }

  lemma OwnerSame(s: System, step: Step, b: nat)
    requires CanStep(s, step) && b < |s.calls| && b < |Next(s, step).calls| && Next(s, step).calls[b].owner.Some?
    ensures Next(s, step).calls[b].owner == s.calls[b].owner
  {
  }

  /** An object with a dispatcher is closed only when nobody is in one of its callbacks. */
  lemma ClosedQuiet(s: System, step: Step, x: nat)
    requires Inv(s) && CanStep(s, step) && x < |s.objects| && HasDispatcher(s.kinds[x]) && !s.objects[x].status.Closed?
    requires x < |Next(s, step).objects| && Next(s, step).objects[x].status.Closed?
    ensures !step.Thread? && Quiet(s, x)
  {
  }

  lemma StatusKept(s: System, step: Step)
    requires Inv(s) && FlagsOk(s) && CanStep(s, step)
    ensures StatusOk(Next(s, step))
  {
    var r := Next(s, step);
    ObjectsLength(s, step);
    forall o | 0 <= o < |r.objects| && r.kinds[o].OutputKind?
      ensures r.objects[o].status.Unborn? || r.objects[o].status.Open?
    {
      StatusStep(s, step, o);
    }
    forall x | 0 <= x < |r.objects| && r.objects[x].status.Unborn? ensures r.objects[x] == UNBORN {
      UnbornStays(s, step, x);
    }
    forall b | 0 <= b < |r.calls| && r.calls[b].owner.Some?
      ensures r.calls[b].owner.value < |r.objects| &&
              OwnerLive(r.kinds[r.calls[b].owner.value], r.objects[r.calls[b].owner.value])
    {
      OwnersKept(s, step, b);
    }
  }

  lemma UnbornStays(s: System, step: Step, x: nat)
    requires Inv(s) && FlagsOk(s) && CanStep(s, step) && x < |s.objects| && x < |Next(s, step).objects|
    requires Next(s, step).objects[x].status.Unborn?
    ensures Next(s, step).objects[x] == UNBORN
  {
    StatusStep(s, step, x);
    FlagsStep(s, step, x);
    if FlagsAfter(s, step, x) != (s.objects[x].bound, s.objects[x].detaching) {
      FlagsOthers(s, step, x);
    }
  }

  lemma FlagsKept(s: System, step: Step)
    requires Inv(s) && FlagsOk(s) && CanStep(s, step)
    ensures FlagsOk(Next(s, step))
  {
    var r := Next(s, step);
    ReleasersKept(s, step);
    StatusKept(s, step);
    forall a: nat, o: nat | a < |r.calls| && Attaching(r.calls[a], o)
      ensures o < |r.objects| && r.objects[o].bound.None? && !r.objects[o].detaching && r.objects[o].status.Open?
    {
      AttacherKept(s, step, a, o);
    }
    forall a: nat, b: nat, o: nat |
      a < |r.calls| && b < |r.calls| && Attaching(r.calls[a], o) && Attaching(r.calls[b], o)
      ensures a == b
    {
      UniqueAttacher(s, step, a, b, o);
    }
  }

  lemma {:induction false} FlagsAlong(s: System, steps: seq<Step>, r: System)
    requires Inv(s) && FlagsOk(s) && Path(s, steps, r)
    ensures FlagsOk(r)
    decreases |steps|
  {
    if steps != [] {
      FlagsKept(s, steps[0]);
      InvKept(s, steps[0]);
      FlagsAlong(Next(s, steps[0]), steps[1..], r);
    }
  }
}
