/** Exactly when an output stays bound to a closed parent: over all runs, those that re-attach inside
    the tail of a detach included. */
module OutputOrphans {
  import opened Wrappers
  import opened OutputBinding

  // ---- What every run keeps -----------------------------------------------------------------------

  lemma CallsOkKept(s: System, step: Step)
    requires CallsOk(s) && CanStep(s, step)
    ensures CallsOk(Next(s, step))
  {
    if Grows(step) {
      GrowCalls(s, step);
    } else {
      CallsOkStep(s, step);
    }
  }

  lemma {:induction false} CallsOkAlong(s: System, steps: seq<Step>, r: System)
    requires CallsOk(s) && Path(s, steps, r)
    ensures CallsOk(r)
    decreases |steps|
  {
    if steps != [] {
      CallsOkKept(s, steps[0]);
      CallsOkAlong(Next(s, steps[0]), steps[1..], r);
    }
  }

  /** The step gives up the claim on an output: the end of a detach, of a parent's detach or of an
      output's close, or a failed attach. */
  ghost predicate Releases(s: System, step: Step, o: nat)
    requires CanStep(s, step)
  {
    || (step.DetachUnbind? && s.calls[step.a].o == o)
    || (step.OutputCloseUnbind? && step.ok && s.calls[step.a].o == o)
    || (step.AttachEnd? && !step.ok && s.calls[step.a].o == o)
  }

  lemma ClaimsAfter(s: System, step: Step, o: nat, p: nat)
    requires CallsOk(s) && CanStep(s, step) && p < |s.parents| && s.parents[p].status != Open
    ensures p < |Next(s, step).parents| && Next(s, step).parents[p].status != Open
    ensures Claims(Next(s, step), o, p) <==> Claims(s, o, p) && !Releases(s, step, o)
  {
    if Grows(step) {
      GrowSame(s, step, o, p);
    } else {
      ClaimsStep(s, step, o, p);
    }
  }

  ghost predicate NeverReleased(s: System, steps: seq<Step>, r: System, o: nat)
    requires Path(s, steps, r)
    decreases |steps|
  {
    steps == [] || (!Releases(s, steps[0], o) && NeverReleased(Next(s, steps[0]), steps[1..], r, o))
  }

  /** A parent that has begun to close takes no new claims, and loses one only when it is released. */
  lemma {:induction false} ClaimsAlong(s: System, steps: seq<Step>, r: System, o: nat, p: nat)
    requires CallsOk(s) && Path(s, steps, r) && p < |s.parents| && s.parents[p].status != Open
    ensures Claims(r, o, p) <==> Claims(s, o, p) && NeverReleased(s, steps, r, o)
    decreases |steps|
  {
    if steps != [] {
      ClaimsAfter(s, steps[0], o, p);
      CallsOkKept(s, steps[0]);
      ClaimsAlong(Next(s, steps[0]), steps[1..], r, o, p);
    }
  }

  // ---- Outputs in the snapshot ----------------------------------------------------------------------

  /** A closing parent still has this output to visit, as long as it is claimed. */
  ghost predicate Watched(s: System, o: nat, p: nat) {
    && p < |s.parents| && s.parents[p].status != Open
    && (forall b :: 0 <= b < |s.calls| && ClosesParent(s.calls[b], p) && Claims(s, o, p) ==>
          o in s.calls[b].todo && !(s.calls[b].PUnbound? && s.calls[b].o == o))
    && (s.parents[p].status == Closed ==> !Claims(s, o, p))
  }

  lemma WatchedCloser(s: System, step: Step, o: nat, p: nat)
    requires CallsOk(s) && CanStep(s, step) && !Grows(step) && Watched(s, o, p)
    requires !(step.ParentCloseBegin? && step.p == p)
    requires ClosesParent(Next(s, step).calls[step.a], p) && Claims(s, o, p) && !Releases(s, step, o)
    ensures
      var c := Next(s, step).calls[step.a];
      o in c.todo && !(c.PUnbound? && c.o == o)
  {
    var c := s.calls[step.a];
    assert CallOk(s, c) && ClosesParent(c, p);
    if step.ParentVisit? && step.o == o {
      assert !Held(s, o, p);
    }
  }

  lemma WatchedStep(s: System, step: Step, o: nat, p: nat)
    requires CallsOk(s) && CanStep(s, step) && Watched(s, o, p) && !(step.ParentCloseBegin? && step.p == p)
    ensures Watched(Next(s, step), o, p)
  {
    var r := Next(s, step);
    ClaimsAfter(s, step, o, p);
    assert step.ParentCloseEnd? ==> ClosesParent(s.calls[step.a], s.calls[step.a].p);
    if Claims(r, o, p) {
      forall b | 0 <= b < |r.calls| && ClosesParent(r.calls[b], p)
        ensures o in r.calls[b].todo && !(r.calls[b].PUnbound? && r.calls[b].o == o)
      {
        if !Grows(step) && b == step.a {
          WatchedCloser(s, step, o, p);
        } else {
          assert b < |s.calls| && r.calls[b] == s.calls[b];
        }
      }
    }
  }

  predicate BeginsNoClose(steps: seq<Step>, p: nat) {
    forall i :: 0 <= i < |steps| ==> !(steps[i].ParentCloseBegin? && steps[i].p == p)
  }

  lemma {:induction false} WatchedAlong(s: System, steps: seq<Step>, r: System, o: nat, p: nat)
    requires CallsOk(s) && Path(s, steps, r) && Watched(s, o, p) && BeginsNoClose(steps, p)
    ensures Watched(r, o, p)
    decreases |steps|
  {
    if steps != [] {
      WatchedStep(s, steps[0], o, p);
      CallsOkKept(s, steps[0]);
      WatchedAlong(Next(s, steps[0]), steps[1..], r, o, p);
    }
  }

  /** Over every run, disciplined or not.  When the close of a parent that began in state `s` has
      succeeded, an output is claimed by the closed parent if and only if it was claimed but not
      registered when that close took its snapshot, and nothing has released it since. */
  lemma ClosedBoundIff(prefix: seq<Step>, s: System, a: nat, p: nat, steps: seq<Step>, r: System, o: nat)
    requires Path(EMPTY, prefix, s) && CanStep(s, ParentCloseBegin(a, p))
    requires Path(Next(s, ParentCloseBegin(a, p)), steps, r) && BeginsNoClose(steps, p)
    requires p < |r.parents| && r.parents[p].status == Closed
    ensures Claims(r, o, p) <==>
            Claims(s, o, p) && o !in s.parents[p].outputs &&
            NeverReleased(Next(s, ParentCloseBegin(a, p)), steps, r, o)
  {
    var n := Next(s, ParentCloseBegin(a, p));
    CallsOkAlong(EMPTY, prefix, s);
    CallsOkKept(s, ParentCloseBegin(a, p));
    ClaimsStep(s, ParentCloseBegin(a, p), o, p);
    if o in s.parents[p].outputs {
      forall b | 0 <= b < |n.calls| && ClosesParent(n.calls[b], p)
        ensures n.calls[b] == PClosing(p, s.parents[p].outputs)
      {
        assert Exclusive(n.calls[a], n.calls[b]) || a == b;
      }
      WatchedAlong(n, steps, r, o, p);
    } else {
      ClaimsAlong(n, steps, r, o, p);
    }
  }

  // ---- Orphans --------------------------------------------------------------------------------------

  /** Bound to a parent that has forgotten it and is not about to visit it. */
  ghost predicate Forgotten(s: System, o: nat, p: nat) {
    Orphaned(s, o, p) && forall b :: 0 <= b < |s.calls| && ClosesParent(s.calls[b], p) ==> o !in s.calls[b].todo
  }

  lemma OrphanStep(s: System, step: Step, o: nat, p: nat)
    requires CallsOk(s) && CanStep(s, step) && Orphaned(s, o, p) && !Releases(s, step, o)
    ensures Orphaned(Next(s, step), o, p) && Next(s, step).outputs[o].bound == Some(p)
  {
    if !Grows(step) {
      assert CallOk(s, s.calls[step.a]);
    }
  }

  lemma ForgottenStep(s: System, step: Step, o: nat, p: nat)
    requires CallsOk(s) && CanStep(s, step) && Forgotten(s, o, p) && !Releases(s, step, o)
    ensures Forgotten(Next(s, step), o, p)
  {
    var r := Next(s, step);
    OrphanStep(s, step, o, p);
    forall b | 0 <= b < |r.calls| && ClosesParent(r.calls[b], p) ensures o !in r.calls[b].todo {
      if !Grows(step) && b == step.a {
        ForgottenCloser(s, step, o, p);
      } else {
        assert b < |s.calls| && r.calls[b] == s.calls[b];
      }
    }
  }

  lemma ForgottenCloser(s: System, step: Step, o: nat, p: nat)
    requires CanStep(s, step) && !Grows(step) && Forgotten(s, o, p)
    requires ClosesParent(Next(s, step).calls[step.a], p)
    ensures o !in Next(s, step).calls[step.a].todo
  {
  }

  /** For any parent, whatever else is attached to it: until a detach or a close of the output itself
      releases it, an orphan is not in the snapshot of any close of its parent, and stays bound to the
      parent through every failed and successful close. */
  lemma {:induction false} OrphanSurvives(s: System, steps: seq<Step>, r: System, o: nat, p: nat)
    requires CallsOk(s) && Path(s, steps, r) && Forgotten(s, o, p) && NeverReleased(s, steps, r, o)
    ensures Forgotten(r, o, p) && r.outputs[o].bound == Some(p)
    decreases |steps|
  {
    if steps != [] {
      ForgottenStep(s, steps[0], o, p);
      CallsOkKept(s, steps[0]);
      OrphanSurvives(Next(s, steps[0]), steps[1..], r, o, p);
    }
  }

  // ---- The attach that does it ------------------------------------------------------------------------

  /** An output that is being detached has a call that detaches it. */
  ghost predicate Detachers(s: System) {
    forall o :: 0 <= o < |s.outputs| && s.outputs[o].detaching ==> HasDetacher(s, o)
  }

  ghost predicate HasDetacher(s: System, o: nat) {
    exists b :: 0 <= b < |s.calls| && Uses(s.calls[b], Detach(o))
  }

  lemma DetacherStays(s: System, step: Step, o: nat)
    requires CanStep(s, step) && HasDetacher(s, o) && !(step.DetachUnbind? && s.calls[step.a].o == o)
    ensures HasDetacher(Next(s, step), o)
  {
    var b :| 0 <= b < |s.calls| && Uses(s.calls[b], Detach(o));
    assert Next(s, step).calls[b] == s.calls[b];
  }

  lemma DetachersKept(s: System, step: Step)
    requires CallsOk(s) && Detachers(s) && CanStep(s, step)
    ensures Detachers(Next(s, step))
  {
    var r := Next(s, step);
    if !Grows(step) {
      assert CallOk(s, s.calls[step.a]);
    }
    forall o | 0 <= o < |r.outputs| && r.outputs[o].detaching
      ensures HasDetacher(r, o)
    {
      if step.DetachStart? && step.o == o {
        assert Uses(r.calls[step.a], Detach(o));
      } else if step.ParentVisit? && step.o == o && !s.outputs[o].detaching {
        assert Uses(r.calls[step.a], Detach(o));
      } else {
        DetacherStays(s, step, o);
      }
    }
  }

  /** What holds in every run. */
  ghost predicate Always(s: System) {
    CallsOk(s) && Accounted(s) && Detachers(s)
  }

  lemma AlwaysKept(s: System, step: Step)
    requires Always(s) && CanStep(s, step)
    ensures Always(Next(s, step))
  {
    CallsOkKept(s, step);
    DetachersKept(s, step);
    if Grows(step) {
      AccountedGrow(s, step);
    } else {
      AccountedStep(s, step);
    }
  }

  lemma AccountedGrow(s: System, step: Step)
    requires Accounted(s) && Grows(step)
    ensures Accounted(Next(s, step))
  {
    var r := Next(s, step);
    forall o: nat, p: nat | p < |r.parents| && o in r.parents[p].outputs
      ensures Claims(r, o, p) || HasTail(r, o, p)
    {
      assert p < |s.parents| && r.parents[p] == s.parents[p];
      GrowSame(s, step, o, p);
    }
  }

  lemma {:induction false} AlwaysAlong(s: System, steps: seq<Step>, r: System)
    requires Always(s) && Path(s, steps, r)
    ensures Always(r)
    decreases |steps|
  {
    if steps != [] {
      AlwaysKept(s, steps[0]);
      AlwaysAlong(Next(s, steps[0]), steps[1..], r);
    }
  }

  /** Over every run, disciplined or not: with no call in progress whatever is registered with a
      parent is bound to it.  Only the converse needs the discipline. */
  lemma RegisteredBound(prefix: seq<Step>, s: System, o: nat, p: nat)
    requires Path(EMPTY, prefix, s) && p < |s.parents| && o in s.parents[p].outputs
    requires forall a :: 0 <= a < |s.calls| ==> s.calls[a].Idle?
    ensures o < |s.outputs| && s.outputs[o].bound == Some(p)
  {
    AlwaysAlong(EMPTY, prefix, s);
    assert !Held(s, o, p) && !HasTail(s, o, p);
  }

  /** An open parent with an orphan. */
  ghost predicate Ready(s: System, o: nat, p: nat) {
    Always(s) && Orphaned(s, o, p) && !s.outputs[o].detaching && s.parents[p].status == Open
  }

  predicate Busy(c: Phase) {
    c.AttachHeld? || c.Detaching?
  }

  function BusyCount(calls: seq<Phase>): nat {
    if calls == [] then 0 else BusyCount(calls[..|calls| - 1]) + if Busy(calls[|calls| - 1]) then 1 else 0
  }

  lemma {:induction false} BusyUpdate(calls: seq<Phase>, a: nat, c: Phase)
    requires a < |calls| && Busy(calls[a]) && !Busy(c)
    ensures BusyCount(calls[a := c]) < BusyCount(calls)
  {
    var n := |calls| - 1;
    if a == n {
      assert calls[a := c][..n] == calls[..n];
    } else {
      BusyUpdate(calls[..n], a, c);
      assert calls[a := c][..n] == calls[..n][a := c];
    }
  }

  lemma DisciplinedCons(s: System, step: Step, steps: seq<Step>, r: System)
    requires CanStep(s, step) && Disciplined(s, step) && DisciplinedPath(Next(s, step), steps, r)
    ensures DisciplinedPath(s, [step] + steps, r)
  {
    assert ([step] + steps)[1..] == steps;
  }

  ghost predicate EndsBound(s: System, o: nat, p: nat) {
    p < |s.parents| && o < |s.outputs| && s.parents[p].status == Closed && s.outputs[o].bound == Some(p)
  }

  /** A disciplined continuation leads to the output being bound to the closed parent. */
  ghost predicate CanEndBound(s: System, o: nat, p: nat) {
    exists steps, r :: DisciplinedPath(s, steps, r) && EndsBound(r, o, p)
  }

  lemma CanEndBoundBefore(s: System, step: Step, o: nat, p: nat)
    requires CanStep(s, step) && Disciplined(s, step) && CanEndBound(Next(s, step), o, p)
    ensures CanEndBound(s, o, p)
  {
    var steps, r :| DisciplinedPath(Next(s, step), steps, r) && EndsBound(r, o, p);
    DisciplinedCons(s, step, steps, r);
  }

  /** The close of the orphan's parent, with the outputs it still has to visit. */
  ghost predicate Closes(s: System, c: nat, todo: set<nat>, o: nat, p: nat) {
    && CallsOk(s) && Detachers(s) && Orphaned(s, o, p)
    && c < |s.calls| && s.calls[c] == PClosing(p, todo)
    && (forall x :: x in todo ==> x < |s.outputs| && x != o)
    && (forall b :: 0 <= b < |s.calls| ==> !Busy(s.calls[b]))
  }

  /** An output bound to the closing parent is not being detached by anybody else. */
  lemma VisitFree(s: System, c: nat, todo: set<nat>, o: nat, p: nat, x: nat)
    requires Closes(s, c, todo, o, p) && x in todo && s.outputs[x].bound == Some(p)
    ensures !s.outputs[x].detaching
  {
    forall b | 0 <= b < |s.calls| ensures !Uses(s.calls[b], Detach(x)) {
      assert CallOk(s, s.calls[b]);
      assert b != c ==> Exclusive(s.calls[c], s.calls[b]);
    }
    assert s.outputs[x].detaching ==> HasDetacher(s, x);
  }

  lemma VisitSkip(s: System, c: nat, todo: set<nat>, o: nat, p: nat, x: nat)
    requires Closes(s, c, todo, o, p) && x in todo && s.outputs[x].bound != Some(p)
    ensures CanStep(s, ParentVisit(c, x, true))
    ensures Closes(Next(s, ParentVisit(c, x, true)), c, todo - {x}, o, p)
  {
    CallsOkKept(s, ParentVisit(c, x, true));
    DetachersKept(s, ParentVisit(c, x, true));
  }

  /** Detaching one output: visit, barrier, discard. */
  lemma VisitDetach(s: System, c: nat, todo: set<nat>, o: nat, p: nat, x: nat)
    requires Closes(s, c, todo, o, p) && x in todo && s.outputs[x].bound == Some(p)
    ensures CanStep(s, ParentVisit(c, x, true))
    ensures
      var s1 := Next(s, ParentVisit(c, x, true));
      CanStep(s1, DetachUnbind(c)) &&
      var s2 := Next(s1, DetachUnbind(c));
      CanStep(s2, DetachDiscard(c)) && Closes(Next(s2, DetachDiscard(c)), c, todo - {x}, o, p)
  {
    VisitFree(s, c, todo, o, p, x);
    var s1 := Next(s, ParentVisit(c, x, true));
    CallsOkKept(s, ParentVisit(c, x, true));
    DetachersKept(s, ParentVisit(c, x, true));
    assert s1.calls[c] == PDetaching(p, todo, x);
    var s2 := Next(s1, DetachUnbind(c));
    CallsOkKept(s1, DetachUnbind(c));
    DetachersKept(s1, DetachUnbind(c));
    assert s2.calls[c] == PUnbound(p, todo, x);
    CallsOkKept(s2, DetachDiscard(c));
    DetachersKept(s2, DetachDiscard(c));
  }

  lemma {:induction false} CloseEnds(s: System, c: nat, todo: set<nat>, o: nat, p: nat)
    requires Closes(s, c, todo, o, p)
    ensures CanEndBound(s, o, p)
    decreases |todo|
  {
    if todo == {} {
      var r := Next(s, ParentCloseEnd(c, true));
      assert DisciplinedPath(r, [], r) && EndsBound(r, o, p);
      CanEndBoundBefore(s, ParentCloseEnd(c, true), o, p);
    } else {
      var x :| x in todo;
      if s.outputs[x].bound == Some(p) {
        VisitDetach(s, c, todo, o, p, x);
        var s1 := Next(s, ParentVisit(c, x, true));
        var s2 := Next(s1, DetachUnbind(c));
        CloseEnds(Next(s2, DetachDiscard(c)), c, todo - {x}, o, p);
        CanEndBoundBefore(s2, DetachDiscard(c), o, p);
        CanEndBoundBefore(s1, DetachUnbind(c), o, p);
      } else {
        VisitSkip(s, c, todo, o, p, x);
        CloseEnds(Next(s, ParentVisit(c, x, true)), c, todo - {x}, o, p);
      }
      CanEndBoundBefore(s, ParentVisit(c, x, true), o, p);
    }
  }

  /** Whatever is registered exists. */
  lemma RegisteredExists(s: System, p: nat, x: nat)
    requires CallsOk(s) && Accounted(s) && p < |s.parents| && x in s.parents[p].outputs
    ensures x < |s.outputs|
  {
    if Held(s, x, p) {
      var a :| 0 <= a < |s.calls| && s.calls[a] == AttachHeld(x, p);
      assert CallOk(s, s.calls[a]);
    } else if HasTail(s, x, p) {
      var a :| 0 <= a < |s.calls| && Tail(s.calls[a], x, p);
      assert CallOk(s, s.calls[a]);
    } else {
      assert Claims(s, x, p);
    }
  }

  /** With no attach and no detach in progress, a new thread closes the parent. */
  lemma CloseBegins(s: System, o: nat, p: nat)
    requires Ready(s, o, p) && forall b :: 0 <= b < |s.calls| ==> !Busy(s.calls[b])
    ensures CanEndBound(s, o, p)
  {
    var c := |s.calls|;
    var s1 := Next(s, NewCall);
    AlwaysKept(s, NewCall);
    var s2 := Next(s1, ParentCloseBegin(c, p));
    AlwaysKept(s1, ParentCloseBegin(c, p));
    forall x | x in s1.parents[p].outputs ensures x < |s1.outputs| {
      RegisteredExists(s1, p, x);
    }
    CloseEnds(s2, c, s1.parents[p].outputs, o, p);
    CanEndBoundBefore(s1, ParentCloseBegin(c, p), o, p);
    CanEndBoundBefore(s, NewCall, o, p);
  }

  lemma ReadyStep(s: System, step: Step, o: nat, p: nat)
    requires Ready(s, o, p) && CanStep(s, step)
    requires (step.AttachEnd? && !step.ok) || (step.DetachUnbind? && s.calls[step.a].Detaching?)
    ensures Ready(Next(s, step), o, p)
  {
    AlwaysKept(s, step);
    assert CallOk(s, s.calls[step.a]);
  }

  /** First every attach in progress fails and every detach in progress passes its barrier. */
  lemma {:induction false} OrphanEndsBound(s: System, o: nat, p: nat)
    requires Ready(s, o, p)
    ensures CanEndBound(s, o, p)
    decreases BusyCount(s.calls)
  {
    if b :| 0 <= b < |s.calls| && s.calls[b].AttachHeld? {
      BusyUpdate(s.calls, b, Idle);
      ReadyStep(s, AttachEnd(b, false), o, p);
      OrphanEndsBound(Next(s, AttachEnd(b, false)), o, p);
      CanEndBoundBefore(s, AttachEnd(b, false), o, p);
    } else if b :| 0 <= b < |s.calls| && s.calls[b].Detaching? {
      BusyUpdate(s.calls, b, Unbound(s.calls[b].o, s.calls[b].p));
      ReadyStep(s, DetachUnbind(b), o, p);
      OrphanEndsBound(Next(s, DetachUnbind(b)), o, p);
      CanEndBoundBefore(s, DetachUnbind(b), o, p);
    } else {
      CloseBegins(s, o, p);
    }
  }

  lemma DisciplinedIsPath(s: System, steps: seq<Step>, r: System)
    requires DisciplinedPath(s, steps, r)
    ensures Path(s, steps, r)
    decreases |steps|
  {
    if steps != [] {
      DisciplinedIsPath(Next(s, steps[0]), steps[1..], r);
    }
  }

  /** Re-attached inside the tail of a detach, the output is orphaned by the discard. */
  lemma TailOrphans(s: System, a: nat, o: nat, p: nat, b: nat)
    requires Always(s) && CanStep(s, AttachStart(a, o, p)) && b < |s.calls| && Tail(s.calls[b], o, p)
    ensures
      var n := Next(s, AttachStart(a, o, p));
      CanStep(n, AttachEnd(a, true)) &&
      var m := Next(n, AttachEnd(a, true));
      CanStep(m, DetachDiscard(b)) && Ready(Next(m, DetachDiscard(b)), o, p)
  {
    assert CallOk(s, s.calls[b]);
    assert s.calls[b] == Unbound(o, p);
    var n := Next(s, AttachStart(a, o, p));
    AlwaysKept(s, AttachStart(a, o, p));
    var m := Next(n, AttachEnd(a, true));
    AlwaysKept(n, AttachEnd(a, true));
    AlwaysKept(m, DetachDiscard(b));
  }

  /** The discipline is exact.  Of an attach that the code accepts, in any state reached with
      discipline: some continuation that keeps the discipline from then on ends with the output bound
      to that parent after the parent's successful close, if and only if at the attach a detach of
      that output from that parent still had its discard to do. */
  lemma AttachDangerousIff(prefix: seq<Step>, s: System, a: nat, o: nat, p: nat)
    requires DisciplinedPath(EMPTY, prefix, s) && CanStep(s, AttachStart(a, o, p))
    ensures CanEndBound(Next(s, AttachStart(a, o, p)), o, p) <==> HasTail(s, o, p)
  {
    var n := Next(s, AttachStart(a, o, p));
    InvAlong(EMPTY, prefix, s);
    DisciplinedIsPath(EMPTY, prefix, s);
    AlwaysAlong(EMPTY, prefix, s);
    if HasTail(s, o, p) {
      var b :| 0 <= b < |s.calls| && Tail(s.calls[b], o, p);
      TailOrphans(s, a, o, p, b);
      var m := Next(n, AttachEnd(a, true));
      OrphanEndsBound(Next(m, DetachDiscard(b)), o, p);
      CanEndBoundBefore(m, DetachDiscard(b), o, p);
      CanEndBoundBefore(n, AttachEnd(a, true), o, p);
    } else {
      InvKept(s, AttachStart(a, o, p));
      NeverEndsBound(n, o, p);
    }
  }

  lemma NeverEndsBound(s: System, o: nat, p: nat)
    requires Inv(s)
    ensures !CanEndBound(s, o, p)
  {
    forall steps, r | DisciplinedPath(s, steps, r) ensures !EndsBound(r, o, p) {
      InvAlong(s, steps, r);
      assert p < |r.parents| && r.parents[p].status == Closed ==> !Claims(r, o, p);
    }
  }

  // ---- The output's own close ---------------------------------------------------------------------

  /** The close of output `o` ends, as it only does with success. */
  predicate EndsClose(s: System, step: Step, o: nat) {
    step.OutputCloseEnd? && step.a < |s.calls| && s.calls[step.a] == ODiscarded(o)
  }

  ghost predicate ClosedIn(s: System, steps: seq<Step>, o: nat)
    decreases |steps|
  {
    steps != [] && CanStep(s, steps[0]) && (EndsClose(s, steps[0], o) || ClosedIn(Next(s, steps[0]), steps[1..], o))
  }

  ghost predicate OutputIs(s: System, o: nat, closed: bool) {
    if o < |s.outputs| then (s.outputs[o].status == Closed <==> closed) && (closed ==> s.outputs[o].bound.None?)
    else !closed
  }

  lemma OutputStep(s: System, step: Step, o: nat, closed: bool)
    requires CallsOk(s) && CanStep(s, step) && OutputIs(s, o, closed)
    ensures OutputIs(Next(s, step), o, closed || EndsClose(s, step, o))
  {
    if !Grows(step) {
      assert CallOk(s, s.calls[step.a]);
    }
  }

  lemma {:induction false} OutputAlong(s: System, steps: seq<Step>, r: System, o: nat, closed: bool)
    requires CallsOk(s) && Path(s, steps, r) && OutputIs(s, o, closed)
    ensures OutputIs(r, o, closed || ClosedIn(s, steps, o))
    decreases |steps|
  {
    if steps != [] {
      OutputStep(s, steps[0], o, closed);
      CallsOkKept(s, steps[0]);
      OutputAlong(Next(s, steps[0]), steps[1..], r, o, closed || EndsClose(s, steps[0], o));
    }
  }

  /** Over every run an output is closed exactly when one of its closes has got through to its end, after
      any number of failed ones, and it is then bound to nothing for good. */
  lemma OutputClosedIff(steps: seq<Step>, r: System, o: nat)
    requires Path(EMPTY, steps, r) && o < |r.outputs|
    ensures r.outputs[o].status == Closed <==> ClosedIn(EMPTY, steps, o)
    ensures r.outputs[o].status == Closed ==> r.outputs[o].bound.None?
  {
    OutputAlong(EMPTY, steps, r, o, false);
  }
}
