/** Continuations of a run: threads leave the callbacks of an output, and a close comes to wait for its
    own dispatcher, while chosen threads take no step. */
module CloseRuns {
  import opened Wrappers
  import opened CloseWaits
  import opened CloseCycles
  import opened CloseFlags

  // ---- Continuations --------------------------------------------------------------------------------

  ghost predicate All(s: System) {
    Inv(s) && FlagsOk(s)
  }

  /** A dispatcher runs one callback at a time: no step of the model needs this, and the runs constructed
      here keep to it. */
  ghost predicate Serial(s: System, step: Step) {
    step.Thread? && step.owner.Some? ==> Quiet(s, step.owner.value)
  }

  /** A run in which callbacks are serial and no thread of `still` takes a step. */
  ghost predicate Run(s: System, steps: seq<Step>, r: System, still: set<nat>)
    decreases |steps|
  {
    if steps == [] then r == s
    else
      && CanStep(s, steps[0]) && Serial(s, steps[0]) && (Moves(steps[0]) ==> steps[0].a !in still)
      && Run(Next(s, steps[0]), steps[1..], r, still)
  }

  ghost predicate Gets(s: System, r: System, still: set<nat>) {
    exists steps :: Run(s, steps, r, still)
  }

  ghost predicate Trapped(s: System, v: nat) {
    exists cs :: Cycle(s, cs) && v in cs
  }

  /** Without a step of its own, the thread gets into a cycle of waits. */
  ghost predicate CanTrap(s: System, v: nat) {
    exists r :: Gets(s, r, {v}) && Trapped(r, v)
  }

  lemma {:induction false} RunAppend(s: System, first: seq<Step>, m: System, second: seq<Step>, r: System,
                                     still: set<nat>)
    requires Run(s, first, m, still) && Run(m, second, r, still)
    ensures Run(s, first + second, r, still)
    decreases |first|
  {
    if first == [] {
      assert first + second == second;
    } else {
      assert (first + second)[0] == first[0] && (first + second)[1..] == first[1..] + second;
      RunAppend(Next(s, first[0]), first[1..], m, second, r, still);
    }
  }

  lemma GetsTransitive(s: System, m: System, r: System, still: set<nat>)
    requires Gets(s, m, still) && Gets(m, r, still)
    ensures Gets(s, r, still)
  {
    var first :| Run(s, first, m, still);
    var second :| Run(m, second, r, still);
    RunAppend(s, first, m, second, r, still);
  }

  lemma {:induction false} RunFewer(s: System, steps: seq<Step>, r: System, still: set<nat>, fewer: set<nat>)
    requires Run(s, steps, r, still) && fewer <= still
    ensures Run(s, steps, r, fewer)
    decreases |steps|
  {
    if steps != [] {
      RunFewer(Next(s, steps[0]), steps[1..], r, still, fewer);
    }
  }

  lemma GetsFewer(s: System, r: System, still: set<nat>, fewer: set<nat>)
    requires Gets(s, r, still) && fewer <= still
    ensures Gets(s, r, fewer)
  {
    var steps :| Run(s, steps, r, still);
    RunFewer(s, steps, r, still, fewer);
  }

  lemma TrapLater(s: System, m: System, v: nat)
    requires Gets(s, m, {v}) && CanTrap(m, v)
    ensures CanTrap(s, v)
  {
    var r :| Gets(m, r, {v}) && Trapped(r, v);
    GetsTransitive(s, m, r, {v});
  }

  // ---- Steps that change no status ------------------------------------------------------------------

  predicate InOutputCallback(u: Universe, c: Call) {
    c.owner.Some? && c.owner.value < |u| && u[c.owner.value].OutputKind?
  }

  /** A state after a run in which only `v` has closed or detached from a callback. */
  ghost predicate Ready(s: System, v: nat) {
    Calm(s, Some(v)) && FlagsOk(s)
  }

  lemma ReadyStep(s: System, step: Step, v: nat)
    requires Ready(s, v) && CanStep(s, step) && Disciplined(s, step, Some(v))
    ensures Ready(Next(s, step), v)
  {
    InvKept(s, step);
    FlagsKept(s, step);
    ClosersPresentKept(s, step);
    CallbacksFreeKept(s, step, Some(v));
  }

  ghost predicate StatusSame(s: System, r: System) {
    |s.objects| == |r.objects| &&
    forall x :: 0 <= x < |s.objects| ==>
      r.objects[x].status == s.objects[x].status && r.objects[x].generation == s.objects[x].generation
  }

  /** No output has been bound. */
  ghost predicate BoundsFewer(s: System, r: System) {
    |s.objects| == |r.objects| &&
    forall o :: 0 <= o < |s.objects| && r.objects[o].bound.Some? ==> r.objects[o].bound == s.objects[o].bound
  }

  /** No detach has begun. */
  ghost predicate DetachesFewer(s: System, r: System) {
    && |s.calls| <= |r.calls|
    && forall a :: 0 <= a < |r.calls| && r.calls[a].phase.Detaching? ==>
         a < |s.calls| && r.calls[a].phase == s.calls[a].phase
  }

  /** What the threads outside `still` have done between two states. */
  ghost predicate After(s: System, r: System, still: set<nat>, v: nat) {
    && Ready(r, v) && Gets(s, r, still) && r.kinds == s.kinds && StatusSame(s, r)
    && BoundsFewer(s, r) && DetachesFewer(s, r)
    && forall a :: a in still && a < |s.calls| ==> r.calls[a] == s.calls[a]
  }

  lemma AfterNothing(s: System, still: set<nat>, v: nat)
    requires Ready(s, v)
    ensures After(s, s, still, v)
  {
    assert Run(s, [], s, still);
  }

  lemma AfterTransitive(s: System, m: System, r: System, still: set<nat>, v: nat)
    requires After(s, m, still, v) && After(m, r, still, v)
    ensures After(s, r, still, v)
  {
    GetsTransitive(s, m, r, still);
  }

  lemma GetsStep(s: System, step: Step, still: set<nat>)
    requires CanStep(s, step) && Serial(s, step) && (Moves(step) ==> step.a !in still)
    ensures Gets(s, Next(s, step), still)
  {
    var r := Next(s, step);
    assert Run(r, [], r, still);
    assert [step][1..] == [];
    assert Run(s, [step], r, still);
  }

  lemma FewerStep(s: System, step: Step)
    requires CanStep(s, step) && Moves(step) && !step.DetachStart? && !(step.AttachEnd? && step.ok)
    ensures BoundsFewer(s, Next(s, step)) && DetachesFewer(s, Next(s, step))
  {
    CallsLength(s, step);
    ObjectsLength(s, step);
    forall o: nat | o < |s.objects| && Next(s, step).objects[o].bound.Some?
      ensures Next(s, step).objects[o].bound == s.objects[o].bound
    {
      FlagsStep(s, step, o);
    }
    forall a: nat | a < |s.calls| && Next(s, step).calls[a].phase.Detaching?
      ensures Next(s, step).calls[a].phase == s.calls[a].phase
    {
      if step.a != a {
        OthersStay(s, step, a);
      }
    }
  }

  lemma AfterStep(s: System, step: Step, still: set<nat>, v: nat)
    requires Ready(s, v) && CanStep(s, step) && Moves(step) && step.a !in still
    requires !step.Enter? && !step.DetachStart? && !(step.AttachEnd? && step.ok) && StatusSame(s, Next(s, step))
    ensures After(s, Next(s, step), still, v)
  {
    ReadyStep(s, step, v);
    FewerStep(s, step);
    GetsStep(s, step, still);
    ObjectsLength(s, step);
    CallsLength(s, step);
    forall a | a in still && a < |s.calls| ensures Next(s, step).calls[a] == s.calls[a] {
      OthersStay(s, step, a);
    }
  }

  // ---- Emptying the callbacks of an output --------------------------------------------------------------

  function OwnerCount(calls: seq<Call>, o: nat): nat {
    if calls == [] then 0
    else OwnerCount(calls[..|calls| - 1], o) + if calls[|calls| - 1].owner == Some(o) then 1 else 0
  }

  lemma {:induction false} OwnerCountDown(calls: seq<Call>, a: nat, c: Call, o: nat)
    requires a < |calls| && calls[a].owner == Some(o) && c.owner.None?
    ensures OwnerCount(calls[a := c], o) < OwnerCount(calls, o)
  {
    var n := |calls| - 1;
    if a == n {
      assert calls[a := c][..n] == calls[..n];
    } else {
      OwnerCountDown(calls[..n], a, c, o);
      assert calls[a := c][..n] == calls[..n][a := c];
    }
  }

  lemma {:induction false} OwnerCountSame(calls: seq<Call>, a: nat, c: Call, o: nat)
    requires a < |calls| && calls[a].owner == c.owner
    ensures OwnerCount(calls[a := c], o) == OwnerCount(calls, o)
  {
    var n := |calls| - 1;
    if a == n {
      assert calls[a := c][..n] == calls[..n];
    } else {
      OwnerCountSame(calls[..n], a, c, o);
      assert calls[a := c][..n] == calls[..n][a := c];
    }
  }

  ghost predicate SameFlags(s: System, r: System) {
    |s.objects| == |r.objects| &&
    forall x :: 0 <= x < |s.objects| ==>
      r.objects[x].bound == s.objects[x].bound && r.objects[x].detaching == s.objects[x].detaching
  }

  /** A failed attach, and a return, leave every output as it is. */
  lemma ReturnStep(s: System, step: Step, still: set<nat>, v: nat)
    requires Ready(s, v) && CanStep(s, step) && Moves(step) && step.a !in still
    requires step.CallbackReturns? || (step.AttachEnd? && !step.ok)
    ensures After(s, Next(s, step), still, v) && SameFlags(s, Next(s, step))
  {
    AfterStep(s, step, still, v);
  }

  lemma IdleReturns(s: System, a: nat, o: nat, still: set<nat>, v: nat) returns (r: System)
    requires Ready(s, v) && a < |s.calls| && a != v && a !in still
    requires s.calls[a].owner == Some(o) && IsIdle(s.calls[a])
    ensures After(s, r, still, v) && SameFlags(s, r) && OwnerCount(r.calls, o) < OwnerCount(s.calls, o)
    ensures |r.calls| == |s.calls|
  {
    r := Next(s, CallbackReturns(a));
    ReturnStep(s, CallbackReturns(a), still, v);
    OwnerCountDown(s.calls, a, r.calls[a], o);
  }

  /** One thread returns from its callback of the output. */
  lemma OneReturns(s: System, a: nat, o: nat, still: set<nat>, v: nat) returns (r: System)
    requires Ready(s, v) && a < |s.calls| && a != v && a !in still
    requires s.calls[a].owner == Some(o) && Free(s.calls[a])
    ensures After(s, r, still, v) && SameFlags(s, r) && OwnerCount(r.calls, o) < OwnerCount(s.calls, o)
    ensures |r.calls| == |s.calls|
  {
    if s.calls[a].phase.AttachHeld? {
      var m := Next(s, AttachEnd(a, false));
      ReturnStep(s, AttachEnd(a, false), still, v);
      OwnerCountSame(s.calls, a, m.calls[a], o);
      r := IdleReturns(m, a, o, still, v);
      AfterTransitive(s, m, r, still, v);
    } else {
      r := IdleReturns(s, a, o, still, v);
    }
  }

  /** All threads in callbacks of an output return. */
  lemma {:induction false} MakeQuiet(s: System, o: nat, still: set<nat>, v: nat) returns (r: System)
    requires Ready(s, v) && o < |s.kinds| && s.kinds[o].OutputKind? && v in still && v < |s.calls|
    requires forall a :: a in still && a < |s.calls| ==> s.calls[a].owner != Some(o)
    ensures After(s, r, still, v) && SameFlags(s, r) && Quiet(r, o) && |r.calls| == |s.calls|
    decreases OwnerCount(s.calls, o)
  {
    if Quiet(s, o) {
      AfterNothing(s, still, v);
      r := s;
    } else {
      var a :| 0 <= a < |s.calls| && s.calls[a].owner == Some(o);
      assert InOutputCallback(s.kinds, s.calls[a]);
      var n := OneReturns(s, a, o, still, v);
      r := MakeQuiet(n, o, still, v);
      AfterTransitive(s, n, r, still, v);
    }
  }

  // ---- A closer comes to wait for its own dispatcher ----------------------------------------------------

  /** The thread is not in a callback of an output bound to `x`. */
  ghost predicate Apart(s: System, c: Call, x: nat) {
    InOutputCallback(s.kinds, c) && c.owner.value < |s.objects| ==> s.objects[c.owner.value].bound != Some(x)
  }

  /** Thread `k` is in the close of `x`, an object with a dispatcher, and its checks there will not meet
      the callback it runs. */
  ghost predicate Closes(s: System, k: nat, x: nat) {
    && k < |s.calls| && s.calls[k].stack != [] && Top(s.calls[k]).target == x
    && x < |s.kinds| && HasDispatcher(s.kinds[x])
    && s.calls[k].owner != Some(x) && Apart(s, s.calls[k], x)
  }

  /** The threads of `still` do not stand in its way. */
  ghost predicate Aside(s: System, still: set<nat>, x: nat) {
    forall a :: a in still && a < |s.calls| ==>
      && !s.calls[a].phase.AttachHeld?
      && !(s.calls[a].phase.Detaching? && s.calls[a].phase.r == x)
      && Apart(s, s.calls[a], x)
  }

  ghost predicate Setting(s: System, k: nat, x: nat, still: set<nat>, v: nat) {
    && Ready(s, v) && Closes(s, k, x) && k !in still && v in still + {k} && v < |s.calls|
    && Aside(s, still, x)
  }

  /** The others have done something about the close of `x`, which `k` is still in. */
  ghost predicate Onward(s: System, r: System, k: nat, x: nat, still: set<nat>, v: nat) {
    && After(s, r, still, v) && Setting(r, k, x, still, v)
    && k < |s.calls| && r.calls[k].owner == s.calls[k].owner
  }

  lemma AsideKept(s: System, r: System, still: set<nat>, x: nat)
    requires Aside(s, still, x) && r.kinds == s.kinds && BoundsFewer(s, r)
    requires forall a :: a in still && a < |r.calls| ==> a < |s.calls| && r.calls[a] == s.calls[a]
    ensures Aside(r, still, x)
  {
  }

  /** The lock of an output becomes free when its attach fails. */
  lemma Unlock(s: System, o: nat, still: set<nat>, v: nat) returns (r: System)
    requires Ready(s, v)
    requires forall a :: a in still && a < |s.calls| ==> !s.calls[a].phase.AttachHeld?
    ensures After(s, r, still, v) && SameFlags(s, r) && LockFree(r, o) && |r.calls| == |s.calls|
    ensures forall a :: 0 <= a < |s.calls| && !s.calls[a].phase.AttachHeld? ==> r.calls[a] == s.calls[a]
    ensures forall a :: 0 <= a < |s.calls| ==> r.calls[a].owner == s.calls[a].owner
  {
    if LockFree(s, o) {
      AfterNothing(s, still, v);
      r := s;
    } else {
      var a :| 0 <= a < |s.calls| && Attaching(s.calls[a], o);
      r := Next(s, AttachEnd(a, false));
      ReturnStep(s, AttachEnd(a, false), still, v);
      forall b | 0 <= b < |s.calls| && b != a ensures !Attaching(s.calls[b], o) {
        assert Attaching(s.calls[b], o) ==> a == b;
      }
    }
  }

  /** Quiet for an output that the closer of `x` is about to detach. */
  lemma QuietFor(s: System, k: nat, x: nat, o: nat, still: set<nat>, v: nat) returns (r: System)
    requires Setting(s, k, x, still, v) && o < |s.kinds| && s.kinds[o].OutputKind? && s.objects[o].bound == Some(x)
    ensures After(s, r, still + {k}, v) && SameFlags(s, r) && Quiet(r, o) && |r.calls| == |s.calls|
    ensures Setting(r, k, x, still, v) && r.calls[k] == s.calls[k]
  {
    r := MakeQuiet(s, o, still + {k}, v);
    AsideKept(s, r, still, x);
  }

  lemma AfterFewer(s: System, r: System, still: set<nat>, fewer: set<nat>, v: nat)
    requires After(s, r, still, v) && fewer <= still
    ensures After(s, r, fewer, v)
  {
    GetsFewer(s, r, still, fewer);
  }

  /** A step of the closer itself, within the close. */
  lemma CloserStep(s: System, step: Step, k: nat, x: nat, still: set<nat>, v: nat)
    requires Setting(s, k, x, still, v) && CanStep(s, step) && Moves(step) && step.a == k
    requires !step.Enter? && !step.DetachStart? && StatusSame(s, Next(s, step))
    requires Next(s, step).calls[k].stack != [] && Top(Next(s, step).calls[k]).target == x
    ensures Onward(s, Next(s, step), k, x, still, v)
  {
    AfterStep(s, step, still, v);
    OwnerFixed(s, step, k);
    CallsLength(s, step);
    AsideKept(s, Next(s, step), still, x);
  }

  lemma ReleaseDiscard(s: System, k: nat, x: nat, still: set<nat>, v: nat) returns (r: System)
    requires Setting(s, k, x, still, v) && s.calls[k].phase.Unbound?
    ensures Onward(s, r, k, x, still, v) && r.calls[k].phase.Working?
    ensures Top(r.calls[k]).todo == Top(s.calls[k]).todo - {s.calls[k].phase.x}
  {
    r := Next(s, Discard(k));
    CloserStep(s, Discard(k), k, x, still, v);
  }

  lemma ReleaseWait(s: System, k: nat, x: nat, still: set<nat>, v: nat) returns (r: System)
    requires Setting(s, k, x, still, v) && s.calls[k].phase.Waiting? && s.calls[k].phase.x != x
    ensures Onward(s, r, k, x, still, v)
    ensures r.calls[k].phase == Unbound(s.calls[k].phase.x) && Top(r.calls[k]).todo == Top(s.calls[k]).todo
  {
    assert CallOk(s.kinds, s.calls[k]);
    ReleaserFacts(s, k, s.calls[k].phase.x);
    var n := QuietFor(s, k, x, s.calls[k].phase.x, still, v);
    AfterFewer(s, n, still + {k}, still, v);
    r := Next(n, WaitDone(k));
    CloserStep(n, WaitDone(k), k, x, still, v);
    AfterTransitive(s, n, r, still, v);
  }

  /** The detach it is in is finished. */
  lemma FinishRelease(s: System, k: nat, x: nat, still: set<nat>, v: nat) returns (r: System)
    requires Setting(s, k, x, still, v)
    requires s.calls[k].phase.Unbound? || (s.calls[k].phase.Waiting? && s.calls[k].phase.x != x)
    ensures Onward(s, r, k, x, still, v) && r.calls[k].phase.Working?
    ensures Top(r.calls[k]).todo == Top(s.calls[k]).todo - {s.calls[k].phase.x}
  {
    if s.calls[k].phase.Waiting? {
      var m := ReleaseWait(s, k, x, still, v);
      r := ReleaseDiscard(m, k, x, still, v);
      AfterTransitive(s, m, r, still, v);
    } else {
      r := ReleaseDiscard(s, k, x, still, v);
    }
  }

  /** The thread that is detaching an output from `x` while `k` is between two visits. */
  lemma TheDetacher(s: System, k: nat, x: nat, o: nat) returns (a: nat)
    requires All(s) && Closes(s, k, x) && s.calls[k].phase.Working? && o < |s.objects|
    requires s.objects[o].bound == Some(x) && s.objects[o].detaching
    ensures a < |s.calls| && a != k && s.calls[a].phase == Detaching(o, x) && s.calls[a].owner != Some(o)
  {
    assert HasReleaser(s, o);
    a :| a < |s.calls| && Releasing(s.calls[a], o);
    ReleaserFacts(s, a, o);
    assert CallOk(s.kinds, s.calls[a]);
    assert Holds(s, k, |s.calls[k].stack| - 1, x);
    assert s.calls[a].stack != [] && Top(s.calls[a]).target == x ==> Holds(s, a, |s.calls[a].stack| - 1, x);
  }

  lemma DetachDoneStep(s: System, a: nat, k: nat, x: nat, o: nat, still: set<nat>, v: nat) returns (r: System)
    requires Setting(s, k, x, still, v) && a < |s.calls| && a != k && s.calls[a].phase == Detaching(o, x)
    requires o < |s.objects| && s.objects[o].detaching && Quiet(s, o)
    ensures Onward(s, r, k, x, still, v) && r.calls[k] == s.calls[k]
    ensures r.objects[o].bound.None? && LockFree(r, o)
  {
    r := Next(s, DetachDone(a));
    assert forall b: nat :: b < |s.calls| ==> !Attaching(s.calls[b], o);
    assert a !in still;
    AfterStep(s, DetachDone(a), still, v);
    AsideKept(s, r, still, x);
  }

  /** Another thread's detach of an output from `x` is finished. */
  lemma FinishDetach(s: System, k: nat, x: nat, o: nat, still: set<nat>, v: nat) returns (r: System)
    requires Setting(s, k, x, still, v) && s.calls[k].phase.Working? && o < |s.objects| && s.kinds[o].OutputKind?
    requires s.objects[o].bound == Some(x) && s.objects[o].detaching
    ensures Onward(s, r, k, x, still, v) && r.calls[k] == s.calls[k]
    ensures r.objects[o].bound.None? && LockFree(r, o)
  {
    var a := TheDetacher(s, k, x, o);
    var m := MakeQuiet(s, o, still + {k} + {a}, v);
    AsideKept(s, m, still, x);
    AfterFewer(s, m, still + {k} + {a}, still, v);
    r := DetachDoneStep(m, a, k, x, o, still, v);
    AfterTransitive(s, m, r, still, v);
  }

  /** An output bound elsewhere, or not at all, is skipped. */
  lemma VisitSkips(s: System, k: nat, x: nat, o: nat, still: set<nat>, v: nat) returns (r: System)
    requires Setting(s, k, x, still, v) && s.calls[k].phase.Working? && o in Top(s.calls[k]).todo
    requires LockFree(s, o) && o < |s.kinds| && s.kinds[o].OutputKind? && s.objects[o].bound != Some(x)
    ensures Onward(s, r, k, x, still, v) && r.calls[k].phase.Working?
    ensures Top(r.calls[k]).todo == Top(s.calls[k]).todo - {o}
  {
    r := Next(s, VisitOutput(k, o));
    CloserStep(s, VisitOutput(k, o), k, x, still, v);
  }

  lemma VisitDetaches(s: System, k: nat, x: nat, o: nat, still: set<nat>, v: nat) returns (r: System)
    requires Setting(s, k, x, still, v) && s.calls[k].phase.Working? && o in Top(s.calls[k]).todo
    requires LockFree(s, o) && o < |s.kinds| && s.kinds[o].OutputKind?
    requires s.objects[o].bound == Some(x) && !s.objects[o].detaching
    ensures Onward(s, r, k, x, still, v) && r.calls[k].phase.Working?
    ensures Top(r.calls[k]).todo == Top(s.calls[k]).todo - {o}
  {
    var n := Next(s, VisitOutput(k, o));
    CloserStep(s, VisitOutput(k, o), k, x, still, v);
    r := FinishRelease(n, k, x, still, v);
    AfterTransitive(s, n, r, still, v);
  }

  /** The closer has done with one more output of its snapshot. */
  lemma VisitOne(s: System, k: nat, x: nat, o: nat, still: set<nat>, v: nat) returns (r: System)
    requires Setting(s, k, x, still, v) && s.calls[k].phase.Working? && o in Top(s.calls[k]).todo
    ensures Onward(s, r, k, x, still, v) && r.calls[k].phase.Working?
    ensures Top(r.calls[k]).todo == Top(s.calls[k]).todo - {o}
  {
    assert CallOk(s.kinds, s.calls[k]);
    assert Belongs(s.kinds, o, x);
    var m := Unlock(s, o, still, v);
    AsideKept(s, m, still, x);
    if m.objects[o].bound != Some(x) {
      r := VisitSkips(m, k, x, o, still, v);
    } else if m.objects[o].detaching {
      var n := FinishDetach(m, k, x, o, still, v);
      r := VisitSkips(n, k, x, o, still, v);
      AfterTransitive(m, n, r, still, v);
    } else {
      r := VisitDetaches(m, k, x, o, still, v);
    }
    AfterTransitive(s, m, r, still, v);
  }

  lemma {:induction false} CloserClears(s: System, k: nat, x: nat, still: set<nat>, v: nat) returns (r: System)
    requires Setting(s, k, x, still, v) && s.calls[k].phase.Working?
    ensures Onward(s, r, k, x, still, v) && r.calls[k].phase == Waiting(x)
    decreases |Top(s.calls[k]).todo|
  {
    var todo := Top(s.calls[k]).todo;
    if todo == {} {
      r := Next(s, WaitOwn(k));
      CloserStep(s, WaitOwn(k), k, x, still, v);
    } else {
      var o :| o in todo;
      var m := VisitOne(s, k, x, o, still, v);
      r := CloserClears(m, k, x, still, v);
      AfterTransitive(s, m, r, still, v);
    }
  }

  /** Every close of an object with a dispatcher can come to wait for that dispatcher. */
  lemma CloserWaits(s: System, k: nat, x: nat, still: set<nat>, v: nat) returns (r: System)
    requires Setting(s, k, x, still, v)
    ensures Onward(s, r, k, x, still, v) && r.calls[k].phase == Waiting(x)
  {
    var c := s.calls[k];
    assert CallOk(s.kinds, c);
    if c.phase == Waiting(x) {
      AfterNothing(s, still, v);
      r := s;
    } else {
      var m := s;
      AfterNothing(s, still, v);
      if !c.phase.Working? {
        m := FinishRelease(s, k, x, still, v);
      }
      r := CloserClears(m, k, x, still, v);
      AfterTransitive(s, m, r, still, v);
    }
  }
}
