/** Outputs and the Connection or Replay they are bound to: `attach`, `detach`, `_close_output` and
    the output part of a parent's close, on any number of threads (src/tirtc/_core.py and
    src/tirtc/storage/__init__.py).  One step is one block under an output's or a parent's lock. */
module OutputBinding {
  import opened Wrappers

  datatype Status = Open | Closing | CloseFailed | Closed

  /** `_bound`, `_detaching` and the close status of an output. */
  datatype Output = Output(bound: Option<nat>, detaching: bool, status: Status)

  datatype Parent = Parent(status: Status, outputs: set<nat>)

  datatype Phase =
    | Idle
    | AttachHeld(o: nat, p: nat)                    // in attach, holding the output's lock
    | Detaching(o: nat, p: nat)                     // in detach, waiting for the barrier
    | Unbound(o: nat, p: nat)                       // about to call parent._detach
    | PClosing(p: nat, todo: set<nat>)              // closing a parent, its snapshot
    | PDetaching(p: nat, todo: set<nat>, o: nat)    // in _detach_from_parent, waiting for the barrier
    | PUnbound(p: nat, todo: set<nat>, o: nat)
    | OClosing(o: nat, snapshot: Option<nat>)       // closing an output
    | OUnbound(o: nat, snapshot: Option<nat>)
    | ODiscarded(o: nat)                            // about to call succeed

  datatype System = System(outputs: seq<Output>, parents: seq<Parent>, calls: seq<Phase>)

  datatype Step =
    | NewOutput
    | NewParent
    | NewCall
    | AttachStart(a: nat, o: nat, p: nat)
    | AttachEnd(a: nat, ok: bool)
    | DetachStart(a: nat, o: nat)
    | DetachUnbind(a: nat)
    | DetachDiscard(a: nat)
    | ParentCloseBegin(a: nat, p: nat)
    | ParentVisit(a: nat, o: nat, ok: bool)
    | ParentCloseEnd(a: nat, ok: bool)
    | OutputCloseBegin(a: nat, o: nat)
    | OutputCloseUnbind(a: nat, ok: bool)
    | OutputCloseDiscard(a: nat)
    | OutputCloseEnd(a: nat)

  /** No `attach` is between its two native-call ends with this output's lock held. */
  ghost predicate LockFree(s: System, o: nat) {
    forall a :: 0 <= a < |s.calls| ==> !(s.calls[a].AttachHeld? && s.calls[a].o == o)
  }

  ghost predicate CanStep(s: System, step: Step) {
    match step
    case NewOutput => true
    case NewParent => true
    case NewCall => true
    case AttachStart(a, o, p) =>
      && a < |s.calls| && s.calls[a].Idle? && o < |s.outputs| && p < |s.parents|
      && LockFree(s, o) && s.outputs[o].status == Open && s.outputs[o].bound.None? && s.parents[p].status == Open
    case AttachEnd(a, _) => a < |s.calls| && s.calls[a].AttachHeld?
    case DetachStart(a, o) =>
      && a < |s.calls| && s.calls[a].Idle? && o < |s.outputs|
      && LockFree(s, o) && s.outputs[o].status == Open && s.outputs[o].bound.Some? && !s.outputs[o].detaching
    case DetachUnbind(a) =>
      a < |s.calls| && (s.calls[a].Detaching? || s.calls[a].PDetaching?) && LockFree(s, s.calls[a].o)
    case DetachDiscard(a) => a < |s.calls| && (s.calls[a].Unbound? || s.calls[a].PUnbound?)
    case ParentCloseBegin(a, p) =>
      && a < |s.calls| && s.calls[a].Idle? && p < |s.parents|
      && (s.parents[p].status == Open || s.parents[p].status == CloseFailed)
    case ParentVisit(a, o, _) =>
      a < |s.calls| && s.calls[a].PClosing? && o in s.calls[a].todo && o < |s.outputs| && LockFree(s, o)
    case ParentCloseEnd(a, _) => a < |s.calls| && s.calls[a].PClosing? && s.calls[a].todo == {}
    case OutputCloseBegin(a, o) =>
      && a < |s.calls| && s.calls[a].Idle? && o < |s.outputs| && LockFree(s, o)
      && !s.outputs[o].detaching && (s.outputs[o].status == Open || s.outputs[o].status == CloseFailed)
    case OutputCloseUnbind(a, _) => a < |s.calls| && s.calls[a].OClosing? && LockFree(s, s.calls[a].o)
    case OutputCloseDiscard(a) => a < |s.calls| && s.calls[a].OUnbound?
    case OutputCloseEnd(a) => a < |s.calls| && s.calls[a].ODiscarded?
  }

  function SetOutput(s: System, o: nat, output: Output): System {
    if o < |s.outputs| then s.(outputs := s.outputs[o := output]) else s
  }

  function SetStatus(s: System, p: nat, status: Status): System {
    if p < |s.parents| then s.(parents := s.parents[p := s.parents[p].(status := status)]) else s
  }

  /** `parent._outputs.discard(output)`. */
  function DiscardOutput(s: System, p: nat, o: nat): System {
    if p < |s.parents| then s.(parents := s.parents[p := s.parents[p].(outputs := s.parents[p].outputs - {o})]) else s
  }

  function At(s: System, a: nat, phase: Phase): System
    requires a < |s.calls|
  {
    s.(calls := s.calls[a := phase])
  }

  ghost function Next(s: System, step: Step): System
    requires CanStep(s, step)
  {
    match step
    case NewOutput => s.(outputs := s.outputs + [Output(None, false, Open)])
    case NewParent => s.(parents := s.parents + [Parent(Open, {})])
    case NewCall => s.(calls := s.calls + [Idle])
    case AttachStart(a, o, p) =>
      At(s.(parents := s.parents[p := s.parents[p].(outputs := s.parents[p].outputs + {o})]), a, AttachHeld(o, p))
    case AttachEnd(a, ok) =>
      var o, p := s.calls[a].o, s.calls[a].p;
      At(if ok && o < |s.outputs| then SetOutput(s, o, s.outputs[o].(bound := Some(p))) else DiscardOutput(s, p, o),
         a, Idle)
    case DetachStart(a, o) =>
      At(SetOutput(s, o, s.outputs[o].(detaching := true)), a, Detaching(o, s.outputs[o].bound.value))
    case DetachUnbind(a) =>
      var c := s.calls[a];
      At(if c.o < |s.outputs| then SetOutput(s, c.o, s.outputs[c.o].(bound := None, detaching := false)) else s, a,
         if c.Detaching? then Unbound(c.o, c.p) else PUnbound(c.p, c.todo, c.o))
    case DetachDiscard(a) =>
      var c := s.calls[a];
      At(DiscardOutput(s, c.p, c.o), a, if c.Unbound? then Idle else PClosing(c.p, c.todo - {c.o}))
    case ParentCloseBegin(a, p) => At(SetStatus(s, p, Closing), a, PClosing(p, s.parents[p].outputs))
    case ParentVisit(a, o, ok) =>
      var c := s.calls[a];
      if s.outputs[o].bound != Some(c.p) then At(s, a, PClosing(c.p, c.todo - {o}))
      else if s.outputs[o].detaching || !ok then At(SetStatus(s, c.p, CloseFailed), a, Idle)
      else At(SetOutput(s, o, s.outputs[o].(detaching := true)), a, PDetaching(c.p, c.todo, o))
    case ParentCloseEnd(a, ok) => At(SetStatus(s, s.calls[a].p, if ok then Closed else CloseFailed), a, Idle)
    case OutputCloseBegin(a, o) =>
      At(SetOutput(s, o, s.outputs[o].(status := Closing)), a, OClosing(o, s.outputs[o].bound))
    case OutputCloseUnbind(a, ok) =>
      var c := s.calls[a];
      if c.o >= |s.outputs| then s
      else if !ok then At(SetOutput(s, c.o, s.outputs[c.o].(status := CloseFailed)), a, Idle)
      else At(SetOutput(s, c.o, s.outputs[c.o].(bound := None)), a, OUnbound(c.o, c.snapshot))
    case OutputCloseDiscard(a) =>
      var c := s.calls[a];
      At(if c.snapshot.Some? then DiscardOutput(s, c.snapshot.value, c.o) else s, a, ODiscarded(c.o))
    case OutputCloseEnd(a) =>
      var o := s.calls[a].o;
      At(if o < |s.outputs| then SetOutput(s, o, s.outputs[o].(status := Closed)) else s, a, Idle)
  }

  // ---- The invariant ----------------------------------------------------------------------------

  /** The call still has to discard `o` from the set of `p`. */
  predicate Tail(c: Phase, o: nat, p: nat) {
    c == Unbound(o, p) || (c.PUnbound? && c.p == p && c.o == o) || c == OUnbound(o, Some(p))
  }

  /** What a call in progress has to itself: the lock or the detach or the close of an output, or
      the close of a parent. */
  datatype Resource = Lock(o: nat) | Detach(o: nat) | CloseOutput(o: nat) | CloseParent(p: nat)

  predicate Uses(c: Phase, use: Resource) {
    match use
    case Lock(o) => c.AttachHeld? && c.o == o
    case Detach(o) => (c.Detaching? || c.PDetaching?) && c.o == o
    case CloseOutput(o) => (c.OClosing? || c.OUnbound? || c.ODiscarded?) && c.o == o
    case CloseParent(p) => (c.PClosing? || c.PDetaching? || c.PUnbound?) && c.p == p
  }

  predicate ClosesParent(c: Phase, p: nat) {
    Uses(c, CloseParent(p))
  }

  /** `o` is bound to `p`, or an attach holding its lock is about to bind it. */
  ghost predicate Claims(s: System, o: nat, p: nat) {
    || (o < |s.outputs| && s.outputs[o].bound == Some(p))
    || Held(s, o, p)
  }

  ghost predicate Held(s: System, o: nat, p: nat) {
    exists a :: 0 <= a < |s.calls| && s.calls[a] == AttachHeld(o, p)
  }

  ghost predicate HasTail(s: System, o: nat, p: nat) {
    exists a :: 0 <= a < |s.calls| && Tail(s.calls[a], o, p)
  }

  /** What one call in progress says about the objects it works on. */
  ghost predicate CallOk(s: System, c: Phase) {
    match c
    case Idle => true
    case AttachHeld(o, p) =>
      && o < |s.outputs| && p < |s.parents| && s.outputs[o].bound.None?
      && s.outputs[o].status == Open && !s.outputs[o].detaching
    case Detaching(o, p) =>
      && o < |s.outputs| && p < |s.parents| && s.outputs[o].bound == Some(p)
      && s.outputs[o].detaching && s.outputs[o].status == Open
    case Unbound(o, p) => o < |s.outputs| && p < |s.parents|
    case PClosing(p, todo) => p < |s.parents| && s.parents[p].status == Closing
    case PDetaching(p, todo, o) =>
      p < |s.parents| && s.parents[p].status == Closing && o < |s.outputs| && o in todo && s.outputs[o].detaching &&
      (s.outputs[o].bound == Some(p) || (s.outputs[o].bound.None? && s.outputs[o].status != Open))
    case PUnbound(p, todo, o) => p < |s.parents| && s.parents[p].status == Closing && o < |s.outputs|
    case OClosing(o, snapshot) =>
      o < |s.outputs| && s.outputs[o].status == Closing && (s.outputs[o].bound == snapshot || s.outputs[o].bound.None?)
    case OUnbound(o, snapshot) => o < |s.outputs| && s.outputs[o].status == Closing && s.outputs[o].bound.None?
    case ODiscarded(o) => o < |s.outputs| && s.outputs[o].status == Closing && s.outputs[o].bound.None?
  }

  predicate Exclusive(c: Phase, d: Phase) {
    && !(c.AttachHeld? && Uses(d, Lock(c.o)))
    && !((c.Detaching? || c.PDetaching?) && Uses(d, Detach(c.o)))
    && !((c.OClosing? || c.OUnbound? || c.ODiscarded?) && Uses(d, CloseOutput(c.o)))
    && !((c.PClosing? || c.PDetaching? || c.PUnbound?) && Uses(d, CloseParent(c.p)))
  }

  ghost predicate BoundsOk(s: System) {
    && (forall o :: 0 <= o < |s.outputs| && s.outputs[o].bound.Some? ==> s.outputs[o].bound.value < |s.parents|)
    && (forall o :: 0 <= o < |s.outputs| && s.outputs[o].bound.None? && s.outputs[o].status == Open ==>
          !s.outputs[o].detaching)
  }

  ghost predicate CallsOk(s: System) {
    && (forall a :: 0 <= a < |s.calls| ==> CallOk(s, s.calls[a]))
    && (forall a, b :: 0 <= a < |s.calls| && 0 <= b < |s.calls| && a != b ==> Exclusive(s.calls[a], s.calls[b]))
    && BoundsOk(s)
  }

  /** Every claim is registered with its parent, and nobody is about to unregister it. */
  ghost predicate Registered(s: System) {
    forall o: nat, p: nat {:trigger Claims(s, o, p)} :: p < |s.parents| && Claims(s, o, p) ==>
      o in s.parents[p].outputs && !HasTail(s, o, p)
  }

  /** A closed parent has no claimed output left ... */
  ghost predicate ClosedUnclaimed(s: System) {
    forall o: nat, p: nat {:trigger Claims(s, o, p)} :: p < |s.parents| && s.parents[p].status == Closed ==>
      !Claims(s, o, p)
  }

  /** ... because a closing one still has every claimed output in its snapshot. */
  ghost predicate ToVisit(s: System) {
    forall a, o: nat, p: nat {:trigger ClosesParent(s.calls[a], p), Claims(s, o, p)} ::
      0 <= a < |s.calls| && ClosesParent(s.calls[a], p) && Claims(s, o, p) ==> o in s.calls[a].todo
  }

  ghost predicate Covered(s: System) {
    ClosedUnclaimed(s) && ToVisit(s)
  }

  /** What is registered is claimed, or about to be discarded. */
  ghost predicate Accounted(s: System) {
    forall o: nat, p: nat {:trigger o in s.parents[p].outputs} ::
      0 <= p < |s.parents| && o in s.parents[p].outputs ==> Claims(s, o, p) || HasTail(s, o, p)
  }

  ghost predicate Inv(s: System) {
    CallsOk(s) && Registered(s) && Covered(s) && Accounted(s)
  }

  /** The discipline a caller can keep: do not re-attach an output to a parent while a `detach` of
      that output from that parent has not returned. */
  ghost predicate Disciplined(s: System, step: Step) {
    step.AttachStart? ==> !HasTail(s, step.o, step.p)
  }

  // ---- Preservation -----------------------------------------------------------------------------

  /** Replacing one call: what it does to the existential predicates. */
  lemma CallReplaced(s: System, r: System, a: nat)
    requires a < |s.calls| == |r.calls| && r.calls == s.calls[a := r.calls[a]]
    ensures forall o: nat, p: nat :: Held(r, o, p) ==> Held(s, o, p) || r.calls[a] == AttachHeld(o, p)
    ensures forall o: nat, p: nat :: Held(s, o, p) ==> Held(r, o, p) || s.calls[a] == AttachHeld(o, p)
    ensures forall o: nat, p: nat :: r.calls[a] == AttachHeld(o, p) ==> Held(r, o, p)
    ensures forall o: nat, p: nat :: s.calls[a] == AttachHeld(o, p) ==> Held(s, o, p)
    ensures forall o: nat, p: nat :: HasTail(r, o, p) ==> HasTail(s, o, p) || Tail(r.calls[a], o, p)
    ensures forall o: nat, p: nat :: HasTail(s, o, p) ==> HasTail(r, o, p) || Tail(s.calls[a], o, p)
    ensures forall o: nat, p: nat :: Tail(r.calls[a], o, p) ==> HasTail(r, o, p)
  {
    forall o: nat, p: nat
      ensures Held(s, o, p) ==> Held(r, o, p) || s.calls[a] == AttachHeld(o, p)
      ensures Held(r, o, p) ==> Held(s, o, p) || r.calls[a] == AttachHeld(o, p)
      ensures HasTail(s, o, p) ==> HasTail(r, o, p) || Tail(s.calls[a], o, p)
      ensures HasTail(r, o, p) ==> HasTail(s, o, p) || Tail(r.calls[a], o, p)
    {
      assert forall b :: 0 <= b < |s.calls| && b != a ==> r.calls[b] == s.calls[b];
    }
  }

  lemma CallsKept(s: System, r: System, a: nat)
    requires CallsOk(s) && a < |s.calls| == |r.calls| && r.calls == s.calls[a := r.calls[a]] && BoundsOk(r)
    requires CallOk(r, r.calls[a])
    requires forall b :: 0 <= b < |s.calls| && b != a ==> CallOk(r, s.calls[b])
    requires forall b :: 0 <= b < |s.calls| && b != a ==> Exclusive(r.calls[a], s.calls[b])
    ensures CallsOk(r)
  {
    assert forall b :: 0 <= b < |s.calls| && b != a ==> Exclusive(s.calls[b], r.calls[a]);
  }

  /** One step leaves every other call's facts alone. */
  lemma OtherCall(s: System, step: Step, b: nat)
    requires CallsOk(s) && CanStep(s, step) && !(step.NewOutput? || step.NewParent? || step.NewCall?)
    requires b < |s.calls| && b != step.a
    ensures CallOk(Next(s, step), s.calls[b])
  {
    var c, d := s.calls[step.a], s.calls[b];
    assert CallOk(s, c) && CallOk(s, d) && Exclusive(c, d) && Exclusive(d, c);
  }

  lemma OtherExclusive(s: System, step: Step, b: nat)
    requires CanStep(s, step) && !(step.NewOutput? || step.NewParent? || step.NewCall?)
    requires b < |s.calls| && b != step.a
    requires CallOk(s, s.calls[step.a]) && CallOk(s, s.calls[b]) && Exclusive(s.calls[step.a], s.calls[b])
    ensures Exclusive(Next(s, step).calls[step.a], s.calls[b])
  {
  }

  lemma OwnCall(s: System, step: Step)
    requires CallsOk(s) && CanStep(s, step) && !(step.NewOutput? || step.NewParent? || step.NewCall?)
    ensures CallOk(Next(s, step), Next(s, step).calls[step.a])
  {
    assert CallOk(s, s.calls[step.a]);
  }

  lemma OwnBounds(s: System, step: Step)
    requires CallsOk(s) && CanStep(s, step) && !(step.NewOutput? || step.NewParent? || step.NewCall?)
    ensures BoundsOk(Next(s, step))
  {
    assert CallOk(s, s.calls[step.a]);
  }

  predicate Grows(step: Step) {
    step.NewOutput? || step.NewParent? || step.NewCall?
  }

  lemma CallsOkStep(s: System, step: Step)
    requires CallsOk(s) && CanStep(s, step) && !Grows(step)
    ensures CallsOk(Next(s, step))
  {
    var r := Next(s, step);
    OwnCall(s, step);
    OwnBounds(s, step);
    forall b | 0 <= b < |s.calls| && b != step.a
      ensures CallOk(r, s.calls[b]) && Exclusive(r.calls[step.a], s.calls[b])
    {
      OtherCall(s, step, b);
      OtherExclusive(s, step, b);
    }
    CallsKept(s, r, step.a);
  }

  /** How a step changes the claims on outputs. */
  lemma ClaimsStep(s: System, step: Step, o: nat, p: nat)
    requires CallsOk(s) && CanStep(s, step) && !Grows(step)
    ensures step.AttachStart? ==> (Claims(Next(s, step), o, p) <==> Claims(s, o, p) || (o == step.o && p == step.p))
    ensures step.AttachEnd? ==>
      (Claims(Next(s, step), o, p) <==> Claims(s, o, p) && (step.ok || o != s.calls[step.a].o))
    ensures step.DetachUnbind? ==> (Claims(Next(s, step), o, p) <==> Claims(s, o, p) && o != s.calls[step.a].o)
    ensures step.OutputCloseUnbind? ==>
      (Claims(Next(s, step), o, p) <==> Claims(s, o, p) && (!step.ok || o != s.calls[step.a].o))
    ensures !(step.AttachStart? || step.AttachEnd? || step.DetachUnbind? || step.OutputCloseUnbind?) ==>
      (Claims(Next(s, step), o, p) <==> Claims(s, o, p))
  {
    var r := Next(s, step);
    CallReplaced(s, r, step.a);
    assert CallOk(s, s.calls[step.a]);
    assert s.calls[step.a].AttachHeld? ==> forall q: nat :: Held(s, s.calls[step.a].o, q) ==> q == s.calls[step.a].p;
    assert step.AttachEnd? && !step.ok && o == s.calls[step.a].o ==> !Held(r, o, p);
    assert step.DetachUnbind? || step.OutputCloseUnbind? ==> !Held(s, s.calls[step.a].o, p);
  }

  /** How a step changes what is about to be discarded. */
  lemma TailsStep(s: System, step: Step, o: nat, p: nat)
    requires CanStep(s, step) && !Grows(step)
    ensures HasTail(Next(s, step), o, p) ==> HasTail(s, o, p) || Tail(Next(s, step).calls[step.a], o, p)
    ensures HasTail(s, o, p) ==> HasTail(Next(s, step), o, p) || Tail(s.calls[step.a], o, p)
    ensures Tail(Next(s, step).calls[step.a], o, p) ==> HasTail(Next(s, step), o, p)
    ensures Tail(s.calls[step.a], o, p) ==> HasTail(s, o, p)
  {
    CallReplaced(s, Next(s, step), step.a);
  }

  /** How a step changes the registered outputs of a parent. */
  lemma SetsStep(s: System, step: Step, o: nat, p: nat)
    requires CallsOk(s) && CanStep(s, step) && !Grows(step) && p < |s.parents|
    ensures |Next(s, step).parents| == |s.parents|
    ensures
      var before, after := o in s.parents[p].outputs, o in Next(s, step).parents[p].outputs;
      && (step.AttachStart? ==> (after <==> before || (o == step.o && p == step.p)))
      && (step.AttachEnd? && !step.ok ==> (after <==> before && !(o == s.calls[step.a].o && p == s.calls[step.a].p)))
      && (step.DetachDiscard? || step.OutputCloseDiscard? ==> (after <==> before && !Tail(s.calls[step.a], o, p)))
      && (!(step.AttachStart? || (step.AttachEnd? && !step.ok) || step.DetachDiscard? || step.OutputCloseDiscard?) ==>
            after == before)
  {
    assert CallOk(s, s.calls[step.a]);
  }

  lemma RegisteredStep(s: System, step: Step)
    requires CallsOk(s) && Registered(s) && CanStep(s, step) && !Grows(step) && Disciplined(s, step)
    ensures Registered(Next(s, step))
  {
    var r := Next(s, step);
    assert CallOk(s, s.calls[step.a]);
    forall o: nat, p: nat | p < |r.parents| && Claims(r, o, p)
      ensures o in r.parents[p].outputs && !HasTail(r, o, p)
    {
      SetsStep(s, step, o, p);
      ClaimsStep(s, step, o, p);
      TailsStep(s, step, o, p);
    }
  }

  lemma AccountedStep(s: System, step: Step)
    requires CallsOk(s) && Accounted(s) && CanStep(s, step) && !Grows(step)
    ensures Accounted(Next(s, step))
  {
    var r := Next(s, step);
    var c := s.calls[step.a];
    assert CallOk(s, c);
    forall o: nat, p: nat | p < |r.parents| && o in r.parents[p].outputs
      ensures Claims(r, o, p) || HasTail(r, o, p)
    {
      SetsStep(s, step, o, p);
      ClaimsStep(s, step, o, p);
      TailsStep(s, step, o, p);
      assert (step.DetachUnbind? || step.OutputCloseUnbind?) && o == c.o ==> !Held(s, o, p);
      assert step.AttachEnd? && o == c.o && Claims(s, o, p) ==> p == c.p by {
        assert c.AttachHeld? ==> forall q: nat :: Held(s, c.o, q) ==> q == c.p;
      }
    }
  }

  lemma ClosedUnclaimedStep(s: System, step: Step)
    requires CallsOk(s) && ClosedUnclaimed(s) && ToVisit(s) && CanStep(s, step) && !Grows(step)
    ensures ClosedUnclaimed(Next(s, step))
  {
    var r := Next(s, step);
    var c := s.calls[step.a];
    forall o: nat, p: nat | p < |r.parents| && Claims(r, o, p)
      ensures r.parents[p].status != Closed
    {
      ClaimsStep(s, step, o, p);
      assert step.ParentCloseEnd? && p == c.p ==> ClosesParent(c, p);
    }
  }

  /** The call that takes the step, if it closes a parent afterwards. */
  lemma ToVisitOwn(s: System, step: Step, o: nat, p: nat)
    requires CallsOk(s) && Registered(s) && ToVisit(s) && CanStep(s, step) && !Grows(step)
    requires ClosesParent(Next(s, step).calls[step.a], p) && Claims(Next(s, step), o, p)
    ensures o in Next(s, step).calls[step.a].todo
  {
    var c := s.calls[step.a];
    assert CallOk(s, c);
    ClaimsStep(s, step, o, p);
    if step.ParentCloseBegin? {
    } else {
      assert ClosesParent(c, p) && o in c.todo;
      if step.ParentVisit? && o == step.o {
        assert !Held(s, o, p);
      }
      if step.DetachDiscard? {
        assert o == c.o ==> Tail(c, o, p) && HasTail(s, o, p);
      }
    }
  }

  lemma ToVisitOther(s: System, step: Step, a: nat, o: nat, p: nat)
    requires CallsOk(s) && ToVisit(s) && CanStep(s, step) && !Grows(step)
    requires a < |s.calls| && a != step.a && ClosesParent(s.calls[a], p) && Claims(Next(s, step), o, p)
    ensures o in s.calls[a].todo
  {
    assert CallOk(s, s.calls[a]);
    ClaimsStep(s, step, o, p);
  }

  lemma CoveredStep(s: System, step: Step)
    requires CallsOk(s) && Registered(s) && Covered(s) && CanStep(s, step) && !Grows(step)
    ensures Covered(Next(s, step))
  {
    var r := Next(s, step);
    ClosedUnclaimedStep(s, step);
    forall a, o: nat, p: nat | 0 <= a < |r.calls| && ClosesParent(r.calls[a], p) && Claims(r, o, p)
      ensures o in r.calls[a].todo
    {
      if a == step.a {
        ToVisitOwn(s, step, o, p);
      } else {
        assert r.calls[a] == s.calls[a];
        ToVisitOther(s, step, a, o, p);
      }
    }
  }

  lemma GrowSame(s: System, step: Step, o: nat, p: nat)
    requires Grows(step)
    ensures Claims(Next(s, step), o, p) == Claims(s, o, p) && HasTail(Next(s, step), o, p) == HasTail(s, o, p)
  {
    var r := Next(s, step);
    assert forall a :: 0 <= a < |s.calls| ==> r.calls[a] == s.calls[a];
    assert forall a :: |s.calls| <= a < |r.calls| ==> r.calls[a].Idle?;
    assert o < |s.outputs| ==> r.outputs[o] == s.outputs[o];
    assert |s.outputs| <= o < |r.outputs| ==> r.outputs[o].bound.None?;
  }

  lemma KeptGrow(s: System, step: Step)
    requires Inv(s) && Grows(step)
    ensures Inv(Next(s, step))
  {
    var r := Next(s, step);
    forall x: nat, q: nat
      ensures Claims(r, x, q) == Claims(s, x, q) && HasTail(r, x, q) == HasTail(s, x, q)
    {
      GrowSame(s, step, x, q);
    }
    GrowCalls(s, step);
    assert forall p :: 0 <= p < |s.parents| ==> r.parents[p] == s.parents[p];
    assert forall p :: |s.parents| <= p < |r.parents| ==> r.parents[p] == Parent(Open, {});
    GrowClaims(s, step);
  }

  lemma GrowCalls(s: System, step: Step)
    requires CallsOk(s) && Grows(step)
    ensures CallsOk(Next(s, step))
  {
    var r := Next(s, step);
    forall a | 0 <= a < |r.calls| ensures CallOk(r, r.calls[a]) {
      if a < |s.calls| {
        assert CallOk(s, s.calls[a]) && r.calls[a] == s.calls[a];
      }
    }
  }

  /** A claim always names an existing parent. */
  lemma GrowClaims(s: System, step: Step)
    requires CallsOk(s) && Grows(step)
    ensures forall o: nat, p: nat :: Claims(s, o, p) ==> p < |s.parents|
  {
    forall o: nat, p: nat | Claims(s, o, p) ensures p < |s.parents| {
      if Held(s, o, p) {
        var a :| 0 <= a < |s.calls| && s.calls[a] == AttachHeld(o, p);
        assert CallOk(s, s.calls[a]);
      }
    }
  }

  /** Every step of every thread keeps the invariant, as long as nobody re-attaches an output to a
      parent inside the tail of its own detach. */
  lemma InvKept(s: System, step: Step)
    requires Inv(s) && CanStep(s, step) && Disciplined(s, step)
    ensures Inv(Next(s, step))
  {
    if Grows(step) {
      KeptGrow(s, step);
    } else {
      CallsOkStep(s, step);
      RegisteredStep(s, step);
      CoveredStep(s, step);
      AccountedStep(s, step);
    }
  }

  // ---- Every run --------------------------------------------------------------------------------

  const EMPTY := System([], [], [])

  ghost predicate Path(s: System, steps: seq<Step>, r: System)
    decreases |steps|
  {
    if steps == [] then r == s else CanStep(s, steps[0]) && Path(Next(s, steps[0]), steps[1..], r)
  }

  ghost predicate DisciplinedPath(s: System, steps: seq<Step>, r: System)
    decreases |steps|
  {
    if steps == [] then r == s
    else CanStep(s, steps[0]) && Disciplined(s, steps[0]) && DisciplinedPath(Next(s, steps[0]), steps[1..], r)
  }

  lemma {:induction false} InvAlong(s: System, steps: seq<Step>, r: System)
    requires Inv(s) && DisciplinedPath(s, steps, r)
    ensures Inv(r)
    decreases |steps|
  {
    if steps != [] {
      InvKept(s, steps[0]);
      InvAlong(Next(s, steps[0]), steps[1..], r);
    }
  }

  /** Over every disciplined interleaving of attach, detach, output close and parent close: no
      output stays bound to a successfully closed parent; and with no call in progress an output is
      in a parent's set exactly when it is bound to that parent. */
  lemma BindingSound(steps: seq<Step>, r: System)
    requires DisciplinedPath(EMPTY, steps, r)
    ensures forall o, p: nat :: 0 <= o < |r.outputs| && p < |r.parents| && r.parents[p].status == Closed ==>
              r.outputs[o].bound != Some(p)
    ensures (forall a :: 0 <= a < |r.calls| ==> r.calls[a].Idle?) ==>
              forall o: nat, p: nat :: p < |r.parents| ==>
                (o in r.parents[p].outputs <==> o < |r.outputs| && r.outputs[o].bound == Some(p))
  {
    InvAlong(EMPTY, steps, r);
    forall o, p: nat | 0 <= o < |r.outputs| && p < |r.parents| && r.parents[p].status == Closed
      ensures r.outputs[o].bound != Some(p)
    {
      assert !Claims(r, o, p);
    }
    if forall a :: 0 <= a < |r.calls| ==> r.calls[a].Idle? {
      forall o: nat, p: nat | p < |r.parents|
        ensures o in r.parents[p].outputs <==> o < |r.outputs| && r.outputs[o].bound == Some(p)
      {
        assert !Held(r, o, p) && !HasTail(r, o, p);
        assert Claims(r, o, p) <==> o < |r.outputs| && r.outputs[o].bound == Some(p);
      }
    }
  }

  // ---- What happens without the discipline --------------------------------------------------------

  /** Bound to a parent that has forgotten it. */
  ghost predicate Orphaned(s: System, o: nat, p: nat) {
    o < |s.outputs| && p < |s.parents| && s.outputs[o].bound == Some(p) && o !in s.parents[p].outputs
  }

  lemma PathCons(s: System, step: Step, m: System, rest: seq<Step>, r: System)
    requires CanStep(s, step) && Next(s, step) == m && Path(m, rest, r)
    ensures Path(s, [step] + rest, r)
  {
    assert ([step] + rest)[1..] == rest;
  }

  const FREE := Output(None, false, Open)
  const BOUND := Output(Some(0), false, Open)
  const RACED := System([BOUND], [Parent(Closed, {})], [Idle, Idle])

  /** A parent that has forgotten its output closes without visiting it. */
  lemma RaceClose()
    ensures exists steps :: Path(System([BOUND], [Parent(Open, {})], [Idle, Idle]), steps, RACED)
  {
    var s0 := System([BOUND], [Parent(Open, {})], [Idle, Idle]);
    var s1 := System([BOUND], [Parent(Closing, {})], [PClosing(0, {}), Idle]);
    PathCons(s1, ParentCloseEnd(0, true), RACED, [], RACED);
    PathCons(s0, ParentCloseBegin(0, 0), s1, [ParentCloseEnd(0, true)] + [], RACED);
  }

  /** The second half of the race: re-attach inside the detach's tail, then discard. */
  lemma RaceTail()
    ensures exists steps :: Path(System([FREE], [Parent(Open, {0})], [Unbound(0, 0), Idle]), steps, RACED)
  {
    var s0 := System([FREE], [Parent(Open, {0})], [Unbound(0, 0), Idle]);
    var s1 := s0.(calls := [Unbound(0, 0), AttachHeld(0, 0)]);
    var s2 := s0.(outputs := [BOUND]);
    var s3 := System([BOUND], [Parent(Open, {})], [Idle, Idle]);
    assert {0} + {0} == {0} && {0} - {0} == {};
    RaceClose();
    var steps :| Path(s3, steps, RACED);
    PathCons(s2, DetachDiscard(0), s3, steps, RACED);
    PathCons(s1, AttachEnd(1, true), s2, [DetachDiscard(0)] + steps, RACED);
    PathCons(s0, AttachStart(1, 0, 0), s1, [AttachEnd(1, true)] + ([DetachDiscard(0)] + steps), RACED);
  }

  lemma RaceDetach()
    ensures exists steps :: Path(System([BOUND], [Parent(Open, {0})], [Idle, Idle]), steps, RACED)
  {
    var s0 := System([BOUND], [Parent(Open, {0})], [Idle, Idle]);
    var s1 := System([BOUND.(detaching := true)], [Parent(Open, {0})], [Detaching(0, 0), Idle]);
    var s2 := System([FREE], [Parent(Open, {0})], [Unbound(0, 0), Idle]);
    RaceTail();
    var steps :| Path(s2, steps, RACED);
    PathCons(s1, DetachUnbind(0), s2, steps, RACED);
    PathCons(s0, DetachStart(0, 0), s1, [DetachUnbind(0)] + steps, RACED);
  }

  /** The race, concretely: one thread detaches, a second re-attaches, the first one's discard
      lands after it, and the parent's close then succeeds with the output still bound. */
  lemma BoundToClosedParent()
    ensures exists steps, r :: Path(System([FREE], [Parent(Open, {})], [Idle, Idle]), steps, r) &&
              |r.outputs| == 1 && |r.parents| == 1 && r.parents[0].status == Closed && r.outputs[0].bound == Some(0)
  {
    var s0 := System([FREE], [Parent(Open, {})], [Idle, Idle]);
    var s1 := System([FREE], [Parent(Open, {0})], [AttachHeld(0, 0), Idle]);
    var s2 := System([BOUND], [Parent(Open, {0})], [Idle, Idle]);
    RaceDetach();
    var steps :| Path(s2, steps, RACED);
    PathCons(s1, AttachEnd(0, true), s2, steps, RACED);
    assert {} + {0} == {0};
    PathCons(s0, AttachStart(0, 0, 0), s1, [AttachEnd(0, true)] + steps, RACED);
  }
}
