/** Who waits for whom when cloud storage objects close (src/tirtc/storage/__init__.py): the closes
    of Client, CloudStorage, Replay and ExportTask with their snapshots, their guards against being
    called from a callback, and the `_bound` of an output, which other threads keep changing. */
module CloseWaits {
  import opened Wrappers

  /** An object and the object it belongs to for good: `_client` and `_parent` never change. */
  datatype Kind = ClientKind | CloudKind(client: nat) | ReplayKind(cloud: nat) | ExportKind(cloud: nat) | OutputKind

  /** All objects that will ever exist in a run; each starts out `Unborn`. */
  type Universe = seq<Kind>

  ghost predicate UniverseOk(u: Universe) {
    forall x :: 0 <= x < |u| ==>
      match u[x]
      case CloudKind(c) => c < |u| && u[c].ClientKind?
      case ReplayKind(k) => k < |u| && u[k].CloudKind?
      case ExportKind(k) => k < |u| && u[k].CloudKind?
      case _ => true
  }

  function Above(u: Universe, x: nat): Option<nat> {
    if x >= |u| then None
    else
      match u[x]
      case CloudKind(c) => Some(c)
      case ReplayKind(k) => Some(k)
      case ExportKind(k) => Some(k)
      case _ => None
  }

  /** `t` is `x` or lies above it. */
  predicate Under(u: Universe, x: nat, t: nat) {
    x == t ||
    (Above(u, x).Some? &&
     (Above(u, x).value == t || Above(u, Above(u, x).value) == Some(t)))
  }

  /** `_callback_descends_from` for an object whose `_bound` is `bound`. */
  predicate Descends(u: Universe, x: nat, bound: Option<nat>, t: nat) {
    Under(u, x, t) || (bound.Some? && Under(u, bound.value, t))
  }

  datatype Status = Unborn | Open | Closing | CloseFailed | Closed

  /** `members`: `_clouds`, `_replays` and `_exports`, or `_outputs`; `bound` and `detaching` are those
      of an output; `generation` counts the closes that have begun. */
  datatype Object = Object(status: Status, members: set<nat>, bound: Option<nat>, detaching: bool, generation: nat)

  const UNBORN := Object(Unborn, {}, None, false, 0)

  /** A close in progress: its object, what is left of its snapshot, and the `_bound` that the callback
      owner of its thread had when it passed the guard, which the code does not keep. */
  datatype Frame = Frame(target: nat, todo: set<nat>, seen: Option<nat>)

  datatype Phase =
    | Working
    | Waiting(x: nat)                      // for the dispatcher of `x`
    | Unbound(x: nat)                      // about to discard `x` from its parent's set
    | Joined(t: nat, seen: Option<nat>, generation: nat)    // for another thread's close of `t`
    | AttachHeld(o: nat, r: nat)           // in attach, holding the output's lock
    | Detaching(o: nat, r: nat)            // in detach, waiting for the dispatcher of `o`
    | DetachTail(o: nat, r: nat)

  /** A thread: the owner of the callback it runs, and the closes it is in, outermost first. */
  datatype Call = Call(owner: Option<nat>, stack: seq<Frame>, phase: Phase)

  datatype System = System(kinds: Universe, objects: seq<Object>, calls: seq<Call>)

  datatype Step =
    | Create(x: nat)
    | Thread(owner: Option<nat>)
    | CallbackReturns(a: nat)
    | Enter(a: nat, t: nat)
    | VisitOutput(a: nat, o: nat)
    | WaitOwn(a: nat)
    | WaitDone(a: nat)
    | Discard(a: nat)
    | FinishPlain(a: nat)
    | FailTop(a: nat)
    | JoinDone(a: nat)
    | Forget(p: nat, x: nat)
    | Attach(a: nat, o: nat, r: nat)
    | AttachEnd(a: nat, ok: bool)
    | DetachStart(a: nat, o: nat)
    | DetachDone(a: nat)
    | DetachDiscard(a: nat)

  predicate HasCallbacks(k: Kind) {
    k.ReplayKind? || k.ExportKind? || k.OutputKind?
  }

  /** Closes of these wait for their own dispatcher. */
  predicate HasDispatcher(k: Kind) {
    k.ReplayKind? || k.ExportKind?
  }

  function Top(c: Call): Frame
    requires c.stack != []
  {
    c.stack[|c.stack| - 1]
  }

  predicate IsIdle(c: Call) {
    c.stack == [] && c.phase.Working?
  }

  function OwnerBound(s: System, c: Call): Option<nat> {
    if c.owner.Some? && c.owner.value < |s.objects| then s.objects[c.owner.value].bound else None
  }

  /** The check each close makes before it begins: `_callback_descends_from`, `_in_related_callback`,
      or the identity test of `ExportTask.wait`. */
  predicate Rejected(u: Universe, owner: Option<nat>, bound: Option<nat>, t: nat) {
    t < |u| && owner.Some? &&
    match u[t]
    case ClientKind => Descends(u, owner.value, bound, t)
    case CloudKind(_) => Descends(u, owner.value, bound, t)
    case ReplayKind(_) => owner.value == t || bound == Some(t)
    case ExportKind(_) => owner.value == t
    case OutputKind => true
  }

  ghost predicate LockFree(s: System, o: nat) {
    forall a :: 0 <= a < |s.calls| ==> !(s.calls[a].phase.AttachHeld? && s.calls[a].phase.o == o)
  }

  /** Nobody is inside a callback of `x`: what a barrier waits for. */
  ghost predicate Quiet(s: System, x: nat) {
    forall a :: 0 <= a < |s.calls| ==> s.calls[a].owner != Some(x)
  }

  /** The close that the thread has joined is still going on. */
  predicate InGeneration(objects: seq<Object>, p: Phase) {
    && p.Joined? && p.t < |objects| && objects[p.t].status.Closing? && objects[p.t].generation == p.generation
  }

  ghost predicate CanEnter(s: System, c: Call, t: nat) {
    && c.phase.Working? && t < |s.kinds| && t < |s.objects| && !s.kinds[t].OutputKind? && !s.objects[t].status.Unborn?
    && (c.stack != [] ==> t in Top(c).todo)
  }

  ghost predicate CanStep(s: System, step: Step) {
    |s.objects| == |s.kinds| &&
    match step
    case Create(x) =>
      x < |s.kinds| && s.objects[x].status.Unborn? &&
      (var p := Above(s.kinds, x); p.Some? ==> p.value < |s.objects| && s.objects[p.value].status.Open?)
    case Thread(owner) =>
      owner.Some? ==>
        && owner.value < |s.kinds| && HasCallbacks(s.kinds[owner.value])
        && !s.objects[owner.value].status.Unborn? && !s.objects[owner.value].status.Closed?
    case CallbackReturns(a) => a < |s.calls| && IsIdle(s.calls[a])
    case Enter(a, t) => a < |s.calls| && CanEnter(s, s.calls[a], t)
    case VisitOutput(a, o) =>
      && a < |s.calls| && s.calls[a].phase.Working? && s.calls[a].stack != []
      && o in Top(s.calls[a]).todo && o < |s.kinds| && s.kinds[o].OutputKind? && LockFree(s, o)
    case WaitOwn(a) =>
      && a < |s.calls| && s.calls[a].phase.Working? && s.calls[a].stack != [] && Top(s.calls[a]).todo == {}
      && Top(s.calls[a]).target < |s.kinds| && HasDispatcher(s.kinds[Top(s.calls[a]).target])
    case WaitDone(a) =>
      a < |s.calls| && s.calls[a].phase.Waiting? && s.calls[a].stack != [] && Quiet(s, s.calls[a].phase.x)
    case Discard(a) => a < |s.calls| && s.calls[a].phase.Unbound? && s.calls[a].stack != []
    case FinishPlain(a) =>
      && a < |s.calls| && s.calls[a].phase.Working? && s.calls[a].stack != [] && Top(s.calls[a]).todo == {}
      && Top(s.calls[a]).target < |s.kinds| && !HasDispatcher(s.kinds[Top(s.calls[a]).target])
    case FailTop(a) => a < |s.calls| && s.calls[a].phase.Working? && s.calls[a].stack != []
    case JoinDone(a) =>
      && a < |s.calls| && s.calls[a].phase.Joined? && s.calls[a].phase.t < |s.objects|
      && !InGeneration(s.objects, s.calls[a].phase)
    case Forget(p, x) => p < |s.objects| && x < |s.objects| && s.objects[x].status.Closed?
    case Attach(a, o, r) =>
      && a < |s.calls| && IsIdle(s.calls[a]) && o < |s.kinds| && s.kinds[o].OutputKind? && LockFree(s, o)
      && s.objects[o].status.Open? && s.objects[o].bound.None?
      && r < |s.kinds| && s.kinds[r].ReplayKind? && s.objects[r].status.Open?
    case AttachEnd(a, _) => a < |s.calls| && s.calls[a].phase.AttachHeld?
    case DetachStart(a, o) =>
      && a < |s.calls| && IsIdle(s.calls[a]) && o < |s.objects| && LockFree(s, o)
      && s.objects[o].bound.Some? && !s.objects[o].detaching
      && s.calls[a].owner != Some(o) && s.calls[a].owner != s.objects[o].bound
    case DetachDone(a) => a < |s.calls| && s.calls[a].phase.Detaching? && Quiet(s, s.calls[a].phase.o)
    case DetachDiscard(a) => a < |s.calls| && s.calls[a].phase.DetachTail?
  }

  // ---- Effects ------------------------------------------------------------------------------------

  function Put(objects: seq<Object>, x: nat, y: Object): seq<Object> {
    if x < |objects| then objects[x := y] else objects
  }

  function SetStatus(objects: seq<Object>, x: nat, status: Status): seq<Object> {
    if x < |objects| then objects[x := objects[x].(status := status)] else objects
  }

  function Begun(objects: seq<Object>, x: nat): seq<Object> {
    if x < |objects| then objects[x := objects[x].(status := Closing, generation := objects[x].generation + 1)]
    else objects
  }

  function AddMember(objects: seq<Object>, p: nat, x: nat): seq<Object> {
    if p < |objects| then objects[p := objects[p].(members := objects[p].members + {x})] else objects
  }

  function DropMember(objects: seq<Object>, p: nat, x: nat): seq<Object> {
    if p < |objects| then objects[p := objects[p].(members := objects[p].members - {x})] else objects
  }

  function Release(objects: seq<Object>, o: nat): seq<Object> {
    if o < |objects| then objects[o := objects[o].(bound := None, detaching := false)] else objects
  }

  /** The stack without its innermost close. */
  function Popped(stack: seq<Frame>): seq<Frame>
    requires stack != []
  {
    stack[..|stack| - 1]
  }

  /** The innermost close has no more to do with `x`. */
  function Visited(stack: seq<Frame>, x: nat): seq<Frame> {
    if stack == [] then stack
    else
      var top := stack[|stack| - 1];
      stack[|stack| - 1 := top.(todo := top.todo - {x})]
  }

  function At(s: System, a: nat, c: Call, objects: seq<Object>): System
    requires a < |s.calls|
  {
    s.(calls := s.calls[a := c], objects := objects)
  }

  function Raise(s: System, a: nat): System
    requires a < |s.calls|
  {
    var c := s.calls[a];
    if c.stack == [] then At(s, a, c.(phase := Working), s.objects)
    else At(s, a, c.(stack := Popped(c.stack), phase := Working), SetStatus(s.objects, Top(c).target, CloseFailed))
  }

  /** One close called by a thread: guard, then `begin`. */
  ghost function EnterNext(s: System, a: nat, t: nat): System
    requires a < |s.calls| && CanEnter(s, s.calls[a], t)
  {
    var c := s.calls[a];
    var bound := OwnerBound(s, c);
    if Rejected(s.kinds, c.owner, bound, t) && !s.objects[t].status.Closed? then Raise(s, a)
    else
      match s.objects[t].status
      case Closed => At(s, a, c.(stack := Visited(c.stack, t)), s.objects)
      case Closing => At(s, a, c.(phase := Joined(t, bound, s.objects[t].generation)), s.objects)
      case _ =>
        At(s, a, c.(stack := c.stack + [Frame(t, s.objects[t].members, bound)]), Begun(s.objects, t))
  }

  ghost function Next(s: System, step: Step): System
    requires CanStep(s, step)
  {
    match step
    case Create(x) =>
      var born := s.objects[x := Object(Open, {}, None, false, 0)];
      var p := Above(s.kinds, x);
      s.(objects := if p.Some? then AddMember(born, p.value, x) else born)
    case Thread(owner) => s.(calls := s.calls + [Call(owner, [], Working)])
    case CallbackReturns(a) => At(s, a, s.calls[a].(owner := None), s.objects)
    case Enter(a, t) => EnterNext(s, a, t)
    case VisitOutput(a, o) =>
      var c := s.calls[a];
      var r := Top(c).target;
      if s.objects[o].bound != Some(r) then At(s, a, c.(stack := Visited(c.stack, o)), s.objects)
      else if s.objects[o].detaching || c.owner == Some(o) || c.owner == Some(r) then Raise(s, a)
      else At(s, a, c.(phase := Waiting(o)), Put(s.objects, o, s.objects[o].(detaching := true)))
    case WaitOwn(a) => At(s, a, s.calls[a].(phase := Waiting(Top(s.calls[a]).target)), s.objects)
    case WaitDone(a) =>
      var c := s.calls[a];
      var x := c.phase.x;
      if x == Top(c).target then
        At(s, a, c.(stack := Visited(Popped(c.stack), x), phase := Working), SetStatus(s.objects, x, Closed))
      else At(s, a, c.(phase := Unbound(x)), Release(s.objects, x))
    case Discard(a) =>
      var c := s.calls[a];
      At(s, a, c.(stack := Visited(c.stack, c.phase.x), phase := Working),
         DropMember(s.objects, Top(c).target, c.phase.x))
    case FinishPlain(a) =>
      var c := s.calls[a];
      At(s, a, c.(stack := Visited(Popped(c.stack), Top(c).target)), SetStatus(s.objects, Top(c).target, Closed))
    case FailTop(a) => Raise(s, a)
    case JoinDone(a) =>
      var c := s.calls[a];
      if s.objects[c.phase.t].status.Closed? && s.objects[c.phase.t].generation == c.phase.generation then
        At(s, a, c.(stack := Visited(c.stack, c.phase.t), phase := Working), s.objects)
      else Raise(s, a)
    case Forget(p, x) => s.(objects := DropMember(s.objects, p, x))
    case Attach(a, o, r) => At(s, a, s.calls[a].(phase := AttachHeld(o, r)), AddMember(s.objects, r, o))
    case AttachEnd(a, ok) =>
      var o, r := s.calls[a].phase.o, s.calls[a].phase.r;
      At(s, a, s.calls[a].(phase := Working),
         if !ok then DropMember(s.objects, r, o)
         else if o < |s.objects| then Put(s.objects, o, s.objects[o].(bound := Some(r))) else s.objects)
    case DetachStart(a, o) =>
      At(s, a, s.calls[a].(phase := Detaching(o, s.objects[o].bound.value)),
         Put(s.objects, o, s.objects[o].(detaching := true)))
    case DetachDone(a) =>
      var p := s.calls[a].phase;
      At(s, a, s.calls[a].(phase := DetachTail(p.o, p.r)), Release(s.objects, p.o))
    case DetachDiscard(a) =>
      var p := s.calls[a].phase;
      At(s, a, s.calls[a].(phase := Working), DropMember(s.objects, p.r, p.o))
  }

  // ---- The invariant ------------------------------------------------------------------------------

  /** What may be in the set of a parent. */
  predicate Belongs(u: Universe, x: nat, p: nat) {
    x < |u| && p < |u| && (if u[p].ReplayKind? then u[x].OutputKind? else Above(u, x) == Some(p))
  }

  predicate ObjectOk(u: Universe, p: nat, y: Object) {
    && p < |u|
    && (forall x :: x in y.members ==> Belongs(u, x, p))
    && (y.bound.Some? ==> u[p].OutputKind? && y.bound.value < |u| && u[y.bound.value].ReplayKind?)
  }

  ghost predicate Typed(u: Universe, objects: seq<Object>) {
    |objects| == |u| && forall p :: 0 <= p < |objects| ==> ObjectOk(u, p, objects[p])
  }

  ghost predicate ObjectsOk(s: System) {
    Typed(s.kinds, s.objects)
  }

  /** The close of `t` got past its check for a thread with this owner and this `_bound`. */
  predicate Passed(u: Universe, owner: Option<nat>, seen: Option<nat>, t: nat) {
    t < |u| && !u[t].OutputKind? && !Rejected(u, owner, seen, t)
  }

  ghost predicate StackOk(u: Universe, owner: Option<nat>, stack: seq<Frame>) {
    && (forall i :: 0 <= i < |stack| ==> Passed(u, owner, stack[i].seen, stack[i].target))
    && (forall i, x :: 0 <= i < |stack| && x in stack[i].todo ==> Belongs(u, x, stack[i].target))
    && (forall i :: 0 <= i < |stack| - 1 ==> Above(u, stack[i + 1].target) == Some(stack[i].target))
  }

  /** The wait of a thread is not for the callback it runs. */
  ghost predicate PhaseOk(u: Universe, c: Call) {
    match c.phase
    case Waiting(x) =>
      && c.stack != [] && c.owner != Some(x)
      && x < |u| && Top(c).target < |u|
      && (if x == Top(c).target then HasDispatcher(u[x]) else u[x].OutputKind? && u[Top(c).target].ReplayKind?)
    case Unbound(_) => c.stack != [] && Top(c).target < |u| && u[Top(c).target].ReplayKind?
    case Joined(t, seen, _) => Passed(u, c.owner, seen, t) && (c.stack != [] ==> Above(u, t) == Some(Top(c).target))
    case Detaching(o, r) => c.owner != Some(o) && c.owner != Some(r) && c.stack == []
    case AttachHeld(o, r) => c.stack == [] && Belongs(u, o, r) && u[r].ReplayKind?
    case DetachTail(_, _) => c.stack == []
    case _ => true
  }

  ghost predicate CallOk(u: Universe, c: Call) {
    && (c.owner.Some? ==> c.owner.value < |u| && HasCallbacks(u[c.owner.value]))
    && StackOk(u, c.owner, c.stack) && PhaseOk(u, c)
  }

  ghost predicate Holds(s: System, a: nat, i: nat, t: nat) {
    a < |s.calls| && i < |s.calls[a].stack| && s.calls[a].stack[i].target == t
  }

  /** One thread at a time closes an object, once, and its status says so. */
  ghost predicate OneCloser(s: System) {
    && (forall a: nat, i: nat, t: nat {:trigger Holds(s, a, i, t)} ::
          Holds(s, a, i, t) ==> t < |s.objects| && s.objects[t].status.Closing?)
    && (forall a: nat, i: nat, b: nat, j: nat, t: nat {:trigger Holds(s, a, i, t), Holds(s, b, j, t)} ::
          Holds(s, a, i, t) && Holds(s, b, j, t) ==> a == b && i == j)
  }

  ghost predicate Inv(s: System) {
    && UniverseOk(s.kinds) && ObjectsOk(s) && OneCloser(s)
    && (forall a :: 0 <= a < |s.calls| ==> CallOk(s.kinds, s.calls[a]))
  }

  predicate Moves(step: Step) {
    !(step.Create? || step.Thread? || step.Forget?)
  }

  /** Steps that do not touch any stack. */
  predicate Flat(step: Step) {
    !(step.Enter? || step.VisitOutput? || step.WaitDone? || step.FinishPlain? || step.FailTop? || step.JoinDone? ||
      step.Discard?)
  }

  // ---- Objects ------------------------------------------------------------------------------------

  lemma TypedEffects(u: Universe, objects: seq<Object>, p: nat, x: nat)
    requires Typed(u, objects)
    ensures Typed(u, Begun(objects, p)) && forall status :: Typed(u, SetStatus(objects, p, status))
    ensures Typed(u, DropMember(objects, p, x)) && Typed(u, Release(objects, p))
    ensures Belongs(u, x, p) ==> Typed(u, AddMember(objects, p, x))
  {
  }

  lemma TypedPut(u: Universe, objects: seq<Object>, x: nat, y: Object)
    requires Typed(u, objects) && (x < |objects| ==> ObjectOk(u, x, y))
    ensures Typed(u, Put(objects, x, y))
  {
  }

  lemma ObjectsRaised(s: System, a: nat)
    requires ObjectsOk(s) && a < |s.calls|
    ensures ObjectsOk(Raise(s, a)) && Raise(s, a).kinds == s.kinds
  {
    if s.calls[a].stack != [] {
      TypedEffects(s.kinds, s.objects, Top(s.calls[a]).target, 0);
    }
  }

  /** The steps of a close. */
  lemma ObjectsClose(s: System, step: Step)
    requires ObjectsOk(s) && CanStep(s, step)
    requires step.Enter? || step.VisitOutput? || step.WaitOwn? || step.WaitDone? || step.Discard? ||
             step.FinishPlain? || step.FailTop? || step.JoinDone?
    ensures ObjectsOk(Next(s, step)) && Next(s, step).kinds == s.kinds
  {
    var c := s.calls[step.a];
    ObjectsRaised(s, step.a);
    if c.stack != [] {
      TypedEffects(s.kinds, s.objects, Top(c).target, if c.phase.Unbound? then c.phase.x else 0);
    }
    match step
    case Enter(_, t) => TypedEffects(s.kinds, s.objects, t, 0);
    case VisitOutput(_, o) => TypedPut(s.kinds, s.objects, o, s.objects[o].(detaching := true));
    case WaitDone(_) => TypedEffects(s.kinds, s.objects, c.phase.x, 0);
    case _ =>
  }

  /** The others. */
  lemma ObjectsOther(s: System, step: Step)
    requires UniverseOk(s.kinds) && ObjectsOk(s) && CanStep(s, step) && Flat(step) && !step.WaitOwn?
    requires step.AttachEnd? ==> CallOk(s.kinds, s.calls[step.a])
    ensures ObjectsOk(Next(s, step)) && Next(s, step).kinds == s.kinds
  {
    match step
    case Create(x) =>
      TypedPut(s.kinds, s.objects, x, Object(Open, {}, None, false, 0));
      var p := Above(s.kinds, x);
      if p.Some? {
        TypedEffects(s.kinds, s.objects[x := Object(Open, {}, None, false, 0)], p.value, x);
      }
    case Forget(p, x) => TypedEffects(s.kinds, s.objects, p, x);
    case Attach(a, o, r) => TypedEffects(s.kinds, s.objects, r, o);
    case AttachEnd(a, ok) =>
      var o, r := s.calls[a].phase.o, s.calls[a].phase.r;
      TypedEffects(s.kinds, s.objects, r, o);
      TypedPut(s.kinds, s.objects, o, s.objects[o].(bound := Some(r)));
    case DetachStart(a, o) => TypedPut(s.kinds, s.objects, o, s.objects[o].(detaching := true));
    case DetachDone(a) => TypedEffects(s.kinds, s.objects, s.calls[a].phase.o, 0);
    case DetachDiscard(a) => TypedEffects(s.kinds, s.objects, s.calls[a].phase.r, s.calls[a].phase.o);
    case _ =>
  }

  lemma ObjectsKept(s: System, step: Step)
    requires UniverseOk(s.kinds) && ObjectsOk(s) && CanStep(s, step)
    requires Moves(step) ==> CallOk(s.kinds, s.calls[step.a])
    ensures ObjectsOk(Next(s, step)) && Next(s, step).kinds == s.kinds
  {
    if Flat(step) && !step.WaitOwn? {
      ObjectsOther(s, step);
    } else {
      ObjectsClose(s, step);
    }
  }

  /** A step changes the thread that takes it and no other. */
  lemma OthersStay(s: System, step: Step, b: nat)
    requires CanStep(s, step) && b < |s.calls| && (Moves(step) ==> b != step.a)
    ensures b < |Next(s, step).calls| && Next(s, step).calls[b] == s.calls[b]
  {
  }

  // ---- One closer ---------------------------------------------------------------------------------

  /** No closes but those of `s`, and those still closing. */
  lemma ClosersKept(s: System, r: System)
    requires OneCloser(s) && |r.objects| == |s.objects|
    requires forall a: nat, i: nat, t: nat :: Holds(r, a, i, t) ==> Holds(s, a, i, t)
    requires forall a: nat, i: nat, t: nat :: Holds(r, a, i, t) ==> t < |r.objects| && r.objects[t].status.Closing?
    ensures OneCloser(r)
  {
  }

  /** A close that is over. */
  lemma ClosersPopped(s: System, r: System, a: nat, status: Status)
    requires OneCloser(s) && a < |s.calls| == |r.calls| && s.calls[a].stack != [] && r.calls == s.calls[a := r.calls[a]]
    requires r.objects == SetStatus(s.objects, Top(s.calls[a]).target, status)
    requires |r.calls[a].stack| == |s.calls[a].stack| - 1
    requires forall i :: 0 <= i < |r.calls[a].stack| ==> r.calls[a].stack[i].target == s.calls[a].stack[i].target
    ensures OneCloser(r)
  {
    var n := |s.calls[a].stack| - 1;
    assert Holds(s, a, n, Top(s.calls[a]).target);
    forall b: nat, i: nat, t: nat | Holds(r, b, i, t)
      ensures Holds(s, b, i, t) && t < |r.objects| && r.objects[t].status.Closing?
    {
      assert Holds(s, b, i, t);
    }
    ClosersKept(s, r);
  }

  /** A close that begins. */
  lemma ClosersPushed(s: System, r: System, a: nat, t: nat)
    requires OneCloser(s) && a < |s.calls| == |r.calls| && r.calls == s.calls[a := r.calls[a]]
    requires t < |s.objects| && !s.objects[t].status.Closing? && r.objects == Begun(s.objects, t)
    requires |r.calls[a].stack| == |s.calls[a].stack| + 1 && Top(r.calls[a]).target == t
    requires forall i :: 0 <= i < |s.calls[a].stack| ==> r.calls[a].stack[i] == s.calls[a].stack[i]
    ensures OneCloser(r)
  {
    forall b: nat, i: nat, x: nat | Holds(r, b, i, x)
      ensures Holds(s, b, i, x) || (b == a && i == |s.calls[a].stack| && x == t)
      ensures x < |r.objects| && r.objects[x].status.Closing?
    {
      if b == a && i == |s.calls[a].stack| {
      } else {
        assert Holds(s, b, i, x);
      }
    }
  }

  /** Nothing begins and nothing ends. */
  lemma ClosersSame(s: System, r: System)
    requires OneCloser(s) && |r.objects| == |s.objects| && |s.calls| <= |r.calls|
    requires forall x :: 0 <= x < |s.objects| && s.objects[x].status.Closing? ==> r.objects[x].status.Closing?
    requires forall b :: 0 <= b < |s.calls| ==>
               |r.calls[b].stack| == |s.calls[b].stack| &&
               forall i :: 0 <= i < |s.calls[b].stack| ==> r.calls[b].stack[i].target == s.calls[b].stack[i].target
    requires forall b :: |s.calls| <= b < |r.calls| ==> r.calls[b].stack == []
    ensures OneCloser(r)
  {
    forall b: nat, i: nat, t: nat | Holds(r, b, i, t)
      ensures Holds(s, b, i, t) && t < |r.objects| && r.objects[t].status.Closing?
    {
      assert Holds(s, b, i, t);
    }
    ClosersKept(s, r);
  }

  lemma CloserEnter(s: System, a: nat, t: nat)
    requires OneCloser(s) && ObjectsOk(s) && CanStep(s, Enter(a, t))
    ensures OneCloser(Next(s, Enter(a, t)))
  {
    var c, r := s.calls[a], EnterNext(s, a, t);
    if Rejected(s.kinds, c.owner, OwnerBound(s, c), t) && !s.objects[t].status.Closed? {
      CloserRaise(s, a);
    } else if s.objects[t].status.Closed? || s.objects[t].status.Closing? {
      ClosersSame(s, r);
    } else {
      ClosersPushed(s, r, a, t);
    }
  }

  lemma CloserRaise(s: System, a: nat)
    requires OneCloser(s) && a < |s.calls|
    ensures OneCloser(Raise(s, a))
  {
    if s.calls[a].stack == [] {
      ClosersSame(s, Raise(s, a));
    } else {
      ClosersPopped(s, Raise(s, a), a, CloseFailed);
    }
  }

  lemma CloserVisit(s: System, a: nat, o: nat)
    requires OneCloser(s) && CanStep(s, VisitOutput(a, o))
    ensures OneCloser(Next(s, VisitOutput(a, o)))
  {
    var c, r := s.calls[a], Next(s, VisitOutput(a, o));
    if s.objects[o].bound == Some(Top(c).target) &&
       (s.objects[o].detaching || c.owner == Some(o) || c.owner == Some(Top(c).target)) {
      CloserRaise(s, a);
    } else {
      ClosersSame(s, r);
    }
  }

  lemma CloserDone(s: System, step: Step)
    requires OneCloser(s) && CanStep(s, step) && (step.WaitDone? || step.FinishPlain? || step.JoinDone?)
    ensures OneCloser(Next(s, step))
  {
    var c, r := s.calls[step.a], Next(s, step);
    if step.JoinDone? && r == Raise(s, step.a) {
      CloserRaise(s, step.a);
    } else if step.FinishPlain? || (step.WaitDone? && c.phase.x == Top(c).target) {
      ClosersPopped(s, r, step.a, Closed);
    } else {
      ClosersSame(s, r);
    }
  }

  lemma FlatObjects(s: System, step: Step)
    requires CanStep(s, step) && Flat(step)
    ensures |Next(s, step).objects| == |s.objects|
    ensures forall x :: 0 <= x < |s.objects| && s.objects[x].status.Closing? ==>
              Next(s, step).objects[x].status.Closing?
  {
  }

  lemma FlatCalls(s: System, step: Step)
    requires CanStep(s, step) && Flat(step)
    ensures |s.calls| <= |Next(s, step).calls|
    ensures forall b :: 0 <= b < |s.calls| ==> Next(s, step).calls[b].stack == s.calls[b].stack
    ensures forall b :: |s.calls| <= b < |Next(s, step).calls| ==> Next(s, step).calls[b].stack == []
  {
  }

  lemma CloserFlat(s: System, step: Step)
    requires OneCloser(s) && CanStep(s, step) && Flat(step)
    ensures OneCloser(Next(s, step))
  {
    FlatObjects(s, step);
    FlatCalls(s, step);
    ClosersSame(s, Next(s, step));
  }

  lemma CloserKept(s: System, step: Step)
    requires OneCloser(s) && ObjectsOk(s) && CanStep(s, step)
    ensures OneCloser(Next(s, step))
  {
    if Flat(step) {
      CloserFlat(s, step);
    } else {
      match step
      case Enter(a, t) => CloserEnter(s, a, t);
      case VisitOutput(a, o) => CloserVisit(s, a, o);
      case FailTop(a) => CloserRaise(s, a);
      case Discard(a) => ClosersSame(s, Next(s, step));
      case _ => CloserDone(s, step);
    }
  }

  // ---- The thread that steps ------------------------------------------------------------------------

  lemma StackVisited(u: Universe, owner: Option<nat>, stack: seq<Frame>, x: nat)
    requires StackOk(u, owner, stack)
    ensures StackOk(u, owner, Visited(stack, x))
  {
  }

  lemma StackPopped(u: Universe, owner: Option<nat>, stack: seq<Frame>)
    requires StackOk(u, owner, stack) && stack != []
    ensures StackOk(u, owner, Popped(stack))
  {
  }

  lemma StackPushed(u: Universe, owner: Option<nat>, stack: seq<Frame>, f: Frame)
    requires StackOk(u, owner, stack) && Passed(u, owner, f.seen, f.target)
    requires forall x :: x in f.todo ==> Belongs(u, x, f.target)
    requires stack != [] ==> Above(u, f.target) == Some(stack[|stack| - 1].target)
    ensures StackOk(u, owner, stack + [f])
  {
  }

  lemma CallRaised(s: System, a: nat)
    requires a < |s.calls| && CallOk(s.kinds, s.calls[a])
    ensures CallOk(s.kinds, Raise(s, a).calls[a])
  {
    var c := s.calls[a];
    if c.stack != [] {
      StackPopped(s.kinds, c.owner, c.stack);
    }
  }

  lemma CallEntered(s: System, a: nat, t: nat)
    requires ObjectsOk(s) && CanStep(s, Enter(a, t)) && CallOk(s.kinds, s.calls[a])
    ensures CallOk(s.kinds, EnterNext(s, a, t).calls[a])
  {
    var c := s.calls[a];
    var bound := OwnerBound(s, c);
    if c.stack != [] {
      assert Belongs(s.kinds, t, Top(c).target);
    }
    if Rejected(s.kinds, c.owner, bound, t) && !s.objects[t].status.Closed? {
      CallRaised(s, a);
    } else if s.objects[t].status.Closed? {
      StackVisited(s.kinds, c.owner, c.stack, t);
    } else if !s.objects[t].status.Closing? {
      StackPushed(s.kinds, c.owner, c.stack, Frame(t, s.objects[t].members, bound));
    }
  }

  lemma CallKept(s: System, step: Step)
    requires ObjectsOk(s) && CanStep(s, step) && Moves(step) && CallOk(s.kinds, s.calls[step.a])
    ensures CallOk(s.kinds, Next(s, step).calls[step.a])
  {
    var a := step.a;
    var c := s.calls[a];
    match step
    case Enter(a, t) => CallEntered(s, a, t);
    case VisitOutput(a, o) =>
      StackVisited(s.kinds, c.owner, c.stack, o);
      CallRaised(s, a);
      assert Belongs(s.kinds, o, Top(c).target);
    case WaitOwn(a) => assert Passed(s.kinds, c.owner, Top(c).seen, Top(c).target);
    case WaitDone(a) =>
      StackPopped(s.kinds, c.owner, c.stack);
      StackVisited(s.kinds, c.owner, Popped(c.stack), c.phase.x);
    case Discard(a) => StackVisited(s.kinds, c.owner, c.stack, c.phase.x);
    case FinishPlain(a) =>
      StackPopped(s.kinds, c.owner, c.stack);
      StackVisited(s.kinds, c.owner, Popped(c.stack), Top(c).target);
    case FailTop(a) => CallRaised(s, a);
    case JoinDone(a) =>
      StackVisited(s.kinds, c.owner, c.stack, c.phase.t);
      CallRaised(s, a);
    case _ =>
  }

  lemma CallsLength(s: System, step: Step)
    requires CanStep(s, step)
    ensures
      var r := Next(s, step);
      && |r.calls| == |s.calls| + (if step.Thread? then 1 else 0)
      && (step.Thread? ==> r.calls[|s.calls|] == Call(step.owner, [], Working))
  {
  }

  lemma InvKept(s: System, step: Step)
    requires Inv(s) && CanStep(s, step)
    ensures Inv(Next(s, step))
  {
    var r := Next(s, step);
    ObjectsKept(s, step);
    CloserKept(s, step);
    CallsLength(s, step);
    forall b | 0 <= b < |r.calls| ensures CallOk(r.kinds, r.calls[b]) {
      if Moves(step) && b == step.a {
        CallKept(s, step);
      } else if b < |s.calls| {
        OthersStay(s, step, b);
      }
    }
  }

  // ---- Every run ----------------------------------------------------------------------------------

  function Initial(u: Universe): System {
    System(u, seq(|u|, _ => UNBORN), [])
  }

  ghost predicate Path(s: System, steps: seq<Step>, r: System)
    decreases |steps|
  {
    if steps == [] then r == s else CanStep(s, steps[0]) && Path(Next(s, steps[0]), steps[1..], r)
  }

  lemma PathCons(s: System, step: Step, m: System, rest: seq<Step>, r: System)
    requires CanStep(s, step) && Next(s, step) == m && Path(m, rest, r)
    ensures Path(s, [step] + rest, r)
  {
    assert ([step] + rest)[1..] == rest;
  }

  lemma {:induction false} InvAlong(s: System, steps: seq<Step>, r: System)
    requires Inv(s) && Path(s, steps, r)
    ensures Inv(r) && r.kinds == s.kinds
    decreases |steps|
  {
    if steps != [] {
      InvKept(s, steps[0]);
      InvAlong(Next(s, steps[0]), steps[1..], r);
    }
  }

  /** The dispatcher a thread waits for. */
  function WaitsOn(c: Call): Option<nat> {
    match c.phase
    case Waiting(x) => Some(x)
    case Detaching(o, _) => Some(o)
    case _ => None
  }

  /** No thread ever waits for the dispatcher whose callback it is running: over every run, whatever
      is attached, detached and closed meanwhile, and however deep the close it is in. */
  lemma NoSelfWait(u: Universe, steps: seq<Step>, r: System, a: nat)
    requires UniverseOk(u) && Path(Initial(u), steps, r) && a < |r.calls| && WaitsOn(r.calls[a]).Some?
    ensures r.calls[a].owner != WaitsOn(r.calls[a])
  {
    InvAlong(Initial(u), steps, r);
    assert CallOk(r.kinds, r.calls[a]);
  }

  function Height(k: Kind): nat {
    match k
    case ClientKind => 2
    case CloudKind(_) => 1
    case _ => 0
  }

  lemma {:induction false} StackHeights(u: Universe, owner: Option<nat>, stack: seq<Frame>, i: nat)
    requires UniverseOk(u) && StackOk(u, owner, stack) && i < |stack|
    ensures stack[|stack| - 1].target < |u| && stack[i].target < |u|
    ensures Height(u[stack[i].target]) == Height(u[stack[|stack| - 1].target]) + |stack| - 1 - i
    decreases |stack| - i
  {
    if i + 1 < |stack| {
      assert Above(u, stack[i + 1].target) == Some(stack[i].target);
      StackHeights(u, owner, stack, i + 1);
    }
  }

  /** Everything a thread is closing is, or lies above, the innermost object it closes. */
  lemma StackUnder(u: Universe, owner: Option<nat>, stack: seq<Frame>, i: nat)
    requires UniverseOk(u) && StackOk(u, owner, stack) && i < |stack|
    ensures Under(u, stack[|stack| - 1].target, stack[i].target)
  {
    StackHeights(u, owner, stack, i);
    var n := |stack| - 1;
    assert i < n ==> Above(u, stack[i + 1].target) == Some(stack[i].target);
    assert i + 1 < n ==> Above(u, stack[i + 2].target) == Some(stack[i + 1].target);
    assert n <= i + 2;
  }

  // ---- What the guard misses ------------------------------------------------------------------------

  /** Past its guards a close meets the thread's own callback in one way only: the check of
      `_detach_from_parent`, or a guard further in, fires because the callback's owner is an output
      and its `_bound` is not what any of the guards saw. */
  lemma LateCheckMeansMoved(s: System, a: nat, x: nat, i: nat)
    requires Inv(s) && a < |s.calls| && s.calls[a].phase.Working? && i < |s.calls[a].stack| && x in Top(s.calls[a]).todo
    requires
      var c := s.calls[a];
      || (s.kinds[x].OutputKind? && s.objects[x].bound == Some(Top(c).target) &&
          (c.owner == Some(x) || c.owner == Some(Top(c).target)))
      || (!s.kinds[x].OutputKind? && Rejected(s.kinds, c.owner, OwnerBound(s, c), x))
    ensures
      var c := s.calls[a];
      && c.owner.Some? && c.owner.value < |s.kinds| && s.kinds[c.owner.value].OutputKind?
      && c.stack[i].seen != s.objects[c.owner.value].bound
  {
    var c := s.calls[a];
    StackUnder(s.kinds, c.owner, c.stack, i);
  }
}
