/** `NativeHandle` of native/extension.c: when the C struct is freed, and what keeps the capsule of
    a parent alive while a child's native object exists. */
module NativeHandles {
  import opened Wrappers

  /** The struct and its capsule.  `live`: the native object exists and has not been destroyed with
      OK; `parent` is the capsule reference in the struct and `owner` the parent it was created with;
      `refs` counts the Python references to the capsule other than those in structs; `finalized`:
      the capsule's destructor has run; `foreign`: the process is a forked child. */
  datatype Handle = Handle(
    pointer: bool,
    live: bool,
    callback: bool,
    parent: Option<nat>,
    owner: Option<nat>,
    refs: nat,
    finalized: bool,
    freed: bool,
    foreign: bool)

  const OK := 0

  /** `handle_new` and `handle_result`. */
  function NewHandle(callback: bool, parent: Option<nat>): Handle {
    Handle(false, false, callback, parent, parent, 1, false, false, false)
  }

  /** `close_pointer` and, when it succeeds, `mark_closed`: `py_close` and `discard_handle_result`. */
  function CloseNative(h: Handle, code: int): Handle {
    if !h.pointer || code != OK then h
    else h.(pointer := false, live := false, callback := false, parent := None)
  }

  /** `abandon_handle`: on failure the struct stays, with everything it refers to. */
  function Abandon(h: Handle, code: int): Handle {
    if h.pointer && code != OK then h
    else h.(live := false, callback := false, parent := None, freed := true)
  }

  /** `discard_inherited_handle`. */
  function DiscardInherited(h: Handle): Handle {
    h.(callback := false, parent := None, freed := true)
  }

  /** `capsule_destructor`. */
  function Finalize(h: Handle, interpreterFinalizing: bool, code: int): Handle {
    var dead := h.(finalized := true);
    if interpreterFinalizing then dead
    else if h.foreign then DiscardInherited(dead)
    else Abandon(dead, code)
  }

  class NativeHandle {
    var pointer: bool
    var live: bool
    var callback: bool
    var parent: Option<nat>
    const owner: Option<nat>
    var refs: nat
    var finalized: bool
    var freed: bool
    var foreign: bool

    ghost function State(): Handle
      reads this
    {
      Handle(pointer, live, callback, parent, owner, refs, finalized, freed, foreign)
    }

    constructor (callback: bool, parent: Option<nat>)
      ensures State() == NewHandle(callback, parent)
    {
      this.callback, this.parent, owner := callback, parent, parent;
      pointer, live, refs, finalized, freed, foreign := false, false, 1, false, false, false;
    }

    /** `close_pointer`: the native destroy of the handle's kind answers `code`. */
    method ClosePointer(code: int) returns (error: int)
      modifies this`live
      ensures error == if pointer then code else OK
      ensures live == (old(live) && !(pointer && code == OK))
    {
      if !pointer {
        return OK;
      }
      if code == OK {
        live := false;
      }
      return code;
    }

    /** `py_close`; `discard_handle_result` runs the same two steps. */
    method PyClose(code: int) returns (error: int)
      modifies this
      ensures State() == CloseNative(old(State()), code)
      ensures error == if old(pointer) then code else OK
    {
      if !pointer {
        return OK;
      }
      error := ClosePointer(code);
      if error == OK {
        pointer, callback, parent := false, false, None;
      }
    }

    method CapsuleDestructor(interpreterFinalizing: bool, code: int)
      requires !pointer ==> !live
      modifies this
      ensures State() == Finalize(old(State()), interpreterFinalizing, code)
    {
      finalized := true;
      if interpreterFinalizing {
        return;
      }
      if foreign {
        callback, parent, freed := false, None, true;
        return;
      }
      var error := OK;
      if pointer {
        error := ClosePointer(code);
      }
      if error != OK {
        return;
      }
      callback, parent, freed := false, None, true;
    }
  }

  // ---- The heap of handles ----------------------------------------------------------------------

  type Heap = seq<Handle>

  datatype Step =
    | Create(callback: bool, parent: Option<nat>)
    | NativeResult(i: nat, created: bool)
    | Close(i: nat, code: int)
    | TakeReference(i: nat)
    | DropReference(i: nat)
    | RunDestructor(i: nat, interpreterFinalizing: bool, code: int)
    | Fork

  ghost predicate HeldByChild(s: Heap, i: nat) {
    exists j :: 0 <= j < |s| && s[j].parent == Some(i)
  }

  /** Python runs a capsule's destructor when its last reference is gone, and a caller must hold a
      reference to a capsule to use it. */
  ghost predicate CanStep(s: Heap, step: Step) {
    match step
    case Create(_, parent) => parent.Some? ==> parent.value < |s| && s[parent.value].refs > 0 && s[parent.value].pointer
    case NativeResult(i, _) => i < |s| && s[i].refs > 0 && !s[i].pointer && s[i].parent == s[i].owner
    case Close(i, _) => i < |s| && s[i].refs > 0
    case TakeReference(i) => i < |s| && s[i].refs > 0
    case DropReference(i) => i < |s| && s[i].refs > 0
    case RunDestructor(i, _, _) => i < |s| && s[i].refs == 0 && !HeldByChild(s, i) && !s[i].finalized
    case Fork => true
  }

  function HandleAfter(h: Handle, step: Step): Handle {
    match step
    case NativeResult(_, created) => h.(pointer := created, live := created)
    case Close(_, code) => CloseNative(h, code)
    case TakeReference(_) => h.(refs := h.refs + 1)
    case DropReference(_) => if h.refs > 0 then h.(refs := h.refs - 1) else h
    case RunDestructor(_, finalizing, code) => Finalize(h, finalizing, code)
    case _ => h
  }

  ghost function Next(s: Heap, step: Step): Heap
    requires CanStep(s, step)
  {
    match step
    case Create(callback, parent) => s + [NewHandle(callback, parent)]
    case Fork => seq(|s|, i requires 0 <= i < |s| => s[i].(foreign := true))
    case _ => s[step.i := HandleAfter(s[step.i], step)]
  }

  ghost predicate HandleOk(h: Handle) {
    && (h.live ==> h.pointer)
    && (h.freed ==> h.finalized && (!h.live || h.foreign))
    && (h.finalized ==> h.refs == 0)
    && (h.live && !h.foreign ==> h.parent == h.owner)
    && (h.parent.Some? ==> h.parent == h.owner)
  }

  ghost predicate Inv(s: Heap) {
    && (forall i :: 0 <= i < |s| ==> HandleOk(s[i]))
    && (forall j :: 0 <= j < |s| && s[j].parent.Some? ==> s[j].parent.value < |s| && !s[s[j].parent.value].finalized)
  }

  lemma InvKept(s: Heap, step: Step)
    requires Inv(s) && CanStep(s, step)
    ensures Inv(Next(s, step))
  {
    var r := Next(s, step);
    forall j | 0 <= j < |r| && r[j].parent.Some?
      ensures r[j].parent.value < |r| && !r[r[j].parent.value].finalized
    {
      if j < |s| {
        assert HandleOk(s[j]) && s[j].parent == r[j].parent;
        assert HeldByChild(s, r[j].parent.value);
      } else {
        assert HandleOk(s[r[j].parent.value]);
      }
    }
    if !(step.Create? || step.Fork?) {
      assert HandleOk(s[step.i]);
    }
  }

  ghost predicate Path(s: Heap, steps: seq<Step>, r: Heap)
    decreases |steps|
  {
    if steps == [] then r == s else CanStep(s, steps[0]) && Path(Next(s, steps[0]), steps[1..], r)
  }

  lemma {:induction false} InvAlong(s: Heap, steps: seq<Step>, r: Heap)
    requires Inv(s) && Path(s, steps, r)
    ensures Inv(r)
    decreases |steps|
  {
    if steps != [] {
      InvKept(s, steps[0]);
      InvAlong(Next(s, steps[0]), steps[1..], r);
    }
  }

  /** Over every history of creations, failed creations, closes, failed closes and destructors: a
      struct is freed only when its native object is absent, was destroyed with OK, or the process
      is a forked child; and while a native object is undestroyed, the parent it was created with is
      still referenced from its struct, so that parent's destructor has not run. */
  lemma HandlesSafe(steps: seq<Step>, r: Heap, i: nat)
    requires Path([], steps, r) && i < |r|
    ensures r[i].freed ==> !r[i].live || r[i].foreign
    ensures r[i].live && !r[i].foreign && r[i].owner.Some? ==>
              r[i].parent == r[i].owner && r[i].owner.value < |r| &&
              !r[r[i].owner.value].finalized && !r[r[i].owner.value].freed
  {
    InvAlong([], steps, r);
    assert HandleOk(r[i]);
    if r[i].owner.Some? && r[i].owner.value < |r| {
      assert HandleOk(r[r[i].owner.value]);
    }
  }

  // ---- What is released, and when ---------------------------------------------------------------

  /** A close of handle `i` that destroys its native object. */
  predicate Closes(s: Heap, step: Step, i: nat) {
    i < |s| && step == Close(i, 0) && s[i].pointer
  }

  /** A destructor of handle `i` that frees the struct: not while the interpreter goes down, and only in
      a forked child, without a native object, or after a destroy that says OK. */
  predicate Frees(s: Heap, step: Step, i: nat) {
    i < |s| && step.RunDestructor? && step.i == i && !step.interpreterFinalizing &&
    (s[i].foreign || !s[i].pointer || step.code == 0)
  }

  ghost predicate ClosedIn(s: Heap, steps: seq<Step>, i: nat)
    decreases |steps|
  {
    steps != [] && CanStep(s, steps[0]) && (Closes(s, steps[0], i) || ClosedIn(Next(s, steps[0]), steps[1..], i))
  }

  ghost predicate FreedIn(s: Heap, steps: seq<Step>, i: nat)
    decreases |steps|
  {
    steps != [] && CanStep(s, steps[0]) && (Frees(s, steps[0], i) || FreedIn(Next(s, steps[0]), steps[1..], i))
  }

  /** The native object of handle `i` is destroyed in this step. */
  predicate Destroys(s: Heap, step: Step, i: nat) {
    Closes(s, step, i) || (Frees(s, step, i) && s[i].pointer && !s[i].foreign)
  }

  lemma ReleasedStep(s: Heap, step: Step, i: nat)
    requires Inv(s) && CanStep(s, step) && i < |s|
    ensures i < |Next(s, step)|
    ensures
      var x, y := s[i], Next(s, step)[i];
      var gone := Closes(s, step, i) || Frees(s, step, i);
      && (y.freed <==> x.freed || Frees(s, step, i))
      && y.callback == (x.callback && !gone)
      && y.parent == (if gone then None else x.parent)
      && (y.pointer <==> (step == NativeResult(i, true)) || (x.pointer && !Closes(s, step, i)))
      && (y.live <==> (step == NativeResult(i, true)) || (x.live && !Destroys(s, step, i)))
  {
    assert HandleOk(s[i]);
  }

  /** From any reachable heap and over every run: the struct of a handle is freed exactly when its
      destructor could do so, and its callback and its parent are referred to exactly until then or
      until a close that destroyed the native object; a failed close, a failed destroy and a destructor
      during finalization release nothing. */
  lemma {:induction false} ReleasedWhen(s: Heap, steps: seq<Step>, r: Heap, i: nat)
    requires Inv(s) && Path(s, steps, r) && i < |s|
    ensures i < |r|
    ensures
      var gone := ClosedIn(s, steps, i) || FreedIn(s, steps, i);
      && (r[i].freed <==> s[i].freed || FreedIn(s, steps, i))
      && r[i].callback == (s[i].callback && !gone)
      && r[i].parent == (if gone then None else s[i].parent)
    decreases |steps|
  {
    if steps != [] {
      ReleasedStep(s, steps[0], i);
      InvKept(s, steps[0]);
      ReleasedWhen(Next(s, steps[0]), steps[1..], r, i);
    }
  }

  /** The life of one handle in any history: it refers to the callback and the parent it was created with
      until it is closed or freed, and to nothing afterwards. */
  lemma HandleLife(prefix: seq<Step>, s: Heap, callback: bool, parent: Option<nat>, steps: seq<Step>, r: Heap)
    requires Path([], prefix, s) && CanStep(s, Create(callback, parent))
    requires Path(Next(s, Create(callback, parent)), steps, r)
    ensures |s| < |r|
    ensures
      var n, i := Next(s, Create(callback, parent)), |s|;
      var gone := ClosedIn(n, steps, i) || FreedIn(n, steps, i);
      && r[i].callback == (callback && !gone) && r[i].parent == (if gone then None else parent)
      && (r[i].freed <==> FreedIn(n, steps, i)) && n[i].refs == 1 && !n[i].pointer
  {
    var n := Next(s, Create(callback, parent));
    InvAlong([], prefix, s);
    InvKept(s, Create(callback, parent));
    ReleasedWhen(n, steps, r, |s|);
  }

  /** A destroy that fails in the destructor leaks the struct on purpose: it stays allocated and
      keeps its parent alive for ever. */
  lemma {:induction false} FailedDestroyKeepsParent(s: Heap, steps: seq<Step>, r: Heap, i: nat)
    requires Inv(s) && Path(s, steps, r) && i < |s| && s[i].finalized && !s[i].freed
    ensures i < |r| && !r[i].freed && r[i].parent == s[i].parent && r[i].live == s[i].live
    decreases |steps|
  {
    if steps != [] {
      assert HandleOk(s[i]);
      InvKept(s, steps[0]);
      FailedDestroyKeepsParent(Next(s, steps[0]), steps[1..], r, i);
    }
  }
}
