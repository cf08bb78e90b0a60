/** Cycles of threads that wait for one another: that they are for ever, the discipline that excludes
    them, and what a single thread that breaks it can cause. */
module CloseCycles {
  import opened Wrappers
  import opened CloseWaits

  // ---- Who waits for whom -------------------------------------------------------------------------

  ghost predicate HoldsClose(s: System, a: nat, t: nat) {
    exists i: nat :: Holds(s, a, i, t)
  }

  /** Thread `b` cannot go on before `a` does: it waits for the dispatcher whose callback `a` runs, or
      has joined a close that `a` runs. */
  ghost predicate Blocks(s: System, b: nat, a: nat) {
    && a < |s.calls| && b < |s.calls|
    && ((WaitsOn(s.calls[b]).Some? && WaitsOn(s.calls[b]) == s.calls[a].owner)
        || (InGeneration(s.objects, s.calls[b].phase) && HoldsClose(s, a, s.calls[b].phase.t)))
  }

  /** Each waits for the next, the last for the first. */
  ghost predicate Cycle(s: System, cs: seq<nat>) {
    |cs| >= 2 && cs[0] == cs[|cs| - 1] && forall i :: 0 <= i < |cs| - 1 ==> Blocks(s, cs[i], cs[i + 1])
  }

  lemma BlockedStays(s: System, step: Step, b: nat, a: nat)
    requires OneCloser(s) && CanStep(s, step) && Blocks(s, b, a)
    ensures Moves(step) ==> step.a != b
  {
    if s.calls[b].phase.Joined? {
      var i: nat :| Holds(s, a, i, s.calls[b].phase.t);
    } else {
      assert !Quiet(s, WaitsOn(s.calls[b]).value);
    }
  }

  /** Only the closer of an object changes its status or begins a close of it. */
  lemma ClosingStays(s: System, step: Step, a: nat, i: nat, t: nat)
    requires OneCloser(s) && CanStep(s, step) && Holds(s, a, i, t) && (Moves(step) ==> step.a != a)
    ensures
      var y := Next(s, step).objects;
      t < |s.objects| && t < |y| && y[t].status.Closing? && y[t].generation == s.objects[t].generation
  {
    if Moves(step) && s.calls[step.a].stack != [] {
      var n := |s.calls[step.a].stack| - 1;
      assert Holds(s, step.a, n, Top(s.calls[step.a]).target);
    }
  }

  lemma BlocksSame(s: System, r: System, b: nat, a: nat)
    requires Blocks(s, b, a)
    requires InGeneration(s.objects, s.calls[b].phase) ==> InGeneration(r.objects, s.calls[b].phase)
    requires a < |r.calls| && b < |r.calls| && r.calls[a] == s.calls[a] && r.calls[b] == s.calls[b]
    ensures Blocks(r, b, a)
  {
    if s.calls[b].phase.Joined? {
      var i: nat :| Holds(s, a, i, s.calls[b].phase.t);
      assert Holds(r, a, i, s.calls[b].phase.t);
    }
  }

  lemma BlockedSame(s: System, step: Step, b: nat, a: nat)
    requires OneCloser(s) && CanStep(s, step) && Blocks(s, b, a)
    requires Moves(step) ==> step.a != a
    ensures InGeneration(s.objects, s.calls[b].phase) ==> InGeneration(Next(s, step).objects, s.calls[b].phase)
  {
    if InGeneration(s.objects, s.calls[b].phase) && HoldsClose(s, a, s.calls[b].phase.t) {
      var i: nat :| Holds(s, a, i, s.calls[b].phase.t);
      ClosingStays(s, step, a, i, s.calls[b].phase.t);
    }
  }

  lemma CycleStep(s: System, step: Step, cs: seq<nat>)
    requires OneCloser(s) && CanStep(s, step) && Cycle(s, cs)
    ensures Cycle(Next(s, step), cs)
    ensures forall a :: a in cs ==> a < |s.calls| && a < |Next(s, step).calls| && Next(s, step).calls[a] == s.calls[a]
  {
    forall i | 0 <= i < |cs|
      ensures Moves(step) ==> step.a != cs[i]
      ensures cs[i] < |s.calls| && cs[i] < |Next(s, step).calls| && Next(s, step).calls[cs[i]] == s.calls[cs[i]]
    {
      var k := if i < |cs| - 1 then i else 0;
      assert Blocks(s, cs[k], cs[k + 1]) && cs[k] == cs[i];
      BlockedStays(s, step, cs[k], cs[k + 1]);
      OthersStay(s, step, cs[k]);
    }
    forall i | 0 <= i < |cs| - 1 ensures Blocks(Next(s, step), cs[i], cs[i + 1]) {
      BlockedSame(s, step, cs[i], cs[i + 1]);
      BlocksSame(s, Next(s, step), cs[i], cs[i + 1]);
    }
  }

  /** Over every run: the threads of a cycle never move again. */
  lemma {:induction false} CycleForever(s: System, steps: seq<Step>, r: System, cs: seq<nat>)
    requires Inv(s) && Path(s, steps, r) && Cycle(s, cs)
    ensures Cycle(r, cs)
    ensures forall a :: a in cs ==> a < |s.calls| && a < |r.calls| && r.calls[a] == s.calls[a]
    decreases |steps|
  {
    if steps == [] {
      forall i | 0 <= i < |cs| ensures cs[i] < |s.calls| {
        assert i < |cs| - 1 ==> Blocks(s, cs[i], cs[i + 1]);
        assert Blocks(s, cs[0], cs[1]);
      }
    } else {
      CycleStep(s, steps[0], cs);
      InvKept(s, steps[0]);
      CycleForever(Next(s, steps[0]), steps[1..], r, cs);
    }
  }

  // ---- Every closing object has a closer ----------------------------------------------------------

  ghost predicate HasCloser(s: System, t: nat) {
    exists a: nat :: HoldsClose(s, a, t)
  }

  ghost predicate ClosersPresent(s: System) {
    forall t: nat :: t < |s.objects| && s.objects[t].status.Closing? ==> HasCloser(s, t)
  }

  /** What a step can do to the close a thread is in. */
  lemma CloserStays(s: System, step: Step, a: nat, i: nat, t: nat)
    requires OneCloser(s) && CanStep(s, step) && Holds(s, a, i, t)
    ensures
      var r := Next(s, step);
      HoldsClose(r, a, t) || (t < |r.objects| && !r.objects[t].status.Closing?)
  {
    var r := Next(s, step);
    if Moves(step) && step.a == a {
      if i < |r.calls[a].stack| {
        assert Holds(r, a, i, t);
      }
    } else {
      OthersStay(s, step, a);
      assert Holds(r, a, i, t);
    }
  }

  lemma BeginsClosing(s: System, step: Step, t: nat)
    requires |s.objects| == |s.kinds| && CanStep(s, step) && t < |s.objects| && !s.objects[t].status.Closing?
    requires t < |Next(s, step).objects| && Next(s, step).objects[t].status.Closing?
    ensures HasCloser(Next(s, step), t)
  {
    var r := Next(s, step);
    if step.Enter? && step.t == t {
      assert Holds(r, step.a, |s.calls[step.a].stack|, t);
      assert HoldsClose(r, step.a, t);
    }
  }

  lemma ClosersPresentKept(s: System, step: Step)
    requires Inv(s) && ClosersPresent(s) && CanStep(s, step)
    ensures ClosersPresent(Next(s, step))
  {
    var r := Next(s, step);
    ObjectsCount(s, step);
    forall t: nat | t < |r.objects| && r.objects[t].status.Closing? ensures HasCloser(r, t) {
      if s.objects[t].status.Closing? {
        assert HasCloser(s, t);
        var a: nat, i: nat :| Holds(s, a, i, t);
        CloserStays(s, step, a, i, t);
      } else {
        BeginsClosing(s, step, t);
      }
    }
  }

  lemma ObjectsCount(s: System, step: Step)
    requires CanStep(s, step)
    ensures |Next(s, step).objects| == |s.objects| == |s.kinds| && Next(s, step).kinds == s.kinds
  {
  }

  // ---- The discipline -----------------------------------------------------------------------------

  /** A thread in a callback begins no close and no detach; only `exempt` may. */
  ghost predicate Disciplined(s: System, step: Step, exempt: Option<nat>) {
    (step.Enter? || step.DetachStart?) && step.a < |s.calls| && s.calls[step.a].owner.Some? ==> Some(step.a) == exempt
  }

  /** A thread that can always return from its callback. */
  predicate Free(c: Call) {
    c.stack == [] && (c.phase.Working? || c.phase.AttachHeld?)
  }

  ghost predicate CallbacksFree(s: System, exempt: Option<nat>) {
    forall a :: 0 <= a < |s.calls| && s.calls[a].owner.Some? && Some(a) != exempt ==> Free(s.calls[a])
  }

  ghost predicate DisciplinedPath(s: System, steps: seq<Step>, r: System, exempt: Option<nat>)
    decreases |steps|
  {
    if steps == [] then r == s
    else
      && CanStep(s, steps[0]) && Disciplined(s, steps[0], exempt)
      && DisciplinedPath(Next(s, steps[0]), steps[1..], r, exempt)
  }

  lemma OwnerFixed(s: System, step: Step, b: nat)
    requires CanStep(s, step) && b < |s.calls|
    ensures b < |Next(s, step).calls|
    ensures Next(s, step).calls[b].owner == s.calls[b].owner ||
            (step == CallbackReturns(b) && Next(s, step).calls[b].owner.None?)
  {
  }

  lemma FreeStep(s: System, step: Step)
    requires CanStep(s, step) && Moves(step) && Free(s.calls[step.a]) && !step.Enter? && !step.DetachStart?
    ensures Free(Next(s, step).calls[step.a])
  {
  }

  lemma CallbacksFreeKept(s: System, step: Step, exempt: Option<nat>)
    requires CanStep(s, step) && CallbacksFree(s, exempt) && Disciplined(s, step, exempt)
    ensures CallbacksFree(Next(s, step), exempt)
  {
    var r := Next(s, step);
    CallsLength(s, step);
    forall b | 0 <= b < |r.calls| && r.calls[b].owner.Some? && Some(b) != exempt ensures Free(r.calls[b]) {
      if b < |s.calls| {
        OwnerFixed(s, step, b);
        if Moves(step) && step.a == b {
          FreeStep(s, step);
        } else {
          OthersStay(s, step, b);
        }
      }
    }
  }

  /** What every run with this discipline keeps. */
  ghost predicate Calm(s: System, exempt: Option<nat>) {
    Inv(s) && ClosersPresent(s) && CallbacksFree(s, exempt)
  }

  lemma {:induction false} CalmAlong(s: System, steps: seq<Step>, r: System, exempt: Option<nat>)
    requires Calm(s, exempt) && DisciplinedPath(s, steps, r, exempt)
    ensures Calm(r, exempt) && r.kinds == s.kinds
    decreases |steps|
  {
    if steps != [] {
      InvKept(s, steps[0]);
      ObjectsCount(s, steps[0]);
      ClosersPresentKept(s, steps[0]);
      CallbacksFreeKept(s, steps[0], exempt);
      CalmAlong(Next(s, steps[0]), steps[1..], r, exempt);
    }
  }

  lemma InitiallyCalm(u: Universe, exempt: Option<nat>)
    requires UniverseOk(u)
    ensures Calm(Initial(u), exempt)
  {
  }

  // ---- No cycle under the discipline ----------------------------------------------------------------

  /** How far a thread is from one that can go on. */
  function Rank(u: Universe, c: Call): nat {
    match c.phase
    case Joined(t, _, _) => 2 + if t < |u| then Height(u[t]) else 0
    case Waiting(_) => 1
    case Detaching(_, _) => 1
    case _ => 0
  }

  /** A thread that has joined a close further in is lower than all the closes it runs. */
  lemma JoinsLower(u: Universe, c: Call, i: nat)
    requires UniverseOk(u) && CallOk(u, c) && i < |c.stack| && c.phase.Joined?
    ensures c.phase.t < |u| && c.stack[i].target < |u| && Height(u[c.phase.t]) < Height(u[c.stack[i].target])
  {
    StackHeights(u, c.owner, c.stack, i);
    assert Above(u, c.phase.t) == Some(Top(c).target);
  }

  /** The holder of a joined close has a lower rank than the thread that joined it. */
  lemma HolderLower(s: System, b: nat, a: nat)
    requires Inv(s) && Blocks(s, b, a) && s.calls[b].phase.Joined? && HoldsClose(s, a, s.calls[b].phase.t)
    ensures Rank(s.kinds, s.calls[a]) < Rank(s.kinds, s.calls[b])
  {
    var i: nat :| Holds(s, a, i, s.calls[b].phase.t);
    assert CallOk(s.kinds, s.calls[b]) && CallOk(s.kinds, s.calls[a]);
    if s.calls[a].phase.Joined? {
      JoinsLower(s.kinds, s.calls[a], i);
    }
  }

  lemma BlockerLower(s: System, b: nat, a: nat)
    requires Calm(s, None) && Blocks(s, b, a)
    ensures Rank(s.kinds, s.calls[a]) < Rank(s.kinds, s.calls[b])
  {
    if s.calls[b].phase.Joined? {
      HolderLower(s, b, a);
    } else {
      assert Free(s.calls[a]);
    }
  }

  lemma {:induction false} RanksFall(s: System, cs: seq<nat>, i: nat)
    requires Calm(s, None) && 0 < i < |cs| && forall k :: 0 <= k < |cs| - 1 ==> Blocks(s, cs[k], cs[k + 1])
    ensures cs[0] < |s.calls| && cs[i] < |s.calls| && Rank(s.kinds, s.calls[cs[i]]) < Rank(s.kinds, s.calls[cs[0]])
    decreases i
  {
    assert Blocks(s, cs[i - 1], cs[i]);
    BlockerLower(s, cs[i - 1], cs[i]);
    if i > 1 {
      RanksFall(s, cs, i - 1);
    }
  }

  /** The discipline excludes every cycle, of any length, in every reachable state. */
  lemma NoCycle(u: Universe, steps: seq<Step>, s: System, cs: seq<nat>)
    requires UniverseOk(u) && DisciplinedPath(Initial(u), steps, s, None)
    ensures !Cycle(s, cs)
  {
    InitiallyCalm(u, None);
    CalmAlong(Initial(u), steps, s, None);
    if Cycle(s, cs) {
      RanksFall(s, cs, |cs| - 1);
    }
  }

  /** Some step of the thread is possible. */
  ghost predicate CanMove(s: System, a: nat) {
    exists step :: CanStep(s, step) && Moves(step) && step.a == a
  }

  lemma MovesBy(s: System, a: nat, step: Step)
    requires CanStep(s, step) && Moves(step) && step.a == a
    ensures CanMove(s, a)
  {
  }

  lemma QuietOrCallback(s: System, x: nat)
    ensures Quiet(s, x) || exists a :: 0 <= a < |s.calls| && s.calls[a].owner == Some(x)
  {
  }

  /** A thread can move, or is blocked by another one. */
  lemma MovesOrBlocked(s: System, b: nat)
    requires Inv(s) && ClosersPresent(s) && b < |s.calls|
    ensures CanMove(s, b) || exists a: nat :: Blocks(s, b, a)
  {
    var c := s.calls[b];
    assert CallOk(s.kinds, c);
    if c.phase.Waiting? || c.phase.Detaching? {
      var x := WaitsOn(c).value;
      QuietOrCallback(s, x);
      if Quiet(s, x) {
        MovesBy(s, b, if c.phase.Waiting? then WaitDone(b) else DetachDone(b));
      } else {
        var a :| 0 <= a < |s.calls| && s.calls[a].owner == Some(x);
        assert Blocks(s, b, a);
      }
    } else if c.phase.Joined? {
      if InGeneration(s.objects, c.phase) {
        assert HasCloser(s, c.phase.t);
        var a: nat :| HoldsClose(s, a, c.phase.t);
        assert Blocks(s, b, a);
      } else {
        MovesBy(s, b, JoinDone(b));
      }
    } else {
      MovesAlways(s, b);
    }
  }

  lemma MovesAlways(s: System, b: nat)
    requires Inv(s) && b < |s.calls|
    requires !s.calls[b].phase.Waiting? && !s.calls[b].phase.Detaching? && !s.calls[b].phase.Joined?
    ensures CanMove(s, b)
  {
    var c := s.calls[b];
    assert CallOk(s.kinds, c);
    MovesBy(s, b,
            if c.phase.Unbound? then Discard(b)
            else if c.phase.AttachHeld? then AttachEnd(b, true)
            else if c.phase.DetachTail? then DetachDiscard(b)
            else if c.stack == [] then CallbackReturns(b)
            else FailTop(b));
  }

  /** From `b` along who waits for whom to `a`. */
  ghost predicate Leads(s: System, b: nat, cs: seq<nat>, a: nat) {
    && |cs| >= 1 && cs[0] == b && cs[|cs| - 1] == a
    && forall i :: 0 <= i < |cs| - 1 ==> Blocks(s, cs[i], cs[i + 1])
  }

  lemma {:induction false} SomeoneMoves(s: System, b: nat)
    requires Calm(s, None) && b < |s.calls|
    ensures exists cs, a: nat :: Leads(s, b, cs, a) && a < |s.calls| && CanMove(s, a)
    decreases Rank(s.kinds, s.calls[b])
  {
    if CanMove(s, b) {
      assert Leads(s, b, [b], b);
    } else {
      MovesOrBlocked(s, b);
      var m: nat :| Blocks(s, b, m);
      BlockerLower(s, b, m);
      SomeoneMoves(s, m);
      var cs, a: nat :| Leads(s, m, cs, a) && a < |s.calls| && CanMove(s, a);
      var all := [b] + cs;
      forall i | 0 <= i < |all| - 1 ensures Blocks(s, all[i], all[i + 1]) {
        assert i > 0 ==> all[i] == cs[i - 1] && all[i + 1] == cs[i];
      }
      assert Leads(s, b, all, a);
    }
  }

  /** And nobody starves for another reason: in every such state, whoever waits is, through the others
      it waits for, held up by a thread that can go on. */
  lemma WaitsEnd(u: Universe, steps: seq<Step>, s: System, b: nat)
    requires UniverseOk(u) && DisciplinedPath(Initial(u), steps, s, None) && b < |s.calls|
    ensures exists cs, a: nat :: Leads(s, b, cs, a) && a < |s.calls| && CanMove(s, a)
  {
    InitiallyCalm(u, None);
    CalmAlong(Initial(u), steps, s, None);
    SomeoneMoves(s, b);
  }

  // ---- One thread that breaks the discipline --------------------------------------------------------

  lemma UnderLower(u: Universe, x: nat, t: nat)
    requires UniverseOk(u) && x < |u| && Under(u, x, t) && x != t
    ensures t < |u| && Height(u[x]) < Height(u[t])
  {
  }

  lemma UnderTransitive(u: Universe, x: nat, y: nat, t: nat)
    requires UniverseOk(u) && x < |u| && Under(u, x, y) && Under(u, y, t)
    ensures Under(u, x, t)
  {
  }

  /** Another thread that is blocked, too, runs no callback. */
  lemma BlockedOwnsNothing(s: System, v: nat, b: nat, a: nat)
    requires CallbacksFree(s, Some(v)) && Blocks(s, b, a) && b != v
    ensures s.calls[b].owner.None?
  {
  }

  /** Thread `h` waits for the callback of `v`, inside a close below `t`. */
  ghost predicate WaitsBelow(s: System, h: nat, v: nat, t: nat) {
    && h < |s.calls| && v < |s.calls| && s.calls[h].phase.Waiting? && s.calls[v].owner == Some(s.calls[h].phase.x)
    && s.calls[h].stack != [] && Under(s.kinds, Top(s.calls[h]).target, t)
  }

  /** Following the waits from the holder of a close below `t` back to `v` ends at such a thread. */
  lemma {:induction false} WalkBack(s: System, v: nat, cs: seq<nat>, low: nat, t: nat)
    requires Calm(s, Some(v)) && |cs| >= 2 && v < |s.calls| && Leads(s, cs[0], cs, v) && cs[0] != v
    requires s.calls[v].phase.Joined? && s.calls[v].phase.t == t
    requires HoldsClose(s, cs[0], low) && Under(s.kinds, low, t)
    ensures exists h: nat :: WaitsBelow(s, h, v, t)
    decreases |cs|
  {
    var b, a := cs[0], cs[1];
    assert Blocks(s, b, a);
    var c := s.calls[b];
    var i: nat :| Holds(s, b, i, low);
    assert CallOk(s.kinds, c) && CallOk(s.kinds, s.calls[v]);
    StackUnder(s.kinds, c.owner, c.stack, i);
    StackHeights(s.kinds, c.owner, c.stack, i);
    UnderTransitive(s.kinds, Top(c).target, low, t);
    if c.phase.Joined? {
      var t1 := c.phase.t;
      assert Above(s.kinds, t1) == Some(Top(c).target);
      UnderTransitive(s.kinds, t1, Top(c).target, t);
      if a == v {
        var j: nat :| Holds(s, v, j, t1);
        JoinsLower(s.kinds, s.calls[v], j);
        JoinsLower(s.kinds, c, i);
        UnderLower(s.kinds, t1, t);
      } else {
        assert Leads(s, a, cs[1..], v);
        WalkBack(s, v, cs[1..], t1, t);
      }
    } else {
      if a != v {
        assert Blocks(s, cs[1], cs[2]);
        BlockedOwnsNothing(s, v, a, cs[2]);
      }
      assert WaitsBelow(s, b, v, t);
    }
  }

  ghost predicate IsBlocked(s: System, b: nat) {
    exists a: nat :: Blocks(s, b, a)
  }

  lemma {:induction false} JoinsFall(s: System, v: nat, cs: seq<nat>, i: nat)
    requires Calm(s, Some(v)) && 0 < i < |cs| && v !in cs
    requires forall k :: 0 <= k < |cs| - 1 ==> Blocks(s, cs[k], cs[k + 1])
    requires forall k :: 0 <= k < |cs| ==> IsBlocked(s, cs[k])
    ensures cs[0] < |s.calls| && cs[i] < |s.calls| && Rank(s.kinds, s.calls[cs[i]]) < Rank(s.kinds, s.calls[cs[0]])
    decreases i
  {
    var b, a := cs[i - 1], cs[i];
    assert Blocks(s, b, a);
    assert IsBlocked(s, a);
    var e: nat :| Blocks(s, a, e);
    BlockedOwnsNothing(s, v, a, e);
    HolderLower(s, b, a);
    if i > 1 {
      JoinsFall(s, v, cs, i - 1);
    }
  }

  /** The same cycle, starting at its element `j`. */
  lemma Rotated(s: System, cs: seq<nat>, j: nat) returns (rs: seq<nat>)
    requires Cycle(s, cs) && j < |cs| - 1
    ensures Cycle(s, rs) && rs[0] == cs[j]
  {
    rs := cs[j..] + cs[1..j + 1];
    forall i | 0 <= i < |rs| - 1 ensures Blocks(s, rs[i], rs[i + 1]) {
      var n := |cs| - j;
      if i < n - 1 {
        assert Blocks(s, cs[j + i], cs[j + i + 1]);
      } else {
        assert Blocks(s, cs[i - n + 1], cs[i - n + 2]);
      }
    }
  }

  lemma CycleHasViolator(s: System, v: nat, cs: seq<nat>)
    requires Calm(s, Some(v)) && Cycle(s, cs)
    ensures exists j :: 0 <= j < |cs| - 1 && cs[j] == v
  {
    if v !in cs {
      forall k | 0 <= k < |cs| ensures IsBlocked(s, cs[k]) {
        var j := if k < |cs| - 1 then k else 0;
        assert Blocks(s, cs[j], cs[j + 1]) && cs[j] == cs[k];
      }
      JoinsFall(s, v, cs, |cs| - 1);
    } else {
      var k :| 0 <= k < |cs| && cs[k] == v;
      assert cs[if k < |cs| - 1 then k else 0] == v;
    }
  }

  lemma NotSelfBlocked(s: System, v: nat)
    requires Inv(s)
    ensures !Blocks(s, v, v)
  {
    if Blocks(s, v, v) {
      assert CallOk(s.kinds, s.calls[v]);
      if s.calls[v].phase.Joined? {
        var i: nat :| Holds(s, v, i, s.calls[v].phase.t);
        JoinsLower(s.kinds, s.calls[v], i);
      }
    }
  }

  /** With a single thread `v` that breaks the discipline, every cycle has this shape: `v` has joined a
      close from a callback of an output, another thread waits for that callback inside that close, and
      the output was bound outside it when the guard of `v` looked. */
  lemma OneViolator(u: Universe, steps: seq<Step>, s: System, v: nat, cs: seq<nat>)
    requires UniverseOk(u) && DisciplinedPath(Initial(u), steps, s, Some(v)) && Cycle(s, cs)
    ensures v in cs && v < |s.calls| && s.calls[v].phase.Joined?
    ensures s.calls[v].owner.Some? && s.calls[v].owner.value < |u| && u[s.calls[v].owner.value].OutputKind?
    ensures exists h: nat :: WaitsBelow(s, h, v, s.calls[v].phase.t)
    ensures
      var seen := s.calls[v].phase.seen;
      !(seen.Some? && Under(u, seen.value, s.calls[v].phase.t))
  {
    InitiallyCalm(u, Some(v));
    CalmAlong(Initial(u), steps, s, Some(v));
    CycleHasViolator(s, v, cs);
    var j :| 0 <= j < |cs| - 1 && cs[j] == v;
    var rs := Rotated(s, cs, j);
    ViolatorCycle(s, v, rs);
    var h: nat :| WaitsBelow(s, h, v, s.calls[v].phase.t);
    ViolatorMoved(s, h, v);
  }

  /** A cycle that starts at the violator. */
  lemma ViolatorCycle(s: System, v: nat, rs: seq<nat>)
    requires Calm(s, Some(v)) && Cycle(s, rs) && rs[0] == v
    ensures v < |s.calls| && s.calls[v].phase.Joined?
    ensures exists h: nat :: WaitsBelow(s, h, v, s.calls[v].phase.t)
  {
    assert Blocks(s, rs[0], rs[1]);
    NotSelfBlocked(s, v);
    assert Blocks(s, rs[1], rs[2]);
    BlockedOwnsNothing(s, v, rs[1], rs[2]);
    assert Leads(s, rs[1], rs[1..], v);
    var t := s.calls[v].phase.t;
    assert Under(s.kinds, t, t);
    WalkBack(s, v, rs[1..], t, t);
  }

  lemma ViolatorMoved(s: System, h: nat, v: nat)
    requires Inv(s) && h < |s.calls| && v < |s.calls| && s.calls[v].phase.Joined?
    requires WaitsBelow(s, h, v, s.calls[v].phase.t)
    ensures s.calls[v].owner.value < |s.kinds| && s.kinds[s.calls[v].owner.value].OutputKind?
    ensures
      var seen := s.calls[v].phase.seen;
      !(seen.Some? && Under(s.kinds, seen.value, s.calls[v].phase.t))
  {
    var c, d := s.calls[h], s.calls[v];
    assert CallOk(s.kinds, c) && CallOk(s.kinds, d);
    assert Passed(s.kinds, c.owner, Top(c).seen, Top(c).target);
    assert Passed(s.kinds, d.owner, d.phase.seen, d.phase.t);
  }
}
