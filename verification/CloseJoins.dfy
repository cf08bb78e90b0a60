/** A close that is joined from a callback and then waits for that callback. */
module CloseJoins {
  import opened Wrappers
  import opened CloseWaits
  import opened CloseCycles

  // ---- Waiting for one another ----------------------------------------------------------------------

  /** Thread `b`, in a callback of `x`, has joined a close that thread `a` runs, and `a` waits for the
      dispatcher of `x`. */
  ghost predicate Deadlock(s: System, a: nat, b: nat, x: nat, t: nat, i: nat) {
    && a < |s.calls| && b < |s.calls| && s.calls[a].phase == Waiting(x) && Holds(s, a, i, t)
    && InGeneration(s.objects, s.calls[b].phase) && s.calls[b].phase.t == t && s.calls[b].owner == Some(x)
  }

  lemma DeadlockLocal(u: Universe, c: Call, d: Call, x: nat, t: nat, i: nat)
    requires UniverseOk(u) && CallOk(u, c) && CallOk(u, d) && i < |c.stack| && c.stack[i].target == t
    requires c.phase == Waiting(x) && d.phase.Joined? && d.phase.t == t && d.owner == Some(x)
    ensures x < |u| && u[x].OutputKind?
    ensures
      var r := Top(c).target;
      && r < |u| && u[r].ReplayKind? && Under(u, r, t)
      && !(d.phase.seen.Some? && Under(u, d.phase.seen.value, t))
  {
    StackUnder(u, c.owner, c.stack, i);
    assert Passed(u, c.owner, Top(c).seen, Top(c).target);
    assert Passed(u, d.owner, d.phase.seen, t);
  }

  /** Only a callback of an output can be caught in such a wait, and only if the output has been
      attached into the closing tree after the guard of the joining thread had looked. */
  lemma DeadlockMeansMoved(u: Universe, steps: seq<Step>, s: System, a: nat, b: nat, x: nat, t: nat, i: nat)
    requires UniverseOk(u) && Path(Initial(u), steps, s) && Deadlock(s, a, b, x, t, i)
    ensures x < |u| && u[x].OutputKind?
    ensures
      var r := Top(s.calls[a]).target;
      && r < |u| && u[r].ReplayKind? && Under(u, r, t)
      && !(s.calls[b].phase.seen.Some? && Under(u, s.calls[b].phase.seen.value, t))
      && s.calls[b].phase.seen != Some(r)
  {
    InvAlong(Initial(u), steps, s);
    DeadlockLocal(u, s.calls[a], s.calls[b], x, t, i);
  }

  lemma DeadlockIsCycle(s: System, a: nat, b: nat, x: nat, t: nat, i: nat)
    requires Deadlock(s, a, b, x, t, i)
    ensures Cycle(s, [a, b, a])
  {
    assert HoldsClose(s, a, t);
  }

  /** Neither of the two ever moves again. */
  lemma DeadlockForever(s: System, steps: seq<Step>, r: System, a: nat, b: nat, x: nat, t: nat, i: nat)
    requires Inv(s) && Path(s, steps, r) && Deadlock(s, a, b, x, t, i)
    ensures Deadlock(r, a, b, x, t, i) && r.calls[a] == s.calls[a] && r.calls[b] == s.calls[b]
  {
    DeadlockIsCycle(s, a, b, x, t, i);
    CycleForever(s, steps, r, [a, b, a]);
    assert a in [a, b, a] && b in [a, b, a];
    assert Blocks(r, [a, b, a][1], [a, b, a][2]);
  }

  // ---- The deadlock is real -------------------------------------------------------------------------

  ghost predicate CanDeadlock(s: System, a: nat, b: nat, x: nat, t: nat, i: nat) {
    exists steps, d :: Path(s, steps, d) && Deadlock(d, a, b, x, t, i)
  }

  lemma CanDeadlockBefore(s: System, step: Step, a: nat, b: nat, x: nat, t: nat, i: nat)
    requires CanStep(s, step) && CanDeadlock(Next(s, step), a, b, x, t, i)
    ensures CanDeadlock(s, a, b, x, t, i)
  {
    var m := Next(s, step);
    var steps, d :| Path(m, steps, d) && Deadlock(d, a, b, x, t, i);
    PathCons(s, step, m, steps, d);
  }

  /** Thread `a`, in no callback, is in a close with the open replay `r` still to visit, and `b` has joined
      that close from a callback of the output `o`. */
  ghost predicate Poised(s: System, a: nat, b: nat, o: nat, r: nat) {
    && |s.objects| == |s.kinds| && a < |s.calls| && CanEnter(s, s.calls[a], r) && s.calls[a].stack != []
    && s.calls[a].owner.None? && s.kinds[r].ReplayKind? && s.objects[r].status.Open?
    && o < |s.kinds| && s.kinds[o].OutputKind? && LockFree(s, o)
    && b < |s.calls| && b != a && s.calls[b].owner == Some(o)
    && InGeneration(s.objects, s.calls[b].phase) && s.calls[b].phase.t == Top(s.calls[a]).target
  }

  /** The last step: the closing thread, inside the replay, comes to the output. */
  lemma DeadlockVisits(s: System, a: nat, b: nat, o: nat, n: nat)
    requires a < |s.calls| && CanStep(s, VisitOutput(a, o)) && s.calls[a].owner.None? && n < |s.calls[a].stack|
    requires s.objects[o].bound == Some(Top(s.calls[a]).target) && !s.objects[o].detaching
    requires b < |s.calls| && b != a && s.calls[b].owner == Some(o)
    requires InGeneration(s.objects, s.calls[b].phase) && s.calls[b].phase.t == s.calls[a].stack[n].target
    ensures CanDeadlock(s, a, b, o, s.calls[a].stack[n].target, n)
  {
    var d := Next(s, VisitOutput(a, o));
    assert Holds(d, a, n, s.calls[a].stack[n].target);
    assert Path(d, [], d);
    CanDeadlockBefore(s, VisitOutput(a, o), a, b, o, s.calls[a].stack[n].target, n);
  }

  /** Before that it enters the replay. */
  lemma DeadlockEnters(s: System, a: nat, b: nat, o: nat, r: nat)
    requires Poised(s, a, b, o, r) && o in s.objects[r].members
    requires s.objects[o].bound == Some(r) && !s.objects[o].detaching && o != r
    ensures CanDeadlock(s, a, b, o, Top(s.calls[a]).target, |s.calls[a].stack| - 1)
  {
    var n := |s.calls[a].stack| - 1;
    var m := Next(s, Enter(a, r));
    assert Top(m.calls[a]) == Frame(r, s.objects[r].members, None);
    assert m.calls[a].stack[n] == s.calls[a].stack[n];
    DeadlockVisits(m, a, b, o, n);
    CanDeadlockBefore(s, Enter(a, r), a, b, o, Top(s.calls[a]).target, n);
  }

  /** An idle thread attaches an output. */
  lemma Attaches(s: System, c: nat, o: nat, r: nat) returns (m: System)
    requires |s.objects| == |s.kinds| && CanStep(s, Attach(c, o, r)) && o != r
    ensures CanStep(Next(s, Attach(c, o, r)), AttachEnd(c, true))
    ensures m == Next(Next(s, Attach(c, o, r)), AttachEnd(c, true))
    ensures m.kinds == s.kinds && |m.objects| == |s.objects| && |m.calls| == |s.calls| && LockFree(m, o)
    ensures m.objects[r] == s.objects[r].(members := s.objects[r].members + {o})
    ensures m.objects[o] == s.objects[o].(bound := Some(r))
    ensures forall x :: 0 <= x < |s.objects| ==>
              m.objects[x].status == s.objects[x].status && m.objects[x].generation == s.objects[x].generation
    ensures forall b :: 0 <= b < |s.calls| && b != c ==> m.calls[b] == s.calls[b]
  {
    m := Next(Next(s, Attach(c, o, r)), AttachEnd(c, true));
    assert m.calls[c].phase.Working?;
  }

  lemma DeadlockAttaches(s: System, a: nat, b: nat, c: nat, o: nat, r: nat)
    requires Poised(s, a, b, o, r) && c < |s.calls| && c != a && c != b && CanStep(s, Attach(c, o, r))
    requires !s.objects[o].detaching
    ensures CanDeadlock(s, a, b, o, Top(s.calls[a]).target, |s.calls[a].stack| - 1)
  {
    var t, n := Top(s.calls[a]).target, |s.calls[a].stack| - 1;
    var m := Attaches(s, c, o, r);
    assert m.calls[a] == s.calls[a] && m.calls[b] == s.calls[b];
    DeadlockEnters(m, a, b, o, r);
    CanDeadlockBefore(Next(s, Attach(c, o, r)), AttachEnd(c, true), a, b, o, t, n);
    CanDeadlockBefore(s, Attach(c, o, r), a, b, o, t, n);
  }

  /** For every state in which a thread, in a callback of an unbound output, has joined a close that
      has an open replay still to visit: some continuation ends in the deadlock. */
  lemma DeadlockAhead(s: System, a: nat, b: nat, o: nat, r: nat)
    requires Poised(s, a, b, o, r)
    requires s.objects[o].status.Open? && s.objects[o].bound.None? && !s.objects[o].detaching
    ensures CanDeadlock(s, a, b, o, Top(s.calls[a]).target, |s.calls[a].stack| - 1)
  {
    var m := Next(s, Thread(None));
    assert LockFree(m, o);
    DeadlockAttaches(m, a, b, |s.calls|, o, r);
    CanDeadlockBefore(s, Thread(None), a, b, o, Top(s.calls[a]).target, |s.calls[a].stack| - 1);
  }

  const FAMILY: Universe := [ClientKind, CloudKind(0), ReplayKind(1), OutputKind]

  function Opened(status: Status, members: set<nat>): Object {
    Object(status, members, None, false, if status.Closing? then 1 else 0)
  }

  const BORN := [Opened(Open, {1}), Opened(Open, {2}), Opened(Open, {}), Opened(Open, {})]
  const IDLE := Call(None, [], Working)
  const CLOUD_FRAME := Frame(1, {2}, None)
  const JOINED := Call(Some(3), [], Joined(1, None, 1))

  /** One thread closes the CloudStorage; a second, in a callback of the output, has joined that. */
  const BOTH_CLOSE := System(FAMILY, BORN[1 := Opened(Closing, {2})],
                             [Call(None, [CLOUD_FRAME], Working), JOINED, IDLE])

  /** A third has attached the output to the replay; the first is in the close of the replay. */
  const STUCK_OBJECTS := [Opened(Open, {1}), Opened(Closing, {2}), Opened(Closing, {3}),
                          Object(Open, {}, Some(2), true, 0)]
  const STUCK := System(FAMILY, STUCK_OBJECTS,
                        [Call(None, [CLOUD_FRAME, Frame(2, {3}, None)], Waiting(3)), JOINED, IDLE])

  const ATTACHED := [Opened(Open, {1}), Opened(Closing, {2}), Opened(Open, {3}), Object(Open, {}, Some(2), false, 0)]

  lemma StuckInside()
    ensures exists steps :: Path(BOTH_CLOSE.(objects := ATTACHED), steps, STUCK)
  {
    var bound := BOTH_CLOSE.(objects := ATTACHED);
    var inside := bound.(objects := bound.objects[2 := Opened(Closing, {3})],
                         calls := bound.calls[0 := Call(None, [CLOUD_FRAME, Frame(2, {3}, None)], Working)]);
    assert [CLOUD_FRAME] + [Frame(2, {3}, None)] == [CLOUD_FRAME, Frame(2, {3}, None)];
    PathCons(inside, VisitOutput(0, 3), STUCK, [], STUCK);
    PathCons(bound, Enter(0, 2), inside, [VisitOutput(0, 3)] + [], STUCK);
  }

  lemma StuckAttached()
    ensures exists steps :: Path(BOTH_CLOSE, steps, STUCK)
  {
    var held := BOTH_CLOSE.(objects := BOTH_CLOSE.objects[2 := Opened(Open, {3})],
                            calls := BOTH_CLOSE.calls[2 := Call(None, [], AttachHeld(3, 2))]);
    assert {} + {3} == {3};
    StuckInside();
    var steps :| Path(BOTH_CLOSE.(objects := ATTACHED), steps, STUCK);
    PathCons(held, AttachEnd(2, true), BOTH_CLOSE.(objects := ATTACHED), steps, STUCK);
    PathCons(BOTH_CLOSE, Attach(2, 3, 2), held, [AttachEnd(2, true)] + steps, STUCK);
  }

  lemma StuckJoined()
    ensures exists steps :: Path(System(FAMILY, BORN, [IDLE, Call(Some(3), [], Working), IDLE]), steps, STUCK)
  {
    var s0 := System(FAMILY, BORN, [IDLE, Call(Some(3), [], Working), IDLE]);
    var s1 := System(FAMILY, BORN[1 := Opened(Closing, {2})],
                     [Call(None, [CLOUD_FRAME], Working), Call(Some(3), [], Working), IDLE]);
    assert [] + [CLOUD_FRAME] == [CLOUD_FRAME];
    StuckAttached();
    var steps :| Path(BOTH_CLOSE, steps, STUCK);
    PathCons(s1, Enter(1, 1), BOTH_CLOSE, steps, STUCK);
    PathCons(s0, Enter(0, 1), s1, [Enter(1, 1)] + steps, STUCK);
  }

  lemma StuckThreads()
    ensures exists steps :: Path(System(FAMILY, BORN, []), steps, STUCK)
  {
    var callback := Call(Some(3), [], Working);
    StuckJoined();
    var steps :| Path(System(FAMILY, BORN, [IDLE, callback, IDLE]), steps, STUCK);
    var s2 := System(FAMILY, BORN, [IDLE, callback]);
    PathCons(s2, Thread(None), System(FAMILY, BORN, [IDLE, callback, IDLE]), steps, STUCK);
    var t1 := [Thread(None)] + steps;
    PathCons(System(FAMILY, BORN, [IDLE]), Thread(Some(3)), s2, t1, STUCK);
    PathCons(System(FAMILY, BORN, []), Thread(None), System(FAMILY, BORN, [IDLE]), [Thread(Some(3))] + t1, STUCK);
  }

  lemma StuckLower()
    ensures
      var s := System(FAMILY, [Opened(Open, {1}), Opened(Open, {}), UNBORN, UNBORN], []);
      exists steps :: Path(s, steps, STUCK)
  {
    var s2 := System(FAMILY, [Opened(Open, {1}), Opened(Open, {}), UNBORN, UNBORN], []);
    var s3 := s2.(objects := [Opened(Open, {1}), Opened(Open, {2}), Opened(Open, {}), UNBORN]);
    assert {} + {2} == {2};
    StuckThreads();
    var steps :| Path(System(FAMILY, BORN, []), steps, STUCK);
    PathCons(s3, Create(3), System(FAMILY, BORN, []), steps, STUCK);
    PathCons(s2, Create(2), s3, [Create(3)] + steps, STUCK);
  }

  lemma StuckObjects()
    ensures exists steps :: Path(Initial(FAMILY), steps, STUCK)
  {
    var s0 := System(FAMILY, [UNBORN, UNBORN, UNBORN, UNBORN], []);
    var s1 := s0.(objects := [Opened(Open, {}), UNBORN, UNBORN, UNBORN]);
    var s2 := s0.(objects := [Opened(Open, {1}), Opened(Open, {}), UNBORN, UNBORN]);
    assert Initial(FAMILY) == s0;
    assert {} + {1} == {1};
    StuckLower();
    var steps :| Path(s2, steps, STUCK);
    PathCons(s1, Create(1), s2, steps, STUCK);
    PathCons(s0, Create(0), s1, [Create(1)] + steps, STUCK);
  }

  /** From nothing: a close joined from an output's callback, an attach after its guard, and the two
      threads wait for one another. */
  lemma DeadlockReachable()
    ensures exists steps, s :: Path(Initial(FAMILY), steps, s) && Deadlock(s, 0, 1, 3, 1, 0)
  {
    StuckObjects();
    var steps :| Path(Initial(FAMILY), steps, STUCK);
    assert Holds(STUCK, 0, 0, 1);
    assert Deadlock(STUCK, 0, 1, 3, 1, 0);
  }
}
