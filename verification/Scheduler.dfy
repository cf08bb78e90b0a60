/** `_CallbackExecutor` and every dispatcher it serves, as a transition system: any number of
    dispatchers, workers and calls, one atomic step per lock-protected block.  A ticket for a
    dispatcher is the right to drain it; it is held by a call about to put the dispatcher on the
    ready queue, by the ready queue, or by a worker. */
module Scheduler {
  import opened Wrappers
  import opened EventQueue
  import opened DispatchHistory
  import opened DispatchInvariant

  /** Where an activation stands.  Agents below `workers` are worker threads, the others are
      calls of `post` and `post_native_task` on arbitrary threads, nested ones included. */
  datatype Phase = Idle | Putting(d: nat) | Holding(d: nat) | Handling(d: nat)

  datatype System = System(disps: seq<Disp>, ready: seq<nat>, agents: seq<Phase>, workers: nat)

  datatype Step =
    | NewDispatcher(capacity: nat, frameCapacity: nat)
    | NewCall
    | CallPost(a: nat, d: nat, op: Op)
    | Put(a: nat)
    | Take(a: nat)
    | DrainFirst(a: nat)
    | DrainSecond(a: nat)
    | CallClose(d: nat)
    | CallDiscard(d: nat)

  predicate IsPostOp(op: Op) {
    op.SinkPost? || op.TaskPost?
  }

  ghost predicate CanStep(s: System, step: Step) {
    match step
    case NewDispatcher(_, _) => true
    case NewCall => true
    case CallPost(a, d, op) =>
      s.workers <= a < |s.agents| && s.agents[a].Idle? && d < |s.disps| && IsPostOp(op) && Enabled(s.disps[d], op)
    case Put(a) => a < |s.agents| && s.agents[a].Putting?
    case Take(a) => a < s.workers && a < |s.agents| && s.agents[a].Idle? && s.ready != []
    case DrainFirst(a) => a < |s.agents| && s.agents[a].Holding? && s.agents[a].d < |s.disps|
    case DrainSecond(a) => a < |s.agents| && s.agents[a].Handling? && s.agents[a].d < |s.disps|
    case CallClose(d) => d < |s.disps|
    case CallDiscard(d) => d < |s.disps|
  }

  /** Did this post hand its caller a new ticket? */
  predicate NewTicket(before: Queue, after: Queue) {
    !before.scheduled && after.scheduled
  }

  /** The value `schedule` on which a call of `post` or `post_native_task` acts says exactly that. */
  lemma ScheduleIsTicket(q: Queue, e: Event, latest: bool, task: Value)
    ensures
      var (r, outcome) := Post(q, e, latest);
      outcome.Accepted? && outcome.schedule <==> NewTicket(q, r)
    ensures !TaskBlocked(q) ==>
      var (r, outcome) := PostTask(q, e.stamp, task);
      outcome.Accepted? && outcome.schedule <==> NewTicket(q, r)
  {
  }

  function Next(s: System, step: Step): System
    requires CanStep(s, step)
  {
    match step
    case NewDispatcher(c, f) => s.(disps := s.disps + [New(c, f)])
    case NewCall => s.(agents := s.agents + [Idle])
    case CallPost(a, d, op) =>
      var h := Apply(s.disps[d], op);
      s.(disps := s.disps[d := h],
         agents := s.agents[a := if NewTicket(s.disps[d].q, h.q) then Putting(d) else Idle])
    case Put(a) => s.(ready := s.ready + [s.agents[a].d], agents := s.agents[a := Idle])
    case Take(a) => s.(ready := s.ready[1..], agents := s.agents[a := Holding(s.ready[0])])
    case DrainFirst(a) =>
      var d := s.agents[a].d;
      var h := Apply(s.disps[d], Begin);
      s.(disps := s.disps[d := h],
         agents := s.agents[a := if s.disps[d].q.events == [] then Idle else Handling(d)])
    case DrainSecond(a) =>
      var d := s.agents[a].d;
      var h := Apply(s.disps[d], End);
      s.(disps := s.disps[d := h],
         agents := s.agents[a := if DrainEnd(s.disps[d].q).1 then Putting(d) else Idle])
    case CallClose(d) => s.(disps := s.disps[d := Apply(s.disps[d], CloseOp)])
    case CallDiscard(d) => s.(disps := s.disps[d := Apply(s.disps[d], DiscardOp)])
  }

  // ---- The ticket invariant ---------------------------------------------------------------------

  predicate Holds(p: Phase, d: nat) {
    !p.Idle? && p.d == d
  }

  ghost predicate Held(s: System, d: nat) {
    exists a :: 0 <= a < |s.agents| && Holds(s.agents[a], d)
  }

  ghost predicate Ticketed(s: System, d: nat) {
    d in s.ready || Held(s, d)
  }

  ghost predicate Executing(s: System, d: nat) {
    exists a :: 0 <= a < |s.agents| && s.agents[a] == Handling(d)
  }

  /** Tickets are unique: no dispatcher is twice on the ready queue, or held twice, or both. */
  ghost predicate TicketsUnique(s: System) {
    && (forall i, j :: 0 <= i < j < |s.ready| ==> s.ready[i] != s.ready[j])
    && (forall a, b :: 0 <= a < b < |s.agents| && !s.agents[a].Idle? && !s.agents[b].Idle? ==>
          s.agents[a].d != s.agents[b].d)
    && (forall a :: 0 <= a < |s.agents| && !s.agents[a].Idle? ==> s.agents[a].d !in s.ready)
  }

  ghost predicate InRange(s: System) {
    && s.workers <= |s.agents|
    && (forall i :: 0 <= i < |s.ready| ==> s.ready[i] < |s.disps|)
    && (forall a :: 0 <= a < |s.agents| && !s.agents[a].Idle? ==> s.agents[a].d < |s.disps|)
    && (forall a :: s.workers <= a < |s.agents| ==> s.agents[a].Idle? || s.agents[a].Putting?)
  }

  /** How the flags of one dispatcher relate to its ticket. */
  ghost predicate FlagsMatch(q: Queue, ticketed: bool, executing: bool) {
    && (q.executing <==> executing)
    && (q.events != [] ==> q.scheduled)
    && (q.scheduled ==> ticketed)
    && (ticketed && !q.scheduled ==> q.closed && CloseDone(q))
    && (q.scheduled ==> q.events != [] || q.executing)
  }

  ghost predicate TicketInv(s: System) {
    && TicketsUnique(s)
    && InRange(s)
    && (forall d :: 0 <= d < |s.disps| ==> FlagsMatch(s.disps[d].q, Ticketed(s, d), Executing(s, d)))
  }

  ghost predicate Inv(s: System) {
    TicketInv(s) && forall d :: 0 <= d < |s.disps| ==> DispInv(s.disps[d])
  }

  /** Other dispatchers keep their tickets when agent `a` moves between phases of one dispatcher. */
  lemma AgentMoves(s: System, r: System, a: nat, d: nat)
    requires a < |s.agents| == |r.agents| && r.agents == s.agents[a := r.agents[a]]
    requires s.agents[a].Idle? || s.agents[a].d == d
    requires r.agents[a].Idle? || r.agents[a].d == d
    ensures forall o: nat :: o != d ==> Held(r, o) == Held(s, o) && Executing(r, o) == Executing(s, o)
    ensures Holds(r.agents[a], d) ==> Held(r, d)
    ensures r.agents[a] == Handling(d) ==> Executing(r, d)
  {
    forall o: nat | o != d
      ensures Held(r, o) == Held(s, o) && Executing(r, o) == Executing(s, o)
    {
      assert forall b :: 0 <= b < |s.agents| && Holds(s.agents[b], o) ==> Holds(r.agents[b], o);
      assert forall b :: 0 <= b < |s.agents| && Holds(r.agents[b], o) ==> Holds(s.agents[b], o);
      assert forall b :: 0 <= b < |s.agents| && s.agents[b] == Handling(o) ==> r.agents[b] == Handling(o);
      assert forall b :: 0 <= b < |s.agents| && r.agents[b] == Handling(o) ==> s.agents[b] == Handling(o);
    }
  }

  lemma TicketPost(s: System, a: nat, d: nat, op: Op)
    requires TicketInv(s) && CanStep(s, CallPost(a, d, op))
    ensures TicketInv(Next(s, CallPost(a, d, op)))
  {
    var r := Next(s, CallPost(a, d, op));
    AgentMoves(s, r, a, d);
    var q, q' := s.disps[d].q, r.disps[d].q;
    PostFlags(s.disps[d], op);
    if NewTicket(q, q') {
      assert !Ticketed(s, d);
      forall b | 0 <= b < |r.agents| && b != a && !r.agents[b].Idle? ensures r.agents[b].d != d {
        assert r.agents[b] == s.agents[b];
        assert s.agents[b].d == d ==> Holds(s.agents[b], d);
      }
    } else {
      assert r.agents == s.agents;
    }
    assert Executing(r, d) == Executing(s, d) by {
      assert forall b :: 0 <= b < |s.agents| && s.agents[b] == Handling(d) ==> r.agents[b] == Handling(d);
      assert forall b :: 0 <= b < |s.agents| && r.agents[b] == Handling(d) ==> s.agents[b] == Handling(d);
    }
  }

  /** What a post can do to the flags of its queue. */
  lemma PostFlags(h: Disp, op: Op)
    requires IsPostOp(op) && Enabled(h, op)
    ensures
      var q, r := h.q, Apply(h, op).q;
      && r.executing == q.executing && r.closed == q.closed
      && (q.closed ==> r == q)
      && (q.scheduled ==> r.scheduled)
      && (r.scheduled != q.scheduled ==> r.events != [])
      && (r.scheduled == q.scheduled ==> q.scheduled || (r.events != [] ==> q.events != []))
  {
  }

  lemma TicketPut(s: System, a: nat)
    requires TicketInv(s) && CanStep(s, Put(a))
    ensures TicketInv(Next(s, Put(a)))
  {
    var r := Next(s, Put(a));
    var d := s.agents[a].d;
    AgentMoves(s, r, a, d);
    assert r.ready[|s.ready|] == d;
    forall o | 0 <= o < |s.disps|
      ensures Ticketed(r, o) == Ticketed(s, o) && Executing(r, o) == Executing(s, o)
    {
      if o == d {
        assert Holds(s.agents[a], d);
        assert forall b :: 0 <= b < |s.agents| && Holds(s.agents[b], d) ==> b == a;
      }
    }
  }

  lemma TicketTake(s: System, a: nat)
    requires TicketInv(s) && CanStep(s, Take(a))
    ensures TicketInv(Next(s, Take(a)))
  {
    var r := Next(s, Take(a));
    var d := s.ready[0];
    AgentMoves(s, r, a, d);
    forall o | 0 <= o < |s.disps|
      ensures Ticketed(r, o) == Ticketed(s, o) && Executing(r, o) == Executing(s, o)
    {
      if o == d {
        assert Holds(r.agents[a], d);
        assert forall b :: 0 <= b < |s.agents| ==> !Holds(s.agents[b], d);
      } else {
        assert o in s.ready <==> o in r.ready by {
          assert s.ready == [d] + r.ready;
        }
      }
    }
    forall b | 0 <= b < |r.agents| && !r.agents[b].Idle? ensures r.agents[b].d !in r.ready {
      if b == a {
        assert forall i :: 0 <= i < |r.ready| ==> r.ready[i] == s.ready[i + 1];
      }
    }
  }

  lemma TicketDrain(s: System, step: Step)
    requires TicketInv(s) && CanStep(s, step) && (step.DrainFirst? || step.DrainSecond?)
    ensures TicketInv(Next(s, step))
  {
    var r := Next(s, step);
    var a := step.a;
    var d := s.agents[a].d;
    AgentMoves(s, r, a, d);
    assert Holds(s.agents[a], d);
    assert forall b :: 0 <= b < |s.agents| && Holds(s.agents[b], d) ==> b == a;
    assert forall b :: 0 <= b < |r.agents| && Holds(r.agents[b], d) ==> b == a;
    assert s.agents[a] == Handling(d) ==> Executing(s, d);
    assert Ticketed(r, d) == !r.agents[a].Idle?;
    assert Executing(r, d) == (r.agents[a] == Handling(d));
    assert Executing(s, d) == (s.agents[a] == Handling(d));
  }

  lemma TicketFlags(s: System, d: nat, op: Op)
    requires TicketInv(s) && d < |s.disps| && (op == CloseOp || op == DiscardOp)
    ensures TicketInv(s.(disps := s.disps[d := Apply(s.disps[d], op)]))
  {
    var r := s.(disps := s.disps[d := Apply(s.disps[d], op)]);
    assert forall o: nat :: Ticketed(r, o) == Ticketed(s, o) && Executing(r, o) == Executing(s, o);
  }

  lemma TicketGrow(s: System, step: Step)
    requires TicketInv(s) && (step.NewDispatcher? || step.NewCall?)
    ensures TicketInv(Next(s, step))
  {
    var r := Next(s, step);
    forall o: nat ensures Held(r, o) == Held(s, o) && Executing(r, o) == Executing(s, o) {
      assert forall b :: 0 <= b < |s.agents| ==> r.agents[b] == s.agents[b];
      assert forall b :: |s.agents| <= b < |r.agents| ==> r.agents[b].Idle?;
    }
    if step.NewDispatcher? {
      assert !Ticketed(s, |s.disps|) && !Executing(s, |s.disps|);
    }
  }

  lemma TicketInvKept(s: System, step: Step)
    requires TicketInv(s) && CanStep(s, step)
    ensures TicketInv(Next(s, step))
  {
    match step
    case NewDispatcher(_, _) => TicketGrow(s, step);
    case NewCall => TicketGrow(s, step);
    case CallPost(a, d, op) => TicketPost(s, a, d, op);
    case Put(a) => TicketPut(s, a);
    case Take(a) => TicketTake(s, a);
    case DrainFirst(a) => TicketDrain(s, step);
    case DrainSecond(a) => TicketDrain(s, step);
    case CallClose(d) => TicketFlags(s, d, CloseOp);
    case CallDiscard(d) => TicketFlags(s, d, DiscardOp);
  }

  // ---- Every run --------------------------------------------------------------------------------

  function Initial(workers: nat): System {
    System([], [], seq(workers, _ => Idle), workers)
  }

  ghost predicate Path(s: System, steps: seq<Step>, r: System)
    decreases |steps|
  {
    if steps == [] then r == s
    else CanStep(s, steps[0]) && Path(Next(s, steps[0]), steps[1..], r)
  }

  /** A worker that holds a ticket finds no handler of that dispatcher running. */
  lemma HolderAlone(s: System, a: nat)
    requires TicketInv(s) && a < |s.agents| && s.agents[a].Holding? && s.agents[a].d < |s.disps|
    ensures !s.disps[s.agents[a].d].q.executing
  {
    var d := s.agents[a].d;
    assert forall b :: 0 <= b < |s.agents| && s.agents[b] == Handling(d) ==> b == a;
  }

  lemma HandlerExecutes(s: System, a: nat)
    requires TicketInv(s) && a < |s.agents| && s.agents[a].Handling? && s.agents[a].d < |s.disps|
    ensures s.disps[s.agents[a].d].q.executing
  {
    assert s.agents[a] == Handling(s.agents[a].d);
  }

  /** Every block of every thread keeps the ticket invariant and each dispatcher's own one. */
  lemma InvKept(s: System, step: Step)
    requires Inv(s) && CanStep(s, step)
    ensures Inv(Next(s, step))
  {
    TicketInvKept(s, step);
    match step
    case NewDispatcher(c, f) => DispInvInitially(c, f);
    case CallPost(a, d, op) => DispInvKept(s.disps[d], op);
    case DrainFirst(a) =>
      HolderAlone(s, a);
      DispInvKept(s.disps[s.agents[a].d], Begin);
    case DrainSecond(a) =>
      HandlerExecutes(s, a);
      DispInvKept(s.disps[s.agents[a].d], End);
    case CallClose(d) => DispInvKept(s.disps[d], CloseOp);
    case CallDiscard(d) => DispInvKept(s.disps[d], DiscardOp);
    case _ =>
  }

  lemma {:induction false} InvAlong(s: System, steps: seq<Step>, r: System)
    requires Inv(s) && Path(s, steps, r)
    ensures Inv(r)
    decreases |steps|
  {
    if steps != [] {
      InvKept(s, steps[0]);
      InvAlong(Next(s, steps[0]), steps[1..], r);
    }
  }

  /** The invariant holds after every interleaving, for any number of workers. */
  lemma InvReachable(workers: nat, steps: seq<Step>, r: System)
    requires Path(Initial(workers), steps, r)
    ensures Inv(r)
  {
    InvAlong(Initial(workers), steps, r);
  }

  // ---- What it means for a caller ---------------------------------------------------------------

  ghost function TicketCount(s: System, d: nat): nat {
    |set i | 0 <= i < |s.ready| && s.ready[i] == d :: i| + |set a | 0 <= a < |s.agents| && Holds(s.agents[a], d) :: a|
  }

  lemma AtMostOne<T>(xs: set<T>)
    requires forall x, y :: x in xs && y in xs ==> x == y
    ensures |xs| <= 1
  {
    if xs != {} {
      var x :| x in xs;
      assert xs == {x};
    }
  }

  /** At most one ticket per dispatcher, in every reachable state; while the dispatcher is open
      `_scheduled` says exactly whether it exists. */
  lemma OneTicket(s: System, d: nat)
    requires Inv(s) && d < |s.disps|
    ensures TicketCount(s, d) <= 1
    ensures TicketCount(s, d) == 1 <==> Ticketed(s, d)
    ensures !s.disps[d].q.closed ==> (s.disps[d].q.scheduled <==> TicketCount(s, d) == 1)
  {
    var queued := set i | 0 <= i < |s.ready| && s.ready[i] == d :: i;
    var held := set a | 0 <= a < |s.agents| && Holds(s.agents[a], d) :: a;
    AtMostOne(queued);
    AtMostOne(held);
    if d in s.ready {
      var i :| 0 <= i < |s.ready| && s.ready[i] == d;
      assert queued == {i} && held == {};
    } else {
      assert queued == {};
      if Held(s, d) {
        var a :| 0 <= a < |s.agents| && Holds(s.agents[a], d);
        assert held == {a};
      } else {
        assert held == {};
      }
    }
  }

  /** Callbacks of one dispatcher never overlap, and an accepted event is never stranded. */
  lemma SerialAndAwake(s: System, d: nat)
    requires Inv(s) && d < |s.disps|
    ensures forall a, b :: 0 <= a < b < |s.agents| ==> !(s.agents[a] == Handling(d) && s.agents[b] == Handling(d))
    ensures forall i, j :: 0 <= i < j < |s.disps[d].fates| ==>
              !(s.disps[d].fates[i] == Running && s.disps[d].fates[j] == Running)
    ensures s.disps[d].q.executing <==> Executing(s, d)
    ensures (exists i :: 0 <= i < |s.disps[d].fates| && s.disps[d].fates[i] == Queued) ==> Ticketed(s, d)
  {
    assert DispInv(s.disps[d]);
    if i :| 0 <= i < |s.disps[d].fates| && s.disps[d].fates[i] == Queued {
      assert InQueue(s.disps[d].q.events, i);
    }
  }

  /** What the two wait conditions mean for the threads: a close waits exactly until nothing is queued and no
      worker is in the handler; so does a barrier, and on an open dispatcher that is exactly until nobody has
      a ticket, so that no worker comes back before the next post.  An idle stale ticket changes nothing. */
  lemma WaitsMean(s: System, d: nat)
    requires Inv(s) && d < |s.disps|
    ensures
      var q := s.disps[d].q;
      && (CloseDone(q) <==> q.events == [] && !Executing(s, d))
      && (BarrierDone(q) <==> q.events == [] && !Executing(s, d))
      && (!q.closed ==> (BarrierDone(q) <==> TicketCount(s, d) == 0))
      && (q.events == [] ==> DrainBegin(q) == (q, None) || Executing(s, d))
  {
    OneTicket(s, d);
  }

  lemma FatesForwardStep(s: System, step: Step, d: nat, i: nat)
    requires Inv(s) && CanStep(s, step) && d < |s.disps| && i < |s.disps[d].fates|
    ensures d < |Next(s, step).disps| && i < |Next(s, step).disps[d].fates|
    ensures FateStep(s.disps[d].fates[i], Next(s, step).disps[d].fates[i])
  {
    match step
    case CallPost(a, e, op) => if e == d { FatesForward(s.disps[d], op, i); }
    case DrainFirst(a) =>
      HolderAlone(s, a);
      if s.agents[a].d == d { FatesForward(s.disps[d], Begin, i); }
    case DrainSecond(a) =>
      HandlerExecutes(s, a);
      if s.agents[a].d == d { FatesForward(s.disps[d], End, i); }
    case CallClose(e) => if e == d { FatesForward(s.disps[d], CloseOp, i); }
    case CallDiscard(e) => if e == d { FatesForward(s.disps[d], DiscardOp, i); }
    case _ =>
  }

  /** When `barrier()` returns, every event accepted before is finished, coalesced over, evicted
      or discarded, and remains so in every continuation. */
  lemma {:induction false} BarrierSound(s: System, d: nat, steps: seq<Step>, r: System, i: nat)
    requires Inv(s) && d < |s.disps| && BarrierDone(s.disps[d].q) && Path(s, steps, r)
    requires i < |s.disps[d].fates|
    ensures Settled(s.disps[d].fates[i])
    ensures d < |r.disps| && i < |r.disps[d].fates| && r.disps[d].fates[i] == s.disps[d].fates[i]
  {
    BarrierSettlesEverything(s.disps[d]);
    SettledStays(s, d, steps, r, i);
  }

  lemma {:induction false} SettledStays(s: System, d: nat, steps: seq<Step>, r: System, i: nat)
    requires Inv(s) && d < |s.disps| && Path(s, steps, r)
    requires i < |s.disps[d].fates| && Settled(s.disps[d].fates[i])
    ensures d < |r.disps| && i < |r.disps[d].fates| && r.disps[d].fates[i] == s.disps[d].fates[i]
    decreases |steps|
  {
    if steps != [] {
      FatesForwardStep(s, steps[0], d, i);
      InvKept(s, steps[0]);
      SettledStays(Next(s, steps[0]), d, steps[1..], r, i);
    }
  }

  ghost predicate ClosedAndQuiet(h: Disp) {
    h.q.closed && CloseDone(h.q)
  }

  lemma QuietStep(s: System, step: Step, d: nat)
    requires Inv(s) && CanStep(s, step) && d < |s.disps| && ClosedAndQuiet(s.disps[d])
    ensures d < |Next(s, step).disps| && ClosedAndQuiet(Next(s, step).disps[d])
    ensures Next(s, step).disps[d].log == s.disps[d].log
  {
    if step.DrainSecond? {
      HandlerExecutes(s, step.a);
    }
    if step.CallDiscard? && step.d == d {
      assert NativeTasks([]) == [];
    }
  }

  /** After `close()` returns no handler of the dispatcher ever runs again, in any continuation:
      not even when a ticket is still in the ready queue. */
  lemma {:induction false} CloseAbsorbing(s: System, d: nat, steps: seq<Step>, r: System)
    requires Inv(s) && d < |s.disps| && ClosedAndQuiet(s.disps[d]) && Path(s, steps, r)
    ensures d < |r.disps| && ClosedAndQuiet(r.disps[d]) && r.disps[d].log == s.disps[d].log
    ensures !Executing(r, d)
    decreases |steps|
  {
    InvAlong(s, steps, r);
    if steps != [] {
      QuietStep(s, steps[0], d);
      InvKept(s, steps[0]);
      CloseAbsorbing(Next(s, steps[0]), d, steps[1..], r);
    }
  }

  /** The step runs a block on dispatcher `d` that ends in `notify_all`. */
  ghost predicate Notifies(s: System, step: Step, d: nat)
    requires CanStep(s, step)
  {
    match step
    case DrainFirst(a) => s.agents[a].d == d && d < |s.disps| && s.disps[d].q.events != []
    case DrainSecond(a) => s.agents[a].d == d
    case CallClose(e) => e == d
    case CallDiscard(e) => e == d
    case _ => false
  }

  /** No wakeup is lost: a step that makes the condition of a waiting `barrier`, `close` or
      `post_native_task` true notifies the waiters.  The block that clears `_scheduled` under a stale
      ticket does not notify, and does not have to: it never makes a condition true. */
  lemma WakeupsSent(s: System, step: Step, d: nat)
    requires Inv(s) && CanStep(s, step) && d < |s.disps|
    ensures
      var q, r := s.disps[d].q, Next(s, step).disps[d].q;
      (!BarrierDone(q) && BarrierDone(r)) || (!CloseDone(q) && CloseDone(r)) || (TaskBlocked(q) && !TaskBlocked(r))
      ==> Notifies(s, step, d)
  {
    match step
    case CallPost(a, e, op) => if e == d { PostWakesNobody(s.disps[d], op); }
    case DrainFirst(a) => HolderAlone(s, a);
    case _ =>
  }

  lemma PostWakesNobody(h: Disp, op: Op)
    requires IsPostOp(op) && Enabled(h, op)
    ensures
      var q, r := h.q, Apply(h, op).q;
      r.closed == q.closed && r.capacity == q.capacity && r.executing == q.executing && |q.events| <= |r.events|
    ensures h.q.scheduled ==> Apply(h, op).q.scheduled
  {
    if op.SinkPost? {
      PostGrows(h.q, SinkEvent(|h.sent|, op.kind, op.values), IsLatestKind(op.kind));
    }
  }

  lemma PostGrows(q: Queue, e: Event, latest: bool)
    ensures
      var r := Post(q, e, latest).0;
      && r.closed == q.closed && r.capacity == q.capacity && r.executing == q.executing && |q.events| <= |r.events|
      && (q.scheduled ==> r.scheduled)
  {
  }

  /** A stale ticket is one whose dispatcher has already cleared `_scheduled`. */
  ghost predicate Stale(s: System, d: nat)
    requires d < |s.disps|
  {
    Ticketed(s, d) && !s.disps[d].q.scheduled
  }

  /** Exactly when `discard` leaves a ticket stale: one is outstanding, no handler is running and
      no native task is queued. */
  lemma DiscardStaleIff(s: System, d: nat)
    requires Inv(s) && d < |s.disps|
    ensures Stale(Next(s, CallDiscard(d)), d) <==>
            Ticketed(s, d) && !s.disps[d].q.executing && NativeTasks(s.disps[d].q.events) == []
  {
    var r := Next(s, CallDiscard(d));
    assert Ticketed(r, d) == Ticketed(s, d);
    assert s.disps[d].q.events == [] ==> NativeTasks(s.disps[d].q.events) == [];
  }
}
