/** What a user of a dispatcher can rely on, over every run of any number of posters and workers. */
module DispatchGuarantees {
  import opened EventQueue
  import opened DispatchHistory
  import opened QueueBounds
  import opened DispatchInvariant
  import opened Scheduler
  import opened SchedulerProgress

  /** In every reachable state of every dispatcher: the frame counter is exact and within the frame
      capacity; the queue exceeds its capacity by one terminal event at most, two when native tasks
      are mixed in; and at most one event of a latest kind is queued, the newest accepted one. */
  lemma ReachableQueue(workers: nat, steps: seq<Step>, r: System, d: nat)
    requires Path(Initial(workers), steps, r) && d < |r.disps|
    ensures
      var h := r.disps[d];
      && h.q.frameCount == FrameTotal(h.q.events) <= h.q.frameCapacity
      && (h.q.capacity >= 1 ==> |h.q.events| <= h.q.capacity + if NativeTasks(h.q.events) == [] then 1 else 2)
      && (forall j, k :: 0 <= j < k < |h.q.events| && IsLatestKind(h.q.events[j].kind) ==>
            h.q.events[j].kind != h.q.events[k].kind)
      && LatestFresh(h)
  {
    InvReachable(workers, steps, r);
    var h := r.disps[d];
    assert DispInv(h);
    if h.q.capacity >= 1 {
      OverCapacity(h);
    }
    forall j, k | 0 <= j < k < |h.q.events| && IsLatestKind(h.q.events[j].kind)
      ensures h.q.events[j].kind != h.q.events[k].kind
    {
      if h.q.events[j].kind == h.q.events[k].kind {
        LatestUnique(h, j, k);
      }
    }
  }

  // ---- Accepted terminal events run ---------------------------------------------------------------

  predicate Alive(f: Fate) {
    f == Queued || f == Running || f == Done
  }

  /** Post `i` of a dispatcher was accepted, is a terminal event and has not been discarded. */
  ghost predicate LiveTerminal(h: Disp, i: nat) {
    i < |h.sent| && i < |h.fates| && h.sent[i].terminal && Alive(h.fates[i])
  }

  lemma LiveTerminalKept(h: Disp, op: Op, i: nat)
    requires Identity(h) && Enabled(h, op) && LiveTerminal(h, i)
    requires op == DiscardOp ==> h.sent[i].kind == NATIVE_TASK
    ensures LiveTerminal(Apply(h, op), i) && Apply(h, op).sent[i] == h.sent[i]
  {
    TerminalsSafe(h, op, i);
    FatesForward(h, op, i);
  }

  lemma LiveTerminalStep(s: System, step: Step, d: nat, i: nat)
    requires Inv(s) && CanStep(s, step) && d < |s.disps| && LiveTerminal(s.disps[d], i)
    requires step == CallDiscard(d) ==> s.disps[d].sent[i].kind == NATIVE_TASK
    ensures d < |Next(s, step).disps| && LiveTerminal(Next(s, step).disps[d], i)
    ensures Next(s, step).disps[d].sent[i] == s.disps[d].sent[i]
  {
    match step
    case CallPost(a, e, op) => if e == d { LiveTerminalKept(s.disps[d], op, i); }
    case DrainFirst(a) =>
      HolderAlone(s, a);
      if s.agents[a].d == d { LiveTerminalKept(s.disps[d], Begin, i); }
    case DrainSecond(a) =>
      HandlerExecutes(s, a);
      if s.agents[a].d == d { LiveTerminalKept(s.disps[d], End, i); }
    case CallClose(e) => if e == d { LiveTerminalKept(s.disps[d], CloseOp, i); }
    case CallDiscard(e) => if e == d { LiveTerminalKept(s.disps[d], DiscardOp, i); }
    case _ =>
  }

  /** Over every run an accepted terminal event is queued, running or done, unless its dispatcher is
      discarded; a native task even then. */
  lemma {:induction false} TerminalsLive(s: System, steps: seq<Step>, r: System, d: nat, i: nat)
    requires Inv(s) && Path(s, steps, r) && d < |s.disps| && LiveTerminal(s.disps[d], i)
    requires s.disps[d].sent[i].kind == NATIVE_TASK || CallDiscard(d) !in steps
    ensures d < |r.disps| && LiveTerminal(r.disps[d], i)
    decreases |steps|
  {
    if steps != [] {
      assert steps[0] in steps;
      LiveTerminalStep(s, steps[0], d, i);
      InvKept(s, steps[0]);
      TerminalsLive(Next(s, steps[0]), steps[1..], r, d, i);
    }
  }

  lemma {:induction false} WorkersFixed(s: System, steps: seq<Step>, r: System)
    requires Path(s, steps, r)
    ensures r.workers == s.workers
    decreases |steps|
  {
    if steps != [] {
      WorkersFixed(Next(s, steps[0]), steps[1..], r);
    }
  }

  /** Together with `DrainTerminates`: whenever a run can go no further without new posts, every
      terminal event accepted along the way, on a dispatcher not discarded since, has run. */
  lemma TerminalsDelivered(s: System, steps: seq<Step>, r: System, d: nat, i: nat)
    requires Inv(s) && s.workers >= 1 && Path(s, steps, r) && d < |s.disps| && LiveTerminal(s.disps[d], i)
    requires s.disps[d].sent[i].kind == NATIVE_TASK || CallDiscard(d) !in steps
    requires forall step :: Internal(step) ==> !CanStep(r, step)
    ensures d < |r.disps| && i < |r.disps[d].fates| && r.disps[d].fates[i] == Done
  {
    TerminalsLive(s, steps, r, d, i);
    Scheduler.InvAlong(s, steps, r);
    WorkersFixed(s, steps, r);
    DrainComplete(r, d);
    BarrierSettlesEverything(r.disps[d]);
  }
}
