/** Fairness and termination of the scheduler: how long a ticket waits, and why every `barrier()`
    and `close()` wait ends once posting stops. */
module SchedulerProgress {
  import opened EventQueue
  import opened DispatchHistory
  import opened DispatchInvariant
  import opened Scheduler

  // ---- Bounded bypass ---------------------------------------------------------------------------

  ghost function Takes(steps: seq<Step>): nat {
    if steps == [] then 0 else (if steps[0].Take? then 1 else 0) + Takes(steps[1..])
  }

  /** The dispatchers whose tickets the steps take, in order. */
  ghost function Taken(s: System, steps: seq<Step>, r: System): seq<nat>
    requires Path(s, steps, r)
    decreases |steps|
  {
    if steps == [] then []
    else (if steps[0].Take? then [s.ready[0]] else []) + Taken(Next(s, steps[0]), steps[1..], r)
  }

  lemma ReadyStep(s: System, step: Step)
    requires CanStep(s, step)
    ensures step.Take? ==> Next(s, step).ready == s.ready[1..]
    ensures !step.Take? ==> s.ready <= Next(s, step).ready
  {
  }

  /** In any interleaving, after `k` takes the ticket at position `i >= k` has moved to `i - k`,
      and the tickets taken are exactly the `k` that stood first. */
  lemma {:induction false} FifoOrder(s: System, steps: seq<Step>, r: System, i: nat)
    requires Path(s, steps, r) && i < |s.ready| && Takes(steps) <= i
    ensures i - Takes(steps) < |r.ready| && r.ready[i - Takes(steps)] == s.ready[i]
    ensures Taken(s, steps, r) == s.ready[..Takes(steps)]
    decreases |steps|
  {
    if steps != [] {
      var n := Next(s, steps[0]);
      ReadyStep(s, steps[0]);
      if steps[0].Take? {
        FifoOrder(n, steps[1..], r, i - 1);
        assert s.ready[..Takes(steps)] == [s.ready[0]] + n.ready[..Takes(steps) - 1];
      } else {
        FifoOrder(n, steps[1..], r, i);
        assert n.ready[..Takes(steps)] == s.ready[..Takes(steps)];
      }
    }
  }

  lemma {:induction false} DistinctBelow(xs: seq<nat>, n: nat)
    requires forall i, j :: 0 <= i < j < |xs| ==> xs[i] != xs[j]
    requires forall i :: 0 <= i < |xs| ==> xs[i] < n
    ensures |xs| <= n
    decreases n
  {
    if n == 0 {
    } else if exists i :: 0 <= i < |xs| && xs[i] == n - 1 {
      var i :| 0 <= i < |xs| && xs[i] == n - 1;
      var rest := xs[..i] + xs[i + 1..];
      forall k | 0 <= k < |rest| ensures rest[k] < n - 1 {
        assert rest[k] == xs[if k < i then k else k + 1];
      }
      DistinctBelow(rest, n - 1);
    } else {
      DistinctBelow(xs, n - 1);
    }
  }

  /** With N dispatchers a ready ticket is taken after at most N - 1 others, all different. */
  lemma BoundedBypass(s: System, steps: seq<Step>, r: System, i: nat)
    requires Inv(s) && Path(s, steps, r) && i < |s.ready| && Takes(steps) <= i
    ensures i <= |s.disps| - 1
    ensures |Taken(s, steps, r)| == Takes(steps)
    ensures forall j, k :: 0 <= j < k < Takes(steps) ==> Taken(s, steps, r)[j] != Taken(s, steps, r)[k]
    ensures s.ready[i] !in Taken(s, steps, r)
  {
    DistinctBelow(s.ready, |s.disps|);
    FifoOrder(s, steps, r, i);
  }

  // ---- Draining ---------------------------------------------------------------------------------

  /** The steps that remain once nobody posts, closes or creates anything any more. */
  predicate Internal(step: Step) {
    step.Put? || step.Take? || step.DrainFirst? || step.DrainSecond?
  }

  function QueuedTotal(disps: seq<Disp>): nat {
    if disps == [] then 0 else QueuedTotal(disps[..|disps| - 1]) + |disps[|disps| - 1].q.events|
  }

  function Weight(p: Phase): nat {
    match p
    case Idle => 0
    case Holding(_) => 1
    case Putting(_) => 3
    case Handling(_) => 4
  }

  function AgentWeight(agents: seq<Phase>): nat {
    if agents == [] then 0 else AgentWeight(agents[..|agents| - 1]) + Weight(agents[|agents| - 1])
  }

  /** The number of internal steps the system can still make. */
  function Measure(s: System): nat {
    4 * QueuedTotal(s.disps) + 2 * |s.ready| + AgentWeight(s.agents)
  }

  lemma {:induction false} QueuedTotalUpdate(disps: seq<Disp>, d: nat, h: Disp)
    requires d < |disps|
    ensures QueuedTotal(disps[d := h]) == QueuedTotal(disps) - |disps[d].q.events| + |h.q.events|
  {
    var n := |disps| - 1;
    if d == n {
      assert disps[d := h][..n] == disps[..n];
    } else {
      QueuedTotalUpdate(disps[..n], d, h);
      assert disps[d := h][..n] == disps[..n][d := h];
    }
  }

  lemma {:induction false} AgentWeightUpdate(agents: seq<Phase>, a: nat, p: Phase)
    requires a < |agents|
    ensures AgentWeight(agents[a := p]) == AgentWeight(agents) - Weight(agents[a]) + Weight(p)
  {
    var n := |agents| - 1;
    if a == n {
      assert agents[a := p][..n] == agents[..n];
    } else {
      AgentWeightUpdate(agents[..n], a, p);
      assert agents[a := p][..n] == agents[..n][a := p];
    }
  }

  lemma MeasureDecreases(s: System, step: Step)
    requires CanStep(s, step) && Internal(step)
    ensures Measure(Next(s, step)) < Measure(s)
  {
    var r := Next(s, step);
    AgentWeightUpdate(s.agents, step.a, r.agents[step.a]);
    if step.DrainFirst? || step.DrainSecond? {
      var d := s.agents[step.a].d;
      QueuedTotalUpdate(s.disps, d, r.disps[d]);
    }
  }

  /** Once posting stops, every schedule of the remaining steps is finite, with this bound. */
  lemma {:induction false} DrainTerminates(s: System, steps: seq<Step>, r: System)
    requires Path(s, steps, r)
    requires forall i :: 0 <= i < |steps| ==> Internal(steps[i])
    ensures |steps| <= Measure(s)
    decreases |steps|
  {
    if steps != [] {
      MeasureDecreases(s, steps[0]);
      DrainTerminates(Next(s, steps[0]), steps[1..], r);
    }
  }

  /** No deadlock: with at least one worker, a state in which no internal step is possible has
      satisfied the wait condition of every `barrier()` and every `close()`. */
  lemma DrainComplete(s: System, d: nat)
    requires Inv(s) && s.workers >= 1 && d < |s.disps|
    requires forall step :: Internal(step) ==> !CanStep(s, step)
    ensures BarrierDone(s.disps[d].q) && CloseDone(s.disps[d].q)
  {
    forall a | 0 <= a < |s.agents|
      ensures s.agents[a].Idle?
    {
      assert !CanStep(s, Put(a)) && !CanStep(s, DrainFirst(a)) && !CanStep(s, DrainSecond(a));
    }
    assert !CanStep(s, Take(0));
    assert !Ticketed(s, d);
  }
}
