/** `CallbackTasks` on top of the whole scheduler: the native tasks of one dispatcher, handed over by
    any number of native threads, drained by the workers that also serve every other dispatcher. */
module TaskDelivery {
  import opened Wrappers
  import opened EventQueue
  import opened DispatchHistory
  import S = Scheduler
  import P = SchedulerProgress
  import T = CallbackTasks

  datatype Joint = Joint(s: S.System, d: nat, alive: bool, cells: seq<T.Cell>, calling: set<nat>, returning: set<nat>)

  /** What `CallbackTasks` sees of it. */
  ghost function View(j: Joint): T.Tasks
    requires j.d < |j.s.disps|
  {
    T.Tasks(j.s.disps[j.d], j.alive, j.cells, j.calling, j.returning)
  }

  datatype Step =
    | Sched(step: S.Step)
    | Dispatch(capsule: bool)
    | Hand(a: nat, t: nat)
    | Skip(t: nat)
    | Return(t: nat)
    | RunTask(a: nat)
    | Collect

  /** The block a scheduler step runs on dispatcher `d`. */
  ghost function OpOn(s: S.System, step: S.Step, d: nat): Option<Op>
    requires S.CanStep(s, step)
  {
    match step
    case CallPost(_, e, op) => if e == d then Some(op) else None
    case DrainFirst(a) => if s.agents[a].d == d then Some(Begin) else None
    case DrainSecond(a) => if s.agents[a].d == d then Some(End) else None
    case CallClose(e) => if e == d then Some(CloseOp) else None
    case CallDiscard(e) => if e == d then Some(DiscardOp) else None
    case _ => None
  }

  /** Tasks reach the dispatcher through its sink only; a collected dispatcher is not used, and the
      ready queue, a worker or a call that holds its ticket keeps it from being collected. */
  ghost predicate CanStep(j: Joint, step: Step) {
    j.d < |j.s.disps| &&
    match step
    case Sched(step) =>
      S.CanStep(j.s, step) &&
      (var op := OpOn(j.s, step, j.d); op.Some? ==> j.alive && !op.value.TaskPost?)
    case Dispatch(_) => true
    case Hand(a, t) => t in j.calling && j.alive && S.CanStep(j.s, S.CallPost(a, j.d, TaskPost(Data(t))))
    case Skip(t) => t in j.calling
    case Return(t) => t in j.returning
    case RunTask(a) =>
      && a < |j.s.agents| && j.s.agents[a] == S.Handling(j.d) && j.alive
      && j.s.disps[j.d].running.Some? && j.s.disps[j.d].running.value.kind == NATIVE_TASK
    case Collect => j.alive && !S.Ticketed(j.s, j.d) && j.s.disps[j.d].running.None?
  }

  ghost function Swept(j: Joint): Joint
    requires j.d < |j.s.disps|
  {
    j.(cells := T.Sweep(View(j)).cells)
  }

  ghost function Next(j: Joint, step: Step): (r: Joint)
    requires CanStep(j, step)
    ensures r.d == j.d < |r.s.disps|
  {
    match step
    case Sched(step) =>
      var r := j.(s := S.Next(j.s, step));
      if OpOn(j.s, step, j.d) == Some(End) then Swept(r) else r
    case Dispatch(capsule) =>
      if capsule then j.(cells := j.cells + [T.FRESH], calling := j.calling + {|j.cells|})
      else j.(cells := j.cells + [T.DIRECT])
    case Hand(a, t) =>
      j.(s := S.Next(j.s, S.CallPost(a, j.d, TaskPost(Data(t)))),
         calling := j.calling - {t}, returning := j.returning + {t})
    case Skip(t) => j.(calling := j.calling - {t}, returning := j.returning + {t})
    case Return(t) => Swept(j.(returning := j.returning - {t}))
    case RunTask(_) => j.(cells := T.Next(View(j), T.WorkerRuns).cells)
    case Collect => Swept(j.(alive := false))
  }

  ghost predicate Inv(j: Joint) {
    S.Inv(j.s) && j.d < |j.s.disps| && T.TaskInv(View(j))
  }

  /** Every step is a step of `CallbackTasks`, or invisible to it. */
  lemma SchedView(j: Joint, step: S.Step)
    requires Inv(j) && CanStep(j, Sched(step))
    ensures T.TaskInv(View(Next(j, Sched(step))))
  {
    var op, r := OpOn(j.s, step, j.d), Next(j, Sched(step));
    if op.None? {
      assert View(r) == View(j);
    } else if op == Some(End) {
      S.HandlerExecutes(j.s, step.a);
      T.TaskInvKept(View(j), T.WorkerDone);
      assert View(r) == T.Next(View(j), T.WorkerDone);
    } else {
      if op == Some(Begin) {
        S.HolderAlone(j.s, step.a);
      }
      T.TaskInvKept(View(j), T.QueueOp(op.value));
      assert View(r) == T.Next(View(j), T.QueueOp(op.value));
    }
  }

  lemma InvKept(j: Joint, step: Step)
    requires Inv(j) && CanStep(j, step)
    ensures Inv(Next(j, step))
  {
    match step
    case Sched(step) =>
      S.InvKept(j.s, step);
      SchedView(j, step);
    case Dispatch(capsule) => T.TaskInvKept(View(j), T.Dispatch(capsule));
    case Hand(a, t) =>
      S.InvKept(j.s, S.CallPost(a, j.d, TaskPost(Data(t))));
      T.TaskInvKept(View(j), T.Sink(t));
      assert View(Next(j, step)) == T.Next(View(j), T.Sink(t));
    case Skip(t) => T.TaskInvKept(View(j), T.SinkSkipped(t));
    case Return(t) =>
      T.TaskInvKept(View(j), T.FrameReturns(t));
      assert View(Next(j, step)) == T.Next(View(j), T.FrameReturns(t));
    case RunTask(_) =>
      T.TaskInvKept(View(j), T.WorkerRuns);
      assert View(Next(j, step)) == T.Next(View(j), T.WorkerRuns);
    case Collect =>
      T.TaskInvKept(View(j), T.Collect);
      assert View(Next(j, step)) == T.Next(View(j), T.Collect);
  }

  ghost predicate Path(j: Joint, steps: seq<Step>, r: Joint)
    decreases |steps|
  {
    if steps == [] then r == j else CanStep(j, steps[0]) && Path(Next(j, steps[0]), steps[1..], r)
  }

  lemma PostCapacity(q: Queue, e: Event, latest: bool)
    ensures Post(q, e, latest).0.capacity == q.capacity
  {
  }

  lemma ApplyCapacity(h: Disp, op: Op)
    requires op.TaskPost? ==> !TaskBlocked(h.q)
    ensures Apply(h, op).q.capacity == h.q.capacity
  {
    match op
    case SinkPost(kind, values) => PostCapacity(h.q, SinkEvent(|h.sent|, kind, values), IsLatestKind(kind));
    case _ =>
  }

  /** A step runs at most one block, on one dispatcher. */
  lemma OneBlock(s: S.System, step: S.Step, d: nat)
    requires S.CanStep(s, step) && d < |s.disps|
    ensures d < |S.Next(s, step).disps| && S.Next(s, step).workers == s.workers
    ensures
      var op := OpOn(s, step, d);
      && (op.Some? && op.value.TaskPost? ==> !TaskBlocked(s.disps[d].q))
      && S.Next(s, step).disps[d] == if op.Some? then Apply(s.disps[d], op.value) else s.disps[d]
  {
  }

  lemma CapacityFixed(s: S.System, step: S.Step, d: nat)
    requires S.CanStep(s, step) && d < |s.disps|
    ensures d < |S.Next(s, step).disps| && S.Next(s, step).disps[d].q.capacity == s.disps[d].q.capacity
    ensures S.Next(s, step).workers == s.workers
  {
    OneBlock(s, step, d);
    var op := OpOn(s, step, d);
    if op.Some? {
      ApplyCapacity(s.disps[d], op.value);
    }
  }

  lemma {:induction false} InvAlong(j: Joint, steps: seq<Step>, r: Joint)
    requires Inv(j) && Path(j, steps, r)
    ensures Inv(r) && r.d == j.d && r.s.workers == j.s.workers
    ensures r.s.disps[r.d].q.capacity == j.s.disps[j.d].q.capacity
    decreases |steps|
  {
    if steps != [] {
      InvKept(j, steps[0]);
      match steps[0] {
        case Sched(step) => CapacityFixed(j.s, step, j.d);
        case Hand(a, t) => CapacityFixed(j.s, S.CallPost(a, j.d, TaskPost(Data(t))), j.d);
        case _ =>
      }
      InvAlong(Next(j, steps[0]), steps[1..], r);
    }
  }

  /** The run can go no further on its own: no worker has anything to do, no native call is on its way
      back, and any that is still in the sink is held up by a full queue. */
  ghost predicate Stuck(j: Joint)
    requires j.d < |j.s.disps|
  {
    && (forall step :: P.Internal(step) ==> !S.CanStep(j.s, step))
    && j.returning == {}
    && (forall t :: t in j.calling ==> j.alive && TaskBlocked(j.s.disps[j.d].q))
  }

  /** In every run of the whole scheduler, from any reachable state in which the dispatcher is new:
      each task the Runtime hands over runs at most once, and exactly once by the time the run can go
      no further, be it drained, refused, dropped with its dispatcher, or kept across `discard`. */
  lemma TasksDelivered(s: S.System, d: nat, capacity: nat, frameCapacity: nat, steps: seq<Step>, r: Joint, t: nat)
    requires S.Inv(s) && d < |s.disps| && s.disps[d] == New(capacity, frameCapacity)
    requires Path(Joint(s, d, true, [], {}, {}), steps, r) && t < |r.cells|
    ensures r.d < |r.s.disps| && r.cells[t].runs <= 1
    ensures capacity >= 1 && s.workers >= 1 && Stuck(r) ==> r.cells[t].runs == 1
  {
    var j := Joint(s, d, true, [], {}, {});
    assert T.TaskInv(View(j));
    InvAlong(j, steps, r);
    if capacity >= 1 && s.workers >= 1 && Stuck(r) {
      P.DrainComplete(r.s, d);
      assert r.calling == {};
      assert !T.Referenced(View(r), t);
    }
  }
}
