/** The native task hand-off of native/extension.c composed with the Python dispatcher: a task is
    run by a draining worker or by the destructor of its capsule, and exactly once in all. */
module CallbackTasks {
  import opened Wrappers
  import opened EventQueue
  import opened DispatchHistory
  import opened QueueBounds

  /** `NativeCallbackTask`: is `function` still set, how often was it called, is the struct freed. */
  datatype Cell = Cell(pending: bool, runs: nat, freed: bool)

  const FRESH := Cell(true, 0, false)

  /** `function(data)` without a capsule, when the GIL or the capsule is not to be had. */
  const DIRECT := Cell(false, 1, true)

  /** `current`: this process is the one that created the task. */
  function RunLocked(c: Cell, current: bool): Cell {
    c.(pending := false, runs := c.runs + if c.pending && current then 1 else 0)
  }

  function Destroy(c: Cell, current: bool): Cell {
    RunLocked(c, current).(freed := true)
  }

  class NativeCallbackTask {
    var function_: bool
    var runs: nat
    var freed: bool

    ghost function State(): Cell
      reads this
    {
      Cell(function_, runs, freed)
    }

    constructor ()
      ensures State() == FRESH
    {
      function_, runs, freed := true, 0, false;
    }

    /** `run_callback_task_locked`: a forked child clears the function without calling it. */
    method Run(current: bool)
      modifies this
      ensures State() == RunLocked(old(State()), current)
    {
      var f := function_;
      function_ := false;
      if !f || !current {
        return;
      }
      runs := runs + 1;
    }

    /** `callback_task_destroy`. */
    method Finalize(current: bool)
      modifies this
      ensures State() == Destroy(old(State()), current)
    {
      Run(current);
      freed := true;
    }
  }

  /** A run by a worker, or the destructor of the capsule, in the process that made the task or in a forked
      child. */
  datatype CellOp = RunOp(current: bool) | FinalizeOp(current: bool)

  function CellAfter(c: Cell, ops: seq<CellOp>): Cell
    decreases |ops|
  {
    if ops == [] then c
    else
      var op := ops[0];
      CellAfter(if op.RunOp? then RunLocked(c, op.current) else Destroy(c, op.current), ops[1..])
  }

  lemma {:induction false} SpentStays(c: Cell, ops: seq<CellOp>)
    requires !c.pending
    ensures
      var r := CellAfter(c, ops);
      !r.pending && r.runs == c.runs && (r.freed <==> c.freed || exists k :: 0 <= k < |ops| && ops[k].FinalizeOp?)
    decreases |ops|
  {
    if ops != [] {
      var op := ops[0];
      SpentStays(if op.RunOp? then RunLocked(c, op.current) else Destroy(c, op.current), ops[1..]);
      assert forall k :: 0 < k < |ops| ==> ops[k] == ops[1..][k - 1];
    }
  }

  /** Whatever comes in whatever order, the first of them decides: it spends the task, and calls the function
      only in the process that made the task; the struct is freed exactly by a destructor. */
  lemma FirstCallDecides(ops: seq<CellOp>)
    ensures
      var r := CellAfter(FRESH, ops);
      && (r.pending <==> ops == [])
      && r.runs == (if ops != [] && ops[0].current then 1 else 0)
      && (r.freed <==> exists k :: 0 <= k < |ops| && ops[k].FinalizeOp?)
  {
    if ops != [] {
      var op := ops[0];
      SpentStays(if op.RunOp? then RunLocked(FRESH, op.current) else Destroy(FRESH, op.current), ops[1..]);
      assert forall k :: 0 < k < |ops| ==> ops[k] == ops[1..][k - 1];
    }
  }

  /** `calling`: native frames inside `dispatch_callback_task` that have yet to call the sink;
      `returning`: those back from it and about to drop their capsule reference; `alive`: the
      dispatcher behind the sink's weak reference. */
  datatype Tasks = Tasks(h: Disp, alive: bool, cells: seq<Cell>, calling: set<nat>, returning: set<nat>)

  datatype TaskStep =
    | Dispatch(capsule: bool)
    | Sink(t: nat)
    | SinkSkipped(t: nat)
    | FrameReturns(t: nat)
    | QueueOp(op: Op)
    | WorkerRuns
    | WorkerDone
    | Collect

  predicate IsTask(e: Event, t: nat) {
    e.kind == NATIVE_TASK && e.values == [Data(t)]
  }

  ghost predicate Queues(events: seq<Event>, t: nat) {
    exists j :: 0 <= j < |events| && IsTask(events[j], t)
  }

  /** Who still holds a reference to the capsule of task `t`. */
  ghost predicate Referenced(s: Tasks, t: nat) {
    || t in s.calling
    || t in s.returning
    || (s.alive && Queues(s.h.q.events, t))
    || (s.alive && s.h.running.Some? && IsTask(s.h.running.value, t))
  }

  ghost predicate CanStep(s: Tasks, step: TaskStep) {
    match step
    case Dispatch(_) => true
    case Sink(t) => t in s.calling && s.alive && !TaskBlocked(s.h.q)
    case SinkSkipped(t) => t in s.calling
    case FrameReturns(t) => t in s.returning
    case QueueOp(op) => s.alive && !op.TaskPost? && !op.End? && Enabled(s.h, op)
    case WorkerRuns => s.alive && s.h.running.Some? && s.h.running.value.kind == NATIVE_TASK
    case WorkerDone => s.alive && Enabled(s.h, End)
    case Collect => s.alive && s.h.running.None?
  }

  /** Dropping references destroys exactly the capsules nobody refers to any more. */
  ghost function Sweep(s: Tasks): Tasks {
    s.(cells := seq(|s.cells|, t requires 0 <= t < |s.cells| =>
         if Referenced(s, t) || s.cells[t].freed then s.cells[t] else Destroy(s.cells[t], true)))
  }

  ghost function Next(s: Tasks, step: TaskStep): Tasks
    requires CanStep(s, step)
  {
    match step
    case Dispatch(capsule) =>
      if capsule then s.(cells := s.cells + [FRESH], calling := s.calling + {|s.cells|})
      else s.(cells := s.cells + [DIRECT])
    case Sink(t) =>
      s.(h := Apply(s.h, TaskPost(Data(t))), calling := s.calling - {t}, returning := s.returning + {t})
    case SinkSkipped(t) => s.(calling := s.calling - {t}, returning := s.returning + {t})
    case FrameReturns(t) => Sweep(s.(returning := s.returning - {t}))
    case QueueOp(op) => s.(h := Apply(s.h, op))
    case WorkerRuns =>
      s.(cells := seq(|s.cells|, t requires 0 <= t < |s.cells| =>
           if IsTask(s.h.running.value, t) then RunLocked(s.cells[t], true) else s.cells[t]))
    case WorkerDone => Sweep(s.(h := Apply(s.h, End)))
    case Collect => Sweep(s.(alive := false))
  }

  ghost predicate TaskInv(s: Tasks) {
    && Identity(s.h)
    && (forall t :: 0 <= t < |s.cells| ==> s.cells[t].runs + (if s.cells[t].pending then 1 else 0) == 1)
    && (forall t :: 0 <= t < |s.cells| ==> (s.cells[t].freed <==> !Referenced(s, t)))
    && (forall t :: 0 <= t < |s.cells| && s.cells[t].freed ==> !s.cells[t].pending)
    && (forall t: nat :: t >= |s.cells| ==> !Referenced(s, t))
  }

  /** Neither a post nor `discard` takes a native task out of the queue, or puts one in. */
  lemma QueueOpKeepsTasks(h: Disp, op: Op, t: nat)
    requires Identity(h) && Enabled(h, op) && (op.SinkPost? || op == CloseOp || op == DiscardOp)
    ensures Queues(Apply(h, op).q.events, t) == Queues(h.q.events, t)
  {
    var r := Apply(h, op).q.events;
    if op.SinkPost? {
      forall x: Event | x.kind == NATIVE_TASK ensures x in h.q.events <==> x in r {
        SinkKeepsTasks(h, op, x);
      }
    } else if op == DiscardOp {
      assert forall x :: x in r <==> x in h.q.events && x.kind == NATIVE_TASK;
    }
    if Queues(r, t) {
      var j :| 0 <= j < |r| && IsTask(r[j], t);
      assert r[j] in h.q.events;
    }
    if Queues(h.q.events, t) {
      var j :| 0 <= j < |h.q.events| && IsTask(h.q.events[j], t);
      assert h.q.events[j] in r;
    }
  }

  lemma PostKeepsTerminal(q: Queue, e: Event, latest: bool, x: Event)
    requires x in q.events && x.terminal && x.kind != e.kind
    ensures x in Post(q, e, latest).0.events
  {
    var (r, outcome) := Post(q, e, latest);
    var k :| 0 <= k < |q.events| && q.events[k] == x;
    match outcome
    case Coalesced(_) => assert r.events[k] == x;
    case Accepted(evicted, _) =>
      if evicted.Some? {
        var i := FirstNonTerminal(q.events).value;
        assert r.events[if k < i then k else k - 1] == x;
      } else {
        assert r.events[k] == x;
      }
    case _ =>
  }

  lemma SinkKeepsTasks(h: Disp, op: Op, x: Event)
    requires Identity(h) && Enabled(h, op) && op.SinkPost? && x.kind == NATIVE_TASK
    ensures x in h.q.events <==> x in Apply(h, op).q.events
  {
    var e := SinkEvent(|h.sent|, op.kind, op.values);
    if x in h.q.events {
      var k :| 0 <= k < |h.q.events| && h.q.events[k] == x;
      assert IsPost(x, h.sent) && Tagged(h.sent[x.stamp]);
      PostKeepsTerminal(h.q, e, IsLatestKind(op.kind), x);
    } else if x in Apply(h, op).q.events {
      PostEvents(h.q, e, IsLatestKind(op.kind), x);
    }
  }

  /** Sweeping restores the link between references and freed cells. */
  lemma SweepInv(s: Tasks)
    requires Identity(s.h)
    requires forall t :: 0 <= t < |s.cells| ==> s.cells[t].runs + (if s.cells[t].pending then 1 else 0) == 1
    requires forall t :: 0 <= t < |s.cells| && s.cells[t].freed ==> !Referenced(s, t) && !s.cells[t].pending
    requires forall t: nat :: t >= |s.cells| ==> !Referenced(s, t)
    ensures TaskInv(Sweep(s))
  {
    var r := Sweep(s);
    assert forall t: nat :: Referenced(r, t) == Referenced(s, t);
  }

  lemma TaskInvQueueOp(s: Tasks, op: Op)
    requires TaskInv(s) && CanStep(s, QueueOp(op))
    ensures TaskInv(Next(s, QueueOp(op)))
  {
    var r := Next(s, QueueOp(op));
    IdentityKept(s.h, op);
    forall t: nat ensures Referenced(r, t) == Referenced(s, t) {
      if op == Begin {
        if s.h.q.events != [] {
          var e := s.h.q.events[0];
          assert s.h.q.events == [e] + r.h.q.events;
          if Queues(s.h.q.events, t) {
            var j :| 0 <= j < |s.h.q.events| && IsTask(s.h.q.events[j], t);
            assert j > 0 ==> IsTask(r.h.q.events[j - 1], t);
          }
          if Queues(r.h.q.events, t) {
            var j :| 0 <= j < |r.h.q.events| && IsTask(r.h.q.events[j], t);
            assert IsTask(s.h.q.events[j + 1], t);
          }
          assert IsTask(e, t) ==> IsTask(s.h.q.events[0], t);
        }
      } else {
        QueueOpKeepsTasks(s.h, op, t);
      }
    }
  }

  lemma TaskInvSink(s: Tasks, t: nat)
    requires TaskInv(s) && CanStep(s, Sink(t))
    ensures TaskInv(Next(s, Sink(t)))
  {
    var r := Next(s, Sink(t));
    IdentityKept(s.h, TaskPost(Data(t)));
    forall u: nat ensures Referenced(r, u) == Referenced(s, u) {
      if u != t {
        assert Queues(r.h.q.events, u) == Queues(s.h.q.events, u) by {
          if Queues(s.h.q.events, u) {
            var j :| 0 <= j < |s.h.q.events| && IsTask(s.h.q.events[j], u);
            assert IsTask(r.h.q.events[j], u);
          }
          assert forall j :: 0 <= j < |r.h.q.events| && IsTask(r.h.q.events[j], u) ==> j < |s.h.q.events|;
        }
      }
    }
  }

  lemma TaskInvKept(s: Tasks, step: TaskStep)
    requires TaskInv(s) && CanStep(s, step)
    ensures TaskInv(Next(s, step))
  {
    match step
    case Dispatch(_) =>
      assert forall t: nat :: t != |s.cells| ==> Referenced(Next(s, step), t) == Referenced(s, t);
      assert !Referenced(s, |s.cells|);
    case Sink(t) => TaskInvSink(s, t);
    case SinkSkipped(t) =>
      assert forall u: nat :: Referenced(Next(s, step), u) == Referenced(s, u);
    case FrameReturns(t) =>
      var r := s.(returning := s.returning - {t});
      assert forall u: nat :: Referenced(r, u) ==> Referenced(s, u);
      SweepInv(r);
    case QueueOp(op) => TaskInvQueueOp(s, op);
    case WorkerRuns =>
      assert forall u: nat :: Referenced(Next(s, step), u) == Referenced(s, u);
    case WorkerDone =>
      IdentityKept(s.h, End);
      var r := s.(h := Apply(s.h, End));
      assert forall u: nat :: Referenced(r, u) ==> Referenced(s, u);
      SweepInv(r);
    case Collect =>
      var r := s.(alive := false);
      assert forall u: nat :: Referenced(r, u) ==> Referenced(s, u);
      SweepInv(r);
  }

  ghost predicate Path(s: Tasks, steps: seq<TaskStep>, r: Tasks)
    decreases |steps|
  {
    if steps == [] then r == s else CanStep(s, steps[0]) && Path(Next(s, steps[0]), steps[1..], r)
  }

  lemma {:induction false} TaskInvAlong(s: Tasks, steps: seq<TaskStep>, r: Tasks)
    requires TaskInv(s) && Path(s, steps, r)
    ensures TaskInv(r) && |s.cells| <= |r.cells|
    decreases |steps|
  {
    if steps != [] {
      TaskInvKept(s, steps[0]);
      TaskInvAlong(Next(s, steps[0]), steps[1..], r);
    }
  }

  /** Over every interleaving a task runs at most once, and exactly once by the time its capsule
      is gone: queued and drained, rejected by a closed dispatcher, dropped with a dead one, kept
      across `discard`, or run without a capsule. */
  lemma ExactlyOnce(capacity: nat, steps: seq<TaskStep>, r: Tasks, t: nat)
    requires Path(Tasks(New(capacity, capacity), true, [], {}, {}), steps, r) && t < |r.cells|
    ensures r.cells[t].runs <= 1
    ensures !Referenced(r, t) <==> r.cells[t].freed
    ensures r.cells[t].freed ==> r.cells[t].runs == 1
  {
    TaskInvAlong(Tasks(New(capacity, capacity), true, [], {}, {}), steps, r);
  }

  /** When every native call has returned and the dispatcher is drained or gone, every task the
      Runtime ever handed over has run. */
  lemma AllRunWhenQuiet(capacity: nat, steps: seq<TaskStep>, r: Tasks)
    requires Path(Tasks(New(capacity, capacity), true, [], {}, {}), steps, r)
    requires r.calling == {} && r.returning == {} && (r.alive ==> CloseDone(r.h.q))
    ensures forall t :: 0 <= t < |r.cells| ==> r.cells[t].runs == 1
  {
    TaskInvAlong(Tasks(New(capacity, capacity), true, [], {}, {}), steps, r);
    assert forall t: nat :: !Referenced(r, t);
  }
}
