/** The close of the ownership tree: Client over Connections or CloudStorages, those over Replays,
    recordings, exports and dumps.  `CloseCoordinators` shows that one thread at a time owns the
    close of a node, so that thread's position is kept in the node.  Any node may be closed by
    anybody, any native call may fail, and a failed close may be tried again for ever. */
module OwnershipTree {
  import opened Wrappers

  datatype Kind = ClientNode | ConnectionNode | CloudNode | ReplayNode | RecordingNode | ExportNode | DumpNode

  datatype Status = Open | Closing | CloseFailed | Closed

  /** The position of the thread that closes the node. */
  datatype Stage =
    | Rest
    | Visiting(todo: set<nat>)   // closing the children of its snapshot
    | Stopping                   // the guarded native stop
    | Destroying                 // native destroy, or the lease release of a Client
    | Finishing                  // guarded parent._finish_*, before succeed
    | Succeeding
    | Leaving                    // parent._finish_* after succeed

  /** `handle`: the native object, or the lease, is not destroyed yet.  `listed`: the node is in its
      parent's set.  `stopped` and `finished` are the guards of the source; `stops`, `finishes` and
      `destroys` count how often a close got each stage done. */
  datatype Node = Node(
    kind: Kind,
    parent: Option<nat>,
    status: Status,
    handle: bool,
    listed: bool,
    stage: Stage,
    stopped: bool,
    finished: bool,
    result: Option<int>,
    stops: nat,
    finishes: nat,
    destroys: nat)

  type Tree = seq<Node>

  datatype Step =
    | Create(kind: Kind, parent: Option<nat>)
    | Play(n: nat)
    | StopByUser(n: nat)
    | BeginClose(n: nat)
    | Visit(n: nat, c: nat)
    | VisitsDone(n: nat)
    | Stop(n: nat, code: int)
    | Destroy(n: nat)
    | FinishParent(n: nat)
    | Succeed(n: nat)
    | Leave(n: nat)
    | Fail(n: nat)

  /** Recordings and replays have a native stop with a guard flag. */
  predicate HasStop(kind: Kind) {
    kind.RecordingNode? || kind.ReplayNode?
  }

  /** These tell their parent before their own close succeeds, the others after it. */
  predicate FinishesFirst(kind: Kind) {
    kind.RecordingNode? || kind.ReplayNode? || kind.ExportNode?
  }

  function NewNode(kind: Kind, parent: Option<nat>): Node {
    Node(kind, parent, Open, true, parent.Some?, Rest, false, false, None, 0, 0, 0)
  }

  ghost function ListedChildren(t: Tree, n: nat): set<nat> {
    set c | 0 <= c < |t| && t[c].parent == Some(n) && t[c].listed
  }

  ghost predicate CanStep(t: Tree, step: Step) {
    match step
    case Create(_, parent) => parent.Some? ==> parent.value < |t| && t[parent.value].status == Open
    case Play(n) => n < |t| && t[n].kind.ReplayNode? && t[n].status == Open
    case StopByUser(n) => n < |t| && t[n].kind.ReplayNode? && t[n].status == Open
    case BeginClose(n) => n < |t| && (t[n].status == Open || t[n].status == CloseFailed)
    case Visit(n, c) => n < |t| && c < |t| && t[n].stage.Visiting? && c in t[n].stage.todo && t[c].status == Closed
    case VisitsDone(n) => n < |t| && t[n].stage == Visiting({})
    case Stop(n, _) => n < |t| && t[n].stage == Stopping
    case Destroy(n) => n < |t| && t[n].stage == Destroying
    case FinishParent(n) => n < |t| && t[n].stage == Finishing
    case Succeed(n) => n < |t| && t[n].stage == Succeeding
    case Leave(n) => n < |t| && t[n].stage == Leaving
    case Fail(n) => n < |t| && (t[n].stage.Visiting? || t[n].stage == Stopping || t[n].stage == Destroying)
  }

  ghost function NodeAfter(t: Tree, step: Step): Node
    requires CanStep(t, step) && !step.Create?
  {
    var x := t[step.n];
    match step
    case Play(_) => x.(stopped := false)
    case StopByUser(_) => x.(stopped := true)
    case BeginClose(n) => x.(status := Closing, stage := Visiting(ListedChildren(t, n)))
    case Visit(_, c) => x.(stage := Visiting(x.stage.todo - {c}))
    case VisitsDone(_) => x.(stage := if HasStop(x.kind) then Stopping else Destroying)
    case Stop(_, code) =>
      if x.stopped then x.(stage := Destroying)
      else x.(stage := Destroying, stopped := true, result := Some(code), stops := x.stops + 1)
    case Destroy(_) =>
      x.(stage := if FinishesFirst(x.kind) then Finishing else Succeeding, handle := false,
         destroys := x.destroys + 1)
    case FinishParent(_) =>
      if x.finished then x.(stage := Succeeding)
      else x.(stage := Succeeding, listed := false, finished := true, finishes := x.finishes + 1)
    case Succeed(_) => x.(status := Closed, stage := if FinishesFirst(x.kind) then Rest else Leaving)
    case Leave(_) => x.(stage := Rest, listed := false)
    case Fail(_) => x.(status := CloseFailed, stage := Rest)
  }

  ghost function Next(t: Tree, step: Step): Tree
    requires CanStep(t, step)
  {
    if step.Create? then t + [NewNode(step.kind, step.parent)] else t[step.n := NodeAfter(t, step)]
  }

  // ---- The invariant ----------------------------------------------------------------------------

  predicate PastVisits(stage: Stage) {
    stage == Stopping || stage == Destroying || stage == Finishing || stage == Succeeding || stage == Leaving
  }

  predicate Destroyed(stage: Stage) {
    stage == Finishing || stage == Succeeding || stage == Leaving
  }

  /** Destroyed and already off its parent's mind: closed, or about to say so. */
  predicate Late(x: Node) {
    x.status == Closed || (FinishesFirst(x.kind) && x.stage == Succeeding)
  }

  /** What one node's fields say by themselves. */
  predicate NodeOk(x: Node) {
    && (x.status == Closing <==> x.stage != Rest && x.stage != Leaving)
    && (x.stage == Leaving ==> x.status == Closed)
    && (x.stage == Finishing ==> FinishesFirst(x.kind))
    && (x.status == Closed || Destroyed(x.stage) ==> !x.handle)
    && (!x.handle ==> x.status == Closed || Destroyed(x.stage))
    && (x.parent.Some? && !x.listed ==> Late(x))
    && (x.finished ==> !x.listed) && (FinishesFirst(x.kind) && x.stage == Succeeding ==> x.finished)
    && (x.listed ==> x.parent.Some?) && (x.status == Closed && x.stage == Rest ==> !x.listed)
    && x.destroys == (if x.handle then 0 else 1)
    && x.stops <= 1 && (x.stops == 1 ==> x.stopped && x.status != Open && x.result.Some?)
    && (x.stops == 0 ==> x.result.None?)
    && x.finishes == (if x.finished then 1 else 0)
  }

  ghost predicate NodesOk(t: Tree) {
    forall n :: 0 <= n < |t| ==> NodeOk(t[n]) && (t[n].parent.Some? ==> t[n].parent.value < n)
  }

  /** A child is gone, is in the snapshot, or has been visited, once its parent is closing; and is
      gone once its parent is past its visits or destroyed. */
  predicate ChildOk(p: Node, c: nat, x: Node) {
    && (p.stage.Visiting? ==> c in p.stage.todo || Late(x))
    && (PastVisits(p.stage) || !p.handle ==> Late(x))
  }

  ghost predicate ChildrenOk(t: Tree) {
    forall n, c :: 0 <= n < |t| && 0 <= c < |t| && t[c].parent == Some(n) ==> ChildOk(t[n], c, t[c])
  }

  ghost predicate Inv(t: Tree) {
    NodesOk(t) && ChildrenOk(t)
  }

  lemma NodeKept(t: Tree, step: Step)
    requires Inv(t) && CanStep(t, step) && !step.Create?
    ensures NodeOk(NodeAfter(t, step)) && NodeAfter(t, step).parent == t[step.n].parent
    ensures Late(t[step.n]) ==> Late(NodeAfter(t, step))
  {
  }

  /** The stepping node as a parent. */
  lemma ParentKept(t: Tree, step: Step, c: nat)
    requires Inv(t) && CanStep(t, step) && !step.Create? && c < |t| && c != step.n && t[c].parent == Some(step.n)
    ensures ChildOk(NodeAfter(t, step), c, t[c])
  {
    assert ChildOk(t[step.n], c, t[c]);
    if step.Visit? {
      assert NodeOk(t[step.c]);
    }
    if step.BeginClose? {
      assert NodeOk(t[c]);
    }
  }

  lemma InvKept(t: Tree, step: Step)
    requires Inv(t) && CanStep(t, step)
    ensures Inv(Next(t, step))
  {
    var r := Next(t, step);
    if step.Create? {
      forall n, c | 0 <= n < |r| && 0 <= c < |r| && r[c].parent == Some(n)
        ensures ChildOk(r[n], c, r[c])
      {
        if c < |t| {
          assert ChildOk(t[n], c, t[c]);
        } else {
          assert n < |t| && NodeOk(t[n]);
        }
      }
    } else {
      NodeKept(t, step);
      forall n, c | 0 <= n < |r| && 0 <= c < |r| && r[c].parent == Some(n)
        ensures ChildOk(r[n], c, r[c])
      {
        assert n < c && t[c].parent == Some(n);
        if n == step.n {
          ParentKept(t, step, c);
        } else {
          assert ChildOk(t[n], c, t[c]);
        }
      }
    }
  }

  ghost predicate Path(t: Tree, steps: seq<Step>, r: Tree)
    decreases |steps|
  {
    if steps == [] then r == t else CanStep(t, steps[0]) && Path(Next(t, steps[0]), steps[1..], r)
  }

  lemma {:induction false} InvAlong(t: Tree, steps: seq<Step>, r: Tree)
    requires Inv(t) && Path(t, steps, r)
    ensures Inv(r) && |t| <= |r|
    decreases |steps|
  {
    if steps != [] {
      InvKept(t, steps[0]);
      InvAlong(Next(t, steps[0]), steps[1..], r);
    }
  }

  // ---- Results ----------------------------------------------------------------------------------

  ghost predicate Descends(t: Tree, d: nat, n: nat)
    decreases d
  {
    && d < |t| && t[d].parent.Some? && t[d].parent.value < d
    && (t[d].parent == Some(n) || Descends(t, t[d].parent.value, n))
  }

  /** At every depth: whatever lies beneath a destroyed node is destroyed, and closed up to the last
      step of its own close. */
  lemma {:induction false} DescendantsLate(t: Tree, d: nat, n: nat)
    requires Inv(t) && d < |t| && n < |t| && !t[n].handle && Descends(t, d, n)
    ensures !t[d].handle && Late(t[d])
    decreases d
  {
    var p := t[d].parent.value;
    if p != n {
      DescendantsLate(t, p, n);
    }
    assert ChildOk(t[p], d, t[d]) && NodeOk(t[d]);
  }

  /** In every run, with any number of failed and retried closes in any order: when a node is
      destroyed, a Client's lease released, everything beneath it, at every depth, has been destroyed
      before and is Closed, or is of a kind that reports to its parent first and has only `succeed`
      left; and each node is destroyed, stopped by a close, and reported to its parent at most once. */
  lemma TreeClose(steps: seq<Step>, t: Tree, n: nat, d: nat)
    requires Path([], steps, t) && n < |t| && d < |t|
    ensures t[n].status == Closed ==> !t[n].handle
    ensures !t[n].handle && Descends(t, d, n) ==>
              !t[d].handle && t[d].destroys == 1 &&
              (t[d].status == Closed || (FinishesFirst(t[d].kind) && t[d].stage == Succeeding))
    ensures t[n].destroys <= 1 && t[n].stops <= 1 && t[n].finishes <= 1
    ensures t[n].status == Closed ==> t[n].destroys == 1
  {
    InvAlong([], steps, t);
    if !t[n].handle && Descends(t, d, n) {
      DescendantsLate(t, d, n);
    }
    assert NodeOk(t[n]) && NodeOk(t[d]);
  }

  /** A node is in its parent's set until its close has told the parent, and from then on in no set. */
  lemma ListedUntilTold(steps: seq<Step>, t: Tree, n: nat)
    requires Path([], steps, t) && n < |t|
    ensures t[n].parent.Some? && t[n].status != Closed && t[n].stage != Succeeding ==> t[n].listed
    ensures t[n].status == Closed && t[n].stage == Rest ==> !t[n].listed
  {
    InvAlong([], steps, t);
    assert NodeOk(t[n]);
  }

  /** The node is stopped in this step, by its user or by a close. */
  ghost predicate StopsNow(step: Step, n: nat) {
    (step.StopByUser? || step.Stop?) && step.n == n
  }

  ghost predicate NoPlay(steps: seq<Step>, n: nat) {
    forall j :: 0 <= j < |steps| ==> steps[j] != Play(n)
  }

  ghost predicate StoppedSince(steps: seq<Step>, n: nat)
    decreases |steps|
  {
    steps != [] && ((StopsNow(steps[0], n) && NoPlay(steps[1..], n)) || StoppedSince(steps[1..], n))
  }

  lemma {:induction false} StoppedAlong(t: Tree, steps: seq<Step>, r: Tree, n: nat)
    requires Path(t, steps, r) && n < |r|
    ensures r[n].stopped <==> (n < |t| && t[n].stopped && NoPlay(steps, n)) || StoppedSince(steps, n)
    decreases |steps|
  {
    if steps != [] {
      StoppedAlong(Next(t, steps[0]), steps[1..], r, n);
      assert NoPlay(steps, n) <==> steps[0] != Play(n) && NoPlay(steps[1..], n) by {
        assert forall j :: 0 < j < |steps| ==> steps[j] == steps[1..][j - 1];
      }
    }
  }

  /** The guard of the native stop is set exactly when the node has been stopped, by its user or by a close,
      and not played since: a close makes the native stop exactly otherwise. */
  lemma StoppedIff(steps: seq<Step>, r: Tree, n: nat)
    requires Path([], steps, r) && n < |r|
    ensures r[n].stopped <==> StoppedSince(steps, n)
  {
    StoppedAlong([], steps, r, n);
  }

  /** The code of the first native stop that a close of the node makes. */
  ghost function StopCode(t: Tree, steps: seq<Step>, n: nat): Option<int>
    decreases |steps|
  {
    if steps == [] || !CanStep(t, steps[0]) then None
    else if steps[0].Stop? && steps[0].n == n && !t[n].stopped then Some(steps[0].code)
    else StopCode(Next(t, steps[0]), steps[1..], n)
  }

  lemma {:induction false} ResultIsStop(t: Tree, steps: seq<Step>, r: Tree, n: nat)
    requires Inv(t) && Path(t, steps, r) && n < |r| && (n < |t| ==> t[n].result.None?)
    ensures r[n].result == StopCode(t, steps, n)
    decreases |steps|
  {
    if steps != [] {
      var m := Next(t, steps[0]);
      InvKept(t, steps[0]);
      InvAlong(m, steps[1..], r);
      if n < |m| && m[n].result.Some? {
        ResultStable(m, steps[1..], r, n);
      } else {
        ResultIsStop(m, steps[1..], r, n);
      }
    }
  }

  /** Over every run the result of a node is the code of the first native stop of its closes. */
  lemma ResultOrigin(steps: seq<Step>, r: Tree, n: nat)
    requires Path([], steps, r) && n < |r|
    ensures r[n].result == StopCode([], steps, n)
  {
    ResultIsStop([], steps, r, n);
  }

  lemma ResultStep(t: Tree, step: Step, n: nat)
    requires Inv(t) && CanStep(t, step) && n < |t|
    ensures t[n].result.Some? ==> Next(t, step)[n].result == t[n].result
    ensures t[n].status == Closed ==> Next(t, step)[n].status == Closed
    ensures t[n].status != Open ==> Next(t, step)[n].status != Open
  {
    assert NodeOk(t[n]);
  }

  /** A recorded result is never replaced, however often the close is tried again, and a closed
      node stays closed. */
  lemma {:induction false} ResultStable(t: Tree, steps: seq<Step>, r: Tree, n: nat)
    requires Inv(t) && Path(t, steps, r) && n < |t|
    ensures n < |r|
    ensures t[n].result.Some? ==> r[n].result == t[n].result
    ensures t[n].status == Closed ==> r[n].status == Closed
    decreases |steps|
  {
    if steps != [] {
      ResultStep(t, steps[0], n);
      InvKept(t, steps[0]);
      ResultStable(Next(t, steps[0]), steps[1..], r, n);
    }
  }

  lemma PathCons(t: Tree, step: Step, m: Tree, rest: seq<Step>, r: Tree)
    requires CanStep(t, step) && Next(t, step) == m && Path(m, rest, r)
    ensures Path(t, [step] + rest, r)
  {
    assert ([step] + rest)[1..] == rest;
  }

  const CONNECTION := NewNode(ConnectionNode, None)
  const RECORDING := NewNode(RecordingNode, Some(0))
  const STOPPED := RECORDING.(status := Closing, stage := Destroying, stopped := true, result := Some(0), stops := 1)
  const SUCCEEDING := STOPPED.(stage := Succeeding, handle := false, listed := false, finished := true,
                               finishes := 1, destroys := 1)
  const CLOSED_FIRST := [CONNECTION.(status := Closed, stage := Leaving, handle := false, destroys := 1), SUCCEEDING]

  lemma ConnectionCloses()
    ensures exists steps :: Path([CONNECTION, SUCCEEDING], steps, CLOSED_FIRST)
  {
    var p1 := CONNECTION.(status := Closing, stage := Visiting({}));
    var p2 := p1.(stage := Destroying);
    var p3 := p2.(stage := Succeeding, handle := false, destroys := 1);
    assert ListedChildren([CONNECTION, SUCCEEDING], 0) == {};
    PathCons([p3, SUCCEEDING], Succeed(0), CLOSED_FIRST, [], CLOSED_FIRST);
    var t2 := [Succeed(0)] + [];
    PathCons([p2, SUCCEEDING], Destroy(0), [p3, SUCCEEDING], t2, CLOSED_FIRST);
    var t1 := [Destroy(0)] + t2;
    PathCons([p1, SUCCEEDING], VisitsDone(0), [p2, SUCCEEDING], t1, CLOSED_FIRST);
    PathCons([CONNECTION, SUCCEEDING], BeginClose(0), [p1, SUCCEEDING], [VisitsDone(0)] + t1, CLOSED_FIRST);
  }

  lemma RecordingFinishes()
    ensures exists steps :: Path([CONNECTION, STOPPED], steps, CLOSED_FIRST)
  {
    var d := STOPPED.(stage := Finishing, handle := false, destroys := 1);
    ConnectionCloses();
    var steps :| Path([CONNECTION, SUCCEEDING], steps, CLOSED_FIRST);
    PathCons([CONNECTION, d], FinishParent(1), [CONNECTION, SUCCEEDING], steps, CLOSED_FIRST);
    PathCons([CONNECTION, STOPPED], Destroy(1), [CONNECTION, d], [FinishParent(1)] + steps, CLOSED_FIRST);
  }

  lemma RecordingStops()
    ensures exists steps :: Path([CONNECTION, RECORDING], steps, CLOSED_FIRST)
  {
    var a := RECORDING.(status := Closing, stage := Visiting({}));
    var b := a.(stage := Stopping);
    assert ListedChildren([CONNECTION, RECORDING], 1) == {};
    RecordingFinishes();
    var steps :| Path([CONNECTION, STOPPED], steps, CLOSED_FIRST);
    PathCons([CONNECTION, b], Stop(1, 0), [CONNECTION, STOPPED], steps, CLOSED_FIRST);
    var t1 := [Stop(1, 0)] + steps;
    PathCons([CONNECTION, a], VisitsDone(1), [CONNECTION, b], t1, CLOSED_FIRST);
    PathCons([CONNECTION, RECORDING], BeginClose(1), [CONNECTION, a], [VisitsDone(1)] + t1, CLOSED_FIRST);
  }

  /** The lag is real: a Connection can be Closed while one of its recordings still says Closing. */
  lemma ParentClosedFirst()
    ensures exists steps, t: Tree :: Path([], steps, t) && |t| == 2 && t[1].parent == Some(0) &&
              t[0].status == Closed && t[1].status == Closing
  {
    RecordingStops();
    var steps :| Path([CONNECTION, RECORDING], steps, CLOSED_FIRST);
    PathCons([CONNECTION], Create(RecordingNode, Some(0)), [CONNECTION, RECORDING], steps, CLOSED_FIRST);
    PathCons([], Create(ConnectionNode, None), [CONNECTION], [Create(RecordingNode, Some(0))] + steps, CLOSED_FIRST);
  }
}
