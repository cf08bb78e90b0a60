/** `_CloseCoordinator` (src/tirtc/_lifecycle.py): generation-numbered close that can be retried
    and waited for.  `begin` is cut at its wait: the block before it and the block after it. */
module CloseCoordinators {
  import opened Wrappers

  datatype Status = Open | Closing | CloseFailed | Closed

  /** An exception, by identity. */
  type Error = int

  datatype Coordinator = Coordinator(
    status: Status,
    generation: nat,
    outcomes: map<nat, Option<Error>>,
    waiters: map<nat, nat>)

  datatype Entry = Join(g: nat) | Own(g: nat) | AlreadyClosed | InUse

  const FRESH := Coordinator(Open, 0, map[], map[])

  function Waiting(c: Coordinator, g: nat): nat {
    if g in c.waiters then c.waiters[g] else 0
  }

  /** `begin` up to its wait. */
  function Enter(c: Coordinator, preflightInUse: bool): (Coordinator, Entry) {
    match c.status
    case Closing => (c.(waiters := c.waiters[c.generation := Waiting(c, c.generation) + 1]), Join(c.generation))
    case Closed => (c, AlreadyClosed)
    case _ =>
      if c.status == Open && preflightInUse then (c, InUse)
      else (c.(generation := c.generation + 1, status := Closing), Own(c.generation + 1))
  }

  /** The `finally` block of a wait, run with or without an outcome. */
  function Leave(c: Coordinator, g: nat): Coordinator
    requires g in c.waiters && c.waiters[g] > 0
  {
    if c.waiters[g] > 1 then c.(waiters := c.waiters[g := c.waiters[g] - 1])
    else c.(waiters := c.waiters - {g}, outcomes := c.outcomes - {g})
  }

  function Record(c: Coordinator, g: nat, outcome: Option<Error>, status: Status): Coordinator {
    c.(outcomes := if Waiting(c, g) > 0 then c.outcomes[g := outcome] else c.outcomes, status := status)
  }

  function Failed(c: Coordinator, g: nat, error: Error): Coordinator {
    Record(c, g, Some(error), CloseFailed)
  }

  function Succeeded(c: Coordinator, g: nat, error: Option<Error>): Coordinator {
    Record(c, g, error, Closed)
  }

  class CloseCoordinator {
    var status: Status
    var generation: nat
    var outcomes: map<nat, Option<Error>>
    var waiters: map<nat, nat>

    ghost function State(): Coordinator
      reads this
    {
      Coordinator(status, generation, outcomes, waiters)
    }

    constructor ()
      ensures State() == FRESH
    {
      status, generation, outcomes, waiters := Open, 0, map[], map[];
    }

    method BeginEnter(preflightInUse: bool) returns (entry: Entry)
      modifies this
      ensures State() == Enter(old(State()), preflightInUse).0
      ensures entry == Enter(old(State()), preflightInUse).1
    {
      if status == Closing {
        var g := generation;
        waiters := waiters[g := (if g in waiters then waiters[g] else 0) + 1];
        return Join(g);
      }
      if status == Closed {
        return AlreadyClosed;
      }
      if status == Open && preflightInUse {
        return InUse;
      }
      generation := generation + 1;
      status := Closing;
      return Own(generation);
    }

    method BeginLeave(g: nat)
      requires g in waiters && waiters[g] > 0
      modifies this
      ensures State() == Leave(old(State()), g)
    {
      var remaining := waiters[g] - 1;
      if remaining > 0 {
        waiters := waiters[g := remaining];
      } else {
        waiters := waiters - {g};
        outcomes := outcomes - {g};
      }
    }

    method Fail(g: nat, error: Error)
      modifies this
      ensures State() == Failed(old(State()), g, error)
    {
      if g in waiters && waiters[g] > 0 {
        outcomes := outcomes[g := Some(error)];
      }
      status := CloseFailed;
    }

    method Succeed(g: nat, error: Option<Error>)
      modifies this
      ensures State() == Succeeded(old(State()), g, error)
    {
      if g in waiters && waiters[g] > 0 {
        outcomes := outcomes[g := error];
      }
      status := Closed;
    }
  }

  // ---- All threads ------------------------------------------------------------------------------

  /** One call of `begin` and, if it came to own a generation, the close it guards.  `Returned` and
      `Refused` are the two answers that come without waiting or owning. */
  datatype Caller =
    | Calling
    | Returned
    | Refused
    | InWait(g: nat)
    | Owning(g: nat)
    | Got(g: nat, outcome: Option<Error>)
    | Finished

  /** `ended` records how each generation ended; the code keeps no such record. */
  datatype System = System(c: Coordinator, callers: seq<Caller>, ended: map<nat, Option<Error>>)

  datatype Step =
    | NewCall
    | Begin(t: nat, preflightInUse: bool)
    | Wake(t: nat)
    | Interrupt(t: nat)
    | EndFailed(t: nat, error: Error)
    | EndClosed(t: nat, outcome: Option<Error>)

  predicate CanStep(s: System, step: Step) {
    match step
    case NewCall => true
    case Begin(t, _) => t < |s.callers| && s.callers[t].Calling?
    case Wake(t) =>
      && t < |s.callers| && s.callers[t].InWait?
      && s.callers[t].g in s.c.outcomes && Waiting(s.c, s.callers[t].g) > 0
    case Interrupt(t) => t < |s.callers| && s.callers[t].InWait? && Waiting(s.c, s.callers[t].g) > 0
    case EndFailed(t, _) => t < |s.callers| && s.callers[t].Owning?
    case EndClosed(t, _) => t < |s.callers| && s.callers[t].Owning?
  }

  function Next(s: System, step: Step): System
    requires CanStep(s, step)
  {
    match step
    case NewCall => s.(callers := s.callers + [Calling])
    case Begin(t, preflight) =>
      var (c, entry) := Enter(s.c, preflight);
      var caller :=
        match entry
        case Join(g) => InWait(g)
        case Own(g) => Owning(g)
        case AlreadyClosed => Returned
        case InUse => Refused;
      s.(c := c, callers := s.callers[t := caller])
    case Wake(t) =>
      var g := s.callers[t].g;
      s.(c := Leave(s.c, g), callers := s.callers[t := Got(g, s.c.outcomes[g])])
    case Interrupt(t) =>
      s.(c := Leave(s.c, s.callers[t].g), callers := s.callers[t := Finished])
    case EndFailed(t, error) =>
      var g := s.callers[t].g;
      s.(c := Failed(s.c, g, error), callers := s.callers[t := Finished], ended := s.ended[g := Some(error)])
    case EndClosed(t, error) =>
      var g := s.callers[t].g;
      s.(c := Succeeded(s.c, g, error), callers := s.callers[t := Finished], ended := s.ended[g := error])
  }

  function WaitCount(callers: seq<Caller>, g: nat): nat {
    if callers == [] then 0
    else WaitCount(callers[..|callers| - 1], g) + if callers[|callers| - 1] == InWait(g) then 1 else 0
  }

  lemma {:induction false} WaitCountUpdate(callers: seq<Caller>, t: nat, p: Caller, g: nat)
    requires t < |callers|
    ensures WaitCount(callers[t := p], g) ==
            WaitCount(callers, g) - (if callers[t] == InWait(g) then 1 else 0) + (if p == InWait(g) then 1 else 0)
  {
    var n := |callers| - 1;
    if t == n {
      assert callers[t := p][..n] == callers[..n];
    } else {
      WaitCountUpdate(callers[..n], t, p, g);
      assert callers[t := p][..n] == callers[..n][t := p];
    }
  }

  lemma {:induction false} WaitCountPositive(callers: seq<Caller>, t: nat, g: nat)
    requires t < |callers| && callers[t] == InWait(g)
    ensures WaitCount(callers, g) > 0
  {
    if t < |callers| - 1 {
      WaitCountPositive(callers[..|callers| - 1], t, g);
    }
  }

  ghost predicate CountsExact(s: System) {
    && (forall g: nat :: Waiting(s.c, g) == WaitCount(s.callers, g))
    && (forall g :: g in s.c.waiters ==> s.c.waiters[g] > 0)
    && s.c.outcomes.Keys <= s.c.waiters.Keys
  }

  ghost predicate OneOwner(s: System) {
    && (s.c.status == Closing ==> exists t :: 0 <= t < |s.callers| && s.callers[t] == Owning(s.c.generation))
    && (forall t :: 0 <= t < |s.callers| && s.callers[t].Owning? ==>
          s.c.status == Closing && s.callers[t].g == s.c.generation)
    && (forall t, u :: 0 <= t < u < |s.callers| ==> !(s.callers[t].Owning? && s.callers[u].Owning?))
  }

  ghost predicate OutcomesTrue(s: System) {
    && (forall g :: g in s.c.outcomes ==> g in s.ended && s.c.outcomes[g] == s.ended[g])
    && (forall g :: g in s.ended ==> g <= s.c.generation)
    && (s.c.status == Closing ==> s.c.generation !in s.ended)
    && (forall t :: 0 <= t < |s.callers| && s.callers[t].InWait? ==>
          s.callers[t].g in s.c.outcomes || (s.c.status == Closing && s.callers[t].g == s.c.generation))
    && (forall t :: 0 <= t < |s.callers| && s.callers[t].Got? ==>
          s.callers[t].g in s.ended && s.callers[t].outcome == s.ended[s.callers[t].g])
  }

  /** What the status says about the closes so far. */
  ghost predicate StatusTrue(s: System) {
    && (s.c.status == Open <==> s.c.generation == 0)
    && (s.c.status == Open ==> s.ended == map[])
    && s.c.generation == |s.ended| + (if s.c.status == Closing then 1 else 0)
    && (s.c.status == CloseFailed || s.c.status == Closed ==> s.c.generation in s.ended)
    && (forall t :: 0 <= t < |s.callers| && s.callers[t].Returned? ==> s.c.status == Closed)
  }

  ghost predicate Inv(s: System) {
    CountsExact(s) && OneOwner(s) && OutcomesTrue(s) && StatusTrue(s)
  }

  lemma CountsKept(s: System, step: Step)
    requires Inv(s) && CanStep(s, step)
    ensures CountsExact(Next(s, step))
  {
    var r := Next(s, step);
    if step.NewCall? {
      assert r.callers[..|s.callers|] == s.callers;
    } else {
      forall g: nat ensures Waiting(r.c, g) == WaitCount(r.callers, g) {
        WaitCountUpdate(s.callers, step.t, r.callers[step.t], g);
      }
    }
  }

  lemma OutcomesKept(s: System, step: Step)
    requires Inv(s) && CanStep(s, step)
    ensures OutcomesTrue(Next(s, step))
  {
    if step.Wake? || step.Interrupt? {
      OutcomesLeft(s, step);
    } else if step.EndFailed? || step.EndClosed? {
      WaitersCounted(s);
    }
  }

  lemma OutcomesLeft(s: System, step: Step)
    requires Inv(s) && CanStep(s, step) && (step.Wake? || step.Interrupt?)
    ensures OutcomesTrue(Next(s, step))
  {
    if Waiting(s.c, s.callers[step.t].g) == 1 {
      OthersStillWait(s, step.t);
    }
  }

  lemma WaitersCounted(s: System)
    requires CountsExact(s)
    ensures forall t :: 0 <= t < |s.callers| && s.callers[t].InWait? ==> Waiting(s.c, s.callers[t].g) > 0
  {
    forall t | 0 <= t < |s.callers| && s.callers[t].InWait? ensures Waiting(s.c, s.callers[t].g) > 0 {
      WaitCountPositive(s.callers, t, s.callers[t].g);
    }
  }

  /** The last waiter of a generation is the one that removes its outcome. */
  lemma OthersStillWait(s: System, t: nat)
    requires CountsExact(s) && t < |s.callers| && s.callers[t].InWait? && Waiting(s.c, s.callers[t].g) == 1
    ensures forall u :: 0 <= u < |s.callers| && u != t ==> s.callers[u] != s.callers[t]
  {
    var g := s.callers[t].g;
    forall u | 0 <= u < |s.callers| && u != t ensures s.callers[u] != s.callers[t] {
      if s.callers[u] == s.callers[t] {
        WaitCountUpdate(s.callers, t, Finished, g);
        WaitCountPositive(s.callers[t := Finished], u, g);
      }
    }
  }

  lemma EndedGrows(ended: map<nat, Option<Error>>, g: nat, outcome: Option<Error>)
    requires g !in ended
    ensures |ended[g := outcome]| == |ended| + 1
  {
    assert ended[g := outcome].Keys == ended.Keys + {g};
    assert |ended[g := outcome].Keys| == |ended[g := outcome]| && |ended.Keys| == |ended|;
  }

  lemma StatusKept(s: System, step: Step)
    requires Inv(s) && CanStep(s, step)
    ensures StatusTrue(Next(s, step))
  {
    match step
    case EndFailed(t, error) => EndedGrows(s.ended, s.callers[t].g, Some(error));
    case EndClosed(t, outcome) => EndedGrows(s.ended, s.callers[t].g, outcome);
    case _ =>
  }

  lemma OwnerKept(s: System, step: Step)
    requires Inv(s) && CanStep(s, step)
    ensures OneOwner(Next(s, step))
  {
    var r := Next(s, step);
    if step.Begin? && r.callers[step.t].Owning? {
      assert r.callers[step.t] == Owning(r.c.generation);
    } else if s.c.status == Closing && r.c.status == Closing {
      var t :| 0 <= t < |s.callers| && s.callers[t] == Owning(s.c.generation);
      assert r.callers[t] == Owning(r.c.generation);
    }
  }

  lemma InvKept(s: System, step: Step)
    requires Inv(s) && CanStep(s, step)
    ensures Inv(Next(s, step))
  {
    CountsKept(s, step);
    OutcomesKept(s, step);
    OwnerKept(s, step);
    StatusKept(s, step);
  }

  ghost predicate Path(s: System, steps: seq<Step>, r: System)
    decreases |steps|
  {
    if steps == [] then r == s else CanStep(s, steps[0]) && Path(Next(s, steps[0]), steps[1..], r)
  }

  lemma EndsStay(s: System, step: Step)
    requires Inv(s) && CanStep(s, step)
    ensures
      var r := Next(s, step);
      && (s.c.status == Closed ==> r.c.status == Closed && r.c.generation == s.c.generation)
      && (forall g :: g in s.ended ==> g in r.ended && r.ended[g] == s.ended[g])
  {
  }

  lemma {:induction false} InvAlong(s: System, steps: seq<Step>, r: System)
    requires Inv(s) && Path(s, steps, r)
    ensures Inv(r)
    ensures s.c.status == Closed ==> r.c.status == Closed && r.c.generation == s.c.generation
    ensures forall g :: g in s.ended ==> g in r.ended && r.ended[g] == s.ended[g]
    decreases |steps|
  {
    if steps != [] {
      InvKept(s, steps[0]);
      EndsStay(s, steps[0]);
      InvAlong(Next(s, steps[0]), steps[1..], r);
    }
  }

  /** In every reachable state of any number of threads: at most one of them owns a close; every
      thread that waited for a generation left with that generation's outcome, whatever later
      generations did; and no waiter is stranded once nobody is closing. */
  lemma CloseProtocol(steps: seq<Step>, r: System)
    requires Path(System(FRESH, [], map[]), steps, r)
    ensures forall t, u :: 0 <= t < u < |r.callers| ==> !(r.callers[t].Owning? && r.callers[u].Owning?)
    ensures forall t :: 0 <= t < |r.callers| && r.callers[t].Got? ==>
              r.callers[t].g in r.ended && r.callers[t].outcome == r.ended[r.callers[t].g]
    ensures forall t :: 0 <= t < |r.callers| && r.callers[t].InWait? && r.c.status != Closing ==> CanStep(r, Wake(t))
    ensures r.c.status == Closing ==> r.c.generation !in r.c.outcomes
    ensures r.c.outcomes.Keys <= r.c.waiters.Keys
  {
    InvAlong(System(FRESH, [], map[]), steps, r);
    WaitersCounted(r);
  }

  /** Both dictionaries drain: with nobody waiting they are empty. */
  lemma MapsDrain(steps: seq<Step>, r: System)
    requires Path(System(FRESH, [], map[]), steps, r)
    requires forall t :: 0 <= t < |r.callers| ==> !r.callers[t].InWait?
    ensures r.c.waiters == map[] && r.c.outcomes == map[]
  {
    InvAlong(System(FRESH, [], map[]), steps, r);
    forall g: nat ensures g !in r.c.waiters.Keys {
      NobodyWaits(r.callers, g);
      assert Waiting(r.c, g) == 0;
    }
    assert r.c.waiters.Keys == {};
  }

  lemma {:induction false} ClosedByEnd(s: System, steps: seq<Step>, r: System)
    requires Inv(s) && Path(s, steps, r)
    ensures r.c.status == Closed <==> s.c.status == Closed || exists j :: 0 <= j < |steps| && steps[j].EndClosed?
    decreases |steps|
  {
    if steps != [] {
      var n := Next(s, steps[0]);
      InvKept(s, steps[0]);
      ClosedByEnd(n, steps[1..], r);
      assert n.c.status == Closed <==> s.c.status == Closed || steps[0].EndClosed?;
      if j :| 0 <= j < |steps| && steps[j].EndClosed? {
        assert j > 0 ==> steps[1..][j - 1] == steps[j];
      }
      if j :| 0 <= j < |steps[1..]| && steps[1..][j].EndClosed? {
        assert steps[j + 1].EndClosed?;
      }
    }
  }

  /** A call returns without waiting or owning only after some close has succeeded. */
  lemma ReturnedAfterClose(steps: seq<Step>, r: System, t: nat)
    requires Path(System(FRESH, [], map[]), steps, r) && t < |r.callers| && r.callers[t].Returned?
    ensures exists j :: 0 <= j < |steps| && steps[j].EndClosed?
  {
    InvAlong(System(FRESH, [], map[]), steps, r);
    ClosedByEnd(System(FRESH, [], map[]), steps, r);
  }

  /** What `begin` answers, in every reachable state and by what has happened alone: it returns at once
      exactly when some close has succeeded; it joins exactly the close that a thread owns; it refuses
      exactly when asked to and no close has ever begun; and otherwise, after any number of failed
      closes, its caller owns a generation later than every one that has ended. */
  lemma BeginAnswers(steps: seq<Step>, s: System, t: nat, preflightInUse: bool)
    requires Path(System(FRESH, [], map[]), steps, s) && CanStep(s, Begin(t, preflightInUse))
    ensures
      var answer := Next(s, Begin(t, preflightInUse)).callers[t];
      var closed := exists j :: 0 <= j < |steps| && steps[j].EndClosed?;
      var owned := exists u :: 0 <= u < |s.callers| && s.callers[u].Owning?;
      var begun := owned || s.ended != map[];
      && (answer.Returned? <==> closed)
      && (answer.InWait? <==> owned)
      && (answer.InWait? ==> exists u :: 0 <= u < |s.callers| && s.callers[u] == Owning(answer.g))
      && (answer.Refused? <==> preflightInUse && !begun)
      && (answer.Owning? <==> !closed && !owned && (begun || !preflightInUse))
      && (answer.Owning? ==> answer.g == |s.ended| + 1 && forall g :: g in s.ended ==> g < answer.g)
  {
    InvAlong(System(FRESH, [], map[]), steps, s);
    ClosedByEnd(System(FRESH, [], map[]), steps, s);
    if s.c.status == Closing {
      var u :| 0 <= u < |s.callers| && s.callers[u] == Owning(s.c.generation);
    }
  }

  lemma {:induction false} NobodyWaits(callers: seq<Caller>, g: nat)
    requires forall t :: 0 <= t < |callers| ==> !callers[t].InWait?
    ensures WaitCount(callers, g) == 0
  {
    if callers != [] {
      NobodyWaits(callers[..|callers| - 1], g);
    }
  }

  /** "closed" is absorbing and final: from then on nobody ever owns a close again. */
  lemma ClosedForever(prefix: seq<Step>, s: System, steps: seq<Step>, r: System)
    requires Path(System(FRESH, [], map[]), prefix, s) && s.c.status == Closed && Path(s, steps, r)
    ensures r.c.status == Closed && r.c.generation == s.c.generation
    ensures forall t :: 0 <= t < |r.callers| ==> !r.callers[t].Owning?
  {
    InvAlong(System(FRESH, [], map[]), prefix, s);
    InvAlong(s, steps, r);
  }
}
