/** One dispatcher together with the history of every post it ever received.  Each post has a
    stamp and, at any time, exactly one fate; the operations are the blocks of `EventQueue` used
    the way `_native_sink` and `_native_task_sink` use them. */
module DispatchHistory {
  import opened Wrappers
  import opened EventQueue

  datatype Fate = Denied | Queued | Running | Done | Overwritten | Evicted | Discarded

  /** `sent[i]` is the event of post `i` as it was posted, `fates[i]` what has become of it,
      `log` the events taken by `_drain_one`, in that order. */
  datatype Disp = Disp(q: Queue, running: Option<Event>, log: seq<Event>, sent: seq<Event>, fates: seq<Fate>)

  datatype Op =
    | SinkPost(kind: string, values: seq<Value>)
    | TaskPost(task: Value)
    | Begin
    | End
    | CloseOp
    | DiscardOp

  /** A worker enters the first block of `_drain_one` with no handler running and the second one
      with its own handler running; the scheduler model establishes both for every interleaving. */
  ghost predicate Enabled(h: Disp, op: Op) {
    match op
    case SinkPost(kind, _) => kind != NATIVE_TASK
    case TaskPost(_) => !TaskBlocked(h.q)
    case Begin => !h.q.executing
    case End => h.q.executing
    case CloseOp => true
    case DiscardOp => true
  }

  function SetFate(fates: seq<Fate>, stamp: nat, fate: Fate): (r: seq<Fate>)
    ensures |r| == |fates|
  {
    if stamp < |fates| then fates[stamp := fate] else fates
  }

  function Posted(h: Disp, e: Event, result: (Queue, Outcome)): Disp {
    var settled :=
      match result.1
      case Coalesced(previous) => SetFate(h.fates, previous.stamp, Overwritten)
      case Accepted(Some(lost), _) => SetFate(h.fates, lost.stamp, Evicted)
      case _ => h.fates;
    h.(q := result.0, sent := h.sent + [e],
       fates := settled + [if Accepts(result.1) then Queued else Denied])
  }

  function Apply(h: Disp, op: Op): Disp
    requires op.TaskPost? ==> !TaskBlocked(h.q)
  {
    match op
    case SinkPost(kind, values) =>
      var stamp := |h.sent|;
      Posted(h, SinkEvent(stamp, kind, values), EventQueue.SinkPost(h.q, stamp, kind, values))
    case TaskPost(task) =>
      var stamp := |h.sent|;
      Posted(h, TaskEvent(stamp, task), PostTask(h.q, stamp, task))
    case Begin =>
      var (q, e) := DrainBegin(h.q);
      if e.None? then h.(q := q)
      else h.(q := q, running := e, log := h.log + [e.value], fates := SetFate(h.fates, e.value.stamp, Running))
    case End =>
      h.(q := DrainEnd(h.q).0, running := None,
         fates := if h.running.Some? then SetFate(h.fates, h.running.value.stamp, Done) else h.fates)
    case CloseOp => h.(q := Close(h.q))
    case DiscardOp =>
      h.(q := Discard(h.q),
         fates := seq(|h.fates|, i requires 0 <= i < |h.fates| =>
           if h.fates[i] == Queued && i < |h.sent| && h.sent[i].kind != NATIVE_TASK then Discarded else h.fates[i]))
  }

  function New(capacity: nat, frameCapacity: nat): Disp {
    Disp(NewQueue(capacity, frameCapacity), None, [], [], [])
  }

  // ---- Kinds ----------------------------------------------------------------------------------

  ghost predicate Tagged(e: Event) {
    if e.kind == NATIVE_TASK then !e.frame && e.terminal
    else e.frame == IsFrameKind(e.kind) && e.terminal == IsTerminalKind(e.kind)
  }

  /** The three flags `_native_sink` derives from a kind exclude each other. */
  lemma SinkFlagsDisjoint(kind: string)
    ensures !(IsFrameKind(kind) && IsTerminalKind(kind))
    ensures !(IsFrameKind(kind) && IsLatestKind(kind))
    ensures !(IsTerminalKind(kind) && IsLatestKind(kind))
    ensures IsLatestKind(kind) ==> kind != NATIVE_TASK
  {
    if IsFrameKind(kind) {
      assert kind[|kind| - 6] == '_' && kind[|kind| - 5] == 'f';
      assert "completed"[3] == 'p' && "error"[0] == 'e' && "state"[0] == 's';
    }
    assert "state"[0] == 's' && "time"[0] == 't' && "completed"[0] == 'c' && "error"[0] == 'e';
  }

  /** What each operation posts: the event it was given, with the flags that belong to its kind. */
  lemma SentIsPosted(h: Disp, op: Op)
    requires Enabled(h, op)
    ensures
      var r, n := Apply(h, op), |h.sent|;
      match op
      case SinkPost(kind, values) =>
        && |r.sent| == n + 1 && r.sent[..n] == h.sent
        && r.sent[n].stamp == n && r.sent[n].kind == kind && r.sent[n].values == values
        && (r.sent[n].frame <==> |kind| >= 6 && kind[|kind| - 6..] == "_frame")
        && (r.sent[n].terminal <==> kind == "completed" || kind == "error")
      case TaskPost(task) => r.sent == h.sent + [Event(n, "native_task", [task], false, true)]
      case _ => r.sent == h.sent
  {
  }

  // ---- Identity: every post has exactly one place -----------------------------------------------

  ghost predicate InQueue(events: seq<Event>, stamp: nat) {
    exists j :: 0 <= j < |events| && events[j].stamp == stamp
  }

  /** `e` is post `sent[e.stamp]` with exactly its values, apart from the last value of a marked frame. */
  ghost predicate IsPost(e: Event, sent: seq<Event>) {
    e.stamp < |sent| &&
    var p := sent[e.stamp];
    e.kind == p.kind && e.frame == p.frame && e.terminal == p.terminal &&
    (e.values == p.values || (e.frame && Marks(p.values, e.values)))
  }

  ghost predicate Identity(h: Disp) {
    && |h.sent| == |h.fates|
    && (forall i :: 0 <= i < |h.sent| ==> h.sent[i].stamp == i && Tagged(h.sent[i]))
    && (forall j :: 0 <= j < |h.q.events| ==> IsPost(h.q.events[j], h.sent))
    && (forall j :: 0 <= j < |h.q.events| ==> h.fates[h.q.events[j].stamp] == Queued)
    && (forall j, k :: 0 <= j < k < |h.q.events| ==> h.q.events[j].stamp != h.q.events[k].stamp)
    && (forall i :: 0 <= i < |h.fates| && h.fates[i] == Queued ==> InQueue(h.q.events, i))
    && (h.q.executing <==> h.running.Some?)
    && (h.running.Some? ==> IsPost(h.running.value, h.sent) && h.fates[h.running.value.stamp] == Running)
    && (forall i :: 0 <= i < |h.fates| && h.fates[i] == Running ==> h.running.Some? && h.running.value.stamp == i)
    && (forall j :: 0 <= j < |h.log| ==> IsPost(h.log[j], h.sent) && h.fates[h.log[j].stamp] in {Running, Done})
    && (forall j, k :: 0 <= j < k < |h.log| ==> h.log[j].stamp != h.log[k].stamp)
  }

  lemma InQueueAppend(events: seq<Event>, e: Event, stamp: nat)
    ensures InQueue(events + [e], stamp) <==> InQueue(events, stamp) || stamp == e.stamp
  {
    if stamp == e.stamp {
      assert (events + [e])[|events|].stamp == stamp;
    }
    if InQueue(events, stamp) {
      var j :| 0 <= j < |events| && events[j].stamp == stamp;
      assert (events + [e])[j].stamp == stamp;
    }
  }

  lemma InQueueRemoved(events: seq<Event>, i: nat, stamp: nat)
    requires i < |events| && InQueue(events, stamp) && events[i].stamp != stamp
    ensures InQueue(RemoveAt(events, i), stamp)
  {
    var j :| 0 <= j < |events| && events[j].stamp == stamp;
    assert RemoveAt(events, i)[if j < i then j else j - 1] == events[j];
  }

  lemma InQueueReplaced(events: seq<Event>, i: nat, e: Event, stamp: nat)
    requires i < |events| && InQueue(events, stamp) && events[i].stamp != stamp
    ensures InQueue(events[i := e], stamp)
  {
    var j :| 0 <= j < |events| && events[j].stamp == stamp;
    assert events[i := e][j] == events[j];
  }

  /** Appending a new event to a queue already adjusted for its eviction. */
  lemma IdentityAppend(h: Disp, e: Event, stored: Event, events: seq<Event>, fates: seq<Fate>, q: Queue)
    requires Identity(h.(q := h.q.(events := events), fates := fates))
    requires e.stamp == |h.sent| && Tagged(e) && IsPost(stored, h.sent + [e]) && stored.stamp == e.stamp
    requires q.events == events + [stored] && q.executing == h.q.executing
    ensures Identity(h.(q := q, sent := h.sent + [e], fates := fates + [Queued]))
  {
    forall i | 0 <= i < |fates| + 1 && (fates + [Queued])[i] == Queued
      ensures InQueue(q.events, i)
    {
      InQueueAppend(events, stored, i);
    }
  }

  lemma IdentityEvict(h: Disp, i: nat)
    requires Identity(h) && i < |h.q.events|
    ensures Identity(h.(q := Evict(h.q, i), fates := SetFate(h.fates, h.q.events[i].stamp, Evicted)))
  {
    var stamp := h.q.events[i].stamp;
    var fates := SetFate(h.fates, stamp, Evicted);
    forall k | 0 <= k < |fates| && fates[k] == Queued
      ensures InQueue(RemoveAt(h.q.events, i), k)
    {
      InQueueRemoved(h.q.events, i, k);
    }
  }

  lemma IdentityReplace(h: Disp, i: nat, e: Event)
    requires Identity(h) && i < |h.q.events| && e.stamp == |h.sent| && Tagged(e)
    ensures Identity(h.(q := h.q.(events := h.q.events[i := e]), sent := h.sent + [e],
                        fates := SetFate(h.fates, h.q.events[i].stamp, Overwritten) + [Queued]))
  {
    var stamp := h.q.events[i].stamp;
    var fates := SetFate(h.fates, stamp, Overwritten) + [Queued];
    var events := h.q.events[i := e];
    forall k | 0 <= k < |fates| && fates[k] == Queued
      ensures InQueue(events, k)
    {
      if k == |h.sent| {
        assert events[i].stamp == k;
      } else {
        InQueueReplaced(h.q.events, i, e, k);
      }
    }
  }

  lemma IdentityRefused(h: Disp, e: Event, q: Queue)
    requires Identity(h) && e.stamp == |h.sent| && Tagged(e)
    requires q.events == h.q.events && q.executing == h.q.executing
    ensures Identity(h.(q := q, sent := h.sent + [e], fates := h.fates + [Denied]))
  {
  }

  lemma IdentityAdmit(h: Disp, e: Event, evicted: Option<Event>)
    requires Identity(h) && e.stamp == |h.sent| && Tagged(e)
    ensures
      var q := Admit(h.q, e, evicted).0;
      Identity(h.(q := q, sent := h.sent + [e], fates := h.fates + [Queued]))
  {
    var q := Admit(h.q, e, evicted).0;
    var stored := q.events[|q.events| - 1];
    IdentityAppend(h, e, stored, h.q.events, h.fates, q);
  }

  lemma IdentityEvictAdmit(h: Disp, i: nat, e: Event)
    requires Identity(h) && i < |h.q.events| && e.stamp == |h.sent| && Tagged(e)
    ensures Identity(h.(q := Admit(Evict(h.q, i), e, Some(h.q.events[i])).0, sent := h.sent + [e],
                        fates := SetFate(h.fates, h.q.events[i].stamp, Evicted) + [Queued]))
  {
    IdentityEvict(h, i);
    var g := h.(q := Evict(h.q, i), fates := SetFate(h.fates, h.q.events[i].stamp, Evicted));
    IdentityAdmit(g, e, Some(h.q.events[i]));
  }

  lemma IdentityPost(h: Disp, e: Event, latest: bool)
    requires Identity(h) && e.stamp == |h.sent| && Tagged(e)
    ensures Identity(Posted(h, e, Post(h.q, e, latest)))
  {
    if latest && !h.q.closed && LatestSlot(h.q.events, e.kind).Some? {
      IdentityReplace(h, LatestSlot(h.q.events, e.kind).value, e);
    } else {
      IdentityPostNew(h, e, latest);
    }
  }

  lemma IdentityPostNew(h: Disp, e: Event, latest: bool)
    requires Identity(h) && e.stamp == |h.sent| && Tagged(e)
    requires !Post(h.q, e, latest).1.Coalesced?
    ensures Identity(Posted(h, e, Post(h.q, e, latest)))
  {
    var (q, outcome) := Post(h.q, e, latest);
    if !outcome.Accepted? {
      IdentityRefused(h, e, q);
    } else if outcome.evicted.Some? {
      IdentityEvictAdmit(h, FirstNonTerminal(h.q.events).value, e);
    } else {
      IdentityAdmit(h, e, None);
    }
  }

  lemma IdentityBegin(h: Disp)
    requires Identity(h) && Enabled(h, Begin)
    ensures Identity(Apply(h, Begin))
  {
    if h.q.events != [] {
      var r := Apply(h, Begin);
      forall i | 0 <= i < |r.fates| && r.fates[i] == Queued
        ensures InQueue(r.q.events, i)
      {
        InQueueRemoved(h.q.events, 0, i);
        assert RemoveAt(h.q.events, 0) == h.q.events[1..];
      }
    }
  }

  lemma {:induction false} NativeTasksDistinct(events: seq<Event>)
    requires forall j, k :: 0 <= j < k < |events| ==> events[j].stamp != events[k].stamp
    ensures forall j, k :: 0 <= j < k < |NativeTasks(events)| ==>
              NativeTasks(events)[j].stamp != NativeTasks(events)[k].stamp
  {
    if events != [] {
      var rest := events[..|events| - 1];
      NativeTasksDistinct(rest);
      forall j | 0 <= j < |NativeTasks(rest)| ensures NativeTasks(rest)[j].stamp != events[|events| - 1].stamp {
        assert NativeTasks(rest)[j] in rest;
      }
    }
  }

  lemma DiscardQueue(h: Disp)
    requires Identity(h)
    ensures
      var r := Apply(h, DiscardOp);
      && (forall j :: 0 <= j < |r.q.events| ==> IsPost(r.q.events[j], r.sent))
      && (forall j :: 0 <= j < |r.q.events| ==> r.fates[r.q.events[j].stamp] == Queued)
      && (forall i :: 0 <= i < |r.fates| && r.fates[i] == Queued ==> InQueue(r.q.events, i))
  {
    var r := Apply(h, DiscardOp);
    forall j | 0 <= j < |r.q.events|
      ensures IsPost(r.q.events[j], r.sent) && r.fates[r.q.events[j].stamp] == Queued
    {
      assert r.q.events[j] in r.q.events;
    }
    forall i | 0 <= i < |r.fates| && r.fates[i] == Queued
      ensures InQueue(r.q.events, i)
    {
      var j :| 0 <= j < |h.q.events| && h.q.events[j].stamp == i;
      assert h.q.events[j] in r.q.events;
    }
  }

  lemma DiscardFate(h: Disp, i: nat)
    requires i < |h.fates|
    ensures i < |Apply(h, DiscardOp).fates|
    ensures Apply(h, DiscardOp).fates[i] == h.fates[i] ||
            (h.fates[i] == Queued && Apply(h, DiscardOp).fates[i] == Discarded)
  {
  }

  lemma IdentityDiscard(h: Disp)
    requires Identity(h)
    ensures Identity(Apply(h, DiscardOp))
  {
    var r := Apply(h, DiscardOp);
    NativeTasksDistinct(h.q.events);
    DiscardQueue(h);
    forall i | 0 <= i < |h.fates|
      ensures r.fates[i] == h.fates[i] || (h.fates[i] == Queued && r.fates[i] == Discarded)
    {
      DiscardFate(h, i);
    }
  }

  lemma IdentityKept(h: Disp, op: Op)
    requires Identity(h) && Enabled(h, op)
    ensures Identity(Apply(h, op))
  {
    match op
    case SinkPost(kind, values) =>
      SinkFlagsDisjoint(kind);
      IdentityPost(h, SinkEvent(|h.sent|, kind, values), IsLatestKind(kind));
    case TaskPost(task) =>
      var e := TaskEvent(|h.sent|, task);
      if h.q.closed {
        IdentityRefused(h, e, h.q);
      } else {
        IdentityAppend(h, e, e, h.q.events, h.fates, PostTask(h.q, |h.sent|, task).0);
      }
    case Begin => IdentityBegin(h);
    case End =>
    case CloseOp =>
    case DiscardOp => IdentityDiscard(h);
  }

  // ---- Fates only move forward -------------------------------------------------------------------

  predicate Settled(f: Fate) {
    f != Queued && f != Running
  }

  predicate FateStep(f: Fate, g: Fate) {
    f == g || (f == Running && g == Done) || (f == Queued && g in {Running, Overwritten, Evicted, Discarded})
  }

  /** Whatever a post displaces was queued: a non-terminal event if evicted, a non-frame event of
      the same kind if coalesced over. */
  lemma PostVictims(q: Queue, e: Event, latest: bool)
    ensures
      match Post(q, e, latest).1
      case Coalesced(lost) => lost in q.events && LatestMatch(lost, e.kind)
      case Accepted(Some(lost), _) => lost in q.events && !lost.terminal
      case _ => true
  {
  }

  lemma QueuedFate(h: Disp, e: Event)
    requires Identity(h) && e in h.q.events
    ensures IsPost(e, h.sent) && e.stamp < |h.fates| && h.fates[e.stamp] == Queued
  {
    var k :| 0 <= k < |h.q.events| && h.q.events[k] == e;
    assert IsPost(h.q.events[k], h.sent);
  }

  lemma FatesForwardPost(h: Disp, e: Event, latest: bool, i: nat)
    requires Identity(h) && i < |h.fates|
    ensures
      var r := Posted(h, e, Post(h.q, e, latest));
      i < |r.fates| && (r.fates[i] == h.fates[i] || (h.fates[i] == Queued && r.fates[i] in {Overwritten, Evicted}))
  {
    PostVictims(h.q, e, latest);
    match Post(h.q, e, latest).1
    case Coalesced(lost) => QueuedFate(h, lost);
    case Accepted(Some(lost), _) => QueuedFate(h, lost);
    case _ =>
  }

  /** No step revives a settled post, runs one twice, or loses one that is running. */
  lemma FatesForward(h: Disp, op: Op, i: nat)
    requires Identity(h) && Enabled(h, op) && i < |h.fates|
    ensures i < |Apply(h, op).fates| && FateStep(h.fates[i], Apply(h, op).fates[i])
  {
    match op
    case SinkPost(kind, values) =>
      FatesForwardPost(h, SinkEvent(|h.sent|, kind, values), IsLatestKind(kind), i);
    case TaskPost(_) =>
    case Begin =>
      if h.q.events != [] {
        QueuedFate(h, h.q.events[0]);
      }
    case End =>
    case CloseOp =>
    case DiscardOp => DiscardFate(h, i);
  }

  /** `barrier()` returns only when every event accepted before has run to the end or has been
      coalesced over, evicted or discarded. */
  lemma BarrierSettlesEverything(h: Disp)
    requires Identity(h) && BarrierDone(h.q)
    ensures forall i :: 0 <= i < |h.fates| ==> Settled(h.fates[i])
  {
    forall i | 0 <= i < |h.fates|
      ensures Settled(h.fates[i])
    {
      assert h.fates[i] == Queued ==> InQueue(h.q.events, i);
    }
  }
}
