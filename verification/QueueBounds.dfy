/** What the capacity rules of `post` guarantee: the shadow counter `_frame_count`, the bound on
    the queue, and the safety of terminal events and of the newest value of a latest kind. */
module QueueBounds {
  import opened Wrappers
  import opened EventQueue
  import opened DispatchHistory

  // ---- The frame counter ------------------------------------------------------------------------

  ghost predicate CounterExact(q: Queue) {
    q.frameCount == FrameTotal(q.events)
  }

  lemma FrameTotalAppend(events: seq<Event>, e: Event)
    ensures FrameTotal(events + [e]) == FrameTotal(events) + if e.frame then 1 else 0
  {
    assert (events + [e])[..|events|] == events;
  }

  lemma {:induction false} FrameTotalConcat(left: seq<Event>, right: seq<Event>)
    ensures FrameTotal(left + right) == FrameTotal(left) + FrameTotal(right)
  {
    if right == [] {
      assert left + right == left;
    } else {
      var n := |right| - 1;
      FrameTotalConcat(left, right[..n]);
      FrameTotalAppend(left + right[..n], right[n]);
      assert left + right == (left + right[..n]) + [right[n]];
    }
  }

  lemma FrameTotalAround(events: seq<Event>, i: nat)
    requires i < |events|
    ensures FrameTotal(events) ==
            FrameTotal(events[..i]) + (if events[i].frame then 1 else 0) + FrameTotal(events[i + 1..])
  {
    var left, right := events[..i] + [events[i]], events[i + 1..];
    assert events == left + right;
    FrameTotalAppend(events[..i], events[i]);
    FrameTotalConcat(left, right);
  }

  lemma FrameTotalRemove(events: seq<Event>, i: nat)
    requires i < |events|
    ensures FrameTotal(RemoveAt(events, i)) == FrameTotal(events) - if events[i].frame then 1 else 0
  {
    FrameTotalAround(events, i);
    FrameTotalConcat(events[..i], events[i + 1..]);
  }

  lemma FrameTotalReplace(events: seq<Event>, i: nat, e: Event)
    requires i < |events|
    ensures FrameTotal(events[i := e]) ==
            FrameTotal(events) - (if events[i].frame then 1 else 0) + if e.frame then 1 else 0
  {
    FrameTotalAround(events, i);
    FrameTotalAround(events[i := e], i);
    assert events[i := e][..i] == events[..i] && events[i := e][i + 1..] == events[i + 1..];
  }

  lemma {:induction false} FrameTotalZero(events: seq<Event>)
    requires forall j :: 0 <= j < |events| ==> !events[j].frame
    ensures FrameTotal(events) == 0
  {
    if events != [] {
      FrameTotalZero(events[..|events| - 1]);
    }
  }

  lemma CounterExactAdmit(q: Queue, e: Event, evicted: Option<Event>)
    requires CounterExact(q)
    ensures CounterExact(Admit(q, e, evicted).0)
  {
    var r := Admit(q, e, evicted).0;
    FrameTotalAppend(q.events, r.events[|r.events| - 1]);
  }

  lemma CounterExactEvict(q: Queue, i: nat)
    requires CounterExact(q) && i < |q.events|
    ensures CounterExact(Evict(q, i))
  {
    FrameTotalRemove(q.events, i);
  }

  /** `post` with arbitrary flags keeps the counter exact if and only if it does not overwrite a
      queued event, in place, with a frame: that branch never touches `_frame_count`. */
  lemma CounterExactIff(q: Queue, e: Event, latest: bool)
    requires CounterExact(q)
    ensures CounterExact(Post(q, e, latest).0) <==>
            !(!q.closed && latest && e.frame && LatestSlot(q.events, e.kind).Some?)
  {
    var slot := LatestSlot(q.events, e.kind);
    if !q.closed && latest && slot.Some? {
      FrameTotalReplace(q.events, slot.value, e);
    } else {
      var outcome := Post(q, e, latest).1;
      if outcome.Accepted? {
        if outcome.evicted.Some? {
          var i := FirstNonTerminal(q.events).value;
          CounterExactEvict(q, i);
          CounterExactAdmit(Evict(q, i), e, outcome.evicted);
        } else {
          CounterExactAdmit(q, e, None);
        }
      }
    }
  }

  /** The failing call, concretely: a frame posted as the latest of its kind over a non-frame. */
  lemma CounterBreaks()
    ensures
      var queued := Event(0, "x", [], false, false);
      var q := NewQueue(64, 64).(events := [queued]);
      CounterExact(q) && !CounterExact(Post(q, Event(1, "x", [], true, false), true).0)
  {
    var queued := Event(0, "x", [], false, false);
    var e := Event(1, "x", [], true, false);
    assert LatestMatch([queued][0], "x");
    assert FrameTotal([queued]) == FrameTotal([queued][..0]) + 0;
    CounterExactIff(NewQueue(64, 64).(events := [queued]), e, true);
  }

  ghost predicate FramesBounded(q: Queue) {
    CounterExact(q) && q.frameCount <= q.frameCapacity
  }

  lemma FramesBoundedSink(q: Queue, stamp: nat, kind: string, values: seq<Value>)
    requires FramesBounded(q)
    ensures FramesBounded(EventQueue.SinkPost(q, stamp, kind, values).0)
  {
    SinkFlagsDisjoint(kind);
    CounterExactIff(q, SinkEvent(stamp, kind, values), IsLatestKind(kind));
  }

  lemma FramesBoundedTask(q: Queue, stamp: nat, task: Value)
    requires FramesBounded(q) && !TaskBlocked(q)
    ensures FramesBounded(PostTask(q, stamp, task).0)
  {
    FrameTotalAppend(q.events, TaskEvent(stamp, task));
  }

  lemma FramesBoundedBegin(q: Queue)
    requires FramesBounded(q)
    ensures FramesBounded(DrainBegin(q).0)
  {
    if q.events != [] {
      FrameTotalRemove(q.events, 0);
      assert RemoveAt(q.events, 0) == q.events[1..];
    }
  }

  lemma FramesBoundedDiscard(q: Queue)
    requires FramesBounded(q) && forall e :: e in q.events && e.kind == NATIVE_TASK ==> !e.frame
    ensures FramesBounded(Discard(q))
  {
    var kept := NativeTasks(q.events);
    forall j | 0 <= j < |kept| ensures !kept[j].frame {
      assert kept[j] in kept;
    }
    FrameTotalZero(kept);
  }

  /** Behind the sinks, which never combine the two flags, the counter is always exact and the
      queue never holds more frames than the frame capacity. */
  lemma FramesBoundedKept(h: Disp, op: Op)
    requires Identity(h) && FramesBounded(h.q) && Enabled(h, op)
    ensures FramesBounded(Apply(h, op).q)
  {
    match op
    case SinkPost(kind, values) => FramesBoundedSink(h.q, |h.sent|, kind, values);
    case TaskPost(task) => FramesBoundedTask(h.q, |h.sent|, task);
    case Begin => FramesBoundedBegin(h.q);
    case End =>
    case CloseOp =>
    case DiscardOp =>
      QueuedTagged(h);
      FramesBoundedDiscard(h.q);
  }

  /** The flags of a queued event are those its kind determines. */
  lemma QueuedTagged(h: Disp)
    requires Identity(h)
    ensures forall e :: e in h.q.events ==> Tagged(e)
  {
    forall e | e in h.q.events ensures Tagged(e) {
      var k :| 0 <= k < |h.q.events| && h.q.events[k] == e;
      assert IsPost(h.q.events[k], h.sent);
    }
  }

  // ---- The bound --------------------------------------------------------------------------------

  ghost function Kinds(events: seq<Event>): set<string> {
    set j | 0 <= j < |events| :: events[j].kind
  }

  ghost predicate AllTerminal(events: seq<Event>) {
    forall j :: 0 <= j < |events| ==> events[j].terminal
  }

  ghost predicate Bounded(q: Queue) {
    && (|q.events| <= q.capacity || AllTerminal(q.events))
    && |q.events| <= q.capacity - 1 + |Kinds(q.events)|
  }

  lemma KindsAppend(events: seq<Event>, e: Event)
    ensures Kinds(events + [e]) == Kinds(events) + {e.kind}
    ensures |Kinds(events)| <= |Kinds(events + [e])|
    ensures e.kind !in Kinds(events) ==> |Kinds(events + [e])| == |Kinds(events)| + 1
  {
    var all := events + [e];
    forall k | k in Kinds(events) + {e.kind} ensures k in Kinds(all) {
      if k == e.kind {
        assert all[|events|].kind == k;
      } else {
        var j :| 0 <= j < |events| && events[j].kind == k;
        assert all[j].kind == k;
      }
    }
    assert Kinds(all) == Kinds(events) + {e.kind};
    assert e.kind in Kinds(events) ==> Kinds(all) == Kinds(events);
  }

  lemma KindsRemove(events: seq<Event>, i: nat)
    requires i < |events|
    ensures |Kinds(events)| <= |Kinds(RemoveAt(events, i))| + 1
  {
    var left := RemoveAt(events, i);
    forall k | k in Kinds(events) ensures k in Kinds(left) + {events[i].kind} {
      var j :| 0 <= j < |events| && events[j].kind == k;
      if j != i {
        assert left[if j < i then j else j - 1].kind == k;
      }
    }
    SubsetSize(Kinds(events), Kinds(left) + {events[i].kind});
  }

  lemma {:induction false} SubsetSize<T>(a: set<T>, b: set<T>)
    requires a <= b
    ensures |a| <= |b|
  {
    if a != {} {
      var x :| x in a;
      SubsetSize(a - {x}, b - {x});
    }
  }

  lemma {:induction false} KindsNativeTasks(events: seq<Event>)
    ensures |NativeTasks(events)| - |Kinds(NativeTasks(events))| <= |events| - |Kinds(events)|
  {
    if events != [] {
      var n := |events| - 1;
      var rest := events[..n];
      var last := events[n];
      assert events == rest + [last];
      KindsNativeTasks(rest);
      KindsAppend(rest, last);
      assert |Kinds(events)| <= |Kinds(rest)| + 1;
      if last.kind == NATIVE_TASK {
        KindsAppend(NativeTasks(rest), last);
        if last.kind in Kinds(rest) {
          var j :| 0 <= j < |rest| && rest[j].kind == last.kind;
          assert rest[j] in NativeTasks(rest);
        }
      }
    }
  }

  /** Appending one event: either there was room, or everything queued is terminal and the new
      event is a terminal of a kind not queued yet. */
  lemma BoundedAppend(q: Queue, e: Event)
    requires Bounded(q)
    requires |q.events| < q.capacity ||
             (AllTerminal(q.events) && e.terminal && e.kind !in Kinds(q.events))
    ensures Bounded(q.(events := q.events + [e]))
  {
    KindsAppend(q.events, e);
    assert e.kind in Kinds(q.events + [e]);
    SubsetSize({e.kind}, Kinds(q.events + [e]));
  }

  lemma BoundedRemove(q: Queue, i: nat)
    requires Bounded(q) && i < |q.events|
    ensures Bounded(q.(events := RemoveAt(q.events, i)))
  {
    KindsRemove(q.events, i);
  }

  lemma BoundedPost(q: Queue, e: Event, latest: bool)
    requires q.capacity >= 1 && Bounded(q)
    requires latest ==> !e.terminal
    requires latest ==> forall j :: 0 <= j < |q.events| && q.events[j].kind == e.kind ==> !q.events[j].terminal
    ensures Bounded(Post(q, e, latest).0)
  {
    var (r, outcome) := Post(q, e, latest);
    if outcome.Coalesced? {
      var slot := LatestSlot(q.events, e.kind).value;
      forall k | k in Kinds(q.events) ensures k in Kinds(r.events) {
        var j :| 0 <= j < |q.events| && q.events[j].kind == k;
        assert r.events[j].kind == k;
      }
      SubsetSize(Kinds(q.events), Kinds(r.events));
    } else if outcome.Accepted? {
      var stored := r.events[|r.events| - 1];
      if outcome.evicted.Some? {
        var slot := FirstNonTerminal(q.events).value;
        BoundedRemove(q, slot);
        BoundedAppend(q.(events := RemoveAt(q.events, slot)), stored);
      } else {
        BoundedAppend(q, stored);
      }
    }
  }

  lemma BoundedSink(q: Queue, stamp: nat, kind: string, values: seq<Value>)
    requires q.capacity >= 1 && Bounded(q) && kind != NATIVE_TASK && forall e :: e in q.events ==> Tagged(e)
    ensures Bounded(EventQueue.SinkPost(q, stamp, kind, values).0)
  {
    SinkFlagsDisjoint(kind);
    forall j | 0 <= j < |q.events| && q.events[j].kind == kind && IsLatestKind(kind)
      ensures !q.events[j].terminal
    {
      assert q.events[j] in q.events;
    }
    BoundedPost(q, SinkEvent(stamp, kind, values), IsLatestKind(kind));
  }

  lemma BoundedBegin(q: Queue)
    requires Bounded(q)
    ensures Bounded(DrainBegin(q).0)
  {
    if q.events != [] {
      BoundedRemove(q, 0);
      assert RemoveAt(q.events, 0) == q.events[1..];
    }
  }

  lemma BoundedDiscard(q: Queue)
    requires Bounded(q)
    ensures Bounded(Discard(q))
  {
    var kept := NativeTasks(q.events);
    KindsNativeTasks(q.events);
    if AllTerminal(q.events) {
      forall j | 0 <= j < |kept| ensures kept[j].terminal {
        assert kept[j] in kept;
      }
    }
  }

  /** For every capacity of at least one, through every operation: the queue is within capacity,
      or holds terminals only and exceeds `capacity - 1` by at most the kinds it holds. */
  lemma BoundedKept(h: Disp, op: Op)
    requires h.q.capacity >= 1 && Identity(h) && Bounded(h.q) && Enabled(h, op)
    ensures Bounded(Apply(h, op).q)
  {
    match op
    case SinkPost(kind, values) =>
      QueuedTagged(h);
      BoundedSink(h.q, |h.sent|, kind, values);
    case TaskPost(task) =>
      if !h.q.closed {
        BoundedAppend(h.q, TaskEvent(|h.sent|, task));
      }
    case Begin => BoundedBegin(h.q);
    case End =>
    case CloseOp =>
    case DiscardOp => BoundedDiscard(h.q);
  }

  /** The bound in numbers: one event over capacity when no native task is queued, as on every
      dispatcher fed by `_native_sink`, and two in any mixture. */
  lemma OverCapacity(h: Disp)
    requires h.q.capacity >= 1 && Identity(h) && Bounded(h.q)
    ensures |h.q.events| <= h.q.capacity + 2
    ensures NativeTasks(h.q.events) == [] ==> |h.q.events| <= h.q.capacity + 1
  {
    if |h.q.events| > h.q.capacity {
      var events := h.q.events;
      var some := {"completed", "error"};
      forall k | k in Kinds(events) ensures k in some + {NATIVE_TASK} && (NativeTasks(events) == [] ==> k in some) {
        var j :| 0 <= j < |events| && events[j].kind == k;
        assert events[j].terminal;
        assert k == NATIVE_TASK ==> events[j] in NativeTasks(events);
      }
      SubsetSize(Kinds(events), some + {NATIVE_TASK});
      if NativeTasks(events) == [] {
        SubsetSize(Kinds(events), some);
      }
    }
  }

  // ---- Terminal events --------------------------------------------------------------------------

  lemma TerminalsSafePost(h: Disp, e: Event, i: nat)
    requires Identity(h) && Tagged(e) && e.kind != NATIVE_TASK && i < |h.sent| && h.sent[i].terminal
    ensures Posted(h, e, Post(h.q, e, IsLatestKind(e.kind))).fates[i] == h.fates[i]
  {
    SinkFlagsDisjoint(e.kind);
    PostVictims(h.q, e, IsLatestKind(e.kind));
    match Post(h.q, e, IsLatestKind(e.kind)).1
    case Coalesced(lost) => QueuedFate(h, lost);
    case Accepted(Some(lost), _) => QueuedFate(h, lost);
    case _ =>
  }

  /** No post ever evicts or overwrites an accepted terminal event; `discard` may drop one, but
      never a native task. */
  lemma TerminalsSafe(h: Disp, op: Op, i: nat)
    requires Identity(h) && Enabled(h, op) && i < |h.sent| && h.sent[i].terminal
    ensures op.SinkPost? || op.TaskPost? ==> Apply(h, op).fates[i] == h.fates[i]
    ensures h.sent[i].kind == NATIVE_TASK && h.fates[i] in {Queued, Running, Done} ==>
            Apply(h, op).fates[i] in {Queued, Running, Done}
  {
    match op
    case SinkPost(kind, values) => TerminalsSafePost(h, SinkEvent(|h.sent|, kind, values), i);
    case TaskPost(_) =>
    case Begin => FatesForward(h, op, i);
    case End => FatesForward(h, op, i);
    case CloseOp =>
    case DiscardOp =>
  }

  /** The admission policy without its scans: when an open dispatcher refuses a post. */
  ghost predicate Refuses(q: Queue, kind: string) {
    var full := |q.events| >= q.capacity;
    if IsFrameKind(kind) then full || FrameTotal(q.events) >= q.frameCapacity
    else if IsLatestKind(kind) then full && AllTerminal(q.events) && kind !in Kinds(q.events)
    else if IsTerminalKind(kind) then full && AllTerminal(q.events) && kind in Kinds(q.events)
    else full && AllTerminal(q.events)
  }

  /** The scans of `post` in terms of the kinds in the queue. */
  lemma ScansFind(events: seq<Event>, kind: string)
    requires forall e :: e in events ==> Tagged(e)
    ensures IsLatestKind(kind) ==> (LatestSlot(events, kind).Some? <==> kind in Kinds(events))
    ensures FirstNonTerminal(events).None? <==> AllTerminal(events)
    ensures AllTerminal(events) ==> (HasTerminal(events, kind) <==> kind in Kinds(events))
  {
    SinkFlagsDisjoint(kind);
    if IsLatestKind(kind) && kind in Kinds(events) {
      var j :| 0 <= j < |events| && events[j].kind == kind;
      assert events[j] in events;
      assert LatestMatch(events[j], kind);
    }
  }

  lemma RefusedIffQueue(q: Queue, stamp: nat, kind: string, values: seq<Value>)
    requires CounterExact(q) && !q.closed && forall e :: e in q.events ==> Tagged(e)
    ensures !Accepts(EventQueue.SinkPost(q, stamp, kind, values).1) <==> Refuses(q, kind)
  {
    SinkFlagsDisjoint(kind);
    ScansFind(q.events, kind);
  }

  /** A post is refused exactly when its dispatcher is closed or: a frame meets the frame capacity or
      a full queue; a terminal event a full queue of terminals with its own kind among them; any
      other event a full queue of terminals, in which a latest kind finds nothing to overwrite. */
  lemma RefusedIff(h: Disp, kind: string, values: seq<Value>)
    requires Identity(h) && FramesBounded(h.q) && kind != NATIVE_TASK
    ensures Apply(h, SinkPost(kind, values)).fates[|h.sent|] == Denied <==> h.q.closed || Refuses(h.q, kind)
  {
    QueuedTagged(h);
    if !h.q.closed {
      RefusedIffQueue(h.q, |h.sent|, kind, values);
    }
  }

  /** What an eviction takes is the oldest non-terminal event, and only from a full queue. */
  lemma EvictsOldest(q: Queue, e: Event, latest: bool)
    requires Post(q, e, latest).1.Accepted? && Post(q, e, latest).1.evicted.Some?
    ensures !e.frame && |q.events| >= q.capacity
    ensures exists i ::
              0 <= i < |q.events| && q.events[i] == Post(q, e, latest).1.evicted.value && !q.events[i].terminal &&
              AllTerminal(q.events[..i]) && Post(q, e, latest).0.events == RemoveAt(q.events, i) + [e]
  {
    var i := FirstNonTerminal(q.events).value;
    assert AllTerminal(q.events[..i]);
    assert Evict(q, i).events == RemoveAt(q.events, i);
  }

  // ---- Latest kinds -----------------------------------------------------------------------------

  /** A queued event of a latest kind is the newest accepted post of that kind. */
  ghost predicate LatestFresh(h: Disp) {
    forall j, i {:trigger h.q.events[j], h.sent[i]} ::
      0 <= j < |h.q.events| && IsLatestKind(h.q.events[j].kind) &&
      h.q.events[j].stamp < i < |h.sent| && h.sent[i].kind == h.q.events[j].kind
      ==> i < |h.fates| && h.fates[i] == Denied
  }

  /** At most one event of a latest kind is queued. */
  lemma LatestUnique(h: Disp, j: nat, k: nat)
    requires Identity(h) && LatestFresh(h)
    requires j < |h.q.events| && k < |h.q.events|
    requires h.q.events[j].kind == h.q.events[k].kind && IsLatestKind(h.q.events[j].kind)
    ensures j == k
  {
    var a, b := h.q.events[j], h.q.events[k];
    assert IsPost(a, h.sent) && IsPost(b, h.sent);
    assert h.fates[a.stamp] == Queued && h.fates[b.stamp] == Queued;
    assert !(a.stamp < b.stamp) && !(b.stamp < a.stamp) by {
      assert h.sent[b.stamp].kind == a.kind && h.sent[a.stamp].kind == b.kind;
    }
  }

  /** Whatever a post leaves in the queue was there before or is the post itself. */
  lemma PostEvents(q: Queue, e: Event, latest: bool, x: Event)
    requires x in Post(q, e, latest).0.events
    ensures x in q.events || (x.stamp == e.stamp && x.kind == e.kind)
  {
  }

  /** A queued event of the kind of an accepted latest post is overwritten by it. */
  lemma LatestOverwrites(h: Disp, e: Event, k: nat)
    requires Identity(h) && LatestFresh(h) && IsLatestKind(e.kind) && e.stamp == |h.sent|
    requires k < |h.q.events| && h.q.events[k].kind == e.kind && !h.q.closed
    ensures Post(h.q, e, true).0.events == h.q.events[k := e]
  {
    SinkFlagsDisjoint(e.kind);
    assert IsPost(h.q.events[k], h.sent);
    assert LatestMatch(h.q.events[k], e.kind);
    LatestUnique(h, k, LatestSlot(h.q.events, e.kind).value);
  }

  /** The general step: queue events were queued before (or are newer than every post), denied
      posts stay denied. */
  lemma LatestFreshStep(h: Disp, r: Disp)
    requires LatestFresh(h) && |h.sent| == |h.fates| <= |r.sent| == |r.fates| && r.sent[..|h.sent|] == h.sent
    requires forall j :: 0 <= j < |r.q.events| ==> r.q.events[j] in h.q.events || r.q.events[j].stamp >= |r.sent| - 1
    requires forall i :: 0 <= i < |h.fates| && h.fates[i] == Denied ==> r.fates[i] == Denied
    requires |r.sent| <= |h.sent| + 1
    requires |r.sent| > |h.sent| && r.fates[|h.sent|] != Denied ==>
             forall x :: x in r.q.events && IsLatestKind(x.kind) && x.kind == r.sent[|h.sent|].kind ==>
               x.stamp == |h.sent|
    ensures LatestFresh(r)
  {
    forall j, i | 0 <= j < |r.q.events| && IsLatestKind(r.q.events[j].kind) &&
                  r.q.events[j].stamp < i < |r.sent| && r.sent[i].kind == r.q.events[j].kind
      ensures r.fates[i] == Denied
    {
      if i < |h.sent| {
        var k :| 0 <= k < |h.q.events| && h.q.events[k] == r.q.events[j];
        assert r.sent[i] == h.sent[i];
      }
    }
  }

  lemma LatestFreshPost(h: Disp, e: Event, latest: bool)
    requires Identity(h) && LatestFresh(h) && e.stamp == |h.sent| && latest == IsLatestKind(e.kind)
    requires forall i :: 0 <= i < |h.fates| ==>
               FateStep(h.fates[i], Posted(h, e, Post(h.q, e, latest)).fates[i])
    ensures LatestFresh(Posted(h, e, Post(h.q, e, latest)))
  {
    var r := Posted(h, e, Post(h.q, e, latest));
    forall j | 0 <= j < |r.q.events|
      ensures r.q.events[j] in h.q.events || r.q.events[j].stamp >= |r.sent| - 1
    {
      PostEvents(h.q, e, latest, r.q.events[j]);
    }
    forall j | r.fates[|h.sent|] != Denied && 0 <= j < |r.q.events| &&
               IsLatestKind(r.q.events[j].kind) && r.q.events[j].kind == e.kind
      ensures r.q.events[j].stamp == |h.sent|
    {
      PostEvents(h.q, e, latest, r.q.events[j]);
      if r.q.events[j] in h.q.events && r.q.events[j].stamp != e.stamp {
        var k :| 0 <= k < |h.q.events| && h.q.events[k] == r.q.events[j];
        LatestOverwrites(h, e, k);
      }
    }
    LatestFreshStep(h, r);
  }

  /** An operation other than a post: no queued event is new. */
  lemma LatestFreshOther(h: Disp, op: Op)
    requires |h.sent| == |h.fates| && LatestFresh(h) && Enabled(h, op) && !op.SinkPost?
    requires forall i :: 0 <= i < |h.fates| && h.fates[i] == Denied ==> Apply(h, op).fates[i] == Denied
    ensures LatestFresh(Apply(h, op))
  {
    var r := Apply(h, op);
    forall j | 0 <= j < |r.q.events|
      ensures r.q.events[j] in h.q.events || r.q.events[j].stamp >= |r.sent| - 1
    {
      assert r.q.events[j] in r.q.events;
    }
    LatestFreshStep(h, r);
  }

  lemma LatestFreshKept(h: Disp, op: Op)
    requires Identity(h) && LatestFresh(h) && Enabled(h, op)
    ensures LatestFresh(Apply(h, op))
  {
    forall i | 0 <= i < |h.fates| ensures FateStep(h.fates[i], Apply(h, op).fates[i]) {
      FatesForward(h, op, i);
    }
    if op.SinkPost? {
      LatestFreshPost(h, SinkEvent(|h.sent|, op.kind, op.values), IsLatestKind(op.kind));
    } else {
      LatestFreshOther(h, op);
    }
  }
}
