/** What a handler sees of a lost frame: whether the first frame delivered that is newer than the
    lost one carries the discontinuity value. */
module FrameLoss {
  import opened Wrappers
  import opened EventQueue
  import opened DispatchHistory
  import opened QueueBounds
  import opened FrameAccounting

  predicate Newer(e: Event, stamp: nat) {
    e.frame && e.stamp > stamp
  }

  /** The handler is told of a discontinuity before this frame. */
  predicate Carries(e: Event) {
    e.values != [] && e.values[|e.values| - 1] == Flag(true)
  }

  function FirstNewer(events: seq<Event>, stamp: nat): (first: Option<Event>)
    ensures first.Some? ==> first.value in events && Newer(first.value, stamp)
    ensures first.None? <==> forall e :: e in events ==> !Newer(e, stamp)
  {
    if events == [] then None
    else if Newer(events[0], stamp) then Some(events[0])
    else FirstNewer(events[1..], stamp)
  }

  lemma {:induction false} FirstNewerConcat(left: seq<Event>, right: seq<Event>, stamp: nat)
    ensures FirstNewer(left + right, stamp) ==
            if FirstNewer(left, stamp).Some? then FirstNewer(left, stamp) else FirstNewer(right, stamp)
  {
    if left == [] {
      assert left + right == right;
    } else {
      assert (left + right)[1..] == left[1..] + right;
      FirstNewerConcat(left[1..], right, stamp);
    }
  }

  /** A stretch without newer frames does not matter. */
  lemma FirstNewerSkip(left: seq<Event>, middle: seq<Event>, right: seq<Event>, stamp: nat)
    requires FirstNewer(middle, stamp).None?
    ensures FirstNewer(left + middle + right, stamp) == FirstNewer(left + right, stamp)
  {
    FirstNewerConcat(left + middle, right, stamp);
    FirstNewerConcat(left, middle, stamp);
    FirstNewerConcat(left, right, stamp);
  }

  lemma FirstNewerRemove(events: seq<Event>, i: nat, stamp: nat)
    requires i < |events| && !Newer(events[i], stamp)
    ensures FirstNewer(RemoveAt(events, i), stamp) == FirstNewer(events, stamp)
  {
    assert events == events[..i] + [events[i]] + events[i + 1..];
    FirstNewerSkip(events[..i], [events[i]], events[i + 1..], stamp);
  }

  lemma FirstNewerReplace(events: seq<Event>, i: nat, e: Event, stamp: nat)
    requires i < |events| && !Newer(events[i], stamp) && !Newer(e, stamp)
    ensures FirstNewer(events[i := e], stamp) == FirstNewer(events, stamp)
  {
    FirstNewerRemove(events, i, stamp);
    assert events[i := e] == events[..i] + [e] + events[i + 1..];
    FirstNewerSkip(events[..i], [e], events[i + 1..], stamp);
  }

  lemma {:induction false} FirstNewerAgree(events: seq<Event>, a: nat, b: nat)
    requires forall e :: e in events ==> Newer(e, a) == Newer(e, b)
    ensures FirstNewer(events, a) == FirstNewer(events, b)
  {
    if events != [] {
      FirstNewerAgree(events[1..], a, b);
    }
  }

  // ---- One operation ------------------------------------------------------------------------------

  /** The operation evicts a frame newer than the stamp. */
  ghost predicate EvictsNewer(h: Disp, op: Op, stamp: nat)
    requires Enabled(h, op)
  {
    op.SinkPost? &&
    var outcome := EventQueue.SinkPost(h.q, |h.sent|, op.kind, op.values).1;
    outcome.Accepted? && outcome.evicted.Some? && Newer(outcome.evicted.value, stamp)
  }

  /** The first newer frame of all that is delivered or queued. */
  ghost function Ahead(h: Disp, stamp: nat): Option<Event> {
    FirstNewer(h.log + h.q.events, stamp)
  }

  lemma AdmitAhead(q: Queue, e: Event, evicted: Option<Event>, stamp: nat)
    requires e.stamp > stamp
    ensures
      var before, r := FirstNewer(q.events, stamp), Admit(q, e, evicted).0;
      var after := FirstNewer(r.events, stamp);
      && (before.Some? || !e.frame ==> after == before)
      && (before.None? && e.frame ==> after.Some? && (q.dropped ==> Carries(after.value)))
  {
    var r := Admit(q, e, evicted).0;
    FirstNewerConcat(q.events, [r.events[|q.events|]], stamp);
  }

  /** A post appends at most one newer frame, carrying the value if a loss was pending. */
  lemma PostAhead(q: Queue, e: Event, latest: bool, stamp: nat)
    requires e.stamp > stamp && !(latest && e.frame)
    requires
      var outcome := Post(q, e, latest).1;
      outcome.Accepted? && outcome.evicted.Some? ==> !Newer(outcome.evicted.value, stamp)
    ensures
      var before, (r, outcome) := FirstNewer(q.events, stamp), Post(q, e, latest);
      var after := FirstNewer(r.events, stamp);
      && (before.Some? || !(e.frame && outcome.Accepted?) ==> after == before)
      && (before.None? && e.frame && outcome.Accepted? ==> after.Some? && (q.dropped ==> Carries(after.value)))
  {
    match Post(q, e, latest).1
    case Coalesced(_) =>
      FirstNewerReplace(q.events, LatestSlot(q.events, e.kind).value, e, stamp);
    case Accepted(evicted, _) =>
      if evicted.Some? {
        var i := FirstNonTerminal(q.events).value;
        FirstNewerRemove(q.events, i, stamp);
        AdmitAhead(Evict(q, i), e, evicted, stamp);
      } else {
        AdmitAhead(q, e, None, stamp);
      }
    case _ =>
  }

  lemma AheadSink(h: Disp, kind: string, values: seq<Value>, stamp: nat)
    requires stamp < |h.sent| && Enabled(h, SinkPost(kind, values)) && !EvictsNewer(h, SinkPost(kind, values), stamp)
    ensures
      var op := SinkPost(kind, values);
      var r := Apply(h, op);
      && (Ahead(h, stamp).Some? || !AcceptsFrame(h, op) ==> Ahead(r, stamp) == Ahead(h, stamp))
      && (Ahead(h, stamp).None? && AcceptsFrame(h, op) ==>
            Ahead(r, stamp).Some? && (h.q.dropped ==> Carries(Ahead(r, stamp).value)))
  {
    SinkFlagsDisjoint(kind);
    var e := SinkEvent(|h.sent|, kind, values);
    PostAhead(h.q, e, IsLatestKind(kind), stamp);
    FirstNewerConcat(h.log, h.q.events, stamp);
    FirstNewerConcat(h.log, Post(h.q, e, IsLatestKind(kind)).0.events, stamp);
  }

  /** Only `discard` can take a newer frame away without delivering it, and it closes. */
  lemma AheadOther(h: Disp, op: Op, stamp: nat)
    requires Identity(h) && Enabled(h, op) && !op.SinkPost?
    ensures Ahead(Apply(h, op), stamp) == Ahead(h, stamp) ||
            (op.DiscardOp? && Ahead(Apply(h, op), stamp).None?)
  {
    match op
    case TaskPost(task) =>
      var e := TaskEvent(|h.sent|, task);
      assert (h.log + h.q.events) + [e] == h.log + (h.q.events + [e]);
      FirstNewerConcat(h.log + h.q.events, [e], stamp);
    case Begin =>
      if h.q.events != [] {
        assert h.log + [h.q.events[0]] + h.q.events[1..] == h.log + h.q.events;
      }
    case DiscardOp =>
      QueuedTagged(h);
      FirstNewerConcat(h.log, h.q.events, stamp);
      FirstNewerConcat(h.log, NativeTasks(h.q.events), stamp);
    case _ =>
  }

  // ---- Every continuation -------------------------------------------------------------------------

  /** No operation of the run evicts a frame newer than the stamp. */
  ghost predicate KeepsNewer(h: Disp, ops: seq<Op>, r: Disp, stamp: nat)
    requires Run(h, ops, r)
    decreases |ops|
  {
    ops == [] || (!EvictsNewer(h, ops[0], stamp) && KeepsNewer(Apply(h, ops[0]), ops[1..], r, stamp))
  }

  /** The frame `first` is next, or nothing newer will come any more. */
  ghost predicate Settles(h: Disp, stamp: nat, first: Event) {
    Ahead(h, stamp) == Some(first) || (h.q.closed && Ahead(h, stamp).None?)
  }

  lemma SettlesStep(h: Disp, op: Op, stamp: nat, first: Event)
    requires Identity(h) && stamp < |h.sent| && Enabled(h, op) && !EvictsNewer(h, op, stamp)
    requires Settles(h, stamp, first)
    ensures Settles(Apply(h, op), stamp, first) && stamp < |Apply(h, op).sent|
  {
    if op.SinkPost? {
      AheadSink(h, op.kind, op.values, stamp);
    } else {
      AheadOther(h, op, stamp);
    }
  }

  lemma {:induction false} SettlesAlong(h: Disp, ops: seq<Op>, r: Disp, stamp: nat, first: Event)
    requires Identity(h) && stamp < |h.sent| && Run(h, ops, r) && KeepsNewer(h, ops, r, stamp)
    requires Settles(h, stamp, first)
    ensures Settles(r, stamp, first)
    decreases |ops|
  {
    if ops != [] {
      SettlesStep(h, ops[0], stamp, first);
      IdentityKept(h, ops[0]);
      SettlesAlong(Apply(h, ops[0]), ops[1..], r, stamp, first);
    }
  }

  /** Nothing newer is there yet, and the next accepted frame will carry the value. */
  ghost predicate Pending(h: Disp, stamp: nat) {
    Ahead(h, stamp).None? && (h.q.dropped || h.q.closed)
  }

  lemma PendingStep(h: Disp, op: Op, stamp: nat)
    requires Identity(h) && stamp < |h.sent| && Enabled(h, op) && !EvictsNewer(h, op, stamp)
    requires Pending(h, stamp)
    ensures stamp < |Apply(h, op).sent|
    ensures Pending(Apply(h, op), stamp) ||
            (Ahead(Apply(h, op), stamp).Some? && Carries(Ahead(Apply(h, op), stamp).value))
  {
    if h.q.dropped {
      FlagKept(h, op);
    }
    if op.SinkPost? {
      AheadSink(h, op.kind, op.values, stamp);
    } else {
      AheadOther(h, op, stamp);
    }
  }

  lemma {:induction false} PendingAlong(h: Disp, ops: seq<Op>, r: Disp, stamp: nat)
    requires Identity(h) && stamp < |h.sent| && Run(h, ops, r) && KeepsNewer(h, ops, r, stamp)
    requires Pending(h, stamp)
    ensures Ahead(r, stamp).Some? ==> Carries(Ahead(r, stamp).value)
    decreases |ops|
  {
    if ops != [] {
      PendingStep(h, ops[0], stamp);
      IdentityKept(h, ops[0]);
      if Pending(Apply(h, ops[0]), stamp) {
        PendingAlong(Apply(h, ops[0]), ops[1..], r, stamp);
      } else {
        SettlesAlong(Apply(h, ops[0]), ops[1..], r, stamp, Ahead(Apply(h, ops[0]), stamp).value);
      }
    }
  }

  /** From a state with a pending loss, in every continuation that evicts no newer frame: the first
      newer frame delivered carries the value if and only if no newer frame is queued now, or the
      first one queued carries it already. */
  lemma AnnouncedIff(h: Disp, stamp: nat, ops: seq<Op>, r: Disp)
    requires Identity(h) && stamp < |h.sent| && Run(h, ops, r) && KeepsNewer(h, ops, r, stamp)
    requires FirstNewer(h.log, stamp).None?
    requires FirstNewer(h.q.events, stamp).None? ==> h.q.dropped || h.q.closed
    requires FirstNewer(r.log, stamp).Some?
    ensures
      var next := FirstNewer(h.q.events, stamp);
      Carries(FirstNewer(r.log, stamp).value) <==> next.None? || Carries(next.value)
  {
    FirstNewerConcat(h.log, h.q.events, stamp);
    FirstNewerConcat(r.log, r.q.events, stamp);
    var next := FirstNewer(h.q.events, stamp);
    if next.Some? {
      SettlesAlong(h, ops, r, stamp, next.value);
    } else {
      PendingAlong(h, ops, r, stamp);
    }
  }

  // ---- Evicted and refused frames -------------------------------------------------------------------

  /** The frame this operation evicts, if any. */
  ghost function EvictedFrame(h: Disp, op: Op): Option<Event>
    requires Enabled(h, op)
  {
    if !op.SinkPost? then None
    else
      var outcome := EventQueue.SinkPost(h.q, |h.sent|, op.kind, op.values).1;
      if outcome.Accepted? && outcome.evicted.Some? && outcome.evicted.value.frame then outcome.evicted else None
  }

  /** Where the evicted frame stood, and what its eviction leaves. */
  lemma EvictionShape(h: Disp, op: Op) returns (i: nat)
    requires Enabled(h, op) && EvictedFrame(h, op).Some?
    ensures i < |h.q.events| && h.q.events[i] == EvictedFrame(h, op).value && AllTerminal(h.q.events[..i])
    ensures
      var e, r := SinkEvent(|h.sent|, op.kind, op.values), Apply(h, op);
      && r.q.events == RemoveAt(h.q.events, i) + [e] && !e.frame
      && r.q.dropped && r.log == h.log && |r.sent| == |h.sent| + 1
  {
    EvictsOldest(h.q, SinkEvent(|h.sent|, op.kind, op.values), IsLatestKind(op.kind));
    i := FirstNonTerminal(h.q.events).value;
  }

  /** The evicted frame was the oldest queued one. */
  lemma EvictionQueue(h: Disp, op: Op)
    requires Identity(h) && InOrder(h) && Enabled(h, op) && EvictedFrame(h, op).Some?
    ensures
      var lost, queued := EvictedFrame(h, op).value, Apply(h, op).q.events;
      && (forall e :: e in queued && e.frame ==> Newer(e, lost.stamp))
      && FirstNewer(queued, lost.stamp) == FirstNewer(h.q.events, lost.stamp)
  {
    var lost := EvictedFrame(h, op).value;
    var i := EvictionShape(h, op);
    var e := SinkEvent(|h.sent|, op.kind, op.values);
    FirstNewerRemove(h.q.events, i, lost.stamp);
    FirstNewerConcat(RemoveAt(h.q.events, i), [e], lost.stamp);
    forall x | x in RemoveAt(h.q.events, i) && x.frame ensures Newer(x, lost.stamp) {
      RemainingNewer(h, i, x);
    }
  }

  /** And newer than every delivered one; its eviction leaves the loss pending. */
  lemma EvictionState(h: Disp, op: Op)
    requires Identity(h) && InOrder(h) && Enabled(h, op) && EvictedFrame(h, op).Some?
    ensures
      var lost, r := EvictedFrame(h, op).value, Apply(h, op);
      && r.q.dropped && r.log == h.log && lost.stamp < |h.sent| < |r.sent|
      && FirstNewer(h.log, lost.stamp).None?
  {
    var lost := EvictedFrame(h, op).value;
    var i := EvictionShape(h, op);
    QueuedFate(h, lost);
    forall x | x in h.log ensures !Newer(x, lost.stamp) {
      DeliveredOlder(h, i, x);
    }
  }

  lemma FrameNotTerminal(h: Disp, x: Event)
    requires Identity(h) && x in h.q.events && x.frame
    ensures !x.terminal && !IsLatestKind(x.kind)
  {
    QueuedTagged(h);
    SinkFlagsDisjoint(x.kind);
  }

  lemma OldestFirst(left: seq<Event>, events: seq<Event>, i: nat, x: Event)
    requires Ordered(left + events) && i < |events| && !IsLatestKind(events[i].kind) && AllTerminal(events[..i])
    requires x in RemoveAt(events, i) && !x.terminal && !IsLatestKind(x.kind)
    ensures x.stamp > events[i].stamp
  {
    var all, n := left + events, |left|;
    var k :| 0 <= k < |RemoveAt(events, i)| && RemoveAt(events, i)[k] == x;
    var j := if k < i then k else k + 1;
    assert events[j] == x;
    var older := events[..i];
    assert forall m :: 0 <= m < i ==> events[m] == older[m];
    assert j > i;
    assert all[n + i] == events[i] && all[n + j] == x;
  }

  lemma RemainingNewer(h: Disp, i: nat, x: Event)
    requires Identity(h) && InOrder(h) && i < |h.q.events| && h.q.events[i].frame && AllTerminal(h.q.events[..i])
    requires x in RemoveAt(h.q.events, i) && x.frame
    ensures x.stamp > h.q.events[i].stamp
  {
    assert x in h.q.events;
    FrameNotTerminal(h, x);
    FrameNotTerminal(h, h.q.events[i]);
    OldestFirst(h.log, h.q.events, i, x);
  }

  lemma DeliveredOlder(h: Disp, i: nat, x: Event)
    requires Identity(h) && InOrder(h) && i < |h.q.events| && h.q.events[i].frame && x in h.log
    ensures !Newer(x, h.q.events[i].stamp)
  {
    var k :| 0 <= k < |h.log| && h.log[k] == x;
    var all, n := h.log + h.q.events, |h.log|;
    assert IsPost(h.log[k], h.sent);
    SinkFlagsDisjoint(x.kind);
    FrameNotTerminal(h, h.q.events[i]);
    assert all[k] == x && all[n + i] == h.q.events[i];
  }

  lemma {:induction false} FrameTotalNone(events: seq<Event>)
    ensures FrameTotal(events) == 0 <==> forall e :: e in events ==> !e.frame
  {
    if events != [] {
      var n := |events| - 1;
      assert events == events[..n] + [events[n]];
      FrameTotalNone(events[..n]);
    }
  }

  /** For every post that evicts a frame and every continuation that evicts no newer one: the first
      frame delivered after the lost one carries the discontinuity value if and only if no other
      frame was queued, which the frame counter says before the call, or the next queued frame
      already carries it. */
  lemma EvictionAnnouncedIff(h: Disp, op: Op, ops: seq<Op>, r: Disp)
    requires Identity(h) && InOrder(h) && CounterExact(h.q) && Enabled(h, op) && EvictedFrame(h, op).Some?
    requires
      var lost := EvictedFrame(h, op).value.stamp;
      Run(Apply(h, op), ops, r) && KeepsNewer(Apply(h, op), ops, r, lost) && FirstNewer(r.log, lost).Some?
    ensures
      var lost := EvictedFrame(h, op).value.stamp;
      var next := FirstNewer(h.q.events, lost);
      && (Carries(FirstNewer(r.log, lost).value) <==> h.q.frameCount == 1 || (next.Some? && Carries(next.value)))
      && (h.q.frameCount == 1 <==> next.None?)
  {
    var lost := EvictedFrame(h, op).value.stamp;
    IdentityKept(h, op);
    EvictionState(h, op);
    EvictionQueue(h, op);
    AnnouncedIff(Apply(h, op), lost, ops, r);
    OnlyFrame(h, op);
  }

  lemma OnlyFrame(h: Disp, op: Op)
    requires Identity(h) && InOrder(h) && CounterExact(h.q) && Enabled(h, op) && EvictedFrame(h, op).Some?
    ensures h.q.frameCount == 1 <==> FirstNewer(h.q.events, EvictedFrame(h, op).value.stamp).None?
  {
    var i := EvictionShape(h, op);
    EvictionQueue(h, op);
    FrameTotalRemove(h.q.events, i);
    FrameTotalAppend(RemoveAt(h.q.events, i), SinkEvent(|h.sent|, op.kind, op.values));
    FrameTotalNone(Apply(h, op).q.events);
  }

  /** The same for any older loss that has not been announced yet, a refused frame or an evicted one:
      the last eviction of a frame newer than it decides. */
  lemma LaterEvictionDecides(h: Disp, stamp: nat, op: Op, ops: seq<Op>, r: Disp)
    requires Identity(h) && InOrder(h) && Enabled(h, op) && EvictedFrame(h, op).Some?
    requires stamp <= EvictedFrame(h, op).value.stamp && FirstNewer(h.log, stamp).None?
    requires Run(Apply(h, op), ops, r) && KeepsNewer(Apply(h, op), ops, r, stamp) && FirstNewer(r.log, stamp).Some?
    ensures
      var next := FirstNewer(h.q.events, EvictedFrame(h, op).value.stamp);
      Carries(FirstNewer(r.log, stamp).value) <==> next.None? || Carries(next.value)
  {
    var lost := EvictedFrame(h, op).value.stamp;
    IdentityKept(h, op);
    EvictionState(h, op);
    EvictionQueue(h, op);
    FirstNewerAgree(Apply(h, op).q.events, stamp, lost);
    AnnouncedIff(Apply(h, op), stamp, ops, r);
  }

  /** A frame refused by an open dispatcher: in every continuation that evicts no newer frame, the
      first newer frame delivered carries the value. */
  lemma RefusalAnnounced(h: Disp, op: Op, ops: seq<Op>, r: Disp)
    requires Identity(h) && !h.q.closed && Enabled(h, op) && op.SinkPost? && IsFrameKind(op.kind)
    requires Apply(h, op).fates[|h.sent|] == Denied
    requires Run(Apply(h, op), ops, r) && KeepsNewer(Apply(h, op), ops, r, |h.sent|)
    requires FirstNewer(r.log, |h.sent|).Some?
    ensures Carries(FirstNewer(r.log, |h.sent|).value)
  {
    SinkFlagsDisjoint(op.kind);
    IdentityKept(h, op);
    var n := Apply(h, op);
    assert n.q.events == h.q.events && n.log == h.log && n.q.dropped;
    forall e | e in n.log || e in n.q.events ensures !Newer(e, |h.sent|) {
      StampsBelow(h);
      assert e in h.log + h.q.events;
    }
    AnnouncedIff(n, |h.sent|, ops, r);
  }

  // ---- A refusal that is missed -------------------------------------------------------------------

  lemma RunCons(h: Disp, op: Op, m: Disp, ops: seq<Op>, r: Disp)
    requires Enabled(h, op) && Apply(h, op) == m && Run(m, ops, r)
    ensures Run(h, [op] + ops, r)
  {
    assert ([op] + ops)[1..] == ops;
  }

  function Marked(stamp: nat): Event {
    Event(stamp, SOUND, [Flag(true)], true, false)
  }

  const REFUSED := Disp(Queue(3, 2, false, true, [Sound(0), Sound(1)], false, 2, true), None, [],
                        [Sound(0), Sound(1), Sound(2)], [Queued, Queued, Denied])
  const DRAINED := Disp(Queue(3, 2, false, true, [], false, 0, false), None, [Sound(0), Sound(1)],
                        [Sound(0), Sound(1), Sound(2)], [Done, Done, Denied])
  const QUEUED := Disp(Queue(3, 2, false, false, [Marked(3), Sound(4)], false, 2, true), None, [Sound(0), Sound(1)],
                       [Sound(0), Sound(1), Sound(2), Sound(3), Sound(4)], [Done, Done, Denied, Queued, Queued])
  const MISSED := Disp(Queue(3, 2, false, true, [Command(5), Command(6)], true, 0, true), Some(Sound(4)),
                       [Sound(0), Sound(1), Sound(4)],
                       [Sound(0), Sound(1), Sound(2), Sound(3), Sound(4), Command(5), Command(6)],
                       [Done, Done, Denied, Evicted, Running, Queued, Queued])

  /** Two commands evict the marked frame, and the unmarked one behind it is delivered. */
  lemma MissedEvicted()
    ensures exists ops :: Run(QUEUED, ops, MISSED)
  {
    SoundIsFrame();
    var command := SinkPost("command", []);
    var h1 := QUEUED.(q := QUEUED.q.(events := [Marked(3), Sound(4), Command(5)]),
                      sent := QUEUED.sent + [Command(5)], fates := QUEUED.fates + [Queued]);
    var h2 := h1.(q := h1.q.(events := [Sound(4), Command(5), Command(6)], dropped := true, frameCount := 1),
                  sent := h1.sent + [Command(6)], fates := [Done, Done, Denied, Evicted, Queued, Queued, Queued]);
    assert FirstNonTerminal(h1.q.events) == Some(0);
    RunCons(h2, Begin, MISSED, [], MISSED);
    RunCons(h1, command, h2, [Begin], MISSED);
    RunCons(QUEUED, command, h1, [command] + [Begin], MISSED);
  }

  lemma MissedQueued()
    ensures exists ops :: Run(DRAINED, ops, MISSED)
  {
    SoundIsFrame();
    var post := SinkPost(SOUND, CALM);
    var h := DRAINED.(q := DRAINED.q.(events := [Marked(3)], dropped := false, frameCount := 1, scheduled := true),
                      sent := DRAINED.sent + [Sound(3)], fates := DRAINED.fates + [Queued]);
    MissedEvicted();
    var ops :| Run(QUEUED, ops, MISSED);
    assert ForceMarker(CALM) == [Flag(true)];
    RunCons(h, post, QUEUED, ops, MISSED);
    RunCons(DRAINED, post, h, [post] + ops, MISSED);
  }

  lemma MissedDrained()
    ensures exists ops :: Run(REFUSED, ops, MISSED)
  {
    var h1 := REFUSED.(q := REFUSED.q.(events := [Sound(1)], executing := true, frameCount := 1),
                       running := Some(Sound(0)), log := [Sound(0)], fates := [Running, Queued, Denied]);
    var h2 := h1.(q := h1.q.(executing := false), running := None, fates := [Done, Queued, Denied]);
    var h3 := h2.(q := h2.q.(events := [], executing := true, frameCount := 0),
                  running := Some(Sound(1)), log := [Sound(0), Sound(1)], fates := [Done, Running, Denied]);
    MissedQueued();
    var ops :| Run(DRAINED, ops, MISSED);
    RunCons(h3, End, DRAINED, ops, MISSED);
    RunCons(h2, Begin, h3, [End] + ops, MISSED);
    RunCons(h1, End, h2, [Begin] + ([End] + ops), MISSED);
    RunCons(REFUSED, Begin, h1, [End] + ([Begin] + ([End] + ops)), MISSED);
  }

  lemma MissedStart()
    ensures exists ops :: Run(New(3, 2), ops, MISSED)
  {
    SoundIsFrame();
    var post := SinkPost(SOUND, CALM);
    var h1 := New(3, 2).(q := New(3, 2).q.(events := [Sound(0)], frameCount := 1, scheduled := true),
                         sent := [Sound(0)], fates := [Queued]);
    var h2 := h1.(q := h1.q.(events := [Sound(0), Sound(1)], frameCount := 2),
                  sent := [Sound(0), Sound(1)], fates := [Queued, Queued]);
    MissedDrained();
    var ops :| Run(REFUSED, ops, MISSED);
    RunCons(h2, post, REFUSED, ops, MISSED);
    RunCons(h1, post, h2, [post] + ops, MISSED);
    RunCons(New(3, 2), post, h1, [post] + ([post] + ops), MISSED);
  }

  /** A run in which a refused frame is missed: the marked frame after it is evicted, and the first
      newer frame delivered does not carry the value. */
  lemma RefusalMissed()
    ensures exists ops, r :: Run(New(3, 2), ops, r) && Lost(r, 2) && r.fates[2] == Denied &&
              FirstNewer(r.log, 2).Some? && !Carries(FirstNewer(r.log, 2).value)
  {
    MissedStart();
    FirstNewerConcat([Sound(0), Sound(1)], [Sound(4)], 2);
    assert MISSED.log == [Sound(0), Sound(1)] + [Sound(4)];
    assert Lost(MISSED, 2);
  }
}
