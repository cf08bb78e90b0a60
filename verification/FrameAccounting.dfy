/** Delivery order and the discontinuity marker that accounts for lost frames. */
module FrameAccounting {
  import opened Wrappers
  import opened EventQueue
  import opened DispatchHistory

  // ---- Order ------------------------------------------------------------------------------------

  ghost predicate Ordered(events: seq<Event>) {
    forall j, k :: 0 <= j < k < |events| && !IsLatestKind(events[j].kind) && !IsLatestKind(events[k].kind) ==>
      events[j].stamp < events[k].stamp
  }

  /** Everything delivered so far followed by everything queued is in post order, except for the
      kinds that are coalesced in place. */
  ghost predicate InOrder(h: Disp) {
    Ordered(h.log + h.q.events)
  }

  lemma OrderedRemove(left: seq<Event>, events: seq<Event>, i: nat)
    requires Ordered(left + events) && i < |events|
    ensures Ordered(left + RemoveAt(events, i))
  {
    var all, rest := left + events, left + RemoveAt(events, i);
    forall j, k | 0 <= j < k < |rest| && !IsLatestKind(rest[j].kind) && !IsLatestKind(rest[k].kind)
      ensures rest[j].stamp < rest[k].stamp
    {
      var a := if j < |left| + i then j else j + 1;
      var b := if k < |left| + i then k else k + 1;
      assert rest[j] == all[a] && rest[k] == all[b];
    }
  }

  lemma OrderedReplace(left: seq<Event>, events: seq<Event>, i: nat, e: Event)
    requires Ordered(left + events) && i < |events| && IsLatestKind(e.kind)
    ensures Ordered(left + events[i := e])
  {
    var all, rest := left + events, left + events[i := e];
    assert forall j :: 0 <= j < |rest| && j != |left| + i ==> rest[j] == all[j];
  }

  lemma OrderedAppend(left: seq<Event>, events: seq<Event>, e: Event)
    requires Ordered(left + events)
    requires forall j :: 0 <= j < |left + events| && !IsLatestKind((left + events)[j].kind) ==>
               (left + events)[j].stamp < e.stamp
    ensures Ordered(left + (events + [e]))
  {
    assert left + (events + [e]) == (left + events) + [e];
  }

  lemma {:induction false} OrderedNativeTasks(left: seq<Event>, events: seq<Event>)
    requires Ordered(left + events)
    ensures Ordered(left + NativeTasks(events))
  {
    if events != [] {
      var n := |events| - 1;
      var rest, last := events[..n], events[n];
      var all := left + events;
      assert left + rest == all[..|all| - 1] && all[|all| - 1] == last;
      OrderedNativeTasks(left, rest);
      if last.kind == NATIVE_TASK {
        var kept := left + NativeTasks(rest);
        forall j | 0 <= j < |kept| && !IsLatestKind(kept[j].kind) ensures kept[j].stamp < last.stamp {
          assert kept[j] in left + rest;
          var k :| 0 <= k < |all| - 1 && all[k] == kept[j];
        }
        OrderedAppend(left, NativeTasks(rest), last);
      }
    }
  }

  lemma OrderedPost(left: seq<Event>, q: Queue, e: Event, latest: bool)
    requires Ordered(left + q.events) && (latest ==> IsLatestKind(e.kind))
    requires forall j :: 0 <= j < |left + q.events| ==> (left + q.events)[j].stamp < e.stamp
    ensures Ordered(left + Post(q, e, latest).0.events)
  {
    var (r, outcome) := Post(q, e, latest);
    match outcome
    case Coalesced(_) => OrderedReplace(left, q.events, LatestSlot(q.events, e.kind).value, e);
    case Accepted(evicted, _) =>
      var stored := r.events[|r.events| - 1];
      if evicted.Some? {
        var i := FirstNonTerminal(q.events).value;
        OrderedRemove(left, q.events, i);
        StampsRemoved(left, q.events, i, e.stamp);
        OrderedAppend(left, RemoveAt(q.events, i), stored);
      } else {
        OrderedAppend(left, q.events, stored);
      }
    case _ =>
  }

  lemma StampsRemoved(left: seq<Event>, events: seq<Event>, i: nat, stamp: nat)
    requires i < |events| && forall j :: 0 <= j < |left + events| ==> (left + events)[j].stamp < stamp
    ensures forall j :: 0 <= j < |left + RemoveAt(events, i)| ==> (left + RemoveAt(events, i))[j].stamp < stamp
  {
    var all, rest := left + events, left + RemoveAt(events, i);
    forall j | 0 <= j < |rest| ensures rest[j].stamp < stamp {
      assert rest[j] == all[if j < |left| + i then j else j + 1];
    }
  }

  lemma StampsBelow(h: Disp)
    requires Identity(h)
    ensures forall j :: 0 <= j < |h.log + h.q.events| ==> (h.log + h.q.events)[j].stamp < |h.sent|
  {
  }

  /** Events are delivered in the order they were posted, whatever is evicted or discarded in
      between; only an event of a latest kind may take the place of an older one of its kind. */
  lemma InOrderKept(h: Disp, op: Op)
    requires Identity(h) && InOrder(h) && Enabled(h, op)
    ensures InOrder(Apply(h, op))
  {
    StampsBelow(h);
    match op
    case SinkPost(kind, values) =>
      OrderedPost(h.log, h.q, SinkEvent(|h.sent|, kind, values), IsLatestKind(kind));
    case TaskPost(task) =>
      if !h.q.closed {
        OrderedAppend(h.log, h.q.events, TaskEvent(|h.sent|, task));
      }
    case Begin =>
      if h.q.events != [] {
        assert h.log + [h.q.events[0]] + h.q.events[1..] == h.log + h.q.events;
      }
    case End =>
    case CloseOp =>
    case DiscardOp => OrderedNativeTasks(h.log, h.q.events);
  }

  // ---- Losses -----------------------------------------------------------------------------------

  /** A frame refused or evicted. */
  ghost predicate Lost(h: Disp, i: nat) {
    i < |h.sent| && i < |h.fates| && h.sent[i].frame && h.fates[i] in {Denied, Evicted}
  }

  /** A frame queued or delivered with the forced flag, newer than every lost frame. */
  ghost predicate Announces(h: Disp, e: Event) {
    && (e in h.log || e in h.q.events)
    && e.frame && e.stamp < |h.sent| && Marks(h.sent[e.stamp].values, e.values)
    && forall i: nat :: Lost(h, i) ==> i < e.stamp
  }

  ghost predicate LossesCovered(h: Disp) {
    h.q.closed || h.q.dropped || (forall i: nat :: !Lost(h, i)) || (exists e :: Announces(h, e))
  }

  /** An announcement survives as long as its event is still there and nothing newer is lost. */
  lemma AnnouncementKept(h: Disp, r: Disp)
    requires LossesCovered(h) && !h.q.closed && !h.q.dropped
    requires |h.sent| <= |r.sent| && r.sent[..|h.sent|] == h.sent
    requires forall i: nat :: Lost(r, i) ==> Lost(h, i)
    requires forall e :: (e in h.log || e in h.q.events) && e.frame ==> e in r.log || e in r.q.events
    ensures LossesCovered(r)
  {
    if e :| Announces(h, e) {
      assert r.sent[e.stamp] == h.sent[e.stamp];
      assert Announces(r, e);
    }
  }

  /** Queue-level facts of a post that leaves the marker flag clear: no frame left the queue. */
  lemma PostKeepsFrames(q: Queue, e: Event, latest: bool, x: Event)
    requires !(latest && e.frame) && x in q.events && x.frame
    requires !q.dropped && !Post(q, e, latest).0.dropped
    ensures x in Post(q, e, latest).0.events
  {
    var k :| 0 <= k < |q.events| && q.events[k] == x;
    var (r, outcome) := Post(q, e, latest);
    match outcome
    case Coalesced(_) => assert r.events[k] == x;
    case Accepted(evicted, _) =>
      if evicted.Some? {
        var i := FirstNonTerminal(q.events).value;
        assert r.events[if k < i then k else k - 1] == x;
      } else {
        assert r.events[k] == x;
      }
    case _ =>
  }

  lemma LossesCoveredQuiet(h: Disp, e: Event, latest: bool)
    requires |h.sent| == |h.fates| && LossesCovered(h) && !h.q.closed && e.stamp == |h.sent| && !(latest && e.frame)
    requires !h.q.dropped && !Post(h.q, e, latest).0.dropped
    requires forall j :: 0 <= j < |h.q.events| ==> IsPost(h.q.events[j], h.sent)
    ensures LossesCovered(Posted(h, e, Post(h.q, e, latest)))
  {
    var r := Posted(h, e, Post(h.q, e, latest));
    forall x | (x in h.log || x in h.q.events) && x.frame ensures x in r.log || x in r.q.events {
      if x in h.q.events {
        PostKeepsFrames(h.q, e, latest, x);
      }
    }
    assert forall i: nat :: Lost(r, i) ==> Lost(h, i);
    AnnouncementKept(h, r);
  }

  lemma LossesCoveredPost(h: Disp, e: Event, latest: bool)
    requires |h.sent| == |h.fates| && LossesCovered(h) && !h.q.closed && e.stamp == |h.sent| && !(latest && e.frame)
    requires forall j :: 0 <= j < |h.q.events| ==> IsPost(h.q.events[j], h.sent)
    ensures LossesCovered(Posted(h, e, Post(h.q, e, latest)))
  {
    var (q, outcome) := Post(h.q, e, latest);
    var r := Posted(h, e, (q, outcome));
    if !q.dropped {
      if h.q.dropped {
        // Only an accepted frame clears the flag, and it takes the marker with it.
        var stored := q.events[|q.events| - 1];
        assert Announces(r, stored);
      } else {
        LossesCoveredQuiet(h, e, latest);
      }
    }
  }

  lemma LossesCoveredOther(h: Disp, op: Op)
    requires |h.sent| == |h.fates| && LossesCovered(h) && Enabled(h, op) && (op.TaskPost? || op.Begin? || op.End?)
    requires forall i: nat :: Lost(Apply(h, op), i) ==> Lost(h, i)
    ensures LossesCovered(Apply(h, op))
  {
    if !h.q.closed && !h.q.dropped {
      forall e | e in h.log || e in h.q.events ensures e in Apply(h, op).log || e in Apply(h, op).q.events {
        if op.Begin? && h.q.events != [] {
          assert h.q.events == [h.q.events[0]] + h.q.events[1..];
        }
      }
      AnnouncementKept(h, Apply(h, op));
    }
  }

  /** While the dispatcher is open, for every frame refused or evicted either the drop flag is
      still set, or a newer frame, queued or delivered, carries the forced discontinuity flag. */
  lemma LossesCoveredKept(h: Disp, op: Op)
    requires Identity(h) && LossesCovered(h) && Enabled(h, op)
    ensures LossesCovered(Apply(h, op))
  {
    match op
    case SinkPost(kind, values) =>
      if !h.q.closed {
        SinkFlagsDisjoint(kind);
        LossesCoveredPost(h, SinkEvent(|h.sent|, kind, values), IsLatestKind(kind));
      }
    case CloseOp =>
    case DiscardOp =>
    case _ =>
      forall i: nat | Lost(Apply(h, op), i) ensures Lost(h, i) {
        if i < |h.fates| {
          FatesForward(h, op, i);
        }
      }
      LossesCoveredOther(h, op);
  }

  lemma PostMarker(q: Queue, e: Event, latest: bool)
    requires q.dropped && !q.closed && !(latest && e.frame)
    ensures
      var (r, outcome) := Post(q, e, latest);
      && r.dropped == !(e.frame && Accepts(outcome))
      && (e.frame && Accepts(outcome) ==> r.events != [])
      && (e.frame && Accepts(outcome) ==> r.events[|r.events| - 1] == e.(values := ForceMarker(e.values)))
  {
  }

  /** A pending loss is announced by the very next accepted frame: until then no operation clears
      the flag, and that frame is stored with the forced value. */
  lemma NextFrameAnnounces(h: Disp, op: Op)
    requires |h.sent| == |h.fates| && h.q.dropped && !h.q.closed && Enabled(h, op)
    ensures
      var r := Apply(h, op);
      var accepted := op.SinkPost? && IsFrameKind(op.kind) && r.fates[|h.sent|] == Queued;
      && r.q.dropped == !accepted
      && (accepted ==> r.q.events != [])
      && (accepted ==>
            var stored := r.q.events[|r.q.events| - 1];
            stored == r.sent[|h.sent|].(values := stored.values) && Marks(op.values, stored.values))
  {
    if op.SinkPost? {
      SinkFlagsDisjoint(op.kind);
      PostMarker(h.q, SinkEvent(|h.sent|, op.kind, op.values), IsLatestKind(op.kind));
    }
  }

  ghost predicate Run(h: Disp, ops: seq<Op>, r: Disp)
    decreases |ops|
  {
    if ops == [] then r == h else Enabled(h, ops[0]) && Run(Apply(h, ops[0]), ops[1..], r)
  }

  ghost predicate AcceptsFrame(h: Disp, op: Op)
    requires Enabled(h, op)
  {
    op.SinkPost? && IsFrameKind(op.kind) && EventQueue.SinkPost(h.q, |h.sent|, op.kind, op.values).1.Accepted?
  }

  /** None of the operations is an accepted post of a frame. */
  ghost predicate NoFrameAccepted(h: Disp, ops: seq<Op>, r: Disp)
    requires Run(h, ops, r)
    decreases |ops|
  {
    ops == [] || (!AcceptsFrame(h, ops[0]) && NoFrameAccepted(Apply(h, ops[0]), ops[1..], r))
  }

  lemma {:induction false} FlagStays(h: Disp, ops: seq<Op>, r: Disp)
    requires Identity(h) && h.q.dropped && Run(h, ops, r) && NoFrameAccepted(h, ops, r) && !r.q.closed
    ensures Identity(r) && r.q.dropped && !h.q.closed
    decreases |ops|
  {
    if ops != [] {
      IdentityKept(h, ops[0]);
      FlagKept(h, ops[0]);
      FlagStays(Apply(h, ops[0]), ops[1..], r);
    }
  }

  lemma FlagKeptPost(q: Queue, e: Event, latest: bool)
    requires q.dropped
    ensures
      var (r, outcome) := Post(q, e, latest);
      r.closed == q.closed && (!(e.frame && outcome.Accepted?) ==> r.dropped)
  {
  }

  /** Only an accepted frame clears the flag, and nothing reopens a closed dispatcher. */
  lemma FlagKept(h: Disp, op: Op)
    requires h.q.dropped && Enabled(h, op)
    ensures h.q.closed ==> Apply(h, op).q.closed
    ensures !AcceptsFrame(h, op) ==> Apply(h, op).q.dropped
  {
    match op
    case SinkPost(kind, values) => FlagKeptPost(h.q, SinkEvent(|h.sent|, kind, values), IsLatestKind(kind));
    case _ =>
  }

  /** A frame refused by an open dispatcher is announced by the very next accepted one, whatever
      happens in between: that frame is stored with the forced discontinuity value. */
  lemma RefusalAnnouncedNext(h: Disp, refused: Op, ops: seq<Op>, r: Disp, next: Op)
    requires Identity(h) && !h.q.closed && Enabled(h, refused) && refused.SinkPost? && IsFrameKind(refused.kind)
    requires Apply(h, refused).fates[|h.sent|] == Denied
    requires Run(Apply(h, refused), ops, r) && NoFrameAccepted(Apply(h, refused), ops, r)
    requires !r.q.closed && Enabled(r, next) && AcceptsFrame(r, next)
    ensures
      var queued := Apply(r, next).q.events;
      queued != [] &&
      var stored := queued[|queued| - 1];
      stored == SinkEvent(|r.sent|, next.kind, stored.values) && Marks(next.values, stored.values)
  {
    SinkFlagsDisjoint(refused.kind);
    IdentityKept(h, refused);
    FlagStays(Apply(h, refused), ops, r);
    NextFrameAnnounces(r, next);
  }

  // ---- No false announcement ----------------------------------------------------------------------

  /** The operation loses a frame: an open dispatcher refuses it, or evicts one that was queued. */
  ghost predicate LosesFrame(h: Disp, op: Op)
    requires Enabled(h, op)
  {
    var r := Apply(h, op);
    op.SinkPost? && !h.q.closed &&
    ((IsFrameKind(op.kind) && |h.sent| < |r.fates| && r.fates[|h.sent|] == Denied) ||
     exists e :: e in h.q.events && e.frame && e.stamp < |r.fates| && r.fates[e.stamp] == Evicted)
  }

  /** Some operation loses a frame and none after it has a frame accepted. */
  ghost predicate LostSince(h: Disp, ops: seq<Op>, r: Disp)
    requires Run(h, ops, r)
    decreases |ops|
  {
    ops != [] &&
    var n := Apply(h, ops[0]);
    (LosesFrame(h, ops[0]) && NoFrameAccepted(n, ops[1..], r)) || LostSince(n, ops[1..], r)
  }

  lemma FlagPost(q: Queue, e: Event, latest: bool)
    requires !(latest && e.frame)
    ensures
      var (r, outcome) := Post(q, e, latest);
      r.dropped <==>
        || (e.frame && outcome.FrameRefused?)
        || (outcome.Accepted? && outcome.evicted.Some? && outcome.evicted.value.frame)
        || (q.dropped && !(e.frame && outcome.Accepted?))
  {
  }

  lemma FlagStep(h: Disp, op: Op)
    requires Identity(h) && Enabled(h, op)
    ensures Apply(h, op).q.dropped <==> LosesFrame(h, op) || (h.q.dropped && !AcceptsFrame(h, op))
  {
    if op.SinkPost? {
      var e := SinkEvent(|h.sent|, op.kind, op.values);
      SinkFlagsDisjoint(op.kind);
      FlagPost(h.q, e, IsLatestKind(op.kind));
      LossMeans(h, op);
    }
  }

  /** A lost frame, by what `post` does. */
  lemma LossMeans(h: Disp, op: Op)
    requires Identity(h) && Enabled(h, op) && op.SinkPost?
    ensures
      var outcome := EventQueue.SinkPost(h.q, |h.sent|, op.kind, op.values).1;
      LosesFrame(h, op) <==>
        || (IsFrameKind(op.kind) && outcome.FrameRefused?)
        || (outcome.Accepted? && outcome.evicted.Some? && outcome.evicted.value.frame)
  {
    var outcome := EventQueue.SinkPost(h.q, |h.sent|, op.kind, op.values).1;
    SinkFlagsDisjoint(op.kind);
    PostVictims(h.q, SinkEvent(|h.sent|, op.kind, op.values), IsLatestKind(op.kind));
    if outcome.Accepted? && outcome.evicted.Some? {
      EvictedMeans(h, op, outcome.evicted.value);
    } else {
      NobodyEvicted(h, op);
    }
  }

  lemma NobodyEvicted(h: Disp, op: Op)
    requires Identity(h) && Enabled(h, op) && op.SinkPost?
    requires
      var outcome := EventQueue.SinkPost(h.q, |h.sent|, op.kind, op.values).1;
      !(outcome.Accepted? && outcome.evicted.Some?)
    ensures forall x :: x in h.q.events ==>
              x.stamp < |Apply(h, op).fates| && Apply(h, op).fates[x.stamp] != Evicted
  {
    forall x | x in h.q.events
      ensures x.stamp < |Apply(h, op).fates| && Apply(h, op).fates[x.stamp] != Evicted
    {
      QueuedFate(h, x);
    }
  }

  lemma EvictedMeans(h: Disp, op: Op, lost: Event)
    requires Identity(h) && Enabled(h, op) && op.SinkPost? && lost in h.q.events
    requires
      var outcome := EventQueue.SinkPost(h.q, |h.sent|, op.kind, op.values).1;
      outcome.Accepted? && outcome.evicted == Some(lost)
    ensures forall x :: x in h.q.events ==>
              x.stamp < |Apply(h, op).fates| && (Apply(h, op).fates[x.stamp] == Evicted <==> x == lost)
  {
    forall x | x in h.q.events
      ensures x.stamp < |Apply(h, op).fates| && (Apply(h, op).fates[x.stamp] == Evicted <==> x == lost)
    {
      QueuedFate(h, x);
      QueuedFate(h, lost);
      if x.stamp == lost.stamp {
        SameStamp(h, x, lost);
      }
    }
  }

  lemma SameStamp(h: Disp, x: Event, y: Event)
    requires Identity(h) && x in h.q.events && y in h.q.events && x.stamp == y.stamp
    ensures x == y
  {
  }

  lemma {:induction false} FlagAlong(h: Disp, ops: seq<Op>, r: Disp)
    requires Identity(h) && Run(h, ops, r)
    ensures r.q.dropped <==> (h.q.dropped && NoFrameAccepted(h, ops, r)) || LostSince(h, ops, r)
    decreases |ops|
  {
    if ops != [] {
      FlagStep(h, ops[0]);
      IdentityKept(h, ops[0]);
      FlagAlong(Apply(h, ops[0]), ops[1..], r);
    }
  }

  /** Over every run the drop flag is set exactly when a frame has been refused or evicted and no frame has
      been accepted since; and an accepted frame is stored with the marker exactly then, and otherwise with
      exactly the values it was posted with. */
  lemma MarkedIffLost(capacity: nat, frameCapacity: nat, ops: seq<Op>, r: Disp, next: Op)
    requires Run(New(capacity, frameCapacity), ops, r) && Enabled(r, next) && AcceptsFrame(r, next)
    ensures r.q.dropped <==> LostSince(New(capacity, frameCapacity), ops, r)
    ensures
      var queued := Apply(r, next).q.events;
      queued != [] &&
      var stored := queued[|queued| - 1];
      stored == SinkEvent(|r.sent|, next.kind, stored.values) &&
      if LostSince(New(capacity, frameCapacity), ops, r) then Marks(next.values, stored.values)
      else stored.values == next.values
  {
    FlagAlong(New(capacity, frameCapacity), ops, r);
    SinkFlagsDisjoint(next.kind);
  }

  // ---- An eviction announced late -----------------------------------------------------------------

  const SOUND := "audio_frame"
  const CALM := [Flag(false)]

  lemma SoundIsFrame()
    ensures IsFrameKind(SOUND) && !IsTerminalKind(SOUND) && !IsLatestKind(SOUND)
    ensures !IsFrameKind("command") && !IsTerminalKind("command") && !IsLatestKind("command")
    ensures SOUND != NATIVE_TASK && "command" != NATIVE_TASK
  {
    assert SOUND[|SOUND| - 6..] == "_frame";
    assert "command"[|"command"| - 6..][0] == 'o';
    assert SOUND[0] == 'a' && "command"[1] == 'o' && NATIVE_TASK[0] == 'n';
  }

  function Sound(stamp: nat): Event {
    Event(stamp, SOUND, CALM, true, false)
  }

  function Command(stamp: nat): Event {
    Event(stamp, "command", [], false, false)
  }

  const TWO_FRAMES := Disp(Queue(2, 2, false, false, [Sound(0), Sound(1)], false, 2, true), None, [],
                           [Sound(0), Sound(1)], [Queued, Queued])
  const FIRST_EVICTED := Disp(Queue(2, 2, false, true, [Sound(1), Command(2)], false, 1, true), None, [],
                              [Sound(0), Sound(1), Command(2)], [Evicted, Queued, Queued])
  const SECOND_TAKEN := Disp(Queue(2, 2, false, true, [Command(2)], true, 0, true), Some(Sound(1)), [Sound(1)],
                             [Sound(0), Sound(1), Command(2)], [Evicted, Running, Queued])

  lemma LateStart()
    ensures Apply(Apply(New(2, 2), SinkPost(SOUND, CALM)), SinkPost(SOUND, CALM)) == TWO_FRAMES
  {
    SoundIsFrame();
    assert Apply(New(2, 2), SinkPost(SOUND, CALM)).q.events == [Sound(0)];
  }

  lemma LateEviction()
    ensures Apply(TWO_FRAMES, SinkPost("command", [])) == FIRST_EVICTED
  {
    SoundIsFrame();
    assert FirstNonTerminal(TWO_FRAMES.q.events) == Some(0);
    assert RemoveAt(TWO_FRAMES.q.events, 0) == [Sound(1)];
  }

  lemma LateTaken()
    ensures Apply(FIRST_EVICTED, Begin) == SECOND_TAKEN && Lost(SECOND_TAKEN, 0)
  {
  }

  lemma LateMarked()
    ensures Apply(SECOND_TAKEN, SinkPost(SOUND, CALM)).q.events == [Command(2), Sound(3).(values := [Flag(true)])]
  {
    SoundIsFrame();
    assert ForceMarker(CALM) == [Flag(true)];
  }

  /** An eviction can be announced late: here frame 0 is evicted, frame 1 is then delivered with its own
      discontinuity flag untouched, and only frame 3 carries the marker. */
  lemma EvictionAnnouncedLate()
    ensures
      var h2 := Apply(Apply(New(2, 2), SinkPost(SOUND, CALM)), SinkPost(SOUND, CALM));
      var h4 := Apply(Apply(h2, SinkPost("command", [])), Begin);
      var h5 := Apply(h4, SinkPost(SOUND, CALM));
      Lost(h4, 0) && h4.log == [Sound(1)] && h5.q.events == [Command(2), Sound(3).(values := [Flag(true)])]
  {
    LateStart();
    LateEviction();
    LateTaken();
    LateMarked();
  }
}
