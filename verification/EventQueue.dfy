/** The lock-protected blocks of `_Dispatcher` (src/tirtc/_dispatch.py), each as a function from
    the fields before the block to the fields after it.  `Dispatcher.dfy` proves the imperative
    blocks, loops included, equal to these functions. */
module EventQueue {
  import opened Wrappers

  /** An element of an event's value tuple: a Python bool, or any other object by identity. */
  datatype Value = Flag(flag: bool) | Data(id: nat)

  /** One queued tuple.  `stamp` numbers the post call that made it: the code never reads it,
      it stands for the identity of the Python tuple so that histories can talk about events. */
  datatype Event = Event(stamp: nat, kind: string, values: seq<Value>, frame: bool, terminal: bool)

  const NATIVE_TASK := "native_task"

  datatype Queue = Queue(
    capacity: nat,
    frameCapacity: nat,
    closed: bool,
    dropped: bool,
    events: seq<Event>,
    executing: bool,
    frameCount: int,
    scheduled: bool)

  /** Everything a call of `post` can do.  The Python result is `Accepts(outcome)`. */
  datatype Outcome =
    | Rejected
    | Coalesced(replaced: Event)
    | FrameRefused
    | Refused
    | Accepted(evicted: Option<Event>, schedule: bool)

  predicate Accepts(outcome: Outcome) {
    outcome.Accepted? || outcome.Coalesced?
  }

  // ---- Scans --------------------------------------------------------------------------------

  predicate LatestMatch(e: Event, kind: string) {
    e.kind == kind && !e.frame
  }

  /** The last position holding a non-frame event of this kind. */
  function LatestSlot(events: seq<Event>, kind: string): (slot: Option<nat>)
    ensures slot.Some? ==> slot.value < |events| && LatestMatch(events[slot.value], kind)
    ensures slot.Some? ==> forall j :: slot.value < j < |events| ==> !LatestMatch(events[j], kind)
    ensures slot.None? ==> forall j :: 0 <= j < |events| ==> !LatestMatch(events[j], kind)
  {
    if events == [] then None
    else if LatestMatch(events[|events| - 1], kind) then Some(|events| - 1)
    else LatestSlot(events[..|events| - 1], kind)
  }

  /** The first position holding a non-terminal event. */
  function FirstNonTerminal(events: seq<Event>): (slot: Option<nat>)
    ensures slot.Some? ==> slot.value < |events| && !events[slot.value].terminal
    ensures slot.Some? ==> forall j :: 0 <= j < slot.value ==> events[j].terminal
    ensures slot.None? ==> forall j :: 0 <= j < |events| ==> events[j].terminal
  {
    if events == [] then None
    else if !events[0].terminal then Some(0)
    else
      match FirstNonTerminal(events[1..])
      case None => None
      case Some(i) => Some(i + 1)
  }

  predicate HasTerminal(events: seq<Event>, kind: string) {
    exists j :: 0 <= j < |events| && events[j].kind == kind && events[j].terminal
  }

  function NativeTasks(events: seq<Event>): (tasks: seq<Event>)
    ensures forall e :: e in tasks <==> e in events && e.kind == NATIVE_TASK
    ensures |tasks| <= |events|
  {
    if events == [] then []
    else
      var rest := NativeTasks(events[..|events| - 1]);
      var last := events[|events| - 1];
      assert events == events[..|events| - 1] + [last];
      if last.kind == NATIVE_TASK then rest + [last] else rest
  }

  function FrameTotal(events: seq<Event>): nat {
    if events == [] then 0
    else FrameTotal(events[..|events| - 1]) + if events[|events| - 1].frame then 1 else 0
  }

  // ---- post ---------------------------------------------------------------------------------

  /** The values of a frame stored with the discontinuity marker: as many as were posted, but at least
      one; the last is True and every other one is the posted one. */
  predicate Marks(values: seq<Value>, marked: seq<Value>) {
    && |marked| == (if |values| == 0 then 1 else |values|)
    && marked[|marked| - 1] == Flag(true)
    && marked[..|marked| - 1] == values[..|marked| - 1]
  }

  /** `(*values[:-1], True)`. */
  function ForceMarker(values: seq<Value>): (marked: seq<Value>)
    ensures Marks(values, marked)
  {
    (if values == [] then [] else values[..|values| - 1]) + [Flag(true)]
  }

  function RemoveAt(events: seq<Event>, i: nat): seq<Event>
    requires i < |events|
  {
    events[..i] + events[i + 1..]
  }

  function Evict(q: Queue, i: nat): Queue
    requires i < |q.events|
  {
    var lost := q.events[i];
    q.(events := RemoveAt(q.events, i),
       frameCount := if lost.frame then q.frameCount - 1 else q.frameCount,
       dropped := q.dropped || lost.frame)
  }

  function Admit(q: Queue, e: Event, evicted: Option<Event>): (Queue, Outcome) {
    var mark := e.frame && q.dropped;
    var stored := if mark then e.(values := ForceMarker(e.values)) else e;
    (q.(events := q.events + [stored],
        dropped := q.dropped && !mark,
        frameCount := if e.frame then q.frameCount + 1 else q.frameCount,
        scheduled := true),
     Accepted(evicted, !q.scheduled))
  }

  function Post(q: Queue, e: Event, latest: bool): (Queue, Outcome) {
    if q.closed then (q, Rejected)
    else
      var slot := if latest then LatestSlot(q.events, e.kind) else None;
      if slot.Some? then
        (q.(events := q.events[slot.value := e]), Coalesced(q.events[slot.value]))
      else if e.frame && q.frameCount >= q.frameCapacity then
        (q.(dropped := true), FrameRefused)
      else if |q.events| >= q.capacity then
        if e.frame then (q.(dropped := true), FrameRefused)
        else
          match FirstNonTerminal(q.events)
          case Some(i) => Admit(Evict(q, i), e, Some(q.events[i]))
          case None =>
            if !e.terminal || HasTerminal(q.events, e.kind) then (q, Refused)
            else Admit(q, e, None)
      else Admit(q, e, None)
  }

  // ---- _native_sink: the flags are functions of the kind ---------------------------------------

  predicate IsFrameKind(kind: string) {
    |kind| >= 6 && kind[|kind| - 6..] == "_frame"
  }

  predicate IsTerminalKind(kind: string) {
    kind == "completed" || kind == "error"
  }

  predicate IsLatestKind(kind: string) {
    kind == "state" || kind == "time"
  }

  function SinkEvent(stamp: nat, kind: string, values: seq<Value>): Event {
    Event(stamp, kind, values, IsFrameKind(kind), IsTerminalKind(kind))
  }

  function SinkPost(q: Queue, stamp: nat, kind: string, values: seq<Value>): (Queue, Outcome) {
    Post(q, SinkEvent(stamp, kind, values), IsLatestKind(kind))
  }

  // ---- post_native_task, _drain_one, barrier, close, discard -------------------------------------

  /** The wait loop of `post_native_task` holds its caller here. */
  predicate TaskBlocked(q: Queue) {
    !q.closed && |q.events| >= q.capacity
  }

  function TaskEvent(stamp: nat, task: Value): Event {
    Event(stamp, NATIVE_TASK, [task], false, true)
  }

  /** The part of `post_native_task` after its wait loop. */
  function PostTask(q: Queue, stamp: nat, task: Value): (Queue, Outcome)
    requires !TaskBlocked(q)
  {
    if q.closed then (q, Rejected)
    else (q.(events := q.events + [TaskEvent(stamp, task)], scheduled := true), Accepted(None, !q.scheduled))
  }

  /** First block of `_drain_one`: None when the ticket was stale. */
  function DrainBegin(q: Queue): (Queue, Option<Event>) {
    if q.events == [] then (q.(scheduled := false), None)
    else
      var e := q.events[0];
      (q.(events := q.events[1..],
          frameCount := if e.frame then q.frameCount - 1 else q.frameCount,
          executing := true),
       Some(e))
  }

  /** Second block of `_drain_one`; true when the worker must schedule the dispatcher again. */
  function DrainEnd(q: Queue): (Queue, bool) {
    var pending := q.events != [];
    (q.(executing := false, scheduled := q.scheduled && pending), pending)
  }

  predicate BarrierDone(q: Queue) {
    q.events == [] && !q.executing && !q.scheduled
  }

  predicate CloseDone(q: Queue) {
    q.events == [] && !q.executing
  }

  function Close(q: Queue): Queue {
    q.(closed := true)
  }

  function Discard(q: Queue): Queue {
    var kept := NativeTasks(q.events);
    q.(closed := true, events := kept, frameCount := 0,
       scheduled := q.scheduled && (kept != [] || q.executing))
  }

  function NewQueue(capacity: nat, frameCapacity: nat): Queue {
    Queue(capacity, frameCapacity, false, false, [], false, 0, false)
  }
}
