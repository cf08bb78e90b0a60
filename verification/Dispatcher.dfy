/** `_Dispatcher` as the mutable object it is: each method is one block run under `self._lock`,
    with the source's own scan loops, proved equal to its function in `EventQueue`. */
module Dispatchers {
  import opened Wrappers
  import opened EventQueue

  class Dispatcher {
    const capacity: nat
    const frameCapacity: nat
    var closed: bool
    var dropped: bool
    var events: seq<Event>
    var executing: bool
    var frameCount: int
    var scheduled: bool

    ghost function State(): Queue
      reads this
    {
      Queue(capacity, frameCapacity, closed, dropped, events, executing, frameCount, scheduled)
    }

    constructor (capacity: nat, frameCapacity: Option<nat>)
      ensures State() == NewQueue(capacity, if frameCapacity.None? then capacity else frameCapacity.value)
    {
      this.capacity := capacity;
      this.frameCapacity := if frameCapacity.None? then capacity else frameCapacity.value;
      closed, dropped, events := false, false, [];
      executing, frameCount, scheduled := false, 0, false;
    }

    /** The reverse scan of `post` for a queued event of a latest kind. */
    method FindLatest(kind: string) returns (slot: Option<nat>)
      ensures slot == LatestSlot(events, kind)
    {
      var index := |events|;
      while index > 0
        invariant 0 <= index <= |events|
        invariant LatestSlot(events, kind).Some? ==> LatestSlot(events, kind).value < index
      {
        index := index - 1;
        if events[index].kind == kind && !events[index].frame {
          return Some(index);
        }
      }
      return None;
    }

    /** The eviction scan of `post`; its else branch is the result None. */
    method FindNonTerminal() returns (slot: Option<nat>)
      ensures slot == FirstNonTerminal(events)
    {
      var index := 0;
      while index < |events|
        invariant 0 <= index <= |events|
        invariant forall j :: 0 <= j < index ==> events[j].terminal
      {
        if !events[index].terminal {
          return Some(index);
        }
        index := index + 1;
      }
      return None;
    }

    /** `post`.  `schedule` says whether the caller must now call the executor. */
    method Post(stamp: nat, kind: string, values: seq<Value>, frame: bool, terminal: bool, latest: bool)
      returns (ok: bool, schedule: bool)
      modifies this
      ensures
        var (q, outcome) := EventQueue.Post(old(State()), Event(stamp, kind, values, frame, terminal), latest);
        State() == q && ok == Accepts(outcome) && schedule == (outcome.Accepted? && outcome.schedule)
    {
      if closed {
        return false, false;
      }
      if latest {
        var slot := FindLatest(kind);
        if slot.Some? {
          events := events[slot.value := Event(stamp, kind, values, frame, terminal)];
          return true, false;
        }
      }
      if frame && frameCount >= frameCapacity {
        dropped := true;
        return false, false;
      }
      if |events| >= capacity {
        if frame {
          dropped := true;
          return false, false;
        }
        var slot := FindNonTerminal();
        if slot.Some? {
          var current := events[slot.value];
          events := RemoveAt(events, slot.value);
          if current.frame {
            frameCount := frameCount - 1;
            dropped := true;
          }
        } else {
          var duplicate := ContainsTerminal(kind);
          if !terminal || duplicate {
            return false, false;
          }
        }
      }
      ok := true;
      schedule := Append(stamp, kind, values, frame, terminal);
    }

    /** The tail of `post` once room has been made. */
    method Append(stamp: nat, kind: string, values: seq<Value>, frame: bool, terminal: bool)
      returns (schedule: bool)
      modifies this
      ensures
        var (q, outcome) := Admit(old(State()), Event(stamp, kind, values, frame, terminal), None);
        State() == q && schedule == outcome.schedule
    {
      var stored := values;
      if frame && dropped {
        stored := (if |values| == 0 then [] else values[..|values| - 1]) + [Flag(true)];
        dropped := false;
      }
      events := events + [Event(stamp, kind, stored, frame, terminal)];
      if frame {
        frameCount := frameCount + 1;
      }
      schedule := !scheduled;
      if schedule {
        scheduled := true;
      }
    }

    /** The `any(...)` scan of `post`. */
    method ContainsTerminal(kind: string) returns (found: bool)
      ensures found == HasTerminal(events, kind)
    {
      var index := 0;
      while index < |events|
        invariant 0 <= index <= |events|
        invariant forall j :: 0 <= j < index ==> !(events[j].kind == kind && events[j].terminal)
      {
        if events[index].kind == kind && events[index].terminal {
          return true;
        }
        index := index + 1;
      }
      return false;
    }

    /** First lock block of `_drain_one`. */
    method DrainBegin() returns (work: Option<Event>)
      modifies this
      ensures var (q, e) := EventQueue.DrainBegin(old(State())); State() == q && work == e
    {
      if |events| == 0 {
        scheduled := false;
        return None;
      }
      var e := events[0];
      events := events[1..];
      if e.frame {
        frameCount := frameCount - 1;
      }
      executing := true;
      work := Some(e);
    }

    /** Second lock block of `_drain_one`. */
    method DrainEnd() returns (pending: bool)
      modifies this
      ensures var (q, again) := EventQueue.DrainEnd(old(State())); State() == q && pending == again
    {
      executing := false;
      pending := |events| > 0;
      if !pending {
        scheduled := false;
      }
    }

    /** `post_native_task` once its wait loop has let the caller through. */
    method PostNativeTask(stamp: nat, task: Value) returns (ok: bool, schedule: bool)
      requires !TaskBlocked(State())
      modifies this
      ensures
        var (q, outcome) := PostTask(old(State()), stamp, task);
        State() == q && ok == Accepts(outcome) && schedule == (outcome.Accepted? && outcome.schedule)
    {
      if closed {
        return false, false;
      }
      events := events + [Event(stamp, NATIVE_TASK, [task], false, true)];
      schedule := !scheduled;
      scheduled := true;
      ok := true;
    }

    /** `close` up to its wait loop, which then waits for `CloseDone`. */
    method CloseBegin()
      modifies this
      ensures State() == EventQueue.Close(old(State()))
    {
      closed := true;
    }

    method Discard()
      modifies this
      ensures State() == EventQueue.Discard(old(State()))
    {
      closed := true;
      var kept: seq<Event> := [];
      var index := 0;
      while index < |events|
        invariant 0 <= index <= |events| && events == old(events) && closed
        invariant kept == NativeTasks(events[..index])
        invariant executing == old(executing) && scheduled == old(scheduled) && dropped == old(dropped)
      {
        assert events[..index + 1][..index] == events[..index];
        if events[index].kind == NATIVE_TASK {
          kept := kept + [events[index]];
        }
        index := index + 1;
      }
      assert events[..index] == events;
      events := kept;
      frameCount := 0;
      if |events| == 0 && !executing {
        scheduled := false;
      }
    }
  }
}
