/** The condition variable of a dispatcher: threads asleep in `barrier`, `close` and
    `post_native_task` beside the scheduler, woken by `notify_all` only. */
module Waiters {
  import opened EventQueue
  import opened Scheduler
  import opened SchedulerProgress

  datatype Wait = OnBarrier | OnClose | OnRoom

  /** What the wait loop tests under the lock. */
  predicate Met(q: Queue, wait: Wait) {
    match wait
    case OnBarrier => BarrierDone(q)
    case OnClose => CloseDone(q)
    case OnRoom => !TaskBlocked(q)
  }

  /** Asleep: one pair of dispatcher and wait loop stands for any number of threads in it. */
  datatype State = State(s: System, asleep: set<(nat, Wait)>)

  datatype Move = Run(step: Step) | Sleep(d: nat, wait: Wait)

  ghost predicate CanMove(w: State, move: Move) {
    match move
    case Run(step) => CanStep(w.s, step)
    case Sleep(d, wait) => d < |w.s.disps| && !Met(w.s.disps[d].q, wait)
  }

  /** A notified thread wakes up and tests again; it may go back to sleep with a new `Sleep`. */
  ghost function After(w: State, move: Move): State
    requires CanMove(w, move)
  {
    match move
    case Run(step) => State(Next(w.s, step), set x | x in w.asleep && !Notifies(w.s, step, x.0))
    case Sleep(d, wait) => w.(asleep := w.asleep + {(d, wait)})
  }

  ghost predicate Sound(w: State) {
    forall x :: x in w.asleep ==> x.0 < |w.s.disps| && !Met(w.s.disps[x.0].q, x.1)
  }

  ghost predicate MovePath(w: State, moves: seq<Move>, r: State)
    decreases |moves|
  {
    if moves == [] then r == w else CanMove(w, moves[0]) && MovePath(After(w, moves[0]), moves[1..], r)
  }

  lemma SoundKept(w: State, move: Move)
    requires Inv(w.s) && Sound(w) && CanMove(w, move)
    ensures Inv(After(w, move).s) && Sound(After(w, move))
  {
    if move.Run? {
      InvKept(w.s, move.step);
      forall x | x in After(w, move).asleep
        ensures x.0 < |After(w, move).s.disps| && !Met(After(w, move).s.disps[x.0].q, x.1)
      {
        WakeupsSent(w.s, move.step, x.0);
      }
    }
  }

  lemma WorkersKept(w: State, move: Move)
    requires CanMove(w, move)
    ensures After(w, move).s.workers == w.s.workers
  {
  }

  lemma {:induction false} SoundAlong(w: State, moves: seq<Move>, r: State)
    requires Inv(w.s) && Sound(w) && MovePath(w, moves, r)
    ensures Inv(r.s) && Sound(r) && r.s.workers == w.s.workers
    decreases |moves|
  {
    if moves != [] {
      SoundKept(w, moves[0]);
      WorkersKept(w, moves[0]);
      SoundAlong(After(w, moves[0]), moves[1..], r);
    }
  }

  /** No lost wakeup, over every run: nobody ever sleeps on a condition that is met, and when the
      workers have nothing left to do nobody sleeps in `barrier` or `close`, nor in `post_native_task`
      of a closed dispatcher or for a capacity of at least one. */
  lemma NobodyLeftAsleep(workers: nat, moves: seq<Move>, r: State, x: (nat, Wait))
    requires MovePath(State(Initial(workers), {}), moves, r) && x in r.asleep
    ensures x.0 < |r.s.disps| && !Met(r.s.disps[x.0].q, x.1)
    ensures workers >= 1 && (forall step :: Internal(step) ==> !CanStep(r.s, step)) ==>
              x.1 == OnRoom && r.s.disps[x.0].q.capacity == 0 && !r.s.disps[x.0].q.closed
  {
    SoundAlong(State(Initial(workers), {}), moves, r);
    if workers >= 1 && forall step :: Internal(step) ==> !CanStep(r.s, step) {
      DrainComplete(r.s, x.0);
    }
  }
}
