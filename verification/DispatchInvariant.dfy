/** The whole invariant of one dispatcher, kept by every block any thread can run on it. */
module DispatchInvariant {
  import opened EventQueue
  import opened DispatchHistory
  import opened QueueBounds
  import opened FrameAccounting

  /** Native tasks are never evicted, overwritten or discarded. */
  ghost predicate TasksNeverLost(h: Disp) {
    forall i :: 0 <= i < |h.sent| && i < |h.fates| && h.sent[i].kind == NATIVE_TASK ==>
      h.fates[i] in {Denied, Queued, Running, Done}
  }

  /** What is in the queue. */
  ghost predicate Limits(h: Disp) {
    FramesBounded(h.q) && (h.q.capacity >= 1 ==> Bounded(h.q)) && LatestFresh(h)
  }

  /** What has become of what was posted. */
  ghost predicate Accounts(h: Disp) {
    InOrder(h) && LossesCovered(h) && TasksNeverLost(h)
  }

  ghost predicate DispInv(h: Disp) {
    Identity(h) && Limits(h) && Accounts(h)
  }

  lemma DispInvInitially(capacity: nat, frameCapacity: nat)
    ensures DispInv(New(capacity, frameCapacity))
  {
  }

  lemma TasksNeverLostKept(h: Disp, op: Op)
    requires Identity(h) && TasksNeverLost(h) && Enabled(h, op)
    ensures TasksNeverLost(Apply(h, op))
  {
    var r := Apply(h, op);
    forall i | 0 <= i < |r.sent| && i < |r.fates| && r.sent[i].kind == NATIVE_TASK
      ensures r.fates[i] in {Denied, Queued, Running, Done}
    {
      if i < |h.sent| {
        assert h.sent[i].kind == NATIVE_TASK && Tagged(h.sent[i]);
        FatesForward(h, op, i);
        TerminalsSafe(h, op, i);
      }
    }
  }

  lemma LimitsKept(h: Disp, op: Op)
    requires Identity(h) && Limits(h) && Enabled(h, op)
    ensures Limits(Apply(h, op))
  {
    FramesBoundedKept(h, op);
    if h.q.capacity >= 1 {
      BoundedKept(h, op);
    }
    LatestFreshKept(h, op);
  }

  lemma AccountsKept(h: Disp, op: Op)
    requires Identity(h) && Accounts(h) && Enabled(h, op)
    ensures Accounts(Apply(h, op))
  {
    InOrderKept(h, op);
    LossesCoveredKept(h, op);
    TasksNeverLostKept(h, op);
  }

  lemma DispInvKept(h: Disp, op: Op)
    requires DispInv(h) && Enabled(h, op)
    ensures DispInv(Apply(h, op))
  {
    assert Identity(Apply(h, op)) by { IdentityKept(h, op); }
    assert Limits(Apply(h, op)) by { LimitsKept(h, op); }
    assert Accounts(Apply(h, op)) by { AccountsKept(h, op); }
  }
}
