/** Exactly when a thread that waits from inside a callback can be caught in a cycle of waits: the
    continuation is constructed for every state, with one exception. */
module CloseTraps {
  import opened Wrappers
  import opened CloseWaits
  import opened CloseCycles
  import opened CloseFlags
  import opened CloseRuns

  // ---- The waiting thread and its helpers ---------------------------------------------------------------

  /** Thread `v` waits for the callbacks of `y`: itself, or as the first of threads of which each has
      joined a close of the next. */
  ghost predicate WaitsFor(s: System, v: nat, ws: seq<nat>, y: nat) {
    && |ws| >= 1 && v < |s.calls| && Leads(s, v, ws, ws[|ws| - 1]) && ws[|ws| - 1] < |s.calls|
    && WaitsOn(s.calls[ws[|ws| - 1]]) == Some(y)
  }

  /** Closes that go on in `s` go on in `r`. */
  ghost predicate GenerationsSame(s: System, r: System) {
    |s.objects| == |r.objects| &&
    forall x :: 0 <= x < |s.objects| && s.objects[x].status.Closing? ==>
      r.objects[x].status.Closing? && r.objects[x].generation == s.objects[x].generation
  }

  ghost predicate CallsSame(s: System, r: System, cs: seq<nat>) {
    forall i :: 0 <= i < |cs| && cs[i] < |s.calls| ==> cs[i] < |r.calls| && r.calls[cs[i]] == s.calls[cs[i]]
  }

  lemma LeadsSame(s: System, r: System, b: nat, cs: seq<nat>, a: nat)
    requires Leads(s, b, cs, a) && CallsSame(s, r, cs) && GenerationsSame(s, r)
    ensures Leads(r, b, cs, a)
  {
    forall i | 0 <= i < |cs| - 1 ensures Blocks(r, cs[i], cs[i + 1]) {
      assert Blocks(s, cs[i], cs[i + 1]);
      BlocksSame(s, r, cs[i], cs[i + 1]);
    }
  }

  lemma WaitsSame(s: System, r: System, v: nat, ws: seq<nat>, y: nat)
    requires WaitsFor(s, v, ws, y) && CallsSame(s, r, ws) && GenerationsSame(s, r)
    ensures WaitsFor(r, v, ws, y)
  {
    LeadsSame(s, r, v, ws, ws[|ws| - 1]);
  }

  /** What a thread waits for is an output or in the middle of its close. */
  lemma WaitedLive(s: System, h: nat, y: nat)
    requires All(s) && h < |s.calls| && WaitsOn(s.calls[h]) == Some(y)
    ensures y < |s.kinds| && HasCallbacks(s.kinds[y]) && !s.objects[y].status.Unborn? && !s.objects[y].status.Closed?
    ensures s.kinds[y].OutputKind? || s.objects[y].status.Closing?
  {
    var c := s.calls[h];
    assert CallOk(s.kinds, c);
    if Releasing(c, y) {
      ReleaserFacts(s, h, y);
    } else {
      assert Holds(s, h, |c.stack| - 1, y);
      assert Passed(s.kinds, c.owner, Top(c).seen, Top(c).target);
    }
  }

  /** Somebody waits for `v` as well: it is caught already. */
  lemma CaughtNow(s: System, v: nat, ws: seq<nat>, i: nat)
    requires 1 <= i < |ws| && ws[i] == v == ws[0] && forall j :: 0 <= j < |ws| - 1 ==> Blocks(s, ws[j], ws[j + 1])
    ensures CanTrap(s, v)
  {
    var cs := ws[..i + 1];
    assert Cycle(s, cs) && cs[0] == v;
    assert Run(s, [], s, {v});
    assert Gets(s, s, {v}) && Trapped(s, v);
  }

  lemma CaughtBehind(s: System, v: nat, ws: seq<nat>, i: nat)
    requires 0 <= i < |ws| && ws[0] == v && forall j :: 0 <= j < |ws| - 1 ==> Blocks(s, ws[j], ws[j + 1])
    requires Blocks(s, ws[i], v)
    ensures CanTrap(s, v)
  {
    var cs := ws[..i + 1] + [v];
    forall j | 0 <= j < |cs| - 1 ensures Blocks(s, cs[j], cs[j + 1]) {
      assert j < i ==> Blocks(s, ws[j], ws[j + 1]);
    }
    CaughtNow(s, v, cs, i + 1);
  }

  /** In a state that is calm but for `v`, the others of the chain run no callback and are in closes. */
  lemma ChainLink(s: System, v: nat, ws: seq<nat>, y: nat, k: nat)
    requires Calm(s, Some(v)) && WaitsFor(s, v, ws, y) && v !in ws[1..] && 1 <= k < |ws|
    ensures ws[k] < |s.calls| && ws[k] != v && s.calls[ws[k]].owner.None?
    ensures s.calls[ws[k - 1]].phase.Joined? && HoldsClose(s, ws[k], s.calls[ws[k - 1]].phase.t)
    ensures s.calls[ws[k]].stack != []
    ensures s.calls[ws[k]].phase.Joined? || s.calls[ws[k]].phase.Waiting?
  {
    assert Blocks(s, ws[k - 1], ws[k]);
    assert ws[1..][k - 1] == ws[k];
    if k < |ws| - 1 {
      assert Blocks(s, ws[k], ws[k + 1]);
    }
    assert !Free(s.calls[ws[k]]);
    assert CallOk(s.kinds, s.calls[ws[k]]);
  }

  /** And each is inside the close that `v` has joined. */
  lemma {:induction false} ChainUnder(s: System, v: nat, ws: seq<nat>, y: nat, k: nat)
    requires Calm(s, Some(v)) && WaitsFor(s, v, ws, y) && v !in ws[1..] && 1 <= k < |ws|
    ensures s.calls[v].phase.Joined? && ws[k] < |s.calls| && s.calls[ws[k]].stack != []
    ensures Top(s.calls[ws[k]]).target < |s.kinds|
    ensures Under(s.kinds, Top(s.calls[ws[k]]).target, s.calls[v].phase.t)
    decreases k
  {
    ChainLink(s, v, ws, y, k);
    var c, t := s.calls[ws[k]], s.calls[ws[k - 1]].phase.t;
    var i: nat :| Holds(s, ws[k], i, t);
    assert CallOk(s.kinds, c);
    StackUnder(s.kinds, c.owner, c.stack, i);
    StackHeights(s.kinds, c.owner, c.stack, i);
    if k > 1 {
      ChainLink(s, v, ws, y, k - 1);
      ChainUnder(s, v, ws, y, k - 1);
      var d := s.calls[ws[k - 1]];
      assert CallOk(s.kinds, d);
      assert Under(s.kinds, t, Top(d).target);
      UnderTransitive(s.kinds, t, Top(d).target, s.calls[v].phase.t);
      UnderTransitive(s.kinds, Top(c).target, t, s.calls[v].phase.t);
    }
  }

  // ---- The trap closes ----------------------------------------------------------------------------------

  /** A callback of `y` that waits for the spare export, whose callback leads back to `v`. */
  lemma CycleClosed(s: System, v: nat, ws: seq<nat>, y: nat, b: nat, c: nat, cs: seq<nat>)
    requires WaitsFor(s, v, ws, y) && Leads(s, c, cs, v)
    requires b < |s.calls| && s.calls[b].owner == Some(y) && Blocks(s, b, c)
    ensures Trapped(s, v)
  {
    var n := |ws|;
    assert Blocks(s, ws[n - 1], b);
    var all := ws + [b] + cs;
    forall i | 0 <= i < |all| - 1 ensures Blocks(s, all[i], all[i + 1]) {
      if i > n {
        assert all[i] == cs[i - n - 1] && all[i + 1] == cs[i - n];
      } else if i < n - 1 {
        assert all[i] == ws[i] && all[i + 1] == ws[i + 1];
      }
    }
    assert all[0] == v && all[|all| - 1] == v;
    assert Cycle(s, all) && v in all;
  }

  lemma ExportEmpty(s: System, z: nat)
    requires Inv(s) && z < |s.kinds| && s.kinds[z].ExportKind?
    ensures s.objects[z].members == {}
  {
    assert ObjectOk(s.kinds, z, s.objects[z]);
    forall x ensures x !in s.objects[z].members {
      assert x in s.objects[z].members ==> Belongs(s.kinds, x, z);
    }
  }

  lemma ExportCloses(s: System, b: nat, z: nat, still: set<nat>) returns (r: System)
    requires Inv(s) && b < |s.calls| && b !in still && IsIdle(s.calls[b]) && s.calls[b].owner != Some(z)
    requires z < |s.kinds| && s.kinds[z].ExportKind? && s.objects[z].status.Open?
    ensures Gets(s, r, still) && GenerationsSame(s, r)
    ensures |r.calls| == |s.calls| && r.calls == s.calls[b := r.calls[b]]
    ensures r.calls[b].owner == s.calls[b].owner && r.calls[b].phase == Waiting(z)
  {
    ExportEmpty(s, z);
    var m := Next(s, Enter(b, z));
    GetsStep(s, Enter(b, z), still);
    assert Top(m.calls[b]) == Frame(z, {}, OwnerBound(s, s.calls[b]));
    r := Next(m, WaitOwn(b));
    GetsStep(m, WaitOwn(b), still);
    GetsTransitive(s, m, r, still);
  }

  /** Threads in callbacks, `v` and `c` apart, can return. */
  ghost predicate FreeBut(s: System, v: nat, c: nat) {
    forall a :: 0 <= a < |s.calls| && s.calls[a].owner.Some? && a != v && a != c ==> Free(s.calls[a])
  }

  lemma NewCallbackCloses(s: System, y: nat, z: nat, still: set<nat>) returns (r: System)
    requires All(s) && y < |s.kinds| && HasCallbacks(s.kinds[y]) && y != z && |s.calls| !in still && Quiet(s, y)
    requires !s.objects[y].status.Unborn? && !s.objects[y].status.Closed?
    requires z < |s.kinds| && s.kinds[z].ExportKind? && s.objects[z].status.Open?
    ensures Gets(s, r, still) && |r.calls| == |s.calls| + 1 && GenerationsSame(s, r)
    ensures forall a :: 0 <= a < |s.calls| ==> r.calls[a] == s.calls[a]
    ensures r.calls[|s.calls|].owner == Some(y) && r.calls[|s.calls|].phase == Waiting(z)
  {
    var m := Next(s, Thread(Some(y)));
    InvKept(s, Thread(Some(y)));
    GetsStep(s, Thread(Some(y)), still);
    r := ExportCloses(m, |s.calls|, z, still);
    GetsTransitive(s, m, r, still);
  }

  lemma OldCallbackCloses(s: System, b: nat, z: nat, still: set<nat>) returns (r: System)
    requires Inv(s) && b < |s.calls| && b !in still && Free(s.calls[b]) && s.calls[b].owner != Some(z)
    requires z < |s.kinds| && s.kinds[z].ExportKind? && s.objects[z].status.Open?
    ensures Gets(s, r, still) && GenerationsSame(s, r)
    ensures |r.calls| == |s.calls| && r.calls == s.calls[b := r.calls[b]]
    ensures r.calls[b].owner == s.calls[b].owner && r.calls[b].phase == Waiting(z)
  {
    if s.calls[b].phase.AttachHeld? {
      var m := Next(s, AttachEnd(b, false));
      InvKept(s, AttachEnd(b, false));
      GetsStep(s, AttachEnd(b, false), still);
      r := ExportCloses(m, b, z, still);
      GetsTransitive(s, m, r, still);
    } else {
      r := ExportCloses(s, b, z, still);
    }
  }

  /** The thread in a callback of `y`, or else a new one, closes the spare export. */
  lemma CallbackCloses(s: System, v: nat, c: nat, y: nat, z: nat) returns (r: System, b: nat)
    requires All(s) && FreeBut(s, v, c) && v < |s.calls| && c < |s.calls|
    requires s.calls[v].owner != Some(y) && s.calls[c].owner == Some(z)
    requires y < |s.kinds| && HasCallbacks(s.kinds[y]) && y != z
    requires !s.objects[y].status.Unborn? && !s.objects[y].status.Closed?
    requires z < |s.kinds| && s.kinds[z].ExportKind? && s.objects[z].status.Open?
    ensures Gets(s, r, {v}) && GenerationsSame(s, r)
    ensures |s.calls| <= |r.calls| && b < |r.calls| && (b < |s.calls| ==> Free(s.calls[b]) && b != c)
    ensures forall a :: 0 <= a < |s.calls| && a != b ==> r.calls[a] == s.calls[a]
    ensures r.calls[b].owner == Some(y) && r.calls[b].phase == Waiting(z)
  {
    if Quiet(s, y) {
      b := |s.calls|;
      r := NewCallbackCloses(s, y, z, {v});
    } else {
      b :| b < |s.calls| && s.calls[b].owner == Some(y);
      r := OldCallbackCloses(s, b, z, {v});
    }
  }

  /** Whoever is on the way to `a` waits. */
  lemma LeadsWait(s: System, b: nat, cs: seq<nat>, a: nat, x: nat)
    requires Leads(s, b, cs, a) && x in cs && x != a
    ensures x < |s.calls| && !s.calls[x].phase.Working? && !s.calls[x].phase.AttachHeld?
  {
    var i :| 0 <= i < |cs| && cs[i] == x;
    assert Blocks(s, cs[i], cs[i + 1]);
  }

  /** Everybody in the chain waits. */
  lemma ChainWaits(s: System, v: nat, ws: seq<nat>, y: nat)
    requires WaitsFor(s, v, ws, y)
    ensures forall a :: a in ws ==> a < |s.calls| && !s.calls[a].phase.Working? && !s.calls[a].phase.AttachHeld?
  {
    forall a | a in ws ensures a < |s.calls| && !s.calls[a].phase.Working? && !s.calls[a].phase.AttachHeld? {
      if a != ws[|ws| - 1] {
        LeadsWait(s, v, ws, ws[|ws| - 1], a);
      }
    }
  }

  /** A thread that could go on is on neither way. */
  lemma FreeApart(s: System, r: System, v: nat, ws: seq<nat>, y: nat, c: nat, cs: seq<nat>, b: nat)
    requires WaitsFor(s, v, ws, y) && Leads(s, c, cs, v) && (b < |s.calls| ==> Free(s.calls[b]))
    requires |s.calls| <= |r.calls| && forall a :: 0 <= a < |s.calls| && a != b ==> r.calls[a] == s.calls[a]
    ensures CallsSame(s, r, ws) && CallsSame(s, r, cs)
  {
    ChainWaits(s, v, ws, y);
    assert v == ws[0] && v in ws;
    forall i | 0 <= i < |ws| ensures ws[i] < |s.calls| && ws[i] != b {
      assert ws[i] in ws;
    }
    forall i | 0 <= i < |cs| ensures cs[i] < |s.calls| && cs[i] != b {
      if cs[i] != v {
        LeadsWait(s, c, cs, v, cs[i]);
      }
    }
  }

  lemma TrapShut(s: System, r: System, v: nat, ws: seq<nat>, y: nat, b: nat, c: nat, z: nat, cs: seq<nat>)
    requires WaitsFor(s, v, ws, y) && Leads(s, c, cs, v) && c < |s.calls| && s.calls[c].owner == Some(z)
    requires CallsSame(s, r, ws) && CallsSame(s, r, cs) && GenerationsSame(s, r)
    requires b < |r.calls| && r.calls[b].owner == Some(y) && r.calls[b].phase == Waiting(z)
    ensures Trapped(r, v)
  {
    WaitsSame(s, r, v, ws, y);
    LeadsSame(s, r, c, cs, v);
    assert r.calls[cs[0]] == s.calls[c];
    assert Blocks(r, b, c);
    CycleClosed(r, v, ws, y, b, c, cs);
  }

  /** Once the callback of the spare export leads back to `v`, the trap closes. */
  lemma TrapFinish(s: System, v: nat, ws: seq<nat>, y: nat, c: nat, z: nat, cs: seq<nat>)
    requires All(s) && WaitsFor(s, v, ws, y) && Leads(s, c, cs, v) && c < |s.calls| && s.calls[c].owner == Some(z)
    requires z < |s.kinds| && s.kinds[z].ExportKind? && s.objects[z].status.Open? && FreeBut(s, v, c)
    ensures CanTrap(s, v)
  {
    if s.calls[v].owner == Some(y) {
      CaughtBehind(s, v, ws, |ws| - 1);
    } else {
      WaitedLive(s, ws[|ws| - 1], y);
      var r, b := CallbackCloses(s, v, c, y, z);
      FreeApart(s, r, v, ws, y, c, cs, b);
      TrapShut(s, r, v, ws, y, b, c, z, cs);
    }
  }

  // ---- Spare objects ------------------------------------------------------------------------------------

  /** A Client with one CloudStorage, which has an export and a replay. */
  datatype Spares = Spares(client: nat, cloud: nat, task: nat, replay: nat)

  predicate SparesOk(u: Universe, k: Spares) {
    && k.client < |u| && k.cloud < |u| && k.task < |u| && k.replay < |u|
    && u[k.client].ClientKind? && u[k.cloud] == CloudKind(k.client)
    && u[k.task] == ExportKind(k.cloud) && u[k.replay] == ReplayKind(k.cloud)
  }

  /** All four have this status. */
  ghost predicate Are(s: System, k: Spares, status: Status) {
    && SparesOk(s.kinds, k) && |s.objects| == |s.kinds|
    && s.objects[k.client].status == status && s.objects[k.cloud].status == status
    && s.objects[k.task].status == status && s.objects[k.replay].status == status
  }

  /** Nothing that exists has changed, apart from the sets of parents. */
  ghost predicate BornSame(s: System, r: System) {
    && |s.objects| == |r.objects| && r.kinds == s.kinds && BoundsFewer(s, r)
    && (forall x :: 0 <= x < |s.objects| && !s.objects[x].status.Unborn? ==>
          r.objects[x] == s.objects[x].(members := r.objects[x].members))
  }

  lemma Creates(s: System, x: nat, still: set<nat>, v: nat) returns (r: System)
    requires Ready(s, v) && CanStep(s, Create(x))
    ensures Ready(r, v) && Gets(s, r, still) && BornSame(s, r) && r.calls == s.calls && r.objects[x].status.Open?
    ensures forall o :: 0 <= o < |s.objects| && o != x ==> r.objects[o].status == s.objects[o].status
  {
    r := Next(s, Create(x));
    ReadyStep(s, Create(x), v);
    GetsStep(s, Create(x), still);
  }

  lemma BornTransitive(s: System, m: System, r: System, still: set<nat>)
    requires Gets(s, m, still) && BornSame(s, m) && Gets(m, r, still) && BornSame(m, r)
    ensures Gets(s, r, still) && BornSame(s, r)
  {
    GetsTransitive(s, m, r, still);
  }

  lemma SparesBorn(s: System, k: Spares, still: set<nat>, v: nat) returns (r: System)
    requires Ready(s, v) && Are(s, k, Unborn)
    ensures Ready(r, v) && Gets(s, r, still) && BornSame(s, r) && r.calls == s.calls && Are(r, k, Open)
  {
    var s1 := Creates(s, k.client, still, v);
    var s2 := Creates(s1, k.cloud, still, v);
    BornTransitive(s, s1, s2, still);
    var s3 := Creates(s2, k.task, still, v);
    BornTransitive(s, s2, s3, still);
    r := Creates(s3, k.replay, still, v);
    BornTransitive(s, s3, r, still);
  }

  /** A new thread, in no callback or in one of a live object. */
  lemma NewThread(s: System, owner: Option<nat>, still: set<nat>, v: nat) returns (r: System)
    requires Ready(s, v) && CanStep(s, Thread(owner)) && (owner.Some? ==> Quiet(s, owner.value))
    ensures Ready(r, v) && Gets(s, r, still) && r == s.(calls := s.calls + [Call(owner, [], Working)])
  {
    r := Next(s, Thread(owner));
    ReadyStep(s, Thread(owner), v);
    GetsStep(s, Thread(owner), still);
  }

  /** The spare objects are there, and `c` is in a callback of the spare export. */
  ghost predicate Armed(s: System, v: nat, ws: seq<nat>, y: nat, c: nat, k: Spares) {
    && Ready(s, v) && WaitsFor(s, v, ws, y) && Are(s, k, Open)
    && c < |s.calls| && c !in ws && s.calls[c] == Call(Some(k.task), [], Working)
  }

  lemma Equip(s: System, v: nat, ws: seq<nat>, y: nat, k: Spares) returns (r: System)
    requires Ready(s, v) && WaitsFor(s, v, ws, y) && Are(s, k, Unborn)
    ensures Armed(r, v, ws, y, |s.calls|, k) && Gets(s, r, {v}) && BornSame(s, r)
    ensures r.calls == s.calls + [Call(Some(k.task), [], Working)]
  {
    var m := SparesBorn(s, k, {v}, v);
    r := NewThread(m, Some(k.task), {v}, v);
    GetsTransitive(s, m, r, {v});
    WaitsSame(s, r, v, ws, y);
    forall i | 0 <= i < |ws| ensures ws[i] < |s.calls| {
      assert i < |ws| - 1 ==> Blocks(s, ws[i], ws[i + 1]);
    }
  }

  // ---- The spare callback is led to the waiting thread --------------------------------------------------

  lemma ArmedKept(s: System, r: System, v: nat, ws: seq<nat>, y: nat, c: nat, k: Spares)
    requires Armed(s, v, ws, y, c, k) && Ready(r, v) && r.kinds == s.kinds
    requires CallsSame(s, r, ws) && c < |r.calls| && r.calls[c] == s.calls[c]
    requires GenerationsSame(s, r) && Are(r, k, Open)
    ensures Armed(r, v, ws, y, c, k)
  {
    WaitsSame(s, r, v, ws, y);
  }

  lemma OthersFree(s: System, step: Step, v: nat, c: nat)
    requires CallbacksFree(s, Some(v)) && CanStep(s, step) && Moves(step) && step.a == c
    ensures
      var r := Next(s, step);
      && c < |s.calls| == |r.calls| && FreeBut(r, v, c)
      && forall b :: 0 <= b < |s.calls| && b != c ==> r.calls[b] == s.calls[b]
  {
    CallsLength(s, step);
    forall b | 0 <= b < |s.calls| && b != c ensures Next(s, step).calls[b] == s.calls[b] {
      OthersStay(s, step, b);
    }
  }

  /** A step of `c`. */
  lemma SpareStep(s: System, step: Step, v: nat, ws: seq<nat>, y: nat, c: nat, k: Spares)
    requires Armed(s, v, ws, y, c, k) && CanStep(s, step) && Moves(step) && step.a == c
    requires !step.CallbackReturns? && StatusSame(s, Next(s, step))
    ensures
      var r := Next(s, step);
      && All(r) && WaitsFor(r, v, ws, y) && Are(r, k, Open) && r.calls[c].owner == Some(k.task)
      && Gets(s, r, {v}) && FreeBut(r, v, c) && |r.calls| == |s.calls|
      && forall b :: 0 <= b < |s.calls| && b != c ==> r.calls[b] == s.calls[b]
  {
    InvKept(s, step);
    FlagsKept(s, step);
    ObjectsLength(s, step);
    OwnerFixed(s, step, c);
    OthersFree(s, step, v, c);
    assert v == ws[0];
    GetsStep(s, step, {v});
    WaitsSame(s, Next(s, step), v, ws, y);
  }

  lemma SpareMayJoin(s: System, c: nat, k: Spares, e: nat, t: nat)
    requires Inv(s) && Are(s, k, Open) && c < |s.calls| && s.calls[c] == Call(Some(k.task), [], Working)
    requires e != c && HoldsClose(s, e, t)
    ensures CanStep(s, Enter(c, t))
    ensures
      var r := Next(s, Enter(c, t));
      r.objects == s.objects && Blocks(r, c, e)
  {
    var i: nat :| Holds(s, e, i, t);
    assert CallOk(s.kinds, s.calls[e]);
    assert Passed(s.kinds, s.calls[e].owner, s.calls[e].stack[i].seen, t);
    assert ObjectOk(s.kinds, k.task, s.objects[k.task]);
    assert Holds(Next(s, Enter(c, t)), e, i, t);
  }

  /** It can join every close that goes on. */
  lemma SpareJoins(s: System, v: nat, ws: seq<nat>, y: nat, c: nat, k: Spares, e: nat, t: nat) returns (r: System)
    requires Armed(s, v, ws, y, c, k) && e != c && HoldsClose(s, e, t)
    ensures All(r) && WaitsFor(r, v, ws, y) && Are(r, k, Open) && c < |r.calls| && r.calls[c].owner == Some(k.task)
    ensures Gets(s, r, {v}) && Blocks(r, c, e) && GenerationsSame(s, r) && FreeBut(r, v, c)
    ensures forall b :: 0 <= b < |s.calls| && b != c ==> b < |r.calls| && r.calls[b] == s.calls[b]
  {
    SpareMayJoin(s, c, k, e, t);
    r := Next(s, Enter(c, t));
    SpareStep(s, Enter(c, t), v, ws, y, c, k);
  }

  /** First case: the waiting thread is in a close of its own. */
  lemma TrapCloser(s: System, v: nat, ws: seq<nat>, y: nat, c: nat, k: Spares)
    requires Armed(s, v, ws, y, c, k) && s.calls[v].stack != []
    ensures CanTrap(s, v)
  {
    var t := Top(s.calls[v]).target;
    assert Holds(s, v, |s.calls[v].stack| - 1, t);
    assert v == ws[0];
    var r := SpareJoins(s, v, ws, y, c, k, v, t);
    assert Leads(r, c, [c, v], v);
    TrapFinish(r, v, ws, y, c, k.task, [c, v]);
    TrapLater(s, r, v);
  }

  /** Through another thread `e` that waits for the callback of `v`, in a close of `t`. */
  lemma TrapThrough(s: System, v: nat, ws: seq<nat>, y: nat, c: nat, k: Spares, e: nat, t: nat)
    requires Armed(s, v, ws, y, c, k) && e != c && HoldsClose(s, e, t) && Blocks(s, e, v)
    ensures CanTrap(s, v)
  {
    assert v == ws[0];
    var r := SpareJoins(s, v, ws, y, c, k, e, t);
    BlocksSame(s, r, e, v);
    assert Leads(r, c, [c, e, v], v);
    TrapFinish(r, v, ws, y, c, k.task, [c, e, v]);
    TrapLater(s, r, v);
  }

  /** Second case: the callback is one of a replay or of an export `x`, which `e` closes. */
  lemma TrapDispatcher(s: System, v: nat, ws: seq<nat>, y: nat, c: nat, k: Spares, x: nat, e: nat)
    requires Armed(s, v, ws, y, c, k) && s.calls[v].owner == Some(x) && e != c && e !in ws
    requires Closes(s, e, x) && Aside(s, Chain(ws) + {c}, x)
    ensures CanTrap(s, v)
  {
    var still := Chain(ws) + {c};
    assert v == ws[0];
    var m := CloserWaits(s, e, x, still, v);
    GetsFewer(s, m, still, {v});
    ArmedKept(s, m, v, ws, y, c, k);
    assert Holds(m, e, |m.calls[e].stack| - 1, x);
    TrapThrough(m, v, ws, y, c, k, e, x);
    TrapLater(s, m, v);
  }

  function Chain(ws: seq<nat>): set<nat> {
    set a | a in ws
  }

  /** Third case: the callback is one of an output that nobody is detaching and that is bound. */
  lemma TrapDetach(s: System, v: nat, ws: seq<nat>, y: nat, c: nat, k: Spares, x: nat)
    requires Armed(s, v, ws, y, c, k) && s.calls[v].owner == Some(x) && x < |s.objects|
    requires s.objects[x].bound.Some? && !s.objects[x].detaching
    ensures CanTrap(s, v)
  {
    assert ObjectOk(s.kinds, x, s.objects[x]);
    forall a | 0 <= a < |s.calls| ensures !Attaching(s.calls[a], x) {
    }
    assert v == ws[0];
    var step := DetachStart(c, x);
    var r := Next(s, step);
    SpareStep(s, step, v, ws, y, c, k);
    assert Blocks(r, c, v);
    assert Leads(r, c, [c, v], v);
    TrapFinish(r, v, ws, y, c, k.task, [c, v]);
    TrapLater(s, r, v);
  }

  lemma AttachDone(s: System, a: nat, x: nat, still: set<nat>, v: nat) returns (r: System)
    requires Ready(s, v) && a < |s.calls| && a !in still && x < |s.objects| && Attaching(s.calls[a], x)
    ensures Ready(r, v) && Gets(s, r, still) && r.kinds == s.kinds && StatusSame(s, r)
    ensures |r.calls| == |s.calls| && r.calls == s.calls[a := r.calls[a]]
    ensures r.objects[x].bound.Some? && !r.objects[x].detaching
  {
    var step := AttachEnd(a, true);
    r := Next(s, step);
    ReadyStep(s, step, v);
    GetsStep(s, step, still);
  }

  /** An attach of the output succeeds. */
  lemma TrapAttached(s: System, v: nat, ws: seq<nat>, y: nat, c: nat, k: Spares, x: nat, a: nat)
    requires Armed(s, v, ws, y, c, k) && s.calls[v].owner == Some(x) && x < |s.objects|
    requires a < |s.calls| && Attaching(s.calls[a], x)
    ensures CanTrap(s, v)
  {
    ChainWaits(s, v, ws, y);
    assert v == ws[0];
    var r := AttachDone(s, a, x, {v}, v);
    ArmedKept(s, r, v, ws, y, c, k);
    TrapDetach(r, v, ws, y, c, k, x);
    TrapLater(s, r, v);
  }

  lemma AttachBegins(s: System, d: nat, x: nat, replay: nat, still: set<nat>, v: nat) returns (r: System)
    requires Ready(s, v) && CanStep(s, Attach(d, x, replay)) && d !in still
    ensures Ready(r, v) && Gets(s, r, still) && r.kinds == s.kinds && StatusSame(s, r)
    ensures |r.calls| == |s.calls| && r.calls == s.calls[d := r.calls[d]] && Attaching(r.calls[d], x)
  {
    var step := Attach(d, x, replay);
    r := Next(s, step);
    ReadyStep(s, step, v);
    GetsStep(s, step, still);
  }

  lemma NewAttacher(s: System, x: nat, replay: nat, still: set<nat>, v: nat) returns (r: System)
    requires Ready(s, v) && |s.calls| !in still && x < |s.kinds| && replay < |s.kinds|
    requires s.kinds[x].OutputKind? && s.objects[x].bound.None? && s.objects[x].status.Open? && LockFree(s, x)
    requires s.kinds[replay].ReplayKind? && s.objects[replay].status.Open?
    ensures Ready(r, v) && Gets(s, r, still) && r.kinds == s.kinds && StatusSame(s, r)
    ensures |r.calls| == |s.calls| + 1 && Attaching(r.calls[|s.calls|], x)
    ensures forall a :: 0 <= a < |s.calls| ==> r.calls[a] == s.calls[a]
  {
    var m := NewThread(s, None, still, v);
    assert LockFree(m, x);
    r := AttachBegins(m, |s.calls|, x, replay, still, v);
    GetsTransitive(s, m, r, still);
  }

  /** Nobody is attaching it, so a new thread does, to the spare replay. */
  lemma TrapUnbound(s: System, v: nat, ws: seq<nat>, y: nat, c: nat, k: Spares, x: nat)
    requires Armed(s, v, ws, y, c, k) && s.calls[v].owner == Some(x) && x < |s.objects|
    requires s.kinds[x].OutputKind? && s.objects[x].bound.None? && s.objects[x].status.Open? && LockFree(s, x)
    ensures CanTrap(s, v)
  {
    var r := NewAttacher(s, x, k.replay, {v}, v);
    ArmedKept(s, r, v, ws, y, c, k);
    TrapAttached(r, v, ws, y, c, k, x, |s.calls|);
    TrapLater(s, r, v);
  }

  /** A thread is in `detach` of the output `x`, waiting. */
  ghost predicate BeingDetached(s: System, x: nat) {
    exists a :: 0 <= a < |s.calls| && s.calls[a].phase.Detaching? && s.calls[a].phase.o == x
  }

  lemma TrapOutput(s: System, v: nat, ws: seq<nat>, y: nat, c: nat, k: Spares, x: nat)
    requires Armed(s, v, ws, y, c, k) && s.calls[v].owner == Some(x) && x < |s.objects|
    requires s.kinds[x].OutputKind? && !BeingDetached(s, x)
    ensures CanTrap(s, v)
  {
    if s.objects[x].detaching {
      assert HasReleaser(s, x);
      var e: nat :| e < |s.calls| && Releasing(s.calls[e], x);
      var t := Top(s.calls[e]).target;
      assert Holds(s, e, |s.calls[e].stack| - 1, t);
      TrapThrough(s, v, ws, y, c, k, e, t);
    } else if s.objects[x].bound.Some? {
      TrapDetach(s, v, ws, y, c, k, x);
    } else if LockFree(s, x) {
      TrapUnbound(s, v, ws, y, c, k, x);
    } else {
      var a :| 0 <= a < |s.calls| && Attaching(s.calls[a], x);
      TrapAttached(s, v, ws, y, c, k, x, a);
    }
  }

  /** The chain does not stand in the way of a close of `x`. */
  lemma ChainAside(s: System, v: nat, ws: seq<nat>, y: nat, x: nat)
    requires Calm(s, Some(v)) && WaitsFor(s, v, ws, y) && v !in ws[1..] && s.calls[v].owner == Some(x)
    ensures Aside(s, Chain(ws), x)
  {
    forall a | a in Chain(ws)
      ensures a < |s.calls| && !s.calls[a].phase.AttachHeld?
      ensures !(s.calls[a].phase.Detaching? && s.calls[a].phase.r == x)
      ensures s.calls[a].owner == Some(x) || s.calls[a].owner.None?
    {
      var i :| 0 <= i < |ws| && ws[i] == a;
      if i > 0 {
        ChainLink(s, v, ws, y, i);
      } else {
        ChainWaits(s, v, ws, y);
        assert CallOk(s.kinds, s.calls[v]);
      }
    }
  }

  /** Whoever closes the replay or export `x` is not in the chain, runs no callback and closes nothing
      further in. */
  lemma CloserApart(s: System, v: nat, ws: seq<nat>, y: nat, x: nat, e: nat)
    requires Calm(s, Some(v)) && WaitsFor(s, v, ws, y) && v !in ws[1..] && s.calls[v].owner == Some(x)
    requires s.calls[v].stack == [] && x < |s.kinds| && HasDispatcher(s.kinds[x]) && HoldsClose(s, e, x)
    ensures e !in ws && Closes(s, e, x)
  {
    var i: nat :| Holds(s, e, i, x);
    var c := s.calls[e];
    assert CallOk(s.kinds, c) && CallOk(s.kinds, s.calls[v]);
    StackHeights(s.kinds, c.owner, c.stack, i);
    assert !Free(c);
    forall j | 0 <= j < |ws| && ws[j] == e ensures false {
      if j > 0 {
        ChainUnder(s, v, ws, y, j);
      }
    }
  }

  lemma AsideAlso(s: System, r: System, still: set<nat>, c: nat, x: nat)
    requires Aside(s, still, x) && r.kinds == s.kinds && BoundsFewer(s, r) && c < |r.calls|
    requires forall a :: a in still ==> a < |s.calls| && a < |r.calls| && r.calls[a] == s.calls[a]
    requires r.calls[c].phase.Working? && !InOutputCallback(r.kinds, r.calls[c])
    ensures Aside(r, still + {c}, x)
  {
  }

  /** An idle thread in no callback begins the close of the replay or export `x`. */
  lemma CloseBegins(s: System, d: nat, x: nat, still: set<nat>, v: nat) returns (r: System)
    requires Ready(s, v) && d < |s.calls| && d !in still && s.calls[d] == Call(None, [], Working)
    requires x < |s.kinds| && HasDispatcher(s.kinds[x])
    requires s.objects[x].status.Open? || s.objects[x].status.CloseFailed?
    ensures Ready(r, v) && Gets(s, r, still) && r.kinds == s.kinds && GenerationsSame(s, r)
    ensures |r.calls| == |s.calls| && r.calls == s.calls[d := r.calls[d]] && Closes(r, d, x) && BoundsFewer(s, r)
    ensures forall o :: 0 <= o < |s.objects| && o != x ==> r.objects[o] == s.objects[o]
  {
    r := Next(s, Enter(d, x));
    ReadyStep(s, Enter(d, x), v);
    GetsStep(s, Enter(d, x), still);
  }

  lemma NewCloser(s: System, x: nat, still: set<nat>, v: nat) returns (r: System)
    requires Ready(s, v) && |s.calls| !in still && x < |s.kinds| && HasDispatcher(s.kinds[x])
    requires s.objects[x].status.Open? || s.objects[x].status.CloseFailed?
    ensures Ready(r, v) && Gets(s, r, still) && r.kinds == s.kinds && GenerationsSame(s, r)
    ensures |r.calls| == |s.calls| + 1 && Closes(r, |s.calls|, x) && BoundsFewer(s, r)
    ensures forall a :: 0 <= a < |s.calls| ==> r.calls[a] == s.calls[a]
    ensures forall o :: 0 <= o < |s.objects| && o != x ==> r.objects[o] == s.objects[o]
  {
    var m := NewThread(s, None, still, v);
    r := CloseBegins(m, |s.calls|, x, still, v);
    GetsTransitive(s, m, r, still);
  }

  lemma NewCloserArmed(s: System, v: nat, ws: seq<nat>, y: nat, c: nat, k: Spares, x: nat) returns (r: System, d: nat)
    requires Armed(s, v, ws, y, c, k) && s.calls[v].owner == Some(x) && Aside(s, Chain(ws) + {c}, x)
    requires x < |s.kinds| && HasDispatcher(s.kinds[x]) && x != k.task && x != k.replay
    requires s.objects[x].status.Open? || s.objects[x].status.CloseFailed?
    ensures Armed(r, v, ws, y, c, k) && Gets(s, r, {v}) && v < |r.calls| && r.calls[v].owner == Some(x)
    ensures Closes(r, d, x) && d != c && d !in ws && Aside(r, Chain(ws) + {c}, x)
  {
    d := |s.calls|;
    r := NewCloser(s, x, {v}, v);
    ChainOld(s, r, v, ws, y, c);
    ArmedKept(s, r, v, ws, y, c, k);
    AsideKept(s, r, Chain(ws) + {c}, x);
  }

  lemma ChainOld(s: System, r: System, v: nat, ws: seq<nat>, y: nat, c: nat)
    requires WaitsFor(s, v, ws, y) && c < |s.calls| <= |r.calls|
    requires forall a :: 0 <= a < |s.calls| ==> r.calls[a] == s.calls[a]
    ensures CallsSame(s, r, ws) && v == ws[0]
    ensures forall a :: a in Chain(ws) + {c} ==> a < |s.calls| && r.calls[a] == s.calls[a]
  {
    ChainWaits(s, v, ws, y);
  }

  /** Nobody closes the replay or export `x`, so a new thread does. */
  lemma TrapNewCloser(s: System, v: nat, ws: seq<nat>, y: nat, c: nat, k: Spares, x: nat)
    requires Armed(s, v, ws, y, c, k) && s.calls[v].owner == Some(x) && Aside(s, Chain(ws) + {c}, x)
    requires x < |s.kinds| && HasDispatcher(s.kinds[x]) && x != k.task && x != k.replay
    requires s.objects[x].status.Open? || s.objects[x].status.CloseFailed?
    ensures CanTrap(s, v)
  {
    var r, d := NewCloserArmed(s, v, ws, y, c, k, x);
    TrapDispatcher(r, v, ws, y, c, k, x, d);
    TrapLater(s, r, v);
  }

  lemma TrapOwnerCloses(s: System, m: System, v: nat, ws: seq<nat>, y: nat, k: Spares, x: nat)
    requires Ready(s, v) && WaitsFor(s, v, ws, y) && v !in ws[1..] && Are(s, k, Unborn)
    requires s.calls[v].owner == Some(x) && s.calls[v].stack == [] && x < |s.kinds| && HasDispatcher(s.kinds[x])
    requires Armed(m, v, ws, y, |s.calls|, k) && BornSame(s, m)
    requires m.calls == s.calls + [Call(Some(k.task), [], Working)]
    ensures CanTrap(m, v)
  {
    var c := |s.calls|;
    ChainAside(s, v, ws, y, x);
    ChainWaits(s, v, ws, y);
    AsideAlso(s, m, Chain(ws), c, x);
    if s.objects[x].status.Closing? {
      assert HasCloser(s, x);
      var e: nat :| HoldsClose(s, e, x);
      CloserApart(s, v, ws, y, x, e);
      TrapDispatcher(m, v, ws, y, c, k, x, e);
    } else {
      TrapNewCloser(m, v, ws, y, c, k, x);
    }
  }

  /** The construction: but for one exception, a waiting callback can be caught. */
  lemma CanBeTrapped(s: System, v: nat, ws: seq<nat>, y: nat, k: Spares)
    requires Ready(s, v) && WaitsFor(s, v, ws, y) && s.calls[v].owner.Some? && Are(s, k, Unborn)
    requires s.calls[v].stack != [] || !BeingDetached(s, s.calls[v].owner.value)
    ensures CanTrap(s, v)
  {
    var x := s.calls[v].owner.value;
    if v in ws[1..] {
      var i :| 0 <= i < |ws[1..]| && ws[1..][i] == v;
      CaughtNow(s, v, ws, i + 1);
    } else {
      var m := Equip(s, v, ws, y, k);
      assert CallOk(s.kinds, s.calls[v]);
      if s.calls[v].stack != [] {
        TrapCloser(m, v, ws, y, |s.calls|, k);
      } else if HasDispatcher(s.kinds[x]) {
        TrapOwnerCloses(s, m, v, ws, y, k, x);
      } else {
        TrapOutput(m, v, ws, y, |s.calls|, k, x);
      }
      TrapLater(s, m, v);
    }
  }

  // ---- The exception ------------------------------------------------------------------------------------

  /** Thread `v`, in a callback of the output `x`, closes nothing itself, and `c`, which runs no callback,
      detaches `x`. */
  ghost predicate Shielded(s: System, v: nat, c: nat, x: nat) {
    && All(s) && v < |s.calls| && c < |s.calls| && c != v && x < |s.kinds| && s.kinds[x].OutputKind?
    && s.calls[v].owner == Some(x) && s.calls[v].stack == []
    && s.calls[c].phase.Detaching? && s.calls[c].phase.o == x && s.calls[c].owner.None? && s.calls[c].stack == []
  }

  lemma ShieldedKept(s: System, step: Step, v: nat, c: nat, x: nat)
    requires Shielded(s, v, c, x) && CanStep(s, step) && (Moves(step) ==> step.a != v)
    ensures Shielded(Next(s, step), v, c, x)
  {
    InvKept(s, step);
    FlagsKept(s, step);
    ObjectsLength(s, step);
    assert Blocks(s, c, v);
    BlockedStays(s, step, c, v);
    OthersStay(s, step, v);
    OthersStay(s, step, c);
  }

  lemma {:induction false} ShieldedAlong(s: System, steps: seq<Step>, r: System, v: nat, c: nat, x: nat)
    requires Shielded(s, v, c, x) && Run(s, steps, r, {v})
    ensures Shielded(r, v, c, x)
    decreases |steps|
  {
    if steps != [] {
      ShieldedKept(s, steps[0], v, c, x);
      ShieldedAlong(Next(s, steps[0]), steps[1..], r, v, c, x);
    }
  }

  /** Everybody on a cycle is waited for. */
  lemma WaitedOnCycle(s: System, cs: seq<nat>, a: nat) returns (b: nat)
    requires Cycle(s, cs) && a in cs
    ensures b in cs && Blocks(s, b, a)
  {
    var i :| 0 <= i < |cs| && cs[i] == a;
    var j := if i > 0 then i - 1 else |cs| - 2;
    b := cs[j];
    assert Blocks(s, cs[j], cs[j + 1]);
  }

  /** Only the detach waits for `v`. */
  lemma ShieldedWaiter(s: System, v: nat, c: nat, x: nat, b: nat)
    requires Shielded(s, v, c, x) && Blocks(s, b, v)
    ensures b == c
  {
    assert CallOk(s.kinds, s.calls[b]);
    assert Releasing(s.calls[b], x) && Releasing(s.calls[c], x);
  }

  /** And nobody waits for the detach. */
  lemma ShieldedFree(s: System, v: nat, c: nat, x: nat)
    requires Shielded(s, v, c, x)
    ensures !Trapped(s, v)
  {
    if Trapped(s, v) {
      var cs :| Cycle(s, cs) && v in cs;
      var b := WaitedOnCycle(s, cs, v);
      ShieldedWaiter(s, v, c, x, b);
      var e := WaitedOnCycle(s, cs, c);
    }
  }

  lemma CannotBeTrapped(s: System, v: nat)
    requires Ready(s, v) && v < |s.calls| && s.calls[v].owner.Some?
    requires s.calls[v].stack == [] && BeingDetached(s, s.calls[v].owner.value)
    ensures !CanTrap(s, v)
  {
    var x := s.calls[v].owner.value;
    var c: nat :| c < |s.calls| && s.calls[c].phase.Detaching? && s.calls[c].phase.o == x;
    assert CallOk(s.kinds, s.calls[c]);
    assert Releasing(s.calls[c], x);
    DetachedIsOutput(s, c, x);
    if CanTrap(s, v) {
      var r :| Gets(s, r, {v}) && Trapped(r, v);
      var steps :| Run(s, steps, r, {v});
      ShieldedAlong(s, steps, r, v, c, x);
      ShieldedFree(r, v, c, x);
    }
  }

  lemma DetachedIsOutput(s: System, c: nat, x: nat)
    requires All(s) && c < |s.calls| && s.calls[c].phase.Detaching? && s.calls[c].phase.o == x
    ensures x < |s.kinds| && s.kinds[x].OutputKind?
  {
    assert Releasing(s.calls[c], x);
    ReleaserFacts(s, c, x);
    assert ObjectOk(s.kinds, x, s.objects[x]);
  }

  // ---- The result ---------------------------------------------------------------------------------------

  lemma {:induction false} DisciplinedIsPath(s: System, steps: seq<Step>, r: System, exempt: Option<nat>)
    requires DisciplinedPath(s, steps, r, exempt)
    ensures Path(s, steps, r)
    decreases |steps|
  {
    if steps != [] {
      DisciplinedIsPath(Next(s, steps[0]), steps[1..], r, exempt);
    }
  }

  lemma InitiallyFlags(u: Universe)
    ensures FlagsOk(Initial(u))
  {
  }

  /** What holds after every run in which only `v` closes or detaches from a callback. */
  lemma ReachedFacts(u: Universe, steps: seq<Step>, s: System, v: nat)
    requires UniverseOk(u) && DisciplinedPath(Initial(u), steps, s, Some(v))
    ensures Ready(s, v)
  {
    InitiallyCalm(u, Some(v));
    CalmAlong(Initial(u), steps, s, Some(v));
    InitiallyFlags(u);
    DisciplinedIsPath(Initial(u), steps, s, Some(v));
    FlagsAlong(Initial(u), steps, s);
  }

  /** The exact condition. Let `v` be the only thread that has closed or detached from a callback, and let
      it have come to wait, itself or through the closes it has joined, for the callbacks of some `y`. It
      can be caught in a cycle of waits, which is for ever, without doing anything more, unless it closes
      nothing itself and its own callback is one of an output that another thread is detaching. */
  lemma TrapIff(u: Universe, steps: seq<Step>, s: System, v: nat, ws: seq<nat>, y: nat, k: Spares)
    requires UniverseOk(u) && DisciplinedPath(Initial(u), steps, s, Some(v))
    requires WaitsFor(s, v, ws, y) && s.calls[v].owner.Some? && Are(s, k, Unborn)
    ensures CanTrap(s, v) <==> s.calls[v].stack != [] || !BeingDetached(s, s.calls[v].owner.value)
  {
    ReachedFacts(u, steps, s, v);
    if s.calls[v].stack != [] || !BeingDetached(s, s.calls[v].owner.value) {
      CanBeTrapped(s, v, ws, y, k);
    } else {
      CannotBeTrapped(s, v);
    }
  }

  // ---- The same, seen before the call -------------------------------------------------------------------

  lemma DetachWaits(s: System, v: nat, o: nat)
    requires CanStep(s, DetachStart(v, o))
    ensures
      var n := Next(s, DetachStart(v, o));
      && WaitsFor(n, v, [v], o) && n.calls[v].owner == s.calls[v].owner && n.calls[v].stack == []
      && StatusSame(s, n)
  {
    assert Leads(Next(s, DetachStart(v, o)), v, [v], v);
  }

  lemma DetachOfOther(s: System, v: nat, o: nat, x: nat)
    requires CanStep(s, DetachStart(v, o)) && x != o
    ensures BeingDetached(Next(s, DetachStart(v, o)), x) <==> BeingDetached(s, x)
  {
    var n := Next(s, DetachStart(v, o));
    forall a | 0 <= a < |s.calls|
      ensures s.calls[a].phase.Detaching? && s.calls[a].phase.o == x <==>
              n.calls[a].phase.Detaching? && n.calls[a].phase.o == x
    {
    }
  }

  /** A detach that a callback begins can end in a cycle if and only if the output whose callback it is is
      not itself being detached. */
  lemma DetachTrapIff(u: Universe, steps: seq<Step>, s: System, v: nat, o: nat, k: Spares)
    requires UniverseOk(u) && DisciplinedPath(Initial(u), steps, s, Some(v))
    requires CanStep(s, DetachStart(v, o)) && s.calls[v].owner.Some? && Are(s, k, Unborn)
    ensures CanTrap(Next(s, DetachStart(v, o)), v) <==> !BeingDetached(s, s.calls[v].owner.value)
  {
    var n, x := Next(s, DetachStart(v, o)), s.calls[v].owner.value;
    ReachedFacts(u, steps, s, v);
    ReadyStep(s, DetachStart(v, o), v);
    DetachOfOther(s, v, o, x);
    DetachWaits(s, v, o);
    if BeingDetached(s, x) {
      CannotBeTrapped(n, v);
    } else {
      CanBeTrapped(n, v, [v], o, k);
    }
  }

  lemma EnterPushes(s: System, v: nat, t: nat)
    requires Inv(s) && CanStep(s, Enter(v, t)) && HasDispatcher(s.kinds[t])
    requires !Rejected(s.kinds, s.calls[v].owner, OwnerBound(s, s.calls[v]), t)
    requires s.objects[t].status.Open? || s.objects[t].status.CloseFailed?
    ensures Closes(Next(s, Enter(v, t)), v, t)
  {
    BoundElsewhere(s, v, t);
  }

  lemma OwnCloseTraps(n: System, v: nat, t: nat, k: Spares) returns (m: System)
    requires Ready(n, v) && Closes(n, v, t) && n.calls[v].owner.Some? && Are(n, k, Unborn)
    ensures Gets(n, m, {}) && Closes(m, v, t) && m.calls[v].phase == Waiting(t) && CanTrap(m, v)
  {
    m := CloserWaits(n, v, t, {}, v);
    assert Leads(m, v, [v], v);
    CanBeTrapped(m, v, [v], t, k);
  }

  /** The close of a replay or an export that a callback begins can always come to wait and be caught. */
  lemma CloseTrap(u: Universe, steps: seq<Step>, s: System, v: nat, t: nat, k: Spares)
    requires UniverseOk(u) && DisciplinedPath(Initial(u), steps, s, Some(v))
    requires CanStep(s, Enter(v, t)) && s.calls[v].owner.Some? && Are(s, k, Unborn) && HasDispatcher(s.kinds[t])
    requires !Rejected(s.kinds, s.calls[v].owner, OwnerBound(s, s.calls[v]), t)
    requires s.objects[t].status.Open? || s.objects[t].status.CloseFailed?
    ensures exists m :: Gets(Next(s, Enter(v, t)), m, {}) && Closes(m, v, t) &&
                        m.calls[v].phase == Waiting(t) && CanTrap(m, v)
  {
    ReachedFacts(u, steps, s, v);
    ReadyStep(s, Enter(v, t), v);
    EnterPushes(s, v, t);
    var m := OwnCloseTraps(Next(s, Enter(v, t)), v, t, k);
  }

  /** Past the guard of a close, its thread is not in a callback of an output bound there. */
  lemma BoundElsewhere(s: System, v: nat, t: nat)
    requires Inv(s) && v < |s.calls| && t < |s.kinds| && HasDispatcher(s.kinds[t])
    requires !Rejected(s.kinds, s.calls[v].owner, OwnerBound(s, s.calls[v]), t)
    ensures Apart(s, s.calls[v], t) && s.calls[v].owner != Some(t)
  {
    var c := s.calls[v];
    if InOutputCallback(s.kinds, c) {
      assert ObjectOk(s.kinds, c.owner.value, s.objects[c.owner.value]);
    }
  }

  /** The thread whose close of a replay or an export `v` has joined. */
  lemma JoinedHolder(s: System, v: nat, t: nat) returns (e: nat)
    requires Calm(s, Some(v)) && v < |s.calls| && t < |s.kinds| && HasDispatcher(s.kinds[t])
    requires s.objects[t].status.Closing? && s.calls[v].phase.Joined? && s.calls[v].phase.t == t
    ensures e != v && Closes(s, e, t) && HoldsClose(s, e, t)
  {
    assert HasCloser(s, t);
    e :| HoldsClose(s, e, t);
    var i: nat :| Holds(s, e, i, t);
    assert CallOk(s.kinds, s.calls[e]);
    StackHeights(s.kinds, s.calls[e].owner, s.calls[e].stack, i);
    if e == v {
      JoinsLower(s.kinds, s.calls[v], i);
    }
    assert !Free(s.calls[e]);
  }

  /** A close of a replay or an export that a callback joins can end in a cycle if and only if the callback
      was closing something already, or is not one of an output that is being detached. */
  lemma JoinTrapIff(u: Universe, steps: seq<Step>, s: System, v: nat, t: nat, k: Spares)
    requires UniverseOk(u) && DisciplinedPath(Initial(u), steps, s, Some(v))
    requires CanStep(s, Enter(v, t)) && s.calls[v].owner.Some? && Are(s, k, Unborn) && HasDispatcher(s.kinds[t])
    requires !Rejected(s.kinds, s.calls[v].owner, OwnerBound(s, s.calls[v]), t) && s.objects[t].status.Closing?
    ensures CanTrap(Next(s, Enter(v, t)), v) <==> s.calls[v].stack != [] || !BeingDetached(s, s.calls[v].owner.value)
  {
    ReachedFacts(u, steps, s, v);
    var n, x := Next(s, Enter(v, t)), s.calls[v].owner.value;
    ReadyStep(s, Enter(v, t), v);
    if s.calls[v].stack != [] || !BeingDetached(s, x) {
      EnterJoins(s, v, t);
      DetachesNone(s, v, t, x);
      JoinIsTrap(n, v, t, k);
    } else {
      var a :| 0 <= a < |s.calls| && s.calls[a].phase.Detaching? && s.calls[a].phase.o == x;
      OthersStay(s, Enter(v, t), a);
      CannotBeTrapped(n, v);
    }
  }

  lemma EnterJoins(s: System, v: nat, t: nat)
    requires Inv(s) && CanStep(s, Enter(v, t)) && HasDispatcher(s.kinds[t]) && s.objects[t].status.Closing?
    requires !Rejected(s.kinds, s.calls[v].owner, OwnerBound(s, s.calls[v]), t)
    ensures
      var n := Next(s, Enter(v, t));
      && n.calls[v].phase.Joined? && n.calls[v].phase.t == t && InGeneration(n.objects, n.calls[v].phase)
      && n.calls[v].owner == s.calls[v].owner && n.calls[v].stack == s.calls[v].stack && n.objects == s.objects
      && Apart(n, n.calls[v], t)
  {
    BoundElsewhere(s, v, t);
  }

  lemma DetachesNone(s: System, v: nat, t: nat, x: nat)
    requires CanStep(s, Enter(v, t))
    ensures BeingDetached(Next(s, Enter(v, t)), x) ==> BeingDetached(s, x)
  {
    CallsLength(s, Enter(v, t));
    forall a | 0 <= a < |s.calls| && Next(s, Enter(v, t)).calls[a].phase.Detaching?
      ensures s.calls[a].phase == Next(s, Enter(v, t)).calls[a].phase
    {
      if a != v {
        OthersStay(s, Enter(v, t), a);
      }
    }
  }

  /** The closer comes to wait. */
  lemma JoinIsTrap(n: System, v: nat, t: nat, k: Spares)
    requires Ready(n, v) && v < |n.calls| && n.calls[v].owner.Some? && Are(n, k, Unborn)
    requires n.calls[v].phase.Joined? && n.calls[v].phase.t == t && InGeneration(n.objects, n.calls[v].phase)
    requires t < |n.kinds| && HasDispatcher(n.kinds[t]) && Apart(n, n.calls[v], t)
    requires n.calls[v].stack != [] || !BeingDetached(n, n.calls[v].owner.value)
    ensures CanTrap(n, v)
  {
    var e := JoinedHolder(n, v, t);
    var m := CloserWaits(n, e, t, {v}, v);
    HolderWaits(m, v, e, t);
    DetachesOld(n, m, n.calls[v].owner.value);
    CanBeTrapped(m, v, [v, e], t, k);
    TrapLater(n, m, v);
  }

  lemma HolderWaits(m: System, v: nat, e: nat, t: nat)
    requires v < |m.calls| && e < |m.calls| && InGeneration(m.objects, m.calls[v].phase) && m.calls[v].phase.t == t
    requires Closes(m, e, t) && m.calls[e].phase == Waiting(t)
    ensures WaitsFor(m, v, [v, e], t)
  {
    assert Holds(m, e, |m.calls[e].stack| - 1, t);
    assert Blocks(m, v, e);
    assert Leads(m, v, [v, e], e);
  }

  lemma DetachesOld(s: System, r: System, x: nat)
    requires DetachesFewer(s, r)
    ensures BeingDetached(r, x) ==> BeingDetached(s, x)
  {
  }
}
