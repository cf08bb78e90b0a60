/** `_callback_descends_from` (src/tirtc/storage/__init__.py): the worklist loop decides reachability,
    and so the guard of the closes in `CloseWaits`. */
module CallbackReach {
  import opened Wrappers
  import W = CloseWaits

  /** An SDK object with the four attributes the walk follows; a missing attribute reads as null. */
  class Owner {
    var client: Owner?
    var parent: Owner?
    var replay: Owner?
    var bound: Owner?

    constructor ()
      ensures client == null && parent == null && replay == null && bound == null
    {
      client, parent, replay, bound := null, null, null, null;
    }
  }

  ghost predicate Edge(a: Owner, b: Owner)
    reads a
  {
    a.client == b || a.parent == b || a.replay == b || a.bound == b
  }

  /** `heap` holds every object the attributes of its members lead to. */
  ghost predicate ClosedHeap(heap: set<Owner>)
    reads heap
  {
    forall a :: a in heap ==>
      (a.client == null || a.client in heap) && (a.parent == null || a.parent in heap) &&
      (a.replay == null || a.replay in heap) && (a.bound == null || a.bound in heap)
  }

  /** A walk of at most `n` attribute reads. */
  ghost predicate Reaches(heap: set<Owner>, a: Owner, target: Owner, n: nat)
    requires a in heap && ClosedHeap(heap)
    reads heap
    decreases n
  {
    a == target || (n > 0 && exists b :: b in heap && Edge(a, b) && Reaches(heap, b, target, n - 1))
  }

  ghost predicate Descends(heap: set<Owner>, a: Owner, target: Owner)
    requires a in heap && ClosedHeap(heap)
    reads heap
  {
    exists n: nat :: Reaches(heap, a, target, n)
  }

  /** Nothing already seen is the target, and every edge out of it is seen or pending. */
  ghost predicate Frontier(heap: set<Owner>, seen: set<Owner>, pending: seq<Owner?>, target: Owner)
    reads heap
  {
    && seen <= heap && target !in seen
    && (forall p :: p in pending && p != null ==> p in heap)
    && (forall a, b :: a in seen && b in heap && Edge(a, b) ==> b in seen || b in pending)
  }

  /** A target reachable from a seen object is reachable from a pending one. */
  lemma {:induction false} FrontierCrossed(heap: set<Owner>, seen: set<Owner>, pending: seq<Owner?>,
                                           a: Owner, target: Owner, n: nat)
    requires ClosedHeap(heap) && Frontier(heap, seen, pending, target) && a in seen
    requires Reaches(heap, a, target, n)
    ensures exists p: Owner :: p in pending && p in heap && Descends(heap, p, target)
    decreases n
  {
    var b :| b in heap && Edge(a, b) && Reaches(heap, b, target, n - 1);
    if b in seen {
      FrontierCrossed(heap, seen, pending, b, target, n - 1);
    } else {
      assert b in pending && Descends(heap, b, target);
    }
  }

  lemma {:induction false} ReachesExtends(heap: set<Owner>, a: Owner, b: Owner, target: Owner)
    requires ClosedHeap(heap) && a in heap && b in heap && Edge(a, b) && Descends(heap, b, target)
    ensures Descends(heap, a, target)
  {
    var n: nat :| Reaches(heap, b, target, n);
    assert Reaches(heap, a, target, n + 1);
  }

  /** The worklist loop.  On every finite object graph, cycles included, it ends, and returns true
      exactly when the target can be reached from the owner over the four attributes. */
  method CallbackDescendsFrom(owner: Owner?, target: Owner, ghost heap: set<Owner>) returns (found: bool)
    requires ClosedHeap(heap) && (owner != null ==> owner in heap)
    ensures found <==> owner != null && Descends(heap, owner, target)
  {
    var pending: seq<Owner?> := [owner];
    var seen: set<Owner> := {};
    while |pending| > 0
      invariant Frontier(heap, seen, pending, target)
      invariant owner != null ==> owner in seen || owner in pending
      invariant forall p: Owner :: p in pending && Descends(heap, p, target) ==>
                  owner != null && Descends(heap, owner, target)
      invariant forall p :: p in seen && Descends(heap, p, target) ==> owner != null && Descends(heap, owner, target)
      decreases heap - seen, |pending|
    {
      var current := pending[|pending| - 1];
      var rest := pending[..|pending| - 1];
      assert pending == rest + [current];
      if current == null || current in seen {
        pending := rest;
        continue;
      }
      if current == target {
        assert Reaches(heap, current, target, 0);
        return true;
      }
      seen := seen + {current};
      var next := [current.client, current.parent, current.replay, current.bound];
      pending := rest + next;
      forall p: Owner | p in next && Descends(heap, p, target)
        ensures Descends(heap, current, target)
      {
        ReachesExtends(heap, current, p, target);
      }
      assert forall b :: b in heap && Edge(current, b) ==> b in next by {
        assert next[0] == current.client && next[1] == current.parent;
        assert next[2] == current.replay && next[3] == current.bound;
      }
    }
    if owner != null && Descends(heap, owner, target) {
      var n: nat :| Reaches(heap, owner, target, n);
      FrontierCrossed(heap, seen, pending, owner, target, n);
    }
    return false;
  }

  // ---- The guard of CloseWaits ----------------------------------------------------------------------

  /** The objects of a universe as a heap; `bound[x]` is the `_bound` of object `x`. */
  ghost predicate Represents(heap: set<Owner>, rep: seq<Owner>, u: W.Universe, bound: seq<Option<nat>>)
    reads heap, rep
  {
    && W.UniverseOk(u) && |rep| == |u| == |bound|
    && (forall x :: 0 <= x < |rep| ==> rep[x] in heap)
    && (forall x, y :: 0 <= x < y < |rep| ==> rep[x] != rep[y])
    && (forall x :: 0 <= x < |u| && bound[x].Some? ==>
          u[x].OutputKind? && bound[x].value < |u| && u[bound[x].value].ReplayKind?)
    && (forall x :: 0 <= x < |u| ==> FieldsOf(rep, u, bound, x))
  }

  ghost predicate FieldsOf(rep: seq<Owner>, u: W.Universe, bound: seq<Option<nat>>, x: nat)
    requires |rep| == |u| == |bound| && x < |u|
    reads rep
  {
    && rep[x].replay == null
    && rep[x].client == (if u[x].CloudKind? && u[x].client < |u| then rep[u[x].client] else null)
    && rep[x].parent == (if (u[x].ReplayKind? || u[x].ExportKind?) && u[x].cloud < |u| then rep[u[x].cloud] else null)
    && rep[x].bound == (if bound[x].Some? && bound[x].value < |u| then rep[bound[x].value] else null)
  }

  /** The object one attribute away. */
  lemma EdgeIs(heap: set<Owner>, rep: seq<Owner>, u: W.Universe, bound: seq<Option<nat>>, x: nat, b: Owner)
    returns (y: nat)
    requires Represents(heap, rep, u, bound) && x < |u| && Edge(rep[x], b)
    ensures y < |u| && rep[y] == b && (W.Above(u, x) == Some(y) || bound[x] == Some(y)) && bound[y].None?
  {
    assert FieldsOf(rep, u, bound, x);
    y := if W.Above(u, x).Some? then W.Above(u, x).value else bound[x].value;
  }

  lemma {:induction false} WalkDescends(heap: set<Owner>, rep: seq<Owner>, u: W.Universe, bound: seq<Option<nat>>,
                                        x: nat, t: nat, n: nat)
    requires ClosedHeap(heap) && Represents(heap, rep, u, bound) && x < |u| && t < |u|
    requires Reaches(heap, rep[x], rep[t], n)
    ensures W.Descends(u, x, bound[x], t)
    decreases n
  {
    if x != t {
      assert rep[x] != rep[t];
      var b :| b in heap && Edge(rep[x], b) && Reaches(heap, b, rep[t], n - 1);
      var y := EdgeIs(heap, rep, u, bound, x, b);
      WalkDescends(heap, rep, u, bound, y, t, n - 1);
      assert W.Under(u, y, t);
    }
  }

  lemma AboveWalks(heap: set<Owner>, rep: seq<Owner>, u: W.Universe, bound: seq<Option<nat>>, x: nat, y: nat, t: nat)
    requires ClosedHeap(heap) && Represents(heap, rep, u, bound) && x < |u| && y < |u| && t < |u|
    requires (W.Above(u, x) == Some(y) || bound[x] == Some(y)) && Descends(heap, rep[y], rep[t])
    ensures Descends(heap, rep[x], rep[t])
  {
    assert FieldsOf(rep, u, bound, x);
    ReachesExtends(heap, rep[x], rep[y], rep[t]);
  }

  lemma UnderWalks(heap: set<Owner>, rep: seq<Owner>, u: W.Universe, bound: seq<Option<nat>>, x: nat, t: nat)
    requires ClosedHeap(heap) && Represents(heap, rep, u, bound) && x < |u| && t < |u| && W.Under(u, x, t)
    ensures Descends(heap, rep[x], rep[t])
  {
    assert Reaches(heap, rep[t], rep[t], 0);
    if x != t {
      var y := W.Above(u, x).value;
      if y != t {
        AboveWalks(heap, rep, u, bound, y, t, t);
      }
      AboveWalks(heap, rep, u, bound, x, y, t);
    }
  }

  /** The worklist loop decides exactly the guard that the closes of `CloseWaits` make. */
  lemma GuardIsDescends(heap: set<Owner>, rep: seq<Owner>, u: W.Universe, bound: seq<Option<nat>>, x: nat, t: nat)
    requires ClosedHeap(heap) && Represents(heap, rep, u, bound) && x < |u| && t < |u|
    ensures Descends(heap, rep[x], rep[t]) <==> W.Descends(u, x, bound[x], t)
  {
    if Descends(heap, rep[x], rep[t]) {
      var n: nat :| Reaches(heap, rep[x], rep[t], n);
      WalkDescends(heap, rep, u, bound, x, t, n);
    }
    if W.Under(u, x, t) {
      UnderWalks(heap, rep, u, bound, x, t);
    } else if bound[x].Some? && W.Under(u, bound[x].value, t) {
      UnderWalks(heap, rep, u, bound, bound[x].value, t);
      AboveWalks(heap, rep, u, bound, x, bound[x].value, t);
    }
  }
}
