/** The process-wide lease ledger of src/tirtc/_runtime.py: four cached globals beside the set of
    active leases, and the native init and shutdown calls they decide about. */
module LeaseLedger {
  import opened Wrappers

  datatype Product = Rtc | Storage
  datatype Mode = AccessKey | ExternalToken

  datatype Configuration = Configuration(appId: string, cacheDir: string, endpoint: Option<string>, consoleLog: bool)

  datatype Lease = Lease(product: Product, mode: Mode, configuration: Configuration, handle: bool, closed: bool)

  /** The native calls that succeeded, in order. */
  datatype NativeCall =
    | Init(product: Product)
    | Shutdown(product: Product)
    | CreateClient(product: Product)
    | CloseClient(product: Product)

  /** A lease is its index in `leases`. */
  datatype Ledger = Ledger(
    leases: seq<Lease>,
    active: set<nat>,
    rtcLease: Option<nat>,
    externalConfiguration: Option<(string, Option<string>)>,
    externalCount: int,
    shared: Option<(string, bool)>,
    trace: seq<NativeCall>)

  const EMPTY := Ledger([], {}, None, None, 0, None, [])

  datatype Acquired = Granted(lease: nat) | InUse | AlreadyInitialized | CacheUnusable | NativeError(code: int)

  datatype Released = Closed | AlreadyClosed | NotActive | CountInvalid | CloseFailed(code: int)

  function SharedOf(c: Configuration): (string, bool) {
    (c.cacheDir, c.consoleLog)
  }

  function ExternalOf(c: Configuration): (string, Option<string>) {
    (c.appId, c.endpoint)
  }

  function Traced(trace: seq<NativeCall>, call: Option<NativeCall>): seq<NativeCall> {
    if call.None? then trace else trace + [call.value]
  }

  function AcquireRtc(s: Ledger, c: Configuration, mode: Mode, cacheOk: bool, code: int): (Ledger, Acquired) {
    if s.rtcLease.Some? then (s, InUse)
    else if s.shared.Some? && s.shared != Some(SharedOf(c)) then (s, AlreadyInitialized)
    else if !cacheOk then (s, CacheUnusable)
    else if code != 0 then (s, NativeError(code))
    else
      var id := |s.leases|;
      (s.(leases := s.leases + [Lease(Rtc, mode, c, mode == AccessKey, false)],
          active := s.active + {id},
          rtcLease := Some(id),
          shared := if s.shared.None? then Some(SharedOf(c)) else s.shared,
          trace := s.trace + [if mode == AccessKey then CreateClient(Rtc) else Init(Rtc)]),
       Granted(id))
  }

  function AcquireStorage(s: Ledger, c: Configuration, mode: Mode, cacheOk: bool, code: int): (Ledger, Acquired) {
    if s.shared.Some? && s.shared != Some(SharedOf(c)) then (s, AlreadyInitialized)
    else if mode == ExternalToken && s.externalConfiguration.Some? &&
            s.externalConfiguration != Some(ExternalOf(c)) then
      (s, AlreadyInitialized)
    else if !cacheOk then (s, CacheUnusable)
    else if (mode == AccessKey || s.externalCount == 0) && code != 0 then (s, NativeError(code))
    else
      var id := |s.leases|;
      (s.(leases := s.leases + [Lease(Storage, mode, c, mode == AccessKey, false)],
          active := s.active + {id},
          externalConfiguration := if mode == ExternalToken then Some(ExternalOf(c)) else s.externalConfiguration,
          externalCount := if mode == ExternalToken then s.externalCount + 1 else s.externalCount,
          shared := if s.shared.None? then Some(SharedOf(c)) else s.shared,
          trace := Traced(s.trace, if mode == AccessKey then Some(CreateClient(Storage))
                                   else if s.externalCount == 0 then Some(Init(Storage)) else None)),
       Granted(id))
  }

  /** The native call a release has to make first, if any. */
  function ReleaseCall(s: Ledger, lease: Lease): Option<NativeCall> {
    if lease.mode == AccessKey then Some(CloseClient(lease.product))
    else if lease.product == Rtc then Some(Shutdown(Rtc))
    else if s.externalCount == 1 then Some(Shutdown(Storage))
    else None
  }

  function Release(s: Ledger, id: nat, code: int): (Ledger, Released)
    requires id < |s.leases|
  {
    var lease := s.leases[id];
    if lease.closed then (s, AlreadyClosed)
    else if id !in s.active then (s, NotActive)
    else if lease.mode == ExternalToken && lease.product == Storage && s.externalCount <= 0 then (s, CountInvalid)
    else if ReleaseCall(s, lease).Some? && code != 0 then (s, CloseFailed(code))
    else
      var external := lease.product == Storage && lease.mode == ExternalToken;
      var active := s.active - {id};
      (s.(leases := s.leases[id := lease.(closed := true, handle := false)],
          active := active,
          rtcLease := if lease.product == Rtc then None else s.rtcLease,
          externalCount := if external then s.externalCount - 1 else s.externalCount,
          externalConfiguration := if external && s.externalCount == 1 then None else s.externalConfiguration,
          shared := if active == {} then None else s.shared,
          trace := Traced(s.trace, ReleaseCall(s, lease))),
       Closed)
  }

  /** The module's globals.  Native calls and the cache probe are answered by the arguments. */
  class Runtime {
    var leases: seq<Lease>
    var active: set<nat>
    var rtcLease: Option<nat>
    var externalConfiguration: Option<(string, Option<string>)>
    var externalCount: int
    var shared: Option<(string, bool)>
    var trace: seq<NativeCall>

    ghost function State(): Ledger
      reads this
    {
      Ledger(leases, active, rtcLease, externalConfiguration, externalCount, shared, trace)
    }

    constructor ()
      ensures State() == EMPTY
    {
      leases, active, rtcLease, externalConfiguration := [], {}, None, None;
      externalCount, shared, trace := 0, None, [];
    }

    method PreflightShared(c: Configuration) returns (ok: bool)
      ensures ok <==> !(shared.Some? && shared != Some(SharedOf(c)))
    {
      return shared.None? || shared.value == (c.cacheDir, c.consoleLog);
    }

    method AcquireRtcLease(c: Configuration, mode: Mode, cacheOk: bool, code: int) returns (result: Acquired)
      modifies this
      ensures (State(), result) == AcquireRtc(old(State()), c, mode, cacheOk, code)
    {
      if rtcLease.Some? {
        return InUse;
      }
      var compatible := PreflightShared(c);
      if !compatible {
        return AlreadyInitialized;
      }
      if !cacheOk {
        return CacheUnusable;
      }
      if code != 0 {
        return NativeError(code);
      }
      trace := trace + [if mode == AccessKey then CreateClient(Rtc) else Init(Rtc)];
      var id := |leases|;
      leases := leases + [Lease(Rtc, mode, c, mode == AccessKey, false)];
      rtcLease := Some(id);
      active := active + {id};
      if shared.None? {
        shared := Some((c.cacheDir, c.consoleLog));
      }
      return Granted(id);
    }

    method AcquireStorageLease(c: Configuration, mode: Mode, cacheOk: bool, code: int) returns (result: Acquired)
      modifies this
      ensures (State(), result) == AcquireStorage(old(State()), c, mode, cacheOk, code)
    {
      var compatible := PreflightShared(c);
      if !compatible {
        return AlreadyInitialized;
      }
      var legacy := (c.appId, c.endpoint);
      if mode == ExternalToken && externalConfiguration.Some? && externalConfiguration != Some(legacy) {
        return AlreadyInitialized;
      }
      if !cacheOk {
        return CacheUnusable;
      }
      if mode == AccessKey {
        if code != 0 {
          return NativeError(code);
        }
        trace := trace + [CreateClient(Storage)];
      } else if externalCount == 0 {
        if code != 0 {
          return NativeError(code);
        }
        trace := trace + [Init(Storage)];
      }
      var id := |leases|;
      leases := leases + [Lease(Storage, mode, c, mode == AccessKey, false)];
      active := active + {id};
      if mode == ExternalToken {
        externalConfiguration := Some(legacy);
        externalCount := externalCount + 1;
      }
      if shared.None? {
        shared := Some((c.cacheDir, c.consoleLog));
      }
      return Granted(id);
    }

    method ReleaseLease(id: nat, code: int) returns (result: Released)
      requires id < |leases|
      modifies this
      ensures (State(), result) == Release(old(State()), id, code)
    {
      var lease := leases[id];
      if lease.closed {
        return AlreadyClosed;
      }
      if id !in active {
        return NotActive;
      }
      if lease.mode == AccessKey {
        if code != 0 {
          return CloseFailed(code);
        }
        trace := trace + [CloseClient(lease.product)];
      } else if lease.product == Rtc {
        if code != 0 {
          return CloseFailed(code);
        }
        trace := trace + [Shutdown(Rtc)];
      } else {
        if externalCount <= 0 {
          return CountInvalid;
        }
        if externalCount == 1 {
          if code != 0 {
            return CloseFailed(code);
          }
          trace := trace + [Shutdown(Storage)];
        }
      }
      active := active - {id};
      if lease.product == Rtc {
        rtcLease := None;
      } else if lease.mode == ExternalToken {
        externalCount := externalCount - 1;
        if externalCount == 0 {
          externalConfiguration := None;
        }
      }
      leases := leases[id := lease.(closed := true, handle := false)];
      if active == {} {
        shared := None;
      }
      return Closed;
    }
  }

  // ---- The caches are functions of the active leases ---------------------------------------------

  ghost predicate WellFormed(s: Ledger) {
    && (forall i :: i in s.active ==> i < |s.leases|)
    && (forall i: nat :: i < |s.leases| ==> (i in s.active <==> !s.leases[i].closed))
    && (forall i: nat :: i < |s.leases| ==> (s.leases[i].handle <==> i in s.active && s.leases[i].mode == AccessKey))
  }

  predicate IsExternal(lease: Lease) {
    lease.product == Storage && lease.mode == ExternalToken
  }

  ghost function Externals(s: Ledger): set<nat> {
    set i | i in s.active && i < |s.leases| && IsExternal(s.leases[i])
  }

  ghost predicate RtcExact(s: Ledger) {
    forall i: nat :: s.rtcLease == Some(i) <==> i in s.active && i < |s.leases| && s.leases[i].product == Rtc
  }

  ghost predicate ExternalExact(s: Ledger) {
    && s.externalCount == |Externals(s)|
    && (s.externalConfiguration.None? <==> Externals(s) == {})
    && (forall i :: i in Externals(s) ==> s.externalConfiguration == Some(ExternalOf(s.leases[i].configuration)))
  }

  ghost predicate SharedExact(s: Ledger) {
    && (s.shared.None? <==> s.active == {})
    && (forall i :: i in s.active && i < |s.leases| ==> s.shared == Some(SharedOf(s.leases[i].configuration)))
  }

  ghost predicate CachesExact(s: Ledger) {
    RtcExact(s) && ExternalExact(s) && SharedExact(s)
  }

  /** Is the product's external-token runtime up after these calls? */
  ghost function Up(trace: seq<NativeCall>, product: Product): bool {
    trace != [] &&
    var last := trace[|trace| - 1];
    last == Init(product) || (last != Shutdown(product) && Up(trace[..|trace| - 1], product))
  }

  /** Every init comes when the runtime is down, every shutdown when it is up. */
  ghost predicate Alternates(trace: seq<NativeCall>, product: Product) {
    trace == [] ||
    (var last, before := trace[|trace| - 1], trace[..|trace| - 1];
     Alternates(before, product) &&
     (last == Init(product) ==> !Up(before, product)) && (last == Shutdown(product) ==> Up(before, product)))
  }

  /** Which external-token runtimes the caches say are up. */
  ghost predicate Expected(s: Ledger, product: Product) {
    if product == Storage then s.externalCount > 0
    else s.rtcLease.Some? && s.rtcLease.value < |s.leases| && s.leases[s.rtcLease.value].mode == ExternalToken
  }

  ghost predicate TraceExactFor(s: Ledger, product: Product) {
    Alternates(s.trace, product) && (Up(s.trace, product) <==> Expected(s, product))
  }

  ghost predicate TraceExact(s: Ledger) {
    TraceExactFor(s, Storage) && TraceExactFor(s, Rtc)
  }

  ghost predicate Inv(s: Ledger) {
    WellFormed(s) && CachesExact(s) && TraceExact(s)
  }

  lemma TraceAppend(trace: seq<NativeCall>, call: NativeCall, product: Product)
    ensures Up(trace + [call], product) <==> call == Init(product) || (call != Shutdown(product) && Up(trace, product))
    ensures Alternates(trace + [call], product) <==>
              Alternates(trace, product) && (call == Init(product) ==> !Up(trace, product)) &&
              (call == Shutdown(product) ==> Up(trace, product))
  {
    assert (trace + [call])[..|trace|] == trace;
  }

  predicate MovesAs(call: Option<NativeCall>, product: Product, before: bool, after: bool) {
    if call == Some(Init(product)) then !before && after
    else if call == Some(Shutdown(product)) then before && !after
    else before == after
  }

  /** The native call of a step moves the caches the way it moves the runtimes. */
  ghost predicate TracedBy(s: Ledger, r: Ledger, call: Option<NativeCall>) {
    && r.trace == Traced(s.trace, call)
    && MovesAs(call, Storage, Expected(s, Storage), Expected(r, Storage))
    && MovesAs(call, Rtc, Expected(s, Rtc), Expected(r, Rtc))
  }

  lemma TraceKeptFor(s: Ledger, r: Ledger, call: Option<NativeCall>, product: Product)
    requires TraceExactFor(s, product) && r.trace == Traced(s.trace, call)
    requires MovesAs(call, product, Expected(s, product), Expected(r, product))
    ensures TraceExactFor(r, product)
  {
    if call.Some? {
      TraceAppend(s.trace, call.value, product);
    }
  }

  lemma TraceKept(s: Ledger, r: Ledger, call: Option<NativeCall>)
    requires TraceExact(s) && TracedBy(s, r, call)
    ensures TraceExact(r)
  {
    TraceKeptFor(s, r, call, Storage);
    TraceKeptFor(s, r, call, Rtc);
  }

  /** A new lease joins the active set. */
  ghost predicate Joins(s: Ledger, r: Ledger, lease: Lease) {
    r.leases == s.leases + [lease] && r.active == s.active + {|s.leases|}
  }

  lemma JoinWellFormed(s: Ledger, r: Ledger, lease: Lease)
    requires WellFormed(s) && Joins(s, r, lease) && !lease.closed && (lease.handle <==> lease.mode == AccessKey)
    ensures WellFormed(r)
  {
    assert |s.leases| !in s.active;
    assert forall i: nat :: i < |s.leases| ==> r.leases[i] == s.leases[i];
  }

  lemma JoinRtc(s: Ledger, r: Ledger, lease: Lease)
    requires WellFormed(s) && RtcExact(s) && Joins(s, r, lease)
    requires r.rtcLease == if lease.product == Rtc then Some(|s.leases|) else s.rtcLease
    requires lease.product == Rtc ==> s.rtcLease.None?
    ensures RtcExact(r)
  {
    assert forall i: nat :: i < |s.leases| ==> r.leases[i] == s.leases[i];
    assert forall i: nat :: s.rtcLease == Some(i) ==> i < |s.leases|;
  }

  lemma JoinExternals(s: Ledger, r: Ledger, lease: Lease)
    requires WellFormed(s) && Joins(s, r, lease)
    ensures Externals(r) == if IsExternal(lease) then Externals(s) + {|s.leases|} else Externals(s)
    ensures |s.leases| !in Externals(s)
  {
    assert |s.leases| !in s.active;
    assert forall i: nat :: i < |s.leases| ==> r.leases[i] == s.leases[i];
  }

  /** The external-token caches after one lease more. */
  ghost predicate ExternalJoins(s: Ledger, r: Ledger, lease: Lease) {
    && r.externalCount == s.externalCount + (if IsExternal(lease) then 1 else 0)
    && r.externalConfiguration ==
       (if IsExternal(lease) then Some(ExternalOf(lease.configuration)) else s.externalConfiguration)
    && (IsExternal(lease) ==> s.externalConfiguration.None? || s.externalConfiguration == r.externalConfiguration)
  }

  lemma JoinExternal(s: Ledger, r: Ledger, lease: Lease)
    requires WellFormed(s) && ExternalExact(s) && Joins(s, r, lease) && ExternalJoins(s, r, lease)
    ensures ExternalExact(r)
  {
    JoinExternals(s, r, lease);
    forall i | i in Externals(r) ensures r.externalConfiguration == Some(ExternalOf(r.leases[i].configuration)) {
      if i in Externals(s) {
        assert r.leases[i] == s.leases[i];
      }
    }
  }

  lemma JoinShared(s: Ledger, r: Ledger, lease: Lease)
    requires WellFormed(s) && SharedExact(s) && Joins(s, r, lease)
    requires r.shared == Some(SharedOf(lease.configuration)) && (s.shared.None? || s.shared == r.shared)
    ensures SharedExact(r)
  {
  }

  lemma CachesGrow(s: Ledger, r: Ledger, lease: Lease)
    requires WellFormed(s) && CachesExact(s) && Joins(s, r, lease)
    requires !lease.closed && (lease.handle <==> lease.mode == AccessKey)
    requires r.rtcLease == if lease.product == Rtc then Some(|s.leases|) else s.rtcLease
    requires lease.product == Rtc ==> s.rtcLease.None?
    requires r.shared == Some(SharedOf(lease.configuration)) && (s.shared.None? || s.shared == r.shared)
    requires ExternalJoins(s, r, lease)
    ensures WellFormed(r) && CachesExact(r)
  {
    JoinWellFormed(s, r, lease);
    JoinRtc(s, r, lease);
    JoinExternal(s, r, lease);
    JoinShared(s, r, lease);
  }

  lemma AcquireRtcKept(s: Ledger, c: Configuration, mode: Mode, cacheOk: bool, code: int)
    requires Inv(s)
    ensures Inv(AcquireRtc(s, c, mode, cacheOk, code).0)
  {
    var (r, result) := AcquireRtc(s, c, mode, cacheOk, code);
    if result.Granted? {
      CachesGrow(s, r, r.leases[|s.leases|]);
      TraceKept(s, r, Some(if mode == AccessKey then CreateClient(Rtc) else Init(Rtc)));
    }
  }

  /** The native call of a storage acquire that is granted. */
  function StorageCall(s: Ledger, mode: Mode): Option<NativeCall> {
    if mode == AccessKey then Some(CreateClient(Storage))
    else if s.externalCount == 0 then Some(Init(Storage))
    else None
  }

  lemma AcquireStorageTraced(s: Ledger, c: Configuration, mode: Mode, cacheOk: bool, code: int)
    requires WellFormed(s) && RtcExact(s) && s.externalCount >= 0
    requires AcquireStorage(s, c, mode, cacheOk, code).1.Granted?
    ensures
      TracedBy(s, AcquireStorage(s, c, mode, cacheOk, code).0, StorageCall(s, mode))
  {
    assert s.rtcLease.Some? ==> s.rtcLease.value in s.active;
  }

  lemma AcquireStorageKept(s: Ledger, c: Configuration, mode: Mode, cacheOk: bool, code: int)
    requires Inv(s)
    ensures Inv(AcquireStorage(s, c, mode, cacheOk, code).0)
  {
    var (r, result) := AcquireStorage(s, c, mode, cacheOk, code);
    if result.Granted? {
      CachesGrow(s, r, r.leases[|s.leases|]);
      AcquireStorageTraced(s, c, mode, cacheOk, code);
      TraceKept(s, r, StorageCall(s, mode));
    }
  }

  /** A lease leaves the active set. */
  ghost predicate Leaves(s: Ledger, r: Ledger, id: nat) {
    && id < |s.leases| && id in s.active
    && r.leases == s.leases[id := s.leases[id].(closed := true, handle := false)]
    && r.active == s.active - {id}
  }

  lemma LeaveWellFormed(s: Ledger, r: Ledger, id: nat)
    requires WellFormed(s) && Leaves(s, r, id)
    ensures WellFormed(r)
  {
  }

  lemma LeaveRtc(s: Ledger, r: Ledger, id: nat)
    requires RtcExact(s) && Leaves(s, r, id)
    requires r.rtcLease == if s.leases[id].product == Rtc then None else s.rtcLease
    ensures RtcExact(r)
  {
    RtcLeaseIs(s, id);
    assert forall i: nat :: i < |s.leases| ==> r.leases[i].product == s.leases[i].product;
  }

  lemma LeaveExternals(s: Ledger, r: Ledger, id: nat)
    requires Leaves(s, r, id)
    ensures Externals(r) == Externals(s) - {id}
    ensures id in Externals(s) <==> IsExternal(s.leases[id])
  {
    assert forall i: nat :: i < |s.leases| && i != id ==> r.leases[i] == s.leases[i];
  }

  lemma LeaveExternal(s: Ledger, r: Ledger, id: nat)
    requires ExternalExact(s) && Leaves(s, r, id)
    requires r.externalCount == s.externalCount - if IsExternal(s.leases[id]) then 1 else 0
    requires r.externalConfiguration ==
             if IsExternal(s.leases[id]) && s.externalCount == 1 then None else s.externalConfiguration
    ensures ExternalExact(r)
  {
    LeaveExternals(s, r, id);
    forall i | i in Externals(r) ensures r.externalConfiguration == Some(ExternalOf(r.leases[i].configuration)) {
      assert r.leases[i] == s.leases[i];
      assert |Externals(r)| > 0;
    }
  }

  lemma LeaveShared(s: Ledger, r: Ledger, id: nat)
    requires SharedExact(s) && Leaves(s, r, id) && r.shared == if r.active == {} then None else s.shared
    ensures SharedExact(r)
  {
    forall i | i in r.active && i < |r.leases| ensures r.shared == Some(SharedOf(r.leases[i].configuration)) {
      assert r.leases[i] == s.leases[i];
    }
  }

  lemma CachesShrink(s: Ledger, id: nat, code: int)
    requires WellFormed(s) && CachesExact(s) && id < |s.leases| && Release(s, id, code).1 == Closed
    ensures WellFormed(Release(s, id, code).0) && CachesExact(Release(s, id, code).0)
  {
    var r := Release(s, id, code).0;
    assert Leaves(s, r, id);
    LeaveWellFormed(s, r, id);
    LeaveRtc(s, r, id);
    LeaveExternal(s, r, id);
    LeaveShared(s, r, id);
  }

  lemma RtcLeaseIs(s: Ledger, id: nat)
    requires RtcExact(s) && id in s.active && id < |s.leases|
    ensures s.leases[id].product == Rtc <==> s.rtcLease == Some(id)
  {
  }

  /** A release shuts the runtime down exactly when the last external lease of the product goes. */
  lemma ReleaseTraced(s: Ledger, id: nat, code: int)
    requires id < |s.leases| && Release(s, id, code).1 == Closed
    requires s.leases[id].product == Rtc <==> s.rtcLease == Some(id)
    ensures
      var r := Release(s, id, code).0;
      TracedBy(s, r, ReleaseCall(s, s.leases[id]))
  {
  }

  lemma ReleaseKept(s: Ledger, id: nat, code: int)
    requires Inv(s) && id < |s.leases|
    ensures Inv(Release(s, id, code).0)
    ensures Release(s, id, code).1 !in {NotActive, CountInvalid}
  {
    var lease := s.leases[id];
    if id in s.active && lease.product == Storage && lease.mode == ExternalToken {
      assert id in Externals(s);
    }
    if Release(s, id, code).1 == Closed {
      CachesShrink(s, id, code);
      RtcLeaseIs(s, id);
      ReleaseTraced(s, id, code);
      TraceKept(s, Release(s, id, code).0, ReleaseCall(s, lease));
    }
  }

  datatype Op =
    | OpenRtc(c: Configuration, mode: Mode, cacheOk: bool, code: int)
    | OpenStorage(c: Configuration, mode: Mode, cacheOk: bool, code: int)
    | CloseLease(id: nat, code: int)

  function Apply(s: Ledger, op: Op): Ledger {
    match op
    case OpenRtc(c, mode, cacheOk, code) => AcquireRtc(s, c, mode, cacheOk, code).0
    case OpenStorage(c, mode, cacheOk, code) => AcquireStorage(s, c, mode, cacheOk, code).0
    case CloseLease(id, code) => if id < |s.leases| then Release(s, id, code).0 else s
  }

  function Run(s: Ledger, ops: seq<Op>): Ledger
    decreases |ops|
  {
    if ops == [] then s else Run(Apply(s, ops[0]), ops[1..])
  }

  lemma {:induction false} InvAlong(s: Ledger, ops: seq<Op>)
    requires Inv(s)
    ensures Inv(Run(s, ops))
    decreases |ops|
  {
    if ops != [] {
      match ops[0] {
        case OpenRtc(c, mode, cacheOk, code) => AcquireRtcKept(s, c, mode, cacheOk, code);
        case OpenStorage(c, mode, cacheOk, code) => AcquireStorageKept(s, c, mode, cacheOk, code);
        case CloseLease(id, code) => if id < |s.leases| { ReleaseKept(s, id, code); }
      }
      InvAlong(Apply(s, ops[0]), ops[1..]);
    }
  }

  /** After every sequence of acquires and releases, successful or not, the four cached globals are
      exactly the functions of the active leases they stand for, and in the native trace each
      product's external-token init and shutdown strictly alternate. */
  lemma LedgerExact(ops: seq<Op>)
    ensures
      var s := Run(EMPTY, ops);
      WellFormed(s) && CachesExact(s) && Alternates(s.trace, Rtc) && Alternates(s.trace, Storage)
  {
    InvAlong(EMPTY, ops);
  }

  /** The call raised. */
  predicate Raises(s: Ledger, op: Op) {
    match op
    case OpenRtc(c, mode, cacheOk, code) => !AcquireRtc(s, c, mode, cacheOk, code).1.Granted?
    case OpenStorage(c, mode, cacheOk, code) => !AcquireStorage(s, c, mode, cacheOk, code).1.Granted?
    case CloseLease(id, code) => id < |s.leases| && Release(s, id, code).1 !in {Closed, AlreadyClosed}
  }

  function Successful(s: Ledger, ops: seq<Op>): (kept: seq<Op>)
    ensures |kept| <= |ops|
    decreases |ops|
  {
    if ops == [] then []
    else (if Raises(s, ops[0]) then [] else [ops[0]]) + Successful(Apply(s, ops[0]), ops[1..])
  }

  /** Failures leave no trace: every history ends in the very state, native calls included, of the
      same history without its failed calls. */
  lemma {:induction false} FailuresInvisible(s: Ledger, ops: seq<Op>)
    ensures Run(s, Successful(s, ops)) == Run(s, ops)
    decreases |ops|
  {
    if ops != [] {
      var rest := Successful(Apply(s, ops[0]), ops[1..]);
      FailuresInvisible(Apply(s, ops[0]), ops[1..]);
      if Raises(s, ops[0]) {
        assert Successful(s, ops) == rest;
      } else {
        assert Successful(s, ops) == [ops[0]] + rest;
        assert ([ops[0]] + rest)[1..] == rest;
      }
    }
  }

  /** The caches carry no information of their own: ledgers with the same leases agree on them. */
  lemma CachesDetermined(a: Ledger, b: Ledger)
    requires CachesExact(a) && CachesExact(b) && WellFormed(a) && WellFormed(b)
    requires a.leases == b.leases && a.active == b.active
    ensures a == b.(trace := a.trace)
  {
    assert Externals(a) == Externals(b);
    assert forall i: nat :: a.rtcLease == Some(i) <==> b.rtcLease == Some(i);
    assert a.rtcLease == b.rtcLease by {
      assert a.rtcLease.Some? ==> b.rtcLease == Some(a.rtcLease.value);
      assert b.rtcLease.Some? ==> a.rtcLease == Some(b.rtcLease.value);
    }
    if a.active != {} {
      var i :| i in a.active;
      assert i < |a.leases|;
    }
    if Externals(a) != {} {
      var i :| i in Externals(a);
    }
  }

  // ---- When an acquire is granted ---------------------------------------------------------------

  /** Every active lease has the same cache directory and console logging. */
  ghost predicate SharesAll(s: Ledger, c: Configuration) {
    forall i :: i in s.active && i < |s.leases| ==>
      s.leases[i].configuration.cacheDir == c.cacheDir && s.leases[i].configuration.consoleLog == c.consoleLog
  }

  /** The active external-token storage leases. */
  ghost predicate ExternalStorage(s: Ledger, i: nat) {
    i in s.active && i < |s.leases| && s.leases[i].product == Storage && s.leases[i].mode == ExternalToken
  }

  /** Each of them has the same application and endpoint. */
  ghost predicate SharesExternal(s: Ledger, c: Configuration) {
    forall i: nat :: ExternalStorage(s, i) ==>
      s.leases[i].configuration.appId == c.appId && s.leases[i].configuration.endpoint == c.endpoint
  }

  ghost predicate RtcActive(s: Ledger) {
    exists i :: i in s.active && i < |s.leases| && s.leases[i].product == Rtc
  }

  /** The ledger after a granted acquire: one active lease more and the native calls made. */
  ghost predicate Grants(s: Ledger, r: Ledger, lease: Lease, calls: seq<NativeCall>) {
    r.leases == s.leases + [lease] && r.active == s.active + {|s.leases|} && r.trace == s.trace + calls
  }

  lemma SharedMeans(s: Ledger, c: Configuration)
    requires Inv(s)
    ensures s.shared.None? || s.shared == Some((c.cacheDir, c.consoleLog)) <==> SharesAll(s, c)
  {
    if s.active != {} {
      var i :| i in s.active;
      assert i < |s.leases|;
    }
  }

  lemma ExternalMeans(s: Ledger, c: Configuration)
    requires Inv(s)
    ensures s.externalConfiguration.None? || s.externalConfiguration == Some((c.appId, c.endpoint)) <==>
            SharesExternal(s, c)
    ensures s.externalCount == 0 <==> forall i: nat :: !ExternalStorage(s, i)
  {
    forall i: nat ensures ExternalStorage(s, i) <==> i in Externals(s) {
    }
    if Externals(s) != {} {
      var i :| i in Externals(s);
      assert ExternalStorage(s, i);
    } else {
      assert Externals(s) == {};
    }
  }

  /** After any history, by the active leases alone: a storage acquire is granted if and only if every
      active lease shares cache directory and console logging, every active external-token storage lease
      shares application and endpoint when this one is external, the cache is usable, and the native call
      succeeds or is not needed, because such a lease is active.  A refusal changes nothing. */
  lemma StorageGrantedIff(ops: seq<Op>, c: Configuration, mode: Mode, cacheOk: bool, code: int)
    ensures
      var s := Run(EMPTY, ops);
      var (r, result) := AcquireStorage(s, c, mode, cacheOk, code);
      var compatible := SharesAll(s, c) && (mode == ExternalToken ==> SharesExternal(s, c));
      var needed := mode == AccessKey || forall i: nat :: !ExternalStorage(s, i);
      && (result.Granted? <==> compatible && cacheOk && (needed ==> code == 0))
      && (result == AlreadyInitialized <==> !compatible)
      && (result == CacheUnusable <==> compatible && !cacheOk)
      && (result.NativeError? <==> compatible && cacheOk && needed && code != 0)
      && (result.NativeError? ==> result.code == code)
      && (!result.Granted? ==> r == s)
      && (result.Granted? ==>
            && result.lease == |s.leases|
            && Grants(s, r, Lease(Storage, mode, c, mode == AccessKey, false),
                      if !needed then [] else if mode == AccessKey then [CreateClient(Storage)] else [Init(Storage)]))
  {
    var s := Run(EMPTY, ops);
    InvAlong(EMPTY, ops);
    SharedMeans(s, c);
    ExternalMeans(s, c);
  }

  lemma RtcMeans(s: Ledger)
    requires Inv(s)
    ensures s.rtcLease.Some? <==> RtcActive(s)
  {
    if s.rtcLease.Some? {
      assert s.rtcLease == Some(s.rtcLease.value);
    }
    if RtcActive(s) {
      var i :| i in s.active && i < |s.leases| && s.leases[i].product == Rtc;
      assert s.rtcLease == Some(i);
    }
  }

  /** An RTC acquire is refused as in use exactly when an RTC lease is active, and otherwise granted if
      and only if every active lease shares cache directory and console logging, the cache is usable and
      the native call succeeds. */
  lemma RtcGrantedIff(ops: seq<Op>, c: Configuration, mode: Mode, cacheOk: bool, code: int)
    ensures
      var s := Run(EMPTY, ops);
      var (r, result) := AcquireRtc(s, c, mode, cacheOk, code);
      && (result == InUse <==> RtcActive(s))
      && (result.Granted? <==> !RtcActive(s) && SharesAll(s, c) && cacheOk && code == 0)
      && (result == AlreadyInitialized <==> !RtcActive(s) && !SharesAll(s, c))
      && (result == CacheUnusable <==> !RtcActive(s) && SharesAll(s, c) && !cacheOk)
      && (result.NativeError? <==> !RtcActive(s) && SharesAll(s, c) && cacheOk && code != 0)
      && (result.NativeError? ==> result.code == code)
      && (!result.Granted? ==> r == s)
      && (result.Granted? ==>
            && result.lease == |s.leases|
            && Grants(s, r, Lease(Rtc, mode, c, mode == AccessKey, false),
                      [if mode == AccessKey then CreateClient(Rtc) else Init(Rtc)]))
  {
    var s := Run(EMPTY, ops);
    InvAlong(EMPTY, ops);
    SharedMeans(s, c);
    RtcMeans(s);
  }

  lemma SingleExternal(s: Ledger, id: nat)
    requires id in Externals(s)
    ensures |Externals(s)| == 1 <==> Externals(s) == {id}
  {
    var rest := Externals(s) - {id};
    assert Externals(s) == {id} + rest;
    assert |Externals(s)| == 1 + |rest|;
  }

  lemma OnlyExternal(s: Ledger, id: nat)
    requires id in Externals(s)
    ensures Externals(s) == {id} <==> forall i: nat :: ExternalStorage(s, i) ==> i == id
  {
    forall i: nat ensures ExternalStorage(s, i) <==> i in Externals(s) {
    }
  }

  /** The native calls of a successful release, by the active leases. */
  ghost function ReleaseCalls(s: Ledger, id: nat): seq<NativeCall>
    requires id < |s.leases|
  {
    if s.leases[id].mode == AccessKey then [CloseClient(s.leases[id].product)]
    else if s.leases[id].product == Rtc then [Shutdown(Rtc)]
    else if forall i: nat :: ExternalStorage(s, i) ==> i == id then [Shutdown(Storage)]
    else []
  }

  /** A lease can always be given back after any history: a release is never refused for a wrong
      count or an unknown lease, needs a native success exactly when it is an access-key lease, the
      RTC lease or the last external-token storage lease, and changes nothing when it fails. */
  lemma ReleaseNeverMiscounts(ops: seq<Op>, id: nat, code: int)
    requires id < |Run(EMPTY, ops).leases|
    ensures
      var s := Run(EMPTY, ops);
      var (r, result) := Release(s, id, code);
      && (result == AlreadyClosed <==> id !in s.active)
      && (result == Closed <==> id in s.active && (code == 0 || (id in Externals(s) && Externals(s) != {id})))
      && (result != Closed ==> r == s)
      && (result != Closed && result != AlreadyClosed ==> result == CloseFailed(code))
      && (result == Closed ==>
            && r.active == s.active - {id}
            && r.leases == s.leases[id := s.leases[id].(closed := true, handle := false)]
            && r.trace == s.trace + ReleaseCalls(s, id))
  {
    InvAlong(EMPTY, ops);
    var s := Run(EMPTY, ops);
    ReleaseKept(s, id, code);
    if id in Externals(s) {
      SingleExternal(s, id);
      OnlyExternal(s, id);
    }
  }
}
