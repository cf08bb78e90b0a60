/** `_retry_in_use_result` (src/tirtc/_util.py): bounded retry with exponential back-off.  Times
    are milliseconds; the operation and the clock are given by their successive answers. */
module RetryLoop {
  const IN_USE := 6026

  datatype Outcome = Result(code: int) | TimedOut

  function Min(a: real, b: real): real {
    if a <= b then a else b
  }

  /** The delay asked for after the `k`-th call: 1, 2, 4, 8, 16, 20, 20, ... */
  function Delay(k: nat): real {
    if k == 0 then 1.0 else Min(Delay(k - 1) * 2.0, 20.0)
  }

  /** The sum of the first `k` delays. */
  function DelaySum(k: nat): real {
    if k == 0 then 0.0 else DelaySum(k - 1) + Delay(k - 1)
  }

  lemma {:induction false} DelayValues(k: nat)
    ensures k >= 5 ==> Delay(k) == 20.0
    ensures Delay(0) == 1.0 && Delay(1) == 2.0 && Delay(2) == 4.0 && Delay(3) == 8.0 && Delay(4) == 16.0
    ensures 0.0 < Delay(k) <= 20.0
  {
    assert Delay(1) == 2.0;
    assert Delay(2) == 4.0;
    assert Delay(3) == 8.0;
    assert Delay(4) == 16.0;
    if k > 0 {
      DelayValues(k - 1);
    }
  }

  /** The closed form: 31 ms for the first five delays and 20 ms for each later one. */
  lemma {:induction false} DelaySumClosed(k: nat)
    ensures k >= 5 ==> DelaySum(k) == 31.0 + 20.0 * (k - 5) as real
    ensures DelaySum(5) == 31.0
  {
    DelayValues(0);
    assert DelaySum(1) == 1.0;
    assert DelaySum(2) == 3.0;
    assert DelaySum(3) == 7.0;
    assert DelaySum(4) == 15.0;
    assert DelaySum(5) == 31.0;
    if k > 5 {
      DelaySumClosed(k - 1);
      DelayValues(k - 1);
    }
  }

  /** The clock: reading 0 sets the deadline, reading `k` follows the `k`-th call.  It is monotone,
      and the sleep between two readings lasts at least as long as it was asked to. */
  ghost predicate ClockOk(now: nat -> real, timeout: real) {
    && now(0) <= now(1)
    && forall k: nat {:trigger now(k + 1)} :: k > 0 ==>
         now(k + 1) >= now(k) && now(k + 1) >= now(k) + Min(Delay(k - 1), now(0) + timeout - now(k))
  }

  lemma DelaySumGrows(k: nat)
    ensures DelaySum(k) >= k as real
  {
    if k > 0 {
      DelaySumGrows(k - 1);
      DelayAtLeastOne(k - 1);
    }
  }

  lemma {:induction false} DelayAtLeastOne(k: nat)
    ensures Delay(k) >= 1.0
  {
    if k > 0 {
      DelayAtLeastOne(k - 1);
    }
  }

  /** The loop.  It ends for every timeout; it times out only after the deadline and only if every
      call said in-use; a result is the last call's, and the first one that was not in-use; and
      before the last call the delays already asked for add up to less than the timeout. */
  method RetryInUse(codes: nat -> int, now: nat -> real, timeout: real) returns (outcome: Outcome, calls: nat)
    requires timeout >= 0.0 && ClockOk(now, timeout)
    ensures calls >= 1
    ensures outcome.Result? ==> outcome.code == codes(calls) && outcome.code != IN_USE
    ensures outcome.TimedOut? ==> codes(calls) == IN_USE && now(calls) >= now(0) + timeout
    ensures forall k :: 1 <= k < calls ==> codes(k) == IN_USE
    ensures calls >= 2 ==> DelaySum(calls - 2) < timeout
  {
    var deadline := now(0) + timeout;
    var delay := 1.0;
    calls := 0;
    while true
      invariant delay == Delay(calls)
      invariant deadline == now(0) + timeout
      invariant forall k :: 1 <= k <= calls ==> codes(k) == IN_USE
      invariant calls >= 1 ==> DelaySum(calls - 1) < timeout
      invariant calls >= 1 ==> now(calls + 1) >= now(0) + Min(DelaySum(calls), timeout)
      decreases timeout.Floor + 1 - calls
    {
      calls := calls + 1;
      var code := codes(calls);
      if code != IN_USE {
        return Result(code), calls;
      }
      var remaining := deadline - now(calls);
      if remaining <= 0.0 {
        return TimedOut, calls;
      }
      assert now(calls) >= now(0) + Min(DelaySum(calls - 1), timeout);
      DelaySumGrows(calls - 1);
      // sleep(min(delay, remaining)): what it does to the clock is ClockOk
      assert now(calls + 1) >= now(calls) + Min(Delay(calls - 1), remaining);
      delay := Min(delay * 2.0, 20.0);
    }
  }

  /** Whatever number of calls the loop makes within a timeout of at least 31 ms, it is at most
      six plus the 20 ms periods, rounded up, in the rest. */
  lemma CallsBounded(timeout: real, calls: nat)
    requires timeout >= 31.0 && calls >= 2 && DelaySum(calls - 2) < timeout
    ensures (calls - 7) as real < (timeout - 31.0) / 20.0
  {
    if calls >= 7 {
      DelaySumClosed(calls - 2);
      assert 31.0 + 20.0 * (calls - 7) as real < timeout;
    }
  }

  /** 255 calls for the default of five seconds. */
  lemma DefaultCalls(calls: nat)
    requires calls >= 2 && DelaySum(calls - 2) < 5000.0
    ensures calls <= 255
  {
    CallsBounded(5000.0, calls);
  }

  /** A clock on which sleeps last exactly as long as asked and nothing else takes time. */
  function ExactClock(k: nat): real {
    if k <= 1 then 0.0 else Min(DelaySum(k - 1), 5000.0)
  }

  lemma {:induction false} DelaySumMonotone(j: nat, k: nat)
    requires j <= k
    ensures DelaySum(j) <= DelaySum(k)
    decreases k - j
  {
    if j < k {
      DelaySumMonotone(j, k - 1);
      DelayAtLeastOne(k - 1);
    }
  }

  lemma ExactClockOk()
    ensures ClockOk(ExactClock, 5000.0)
  {
    forall k: nat | k > 0
      ensures ExactClock(k + 1) >= ExactClock(k)
      ensures ExactClock(k + 1) >= ExactClock(k) + Min(Delay(k - 1), ExactClock(0) + 5000.0 - ExactClock(k))
    {
      DelayAtLeastOne(k - 1);
      assert DelaySum(k) == DelaySum(k - 1) + Delay(k - 1);
      assert DelaySum(0) == 0.0;
    }
  }

  /** The bound is tight: on that clock, whenever the default loop times out, it is after exactly
      255 calls. */
  lemma DefaultCallsTight(calls: nat)
    requires calls >= 1 && ExactClock(calls) >= ExactClock(0) + 5000.0
    requires calls >= 2 ==> DelaySum(calls - 2) < 5000.0
    ensures ClockOk(ExactClock, 5000.0) && calls == 255
  {
    ExactClockOk();
    DelaySumClosed(253);
    DelaySumClosed(254);
    if calls <= 254 {
      DelaySumMonotone(calls - 1, 253);
    } else {
      DefaultCalls(calls);
    }
  }

  /** An operation that always says in-use is called 255 times on that clock. */
  method DefaultCallsReached() returns (calls: nat)
    ensures calls == 255
  {
    ExactClockOk();
    var outcome;
    outcome, calls := RetryInUse(_ => IN_USE, ExactClock, 5000.0);
    DefaultCallsTight(calls);
  }

  /** The clock of `_close_handle`: each sleep lasts at least 5 ms. */
  ghost predicate FixedClockOk(now: nat -> real) {
    now(0) <= now(1) && forall k: nat {:trigger now(k + 1)} :: k > 0 ==> now(k + 1) >= now(k) + 5.0
  }

  /** `_close_handle` (src/tirtc/_runtime.py): unlike the loop above it answers with the in-use code
      itself once five seconds are over, after at most 1001 calls. */
  method CloseHandle(codes: nat -> int, now: nat -> real) returns (code: int, calls: nat)
    requires FixedClockOk(now)
    ensures 1 <= calls <= 1001 && code == codes(calls)
    ensures code == IN_USE ==> now(calls) >= now(0) + 5000.0
    ensures forall k :: 1 <= k < calls ==> codes(k) == IN_USE && now(k) < now(0) + 5000.0
  {
    var deadline := now(0) + 5000.0;
    calls := 0;
    while true
      invariant calls <= 1000
      invariant forall k :: 1 <= k <= calls ==> codes(k) == IN_USE && now(k) < deadline
      invariant now(calls + 1) >= now(0) + 5.0 * calls as real
      decreases 1001 - calls
    {
      calls := calls + 1;
      code := codes(calls);
      if code != IN_USE || now(calls) >= deadline {
        return;
      }
    }
  }
}
