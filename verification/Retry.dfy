/** The retry loop of core/a2a_client.py: how many calls it makes, what it answers and how long it waits. */
module Retry {
  import opened PyFloat

  datatype SendResult = Success | Failure | Exhausted | PermissionDenied

  const MAX_DELAY_MS: nat := 30000

  /** A result after which nothing is retried. */
  predicate Terminal(r: SendResult) {
    r == Success || r == PermissionDenied
  }

  function Delay(backoff: nat, attempt: nat): nat {
    if backoff * Pow2(attempt) < MAX_DELAY_MS then backoff * Pow2(attempt) else MAX_DELAY_MS
  }

  /** `n` is the index of the first terminal result among the first `limit`, or `limit` when there is none. */
  ghost predicate FirstTerminal(send: nat -> SendResult, limit: nat, n: nat) {
    n <= limit && (forall j :: 0 <= j < n ==> !Terminal(send(j))) && (n < limit ==> Terminal(send(n)))
  }

  /** The calls go on to the first terminal result and answer it; without one they go on to the last retry and
      answer `Exhausted`. A delay stands between any two calls. */
  ghost predicate RetriedUntil(send: nat -> SendResult, maxRetries: nat, n: nat, result: SendResult, calls: nat, waits: nat) {
    && FirstTerminal(send, maxRetries + 1, n)
    && (n <= maxRetries ==> result == send(n) && calls == n + 1 && waits == n)
    && (n > maxRetries ==> result == Exhausted && calls == maxRetries + 1 && waits == maxRetries)
  }

  /** `execute_with_retry`: `send(j)` is the result of the `j`-th call; the delays are what it sleeps between
      calls, in milliseconds. */
  method ExecuteWithRetry(maxRetries: int, backoff: nat, send: nat -> SendResult)
    returns (result: SendResult, calls: nat, delays: seq<nat>)
    ensures maxRetries == 0 ==> result == send(0) && calls == 1 && delays == []
    ensures maxRetries < 0 ==> result == Exhausted && calls == 0 && delays == []
    ensures maxRetries > 0 ==>
              exists n: nat :: RetriedUntil(send, maxRetries, n, result, calls, |delays|)
    ensures forall j :: 0 <= j < |delays| ==> delays[j] == Delay(backoff, j)
    ensures Total(delays) <= MAX_DELAY_MS * |delays| && Total(delays) <= backoff * (Pow2(|delays|) - 1)
  {
    delays := [];
    if maxRetries == 0 {
      return send(0), 1, [];
    }
    calls := 0;
    var attempt := 0;
    while attempt < maxRetries + 1
      invariant 0 <= attempt && (maxRetries >= 0 ==> attempt <= maxRetries + 1) && (maxRetries < 0 ==> attempt == 0)
      invariant calls == attempt
      invariant forall j :: 0 <= j < attempt ==> !Terminal(send(j))
      invariant |delays| == if attempt <= maxRetries then attempt else if maxRetries < 0 then 0 else maxRetries
      invariant forall j :: 0 <= j < |delays| ==> delays[j] == Delay(backoff, j)
      decreases maxRetries + 1 - attempt
    {
      TotalWait(backoff, delays);
      result := send(attempt);
      calls := calls + 1;
      if result == Success {
        assert RetriedUntil(send, maxRetries, attempt, result, calls, |delays|);
        return Success, calls, delays;
      }
      if result == PermissionDenied {
        assert RetriedUntil(send, maxRetries, attempt, result, calls, |delays|);
        return result, calls, delays;
      }
      if attempt < maxRetries {
        var delay := backoff * Pow2(attempt);
        delays := delays + [if delay < MAX_DELAY_MS then delay else MAX_DELAY_MS];
      }
      attempt := attempt + 1;
    }
    TotalWait(backoff, delays);
    if maxRetries > 0 {
      assert RetriedUntil(send, maxRetries, maxRetries + 1, Exhausted, calls, |delays|);
    }
    return Exhausted, calls, delays;
  }

  /** The index of the first terminal result is unique, so the answer and the number of calls are determined;
      and with retries the answer is `Exhausted` exactly when no call was terminal. */
  lemma FirstTerminalUnique(send: nat -> SendResult, limit: nat, m: nat, n: nat)
    requires FirstTerminal(send, limit, m) && FirstTerminal(send, limit, n)
    ensures m == n
    ensures (n == limit) <==> forall j :: 0 <= j < limit ==> !Terminal(send(j))
  {
    assert m < limit ==> Terminal(send(m));
    assert n < limit ==> Terminal(send(n));
  }

  /** What a run with retries promises its caller: never more calls than retries and one, no call after a
      terminal result, and `Exhausted` exactly when none of the calls made was terminal. */
  lemma RetryOutcome(send: nat -> SendResult, maxRetries: nat, n: nat, result: SendResult, calls: nat, waits: nat)
    requires RetriedUntil(send, maxRetries, n, result, calls, waits)
    ensures 1 <= calls <= maxRetries + 1 && waits == calls - 1
    ensures result == Exhausted <==> forall j :: 0 <= j < calls ==> !Terminal(send(j))
    ensures result != Exhausted ==> result == send(calls - 1) && (result == Success || result == PermissionDenied)
    ensures result == Exhausted ==> calls == maxRetries + 1
    ensures forall j :: 0 <= j < calls - 1 ==> send(j) == Failure || send(j) == Exhausted
    ensures send(0) == Success || send(0) == PermissionDenied ==> result == send(0) && calls == 1
  {
    assert calls == n + 1 ==> Terminal(send(n));
  }

  // ---------- Waiting ----------

  function Total(delays: seq<nat>): nat {
    if delays == [] then 0 else Total(delays[..|delays| - 1]) + delays[|delays| - 1]
  }

  lemma ScaleMonotone(backoff: nat, p: nat, q: nat)
    requires p <= q
    ensures backoff * p <= backoff * q
  {
  }

  /** Delays never shrink and never exceed half a minute. */
  lemma DelaysGrow(backoff: nat, i: nat, j: nat)
    requires i <= j
    ensures Delay(backoff, i) <= Delay(backoff, j) <= 30000
    ensures backoff * Pow2(i) <= 30000 ==> Delay(backoff, i) == backoff * Pow2(i)
  {
    Pow2Monotone(i, j);
    ScaleMonotone(backoff, Pow2(i), Pow2(j));
  }

  lemma GeometricStep(backoff: nat, n: nat)
    ensures backoff * (Pow2(n + 1) - 1) == backoff * (Pow2(n) - 1) + backoff * Pow2(n)
  {
    var p := Pow2(n);
    assert Pow2(n + 1) == 2 * p;
    assert backoff * (2 * p - 1) == backoff * (p - 1) + backoff * p;
  }

  /** The whole wait is bounded by half a minute for each retry, and by the geometric sum. */
  lemma {:induction false} TotalWait(backoff: nat, delays: seq<nat>)
    requires forall j :: 0 <= j < |delays| ==> delays[j] == Delay(backoff, j)
    ensures Total(delays) <= 30000 * |delays|
    ensures Total(delays) <= backoff * (Pow2(|delays|) - 1)
  {
    if delays != [] {
      var n := |delays| - 1;
      TotalWait(backoff, delays[..n]);
      GeometricStep(backoff, n);
      hide Pow2;
    }
  }

  /** Below the cap the bound is exact: without capping, the wait is the geometric sum. */
  lemma {:induction false} TotalWaitUncapped(backoff: nat, delays: seq<nat>)
    requires forall j :: 0 <= j < |delays| ==> delays[j] == Delay(backoff, j)
    requires delays != [] ==> backoff * Pow2(|delays| - 1) <= MAX_DELAY_MS
    ensures Total(delays) == backoff * (Pow2(|delays|) - 1)
  {
    if delays != [] {
      var n := |delays| - 1;
      if n > 0 {
        ScaleMonotone(backoff, Pow2(n - 1), Pow2(n));
      }
      TotalWaitUncapped(backoff, delays[..n]);
      GeometricStep(backoff, n);
      hide Pow2;
    } else {
      assert Pow2(0) - 1 == 0;
    }
  }
}
