/** The retry policy and the failure filter of mycves/errors.py.

    `retry` wraps a callable; the synchronous and the asynchronous body share
    one logic, modelled once. The callable is a function from the number of
    the call (0, 1, …) to what that call does: return a value, or raise an
    exception that is or is not one of `exceptions_to_check`. Instead of
    sleeping, the model returns the waits in order. */
module Errors {

  /** What one call of the wrapped callable does. `listed` says whether the
      exception is an instance of `exceptions_to_check`. */
  datatype Attempt<V, E> = Returned(v: V) | Raised(e: E, listed: bool)

  /** How a decorated call ends: with the callable's value, with its own
      exception, or with the `raises` exception built from it. */
  datatype Outcome<V, E> = Value(v: V) | Propagated(e: E) | Wrapped(e: E)

  function Pow(b: real, k: nat): real {
    if k == 0 then 1.0 else Pow(b, k - 1) * b
  }

  lemma PowShift(m: real, b: real, i: nat)
    ensures m * Pow(b, i + 1) == (m * b) * Pow(b, i)
  {
    assert Pow(b, i + 1) == Pow(b, i) * b;
  }

  /** The `n` waits of the loop: `sleep(mdelay)`, then `mdelay *= backoff`. */
  function Waits(mdelay: real, backoff: real, n: nat): (ws: seq<real>)
    ensures |ws| == n
    decreases n
  {
    if n == 0 then [] else [mdelay] + Waits(mdelay * backoff, backoff, n - 1)
  }

  /** The waits grow geometrically: the `k`-th is `mdelay * backoff^k`. */
  lemma {:induction false} WaitsArePowers(mdelay: real, backoff: real, n: nat)
    ensures forall k :: 0 <= k < n ==> Waits(mdelay, backoff, n)[k] == mdelay * Pow(backoff, k)
    decreases n
  {
    forall k | 0 <= k < n ensures Waits(mdelay, backoff, n)[k] == mdelay * Pow(backoff, k) {
      WaitAt(mdelay, backoff, n, k);
    }
  }

  lemma {:induction false} WaitAt(mdelay: real, backoff: real, n: nat, k: nat)
    requires k < n
    ensures Waits(mdelay, backoff, n)[k] == mdelay * Pow(backoff, k)
    decreases k
  {
    var rest := Waits(mdelay * backoff, backoff, n - 1);
    assert Waits(mdelay, backoff, n) == [mdelay] + rest;
    if k == 0 {
      assert Pow(backoff, 0) == 1.0;
    } else {
      WaitAt(mdelay * backoff, backoff, n - 1, k - 1);
      assert rest[k - 1] == (mdelay * backoff) * Pow(backoff, k - 1);
      PowShift(mdelay, backoff, k - 1);
    }
  }

  /** The number of guarded calls the loop `for _ in range(tries - 1)` makes
      at most. */
  function Guarded(tries: int): nat {
    if tries - 1 > 0 then tries - 1 else 0
  }

  /** One decorated call: how many times the callable was called, the waits
      between the calls, and how it ended. */
  datatype Run<V, E> = Run(calls: nat, delays: seq<real>, outcome: Outcome<V, E>)

  /** The run from the `k`-th call on, the current wait being `mdelay`. */
  function RetryFrom<V, E>(call: nat -> Attempt<V, E>, k: nat, guarded: nat, mdelay: real, backoff: real,
                           hasRaises: bool): (r: Run<V, E>)
    requires k <= guarded
    ensures k + 1 <= r.calls <= guarded + 1
    ensures |r.delays| == r.calls - 1 - k
    ensures r.delays == Waits(mdelay, backoff, r.calls - 1 - k)
    ensures forall i :: k <= i < r.calls - 1 ==> call(i).Raised? && call(i).listed
    ensures call(r.calls - 1).Returned? ==> r.outcome == Value(call(r.calls - 1).v)
    ensures call(r.calls - 1).Raised? && !call(r.calls - 1).listed ==> r.outcome == Propagated(call(r.calls - 1).e)
    ensures call(r.calls - 1).Raised? && call(r.calls - 1).listed ==>
              && r.calls == guarded + 1
              && r.outcome == (if hasRaises then Wrapped(call(r.calls - 1).e) else Propagated(call(r.calls - 1).e))
    decreases guarded - k
  {
    var a := call(k);
    if a.Returned? then Run(k + 1, [], Value(a.v))
    else if k == guarded then Run(k + 1, [], if a.listed && hasRaises then Wrapped(a.e) else Propagated(a.e))
    else if !a.listed then Run(k + 1, [], Propagated(a.e))
    else
      var rest := RetryFrom(call, k + 1, guarded, mdelay * backoff, backoff, hasRaises);
      rest.(delays := [mdelay] + rest.delays)
  }

  /** `retry(exceptions_to_check, tries, delay, backoff, raises=...)` applied
      to `call`; `hasRaises` says whether `raises` is given. The callable is
      called at least once and at most `max(tries - 1, 0) + 1` times; every
      call but the last raised a listed exception and was followed by a wait
      of `delay * backoff^k`; a value ends the run unchanged; an unlisted
      exception ends it at once; a listed exception ends it only on the last
      allowed call, replaced by the `raises` exception when one is given. */
  function Retry<V, E>(call: nat -> Attempt<V, E>, tries: int, delay: real, backoff: real, hasRaises: bool): (r: Run<V, E>)
    ensures 1 <= r.calls <= Guarded(tries) + 1
    ensures r.delays == Waits(delay, backoff, r.calls - 1)
    ensures forall k :: 0 <= k < r.calls - 1 ==> call(k).Raised? && call(k).listed
    ensures call(r.calls - 1).Returned? ==> r.outcome == Value(call(r.calls - 1).v)
    ensures call(r.calls - 1).Raised? && !call(r.calls - 1).listed ==> r.outcome == Propagated(call(r.calls - 1).e)
    ensures call(r.calls - 1).Raised? && call(r.calls - 1).listed ==>
              && r.calls == Guarded(tries) + 1
              && r.outcome == (if hasRaises then Wrapped(call(r.calls - 1).e) else Propagated(call(r.calls - 1).e))
  {
    RetryFrom(call, 0, Guarded(tries), delay, backoff, hasRaises)
  }

  /** The first call that does not raise a listed exception ends the run:
      its value is returned, or its exception propagates, and no call after
      it is made. */
  lemma FirstUnretriedCallEnds<V, E>(call: nat -> Attempt<V, E>, tries: int, delay: real, backoff: real,
                                     hasRaises: bool, j: nat)
    requires j <= Guarded(tries) && (call(j).Returned? || !call(j).listed)
    requires forall k :: 0 <= k < j ==> call(k).Raised? && call(k).listed
    ensures var r := Retry(call, tries, delay, backoff, hasRaises);
            && r.calls == j + 1
            && r.outcome == (if call(j).Returned? then Value(call(j).v) else Propagated(call(j).e))
  {
  }

  /** With the defaults (five tries, delay 1, backoff 2) a callable that
      always raises a listed exception is called five times, waiting 1, 2, 4
      and 8 seconds in between, and the `raises` exception ends the run. */
  lemma DefaultsAlwaysFailing<E>(e: E)
    ensures var r := Retry((k: nat) => Attempt<int, E>.Raised(e, true), 5, 1.0, 2.0, true);
            r.calls == 5 && r.delays == [1.0, 2.0, 4.0, 8.0] && r.outcome == Wrapped(e)
  {
    var r := Retry((k: nat) => Attempt<int, E>.Raised(e, true), 5, 1.0, 2.0, true);
    assert r.calls == 5;
    assert Waits(8.0, 2.0, 1) == [8.0];
    assert Waits(4.0, 2.0, 2) == [4.0, 8.0];
    assert Waits(2.0, 2.0, 3) == [2.0, 4.0, 8.0];
  }

  /** With fewer than two tries there is no retry: one call, no wait, and a
      listed exception is wrapped only when `raises` is given. */
  lemma SingleTry<V, E>(call: nat -> Attempt<V, E>, tries: int, delay: real, backoff: real, hasRaises: bool)
    requires tries <= 1
    ensures Retry(call, tries, delay, backoff, hasRaises).calls == 1
    ensures Retry(call, tries, delay, backoff, hasRaises).delays == []
  {
  }

  // ----- filter_errors -----

  /** One entry of the list `asyncio.gather(..., return_exceptions=True)`
      returns: a value, or the exception the coroutine raised. `Failure`
      stands only for instances of `Exception`, the entries the
      `isinstance` test drops; a returned `BaseException` that is not an
      `Exception`, such as a cancellation, counts as a `Success`, because
      that test keeps it. */
  datatype Gathered<R, X> = Success(value: R) | Failure(error: X)

  /** `filter_errors(results, job_groups, logger)`: the successful results,
      in order, of the pairs `zip` forms (as many as the shorter list). */
  function FilterErrors<R, X, G>(results: seq<Gathered<R, X>>, groups: seq<G>): (r: seq<R>)
    ensures |r| <= |results| && |r| <= |groups|
    ensures forall i :: 0 <= i < |results| && i < |groups| && results[i].Success? ==> results[i].value in r
    ensures forall j :: 0 <= j < |r| ==> exists i :: 0 <= i < |results| && i < |groups| && results[i] == Success(r[j])
  {
    if |results| == 0 || |groups| == 0 then []
    else
      var rest := FilterErrors(results[1..], groups[1..]);
      assert forall i :: 1 <= i < |results| ==> results[i] == results[1..][i - 1];
      (if results[0].Success? then [results[0].value] else []) + rest
  }

  /** The pairs `filter_errors` hands to `log_errored_jobs`: each failed
      result's exception with its job group, in order. */
  function ErroredJobs<R, X, G>(results: seq<Gathered<R, X>>, groups: seq<G>): (r: seq<(X, G)>)
    ensures forall i :: 0 <= i < |results| && i < |groups| && results[i].Failure? ==> (results[i].error, groups[i]) in r
    ensures forall j :: 0 <= j < |r| ==>
              exists i :: 0 <= i < |results| && i < |groups| && results[i] == Failure(r[j].0) && groups[i] == r[j].1
  {
    if |results| == 0 || |groups| == 0 then []
    else
      var rest := ErroredJobs(results[1..], groups[1..]);
      assert forall i :: 1 <= i < |results| ==> results[i] == results[1..][i - 1];
      assert forall i :: 1 <= i < |groups| ==> groups[i] == groups[1..][i - 1];
      (if results[0].Failure? then [(results[0].error, groups[0])] else []) + rest
  }

  function Min(a: int, b: int): int {
    if a <= b then a else b
  }

  /** Every zipped pair is either kept or logged, never both: the two lists
      together have one entry per pair. */
  lemma {:induction false} FilterErrorsPartition<R, X, G>(results: seq<Gathered<R, X>>, groups: seq<G>)
    ensures |FilterErrors(results, groups)| + |ErroredJobs(results, groups)| == Min(|results|, |groups|)
  {
    if |results| > 0 && |groups| > 0 {
      FilterErrorsPartition(results[1..], groups[1..]);
    }
  }

  /** Gathering two batches of groups separately and filtering each gives the
      filter of the whole, so the kept results stay in order. */
  lemma {:induction false} FilterErrorsAppend<R, X, G>(r1: seq<Gathered<R, X>>, g1: seq<G>, r2: seq<Gathered<R, X>>, g2: seq<G>)
    requires |r1| == |g1|
    ensures FilterErrors(r1 + r2, g1 + g2) == FilterErrors(r1, g1) + FilterErrors(r2, g2)
  {
    if |r1| == 0 {
      assert r1 + r2 == r2 && g1 + g2 == g2;
    } else {
      var head: seq<R> := if r1[0].Success? then [r1[0].value] else [];
      assert (r1 + r2)[0] == r1[0];
      assert (r1 + r2)[1..] == r1[1..] + r2;
      assert (g1 + g2)[1..] == g1[1..] + g2;
      calc {
        FilterErrors(r1 + r2, g1 + g2);
        head + FilterErrors(r1[1..] + r2, g1[1..] + g2);
        { FilterErrorsAppend(r1[1..], g1[1..], r2, g2); }
        head + (FilterErrors(r1[1..], g1[1..]) + FilterErrors(r2, g2));
        (head + FilterErrors(r1[1..], g1[1..])) + FilterErrors(r2, g2);
        FilterErrors(r1, g1) + FilterErrors(r2, g2);
      }
    }
  }
}
