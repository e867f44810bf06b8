/** withRetry: bounded attempts with exponential backoff and jitter. */
module Retry {
  import opened Prelude

  /** The largest value of Math.floor(Math.random() * base). */
  function MaxJitter(base: nat): nat {
    if base == 0 then 0 else base - 1
  }

  /** The total of k sleeps: exponential part exact, jitter part bounded. */
  predicate SleptFor(base: nat, k: nat, waited: nat) {
    base * (Pow2(k) - 1) <= waited <= base * (Pow2(k) - 1) + k * MaxJitter(base)
  }

  lemma OneSleepMore(base: nat, k: nat, waited: nat, jitter: nat)
    requires SleptFor(base, k, waited) && jitter <= MaxJitter(base)
    ensures SleptFor(base, k + 1, waited + base * Pow2(k) + jitter)
  {
    var p, m := Pow2(k), MaxJitter(base);
    assert base * (2 * p - 1) == base * (p - 1) + base * p;
    assert (k + 1) * m == k * m + m;
  }

  /**
   `op(i)` is what attempt i does and `jitter(i)` the random part of the wait after it.  The first
   success is returned, otherwise the last error is rethrown (an absent error when no attempt was
   allowed).  Between attempts, and only there, it sleeps: over k sleeps the time is
   base * (2^k - 1) plus at most k jitters.
   */
  method WithRetry<T, E>(op: nat -> Result<T, E>, attempts: nat, base: nat, jitter: nat -> nat)
    returns (r: Result<T, Option<E>>, calls: nat, waited: nat)
    requires forall i: nat :: jitter(i) <= MaxJitter(base)
    ensures calls <= attempts
    ensures forall i | 0 <= i < calls - 1 :: op(i).Failure?
    ensures r.Success? ==> calls > 0 && op(calls - 1) == Success(r.value)
    ensures r.Failure? ==> calls == attempts && forall i | 0 <= i < attempts :: op(i).Failure?
    ensures r.Failure? && attempts > 0 ==> r.error == Some(op(attempts - 1).error)
    ensures attempts == 0 ==> r == Failure(None)
    ensures SleptFor(base, if calls == 0 then 0 else calls - 1, waited)
  {
    var lastErr: Option<E> := None;
    waited := 0;
    calls := 0;
    var i := 0;
    while i < attempts
      invariant 0 <= i <= attempts && calls == i
      invariant forall j | 0 <= j < i :: op(j).Failure?
      invariant lastErr == if i == 0 then None else Some(op(i - 1).error)
      invariant i < attempts || i == 0
      invariant SleptFor(base, i, waited)
    {
      calls := calls + 1;
      var outcome := op(i);
      if outcome.Success? {
        return Success(outcome.value), calls, waited;
      }
      lastErr := Some(outcome.error);
      if i == attempts - 1 { break; }
      var wait := base * Pow2(i) + jitter(i);
      OneSleepMore(base, i, waited, jitter(i));
      waited := waited + wait;
      i := i + 1;
    }
    r := Failure(lastErr);
  }
}
