/** The retry decorator `backoff.on_exception(backoff.constant, E,
    interval=i, max_tries=m)`: call the operation; when it raises `E` and
    fewer than `m` calls have been made, wait `i` seconds and call it again;
    any other exception, any return, or the `m`-th `E` ends the retrying,
    and the last call's exception propagates. */
module Backoff {
  import opened Outcomes

  datatype Policy = Policy(maxTries: nat, interval: nat)

  /** What a decorated call did: its final result, how many times the
      operation ran, and the waits between the runs. */
  datatype Trace<+T> = Trace(result: Result<T>, attempts: nat, waits: seq<nat>)

  /** The exception the decorator is configured to retry on. */
  predicate Retriable(r: Result<bool>) {
    r.Err? && r.error.CalledProcessError?
  }

  /** Retrying from the call numbered `k` (counting from 0); `call(k)` is
      what the `k`-th call of the operation ends with. The trace ends at the
      first call that is not retriable or at the last call allowed; every
      earlier call raised the retriable exception and was followed by one
      wait of the configured interval. */
  function RetryFrom(call: nat -> Result<bool>, policy: Policy, k: nat): (t: Trace<bool>)
    requires k < policy.maxTries
    ensures k < t.attempts <= policy.maxTries
    ensures |t.waits| == t.attempts - 1 - k
    ensures forall w :: w in t.waits ==> w == policy.interval
    ensures t.result == call(t.attempts - 1)
    ensures forall j :: k <= j < t.attempts - 1 ==> Retriable(call(j))
    ensures Retriable(t.result) ==> t.attempts == policy.maxTries
    decreases policy.maxTries - k
  {
    var r := call(k);
    if Retriable(r) && k + 1 < policy.maxTries then
      var t := RetryFrom(call, policy, k + 1);
      t.(waits := [policy.interval] + t.waits)
    else Trace(r, k + 1, [])
  }

  /** The decorated call. `backoff` always makes the first call. */
  function Retry(call: nat -> Result<bool>, policy: Policy): (t: Trace<bool>)
    requires policy.maxTries >= 1
    ensures 1 <= t.attempts <= policy.maxTries
    ensures |t.waits| == t.attempts - 1
  {
    RetryFrom(call, policy, 0)
  }

  /** The first call that does not raise the retriable exception, if it
      comes soon enough, decides the outcome. */
  lemma {:induction false} RetryStopsAtFirstSettled(call: nat -> Result<bool>, policy: Policy, j: nat)
    requires j < policy.maxTries && !Retriable(call(j))
    requires forall i :: 0 <= i < j ==> Retriable(call(i))
    ensures Retry(call, policy).result == call(j)
    ensures Retry(call, policy).attempts == j + 1
  {
  }

  /** When every allowed call raises the retriable exception, the decorator
      gives up after the last one and re-raises its exception. */
  lemma {:induction false} RetryGivesUp(call: nat -> Result<bool>, policy: Policy)
    requires policy.maxTries >= 1
    requires forall i :: 0 <= i < policy.maxTries ==> Retriable(call(i))
    ensures Retry(call, policy).attempts == policy.maxTries
    ensures Retry(call, policy).result == call(policy.maxTries - 1)
  {
  }
}
