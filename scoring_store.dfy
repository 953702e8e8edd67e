/**
 * The `retry` decorator of the scoring service's Redis store: a call is
 * repeated up to `times` times while it raises the retried exception
 * class, sleeping `wait` seconds after each such failure, and the last
 * error is raised again once the attempts run out (Python 2 keeps the
 * `except` variable alive after the loop; with no attempt at all it was
 * never bound).
 */
module ScoringStore {
  import opened Wrappers

  /** The decorator's defaults, used by `cache_get` and `cache_set`. */
  const DEFAULT_TIMES: int := 5
  const DEFAULT_WAIT: nat := 1

  /** What one call of the wrapped function does. */
  datatype Attempt<T, E> = Returned(value: T) | Raised(error: E)

  /** How the wrapper ends: a value, an exception, or `UnboundLocalError` when `error` was never assigned. */
  datatype Outcome<T, E> = Success(value: T) | Failure(error: E) | Unbound

  /** The attempts `lo` up to (not including) `hi` all raise an exception that is retried. */
  ghost predicate FailRetryably<T, E>(call: nat -> Attempt<T, E>, retried: E -> bool, lo: nat, hi: int) {
    forall j: nat :: lo <= j < hi ==> call(j).Raised? && retried(call(j).error)
  }

  /**
   * The outcome from attempt `attempt` on, with `last` the error caught
   * most recently, together with the number of sleeps taken.
   */
  function Run<T, E>(times: int, call: nat -> Attempt<T, E>, retried: E -> bool, attempt: nat, last: Option<E>): (r: (Outcome<T, E>, nat))
    ensures r.1 <= if times < attempt then 0 else times - attempt + 1
    decreases if times < attempt then 0 else times - attempt + 1
  {
    if times < attempt then
      (if last.None? then Unbound else Failure(last.value), 0)
    else
      match call(attempt)
      case Returned(v) => (Success(v), 0)
      case Raised(e) =>
        if !retried(e) then (Failure(e), 0)
        else
          var rest := Run(times, call, retried, attempt + 1, Some(e));
          (rest.0, rest.1 + 1)
  }

  /** The first attempt that returns decides the outcome; every earlier failure slept once. */
  lemma {:induction false} RunFirstSuccess<T, E>(times: int, call: nat -> Attempt<T, E>, retried: E -> bool, attempt: nat, last: Option<E>, k: nat)
    requires attempt <= k <= times
    requires call(k).Returned?
    requires FailRetryably(call, retried, attempt, k)
    ensures Run(times, call, retried, attempt, last) == (Success(call(k).value), k - attempt)
    decreases k - attempt
  {
    if attempt < k {
      assert call(attempt).Raised? && retried(call(attempt).error);
      RunFirstSuccess(times, call, retried, attempt + 1, Some(call(attempt).error), k);
    }
  }

  /** After `times` retried failures, the error of the last attempt is raised. */
  lemma {:induction false} RunExhausted<T, E>(times: int, call: nat -> Attempt<T, E>, retried: E -> bool, attempt: nat, last: Option<E>)
    requires attempt <= times
    requires FailRetryably(call, retried, attempt, times + 1)
    ensures Run(times, call, retried, attempt, last) == (Failure(call(times).error), times - attempt + 1)
    decreases times - attempt
  {
    assert call(attempt).Raised? && retried(call(attempt).error);
    if attempt < times {
      RunExhausted(times, call, retried, attempt + 1, Some(call(attempt).error));
    }
  }

  /** An exception outside the retried class escapes at once, after the sleeps of the earlier failures. */
  lemma {:induction false} RunOtherError<T, E>(times: int, call: nat -> Attempt<T, E>, retried: E -> bool, attempt: nat, last: Option<E>, k: nat)
    requires attempt <= k <= times
    requires call(k).Raised? && !retried(call(k).error)
    requires FailRetryably(call, retried, attempt, k)
    ensures Run(times, call, retried, attempt, last) == (Failure(call(k).error), k - attempt)
    decreases k - attempt
  {
    if attempt < k {
      assert call(attempt).Raised? && retried(call(attempt).error);
      RunOtherError(times, call, retried, attempt + 1, Some(call(attempt).error), k);
    }
  }

  /** With `times <= 0` the loop never runs and `raise error` meets an unbound name. */
  lemma NoAttempts<T, E>(times: int, call: nat -> Attempt<T, E>, retried: E -> bool)
    requires times <= 0
    ensures Run(times, call, retried, 1, None) == (Unbound, 0)
  {
  }

  /**
   * The wrapper: attempts are numbered from 1, `call(n)` is what the
   * wrapped function does on attempt `n`, and `slept` is the total sleep
   * time in seconds.
   */
  method Retry<T, E>(times: int, wait: nat, retried: E -> bool, call: nat -> Attempt<T, E>)
    returns (r: Outcome<T, E>, calls: nat, slept: nat)
    ensures r == Run(times, call, retried, 1, None).0
    ensures slept == Run(times, call, retried, 1, None).1 * wait
    ensures calls <= if times < 1 then 0 else times
  {
    var attempt: nat := 1;
    var error: Option<E> := None;
    var sleeps: nat := 0;
    calls := 0;
    while attempt <= times
      invariant 1 <= attempt && (times >= 1 ==> attempt <= times + 1)
      invariant calls == attempt - 1
      invariant error.None? <==> attempt == 1
      invariant Run(times, call, retried, 1, None) ==
        (Run(times, call, retried, attempt, error).0, Run(times, call, retried, attempt, error).1 + sleeps)
      decreases times - attempt
    {
      calls := calls + 1;
      match call(attempt) {
        case Returned(v) =>
          return Success(v), calls, sleeps * wait;
        case Raised(e) =>
          if !retried(e) {
            return Failure(e), calls, sleeps * wait;
          }
          sleeps := sleeps + 1;
          error := Some(e);
      }
      attempt := attempt + 1;
    }
    if error.None? {
      return Unbound, calls, sleeps * wait;
    }
    r, slept := Failure(error.value), sleeps * wait;
  }

  /** `cache_get` and `cache_set` with the default policy: at most five calls and five seconds of sleep. */
  method CacheCall<T, E>(retried: E -> bool, call: nat -> Attempt<T, E>)
    returns (r: Outcome<T, E>, calls: nat, slept: nat)
    ensures r == Run(DEFAULT_TIMES, call, retried, 1, None).0
    ensures calls <= 5 && slept <= 5
    ensures r != Unbound
  {
    r, calls, slept := Retry(DEFAULT_TIMES, DEFAULT_WAIT, retried, call);
    CacheCallBound(call, retried, 1, None);
  }

  /** Once an attempt has been made, there is always an error to raise. */
  lemma {:induction false} CacheCallBound<T, E>(call: nat -> Attempt<T, E>, retried: E -> bool, attempt: nat, last: Option<E>)
    requires 1 <= attempt && (attempt > 1 ==> last.Some?)
    ensures Run(DEFAULT_TIMES, call, retried, attempt, last).0 != Unbound
    decreases DEFAULT_TIMES - attempt + 1
  {
    if attempt <= DEFAULT_TIMES {
      match call(attempt)
      case Returned(_) =>
      case Raised(e) =>
        if retried(e) {
          CacheCallBound(call, retried, attempt + 1, Some(e));
        }
    }
  }
}
