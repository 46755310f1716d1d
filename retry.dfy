/**
 * `retry_with_backoff(max_retries, backoff_delays)`: the wrapped call is
 * attempted up to `max_retries + 1` times; after failed attempt `i` (but the
 * last) the wrapper sleeps `backoff_delays[i]`, or the last listed delay when
 * `i` is past the end of the list, and after the last attempt it re-raises
 * the failure.  The wrapped call is a function from the attempt index to
 * what that attempt does; sleeping is recorded, not performed.
 */
module Retry {

  /** What one call of the wrapped function does: return a value or raise an error. */
  datatype Outcome<T> = Returned(value: T) | Raised(error: string)

  /**
   * How the wrapper ends: with the value of a successful call, by re-raising
   * the last failure, with the `IndexError` of `backoff_delays[-1]` on an
   * empty delay list, or (when `max_retries` is negative and the loop never
   * runs) by returning `None`.
   */
  datatype Ending<T> = Value(value: T) | Reraised(error: string) | IndexError | NoAttempt

  /** A run of the wrapper: how many calls it made, the delays it slept, in order, and how it ended. */
  datatype Run<T> = Run(calls: nat, slept: seq<real>, ending: Ending<T>)

  /** The delay after failed attempt `attempt`: its own entry, or the last entry past the end of the list. */
  function DelayFor(delays: seq<real>, attempt: nat): real
    requires delays != []
  {
    if attempt < |delays| then delays[attempt] else delays[|delays| - 1]
  }

  /** The wrapper's loop from attempt `attempt` on. */
  function RetryFrom<T>(maxRetries: int, delays: seq<real>, call: nat -> Outcome<T>, attempt: nat): Run<T>
    decreases maxRetries + 1 - attempt
  {
    if attempt > maxRetries then Run(0, [], NoAttempt)
    else match call(attempt)
      case Returned(v) => Run(1, [], Value(v))
      case Raised(e) =>
        if attempt < maxRetries then
          if delays == [] then Run(1, [], IndexError)
          else
            var rest := RetryFrom(maxRetries, delays, call, attempt + 1);
            Run(1 + rest.calls, [DelayFor(delays, attempt)] + rest.slept, rest.ending)
        else Run(1, [], Reraised(e))
  }

  /** `retry_with_backoff(maxRetries, delays)(call)()`. */
  function RetryWithBackoff<T>(maxRetries: int, delays: seq<real>, call: nat -> Outcome<T>): Run<T> {
    RetryFrom(maxRetries, delays, call, 0)
  }

  // ---------------------------------------------------------------------
  // What the wrapper promises.
  // ---------------------------------------------------------------------

  /** A run from `attempt` makes one call per attempt it reaches, never past `maxRetries`, and sleeps between calls. */
  lemma {:induction false} RetryFromShape<T>(maxRetries: int, delays: seq<real>, call: nat -> Outcome<T>, attempt: nat)
    ensures var r := RetryFrom(maxRetries, delays, call, attempt);
      && (r.ending.NoAttempt? <==> attempt > maxRetries)
      && (r.ending.NoAttempt? ==> r.calls == 0 && r.slept == [])
      && (!r.ending.NoAttempt? ==> 1 <= r.calls <= maxRetries + 1 - attempt && |r.slept| == r.calls - 1)
      && forall k | 0 <= k < |r.slept| :: delays != [] && r.slept[k] == DelayFor(delays, attempt + k)
    decreases maxRetries + 1 - attempt
  {
    if attempt <= maxRetries && call(attempt).Raised? && attempt < maxRetries && delays != [] {
      RetryFromShape(maxRetries, delays, call, attempt + 1);
      var rest := RetryFrom(maxRetries, delays, call, attempt + 1);
      var r := RetryFrom(maxRetries, delays, call, attempt);
      forall k | 0 <= k < |r.slept| ensures r.slept[k] == DelayFor(delays, attempt + k) {
        if k > 0 {
          assert r.slept[k] == rest.slept[k - 1];
        }
      }
    }
  }

  /**
   * At most `max_retries + 1` calls, exactly one sleep between consecutive
   * calls, the `i`-th sleep being `DelayFor(delays, i)`; no call at all
   * exactly when `max_retries` is negative.
   */
  lemma RetryBounds<T>(maxRetries: int, delays: seq<real>, call: nat -> Outcome<T>)
    ensures var r := RetryWithBackoff(maxRetries, delays, call);
      && (r.calls == 0 <==> maxRetries < 0)
      && (r.calls == 0 ==> r.ending == NoAttempt)
      && r.calls <= (if maxRetries < 0 then 0 else maxRetries + 1)
      && (r.calls > 0 ==> |r.slept| == r.calls - 1)
      && forall k | 0 <= k < |r.slept| :: delays != [] && r.slept[k] == DelayFor(delays, k)
  {
    RetryFromShape(maxRetries, delays, call, 0);
  }

  /** A value is returned only by the last call made, and every earlier call failed. */
  lemma {:induction false} RetryStopsAtFirstSuccess<T>(maxRetries: int, delays: seq<real>, call: nat -> Outcome<T>, attempt: nat)
    requires RetryFrom(maxRetries, delays, call, attempt).ending.Value?
    ensures var r := RetryFrom(maxRetries, delays, call, attempt);
      && r.calls >= 1
      && call(attempt + r.calls - 1) == Returned(r.ending.value)
      && forall k | attempt <= k < attempt + r.calls - 1 :: call(k).Raised?
    decreases maxRetries + 1 - attempt
  {
    if call(attempt).Raised? {
      RetryStopsAtFirstSuccess(maxRetries, delays, call, attempt + 1);
    }
  }

  /** When some attempt succeeds and every earlier one fails, the wrapper returns its value after exactly that many calls. */
  lemma {:induction false} RetryReturnsFirstSuccess<T>(maxRetries: int, delays: seq<real>, call: nat -> Outcome<T>, attempt: nat, k: nat)
    requires attempt <= k <= maxRetries && call(k).Returned? && delays != []
    requires forall j | attempt <= j < k :: call(j).Raised?
    ensures RetryFrom(maxRetries, delays, call, attempt).ending == Value(call(k).value)
    ensures RetryFrom(maxRetries, delays, call, attempt).calls == k - attempt + 1
    decreases k - attempt
  {
    if attempt < k {
      RetryReturnsFirstSuccess(maxRetries, delays, call, attempt + 1, k);
    }
  }

  /** When every attempt fails, the wrapper makes all `max_retries + 1` calls and re-raises the last failure. */
  lemma {:induction false} RetryReraisesLastFailure<T>(maxRetries: int, delays: seq<real>, call: nat -> Outcome<T>, attempt: nat)
    requires attempt <= maxRetries && delays != []
    requires forall j | attempt <= j <= maxRetries :: call(j).Raised?
    ensures RetryFrom(maxRetries, delays, call, attempt).ending == Reraised(call(maxRetries).error)
    ensures RetryFrom(maxRetries, delays, call, attempt).calls == maxRetries + 1 - attempt
    decreases maxRetries - attempt
  {
    if attempt < maxRetries {
      RetryReraisesLastFailure(maxRetries, delays, call, attempt + 1);
    }
  }

  /** With an empty delay list, a first failure that is not the last attempt raises `IndexError` at once. */
  lemma EmptyDelaysIndexError<T>(maxRetries: int, call: nat -> Outcome<T>)
    requires maxRetries >= 1 && call(0).Raised?
    ensures RetryWithBackoff(maxRetries, [], call) == Run(1, [], IndexError)
  {
  }

  /** Past the end of the delay list, the last delay is used again. */
  lemma LastDelayReused(delays: seq<real>, attempt: nat)
    requires delays != [] && attempt >= |delays|
    ensures DelayFor(delays, attempt) == delays[|delays| - 1]
  {
  }

  // ---------------------------------------------------------------------
  // The wrapper's loop.
  // ---------------------------------------------------------------------

  /** `Run(calls, slept, _)` followed by the run `rest`. */
  function After<T>(calls: nat, slept: seq<real>, rest: Run<T>): Run<T> {
    Run(calls + rest.calls, slept + rest.slept, rest.ending)
  }

  /** The `for attempt in range(max_retries + 1)` loop of the wrapper. */
  method RetryLoop<T>(maxRetries: int, delays: seq<real>, call: nat -> Outcome<T>) returns (r: Run<T>)
    ensures r == RetryWithBackoff(maxRetries, delays, call)
  {
    var attempt: nat := 0;
    var slept: seq<real> := [];
    while attempt <= maxRetries
      invariant After(attempt, slept, RetryFrom(maxRetries, delays, call, attempt)) == RetryWithBackoff(maxRetries, delays, call)
      decreases maxRetries + 1 - attempt
    {
      var outcome := call(attempt);
      match outcome {
        case Returned(v) =>
          return Run(attempt + 1, slept, Value(v));
        case Raised(e) =>
          if attempt < maxRetries {
            if delays == [] {
              return Run(attempt + 1, slept, IndexError);
            }
            var rest := RetryFrom(maxRetries, delays, call, attempt + 1);
            assert slept + ([DelayFor(delays, attempt)] + rest.slept) == (slept + [DelayFor(delays, attempt)]) + rest.slept;
            slept := slept + [DelayFor(delays, attempt)];
          } else {
            return Run(attempt + 1, slept, Reraised(e));
          }
      }
      attempt := attempt + 1;
    }
    r := Run(attempt, slept, NoAttempt);
  }
}
