/**
 * The retry helper (scripts/utils/retry.ts). The operation is given as
 * `fn(k)`, the outcome of its k-th call (k = 1, 2, ...). Nothing sleeps: the
 * run returns its result with a trace of the calls, the `onRetry` callbacks
 * and the delays it would wait.
 */
module Retry {
  import opened Wrappers

  /** One observable step of a run. */
  datatype Event<E> = Call(attempt: nat) | OnRetry(attempt: nat, error: E) | Sleep(ms: int)

  /** What `retry` throws: the last attempt's error, or its own fixed error. */
  datatype RetryError<E> = Thrown(error: E) | NeverHappens

  const NeverHappensMessage: string := "Retry failed - this should never happen"

  /** The options object; an absent field takes its default. `hasOnRetry` says whether a callback was given. */
  datatype Options = Options(maxAttempts: Option<int>, delayMs: Option<int>, hasOnRetry: bool)

  function MaxAttempts(o: Options): int { o.maxAttempts.GetOr(3) }
  function DelayMs(o: Options): int { o.delayMs.GetOr(1000) }

  lemma DefaultOptions()
    ensures MaxAttempts(Options(None, None, false)) == 3 && DelayMs(Options(None, None, false)) == 1000
  {
  }

  /** The first attempt in `from..max` that succeeds, if any. */
  function FirstOk<T, E>(fn: nat -> Result<T, E>, from: nat, max: int): (r: Option<nat>)
    ensures r.Some? ==> from <= r.value <= max && fn(r.value).Ok?
                        && forall j :: from <= j < r.value ==> fn(j).Err?
    ensures r.None? ==> forall j :: from <= j <= max ==> fn(j).Err?
    decreases max - from
  {
    if from > max then None
    else if fn(from).Ok? then Some(from)
    else FirstOk(fn, from + 1, max)
  }

  /** The events of one failed, non-final attempt `k`. */
  function Round<T, E>(fn: nat -> Result<T, E>, k: nat, delayMs: int, hasOnRetry: bool): seq<Event<E>>
    requires fn(k).Err?
  {
    [Call(k)] + (if hasOnRetry then [OnRetry(k, fn(k).error)] else []) + [Sleep(delayMs * k)]
  }

  /** The events of attempts 1..n, all failed and none final. */
  function FailedRounds<T, E>(fn: nat -> Result<T, E>, n: nat, delayMs: int, hasOnRetry: bool): seq<Event<E>>
    requires forall j :: 1 <= j <= n ==> fn(j).Err?
  {
    if n == 0 then [] else FailedRounds(fn, n - 1, delayMs, hasOnRetry) + Round(fn, n, delayMs, hasOnRetry)
  }

  /**
   * `retry(fn, options)`. The first success is returned at once; a failure of
   * the last attempt rethrows its error; a failure before that calls
   * `onRetry` and waits `delayMs * attempt`. With `maxAttempts <= 0` nothing
   * is called and the fixed error is thrown.
   */
  method Retry<T, E>(fn: nat -> Result<T, E>, options: Options)
    returns (r: Result<T, RetryError<E>>, trace: seq<Event<E>>)
    ensures var m, d, on := MaxAttempts(options), DelayMs(options), options.hasOnRetry;
      match FirstOk(fn, 1, m)
      case Some(k) =>
        r == Ok(fn(k).value) && trace == FailedRounds(fn, k - 1, d, on) + [Call(k)]
      case None =>
        if m >= 1 then r == Err(Thrown(fn(m).error)) && trace == FailedRounds(fn, m - 1, d, on) + [Call(m)]
        else r == Err(NeverHappens) && trace == []
  {
    var maxAttempts, delayMs := MaxAttempts(options), DelayMs(options);
    trace := [];
    var attempt := 1;
    while attempt <= maxAttempts
      invariant 1 <= attempt && (attempt <= maxAttempts || attempt == 1)
      invariant forall j :: 1 <= j < attempt ==> fn(j).Err?
      invariant FirstOk(fn, 1, maxAttempts) == FirstOk(fn, attempt, maxAttempts)
      invariant trace == FailedRounds(fn, attempt - 1, delayMs, options.hasOnRetry)
      decreases maxAttempts - attempt
    {
      trace := trace + [Call(attempt)];
      var outcome := fn(attempt);
      if outcome.Ok? {
        return Ok(outcome.value), trace;
      }
      if attempt == maxAttempts {
        return Err(Thrown(outcome.error)), trace;
      }
      if options.hasOnRetry {
        trace := trace + [OnRetry(attempt, outcome.error)];
      }
      trace := trace + [Sleep(delayMs * attempt)];
      attempt := attempt + 1;
    }
    r := Err(NeverHappens);
  }

  // ---------------------------------------------------------------------------
  // Reading a trace

  datatype Kind = Calls | Retries | Delays

  /** What one event contributes to the attempt numbers (calls, callbacks) or to the delays. */
  function Picked<E>(e: Event<E>, kind: Kind): seq<int> {
    match (kind, e)
    case (Calls, Call(k)) => [k as int]
    case (Retries, OnRetry(k, _)) => [k as int]
    case (Delays, Sleep(ms)) => [ms]
    case _ => []
  }

  /** The attempt numbers (calls, callbacks) or the delays of a trace, in order. */
  function Pick<E>(t: seq<Event<E>>, kind: Kind): seq<int> {
    if t == [] then [] else Pick(t[..|t| - 1], kind) + Picked(t[|t| - 1], kind)
  }

  lemma {:induction false} PickAppend<E>(a: seq<Event<E>>, b: seq<Event<E>>, kind: Kind)
    ensures Pick(a + b, kind) == Pick(a, kind) + Pick(b, kind)
  {
    if b == [] {
      assert a + b == a;
    } else {
      assert (a + b)[..|a + b| - 1] == a + b[..|b| - 1];
      assert (a + b)[|a + b| - 1] == b[|b| - 1];
      PickAppend(a, b[..|b| - 1], kind);
    }
  }

  lemma PickOne<E>(e: Event<E>, kind: Kind)
    ensures Pick([e], kind) == Picked(e, kind)
  {
    assert [e][..0] == [];
  }

  /** d, 2d, ..., nd. */
  function Steps(d: int, n: nat): (s: seq<int>)
    ensures |s| == n && forall i :: 0 <= i < n ==> s[i] == d * (i + 1)
  {
    if n == 0 then [] else Steps(d, n - 1) + [d * n]
  }

  /** What the first n failed rounds contribute: calls and callbacks 1..n, delays d..nd. */
  function Expected(kind: Kind, n: nat, d: int, on: bool): seq<int> {
    match kind
    case Calls => Steps(1, n)
    case Retries => if on then Steps(1, n) else []
    case Delays => Steps(d, n)
  }

  lemma RoundPick<T, E>(fn: nat -> Result<T, E>, n: nat, d: int, on: bool, kind: Kind)
    requires n >= 1 && fn(n).Err?
    ensures Expected(kind, n - 1, d, on) + Pick(Round(fn, n, d, on), kind) == Expected(kind, n, d, on)
  {
    var mid: seq<Event<E>> := if on then [OnRetry(n, fn(n).error)] else [];
    assert Round(fn, n, d, on) == [Call(n)] + mid + [Sleep(d * n)];
    PickAppend([Call(n)], mid, kind);
    PickAppend([Call(n)] + mid, [Sleep(d * n)], kind);
    PickOne<E>(Call(n), kind);
    PickOne<E>(Sleep(d * n), kind);
    var midPick := if on then Picked(OnRetry(n, fn(n).error), kind) else [];
    if on {
      PickOne(OnRetry(n, fn(n).error), kind);
    }
    assert Pick(Round(fn, n, d, on), kind) == Picked<E>(Call(n), kind) + midPick + Picked<E>(Sleep(d * n), kind);
    match kind
    case Calls =>
    case Retries =>
    case Delays =>
  }

  lemma {:induction false} RoundsPick<T, E>(fn: nat -> Result<T, E>, n: nat, d: int, on: bool, kind: Kind)
    requires forall j :: 1 <= j <= n ==> fn(j).Err?
    ensures Pick(FailedRounds(fn, n, d, on), kind) == Expected(kind, n, d, on)
  {
    if n > 0 {
      RoundsPick(fn, n - 1, d, on, kind);
      PickAppend(FailedRounds(fn, n - 1, d, on), Round(fn, n, d, on), kind);
      RoundPick(fn, n, d, on, kind);
    }
  }

  /** The events of a run that stops on attempt k, after k-1 failed rounds. */
  lemma RunPick<T, E>(fn: nat -> Result<T, E>, k: nat, d: int, on: bool, kind: Kind)
    requires k >= 1 && forall j :: 1 <= j < k ==> fn(j).Err?
    ensures Pick(FailedRounds(fn, k - 1, d, on) + [Call(k)], kind)
         == Expected(kind, k - 1, d, on) + Picked<E>(Call(k), kind)
  {
    RoundsPick(fn, k - 1, d, on, kind);
    PickAppend(FailedRounds(fn, k - 1, d, on), [Call(k)], kind);
    PickOne<E>(Call(k), kind);
  }

  /**
   * In a run that ends on attempt k, `fn` was called exactly for attempts
   * 1..k; `onRetry` (when given) for 1..k-1; and the waits were
   * `delayMs * 1`, ..., `delayMs * (k-1)`: linear, not exponential.
   */
  lemma RunShape<T, E>(fn: nat -> Result<T, E>, k: nat, d: int, on: bool)
    requires k >= 1 && forall j :: 1 <= j < k ==> fn(j).Err?
    ensures Pick(FailedRounds(fn, k - 1, d, on) + [Call(k)], Calls) == Steps(1, k)
    ensures Pick(FailedRounds(fn, k - 1, d, on) + [Call(k)], Retries) == (if on then Steps(1, k - 1) else [])
    ensures Pick(FailedRounds(fn, k - 1, d, on) + [Call(k)], Delays) == Steps(d, k - 1)
  {
    RunPick(fn, k, d, on, Calls);
    RunPick(fn, k, d, on, Retries);
    RunPick(fn, k, d, on, Delays);
  }

  /** Inside a run, every callback is followed at once by the wait of the same attempt. */
  lemma {:induction false} CallbackBeforeDelay<T, E>(fn: nat -> Result<T, E>, n: nat, d: int, i: int)
    requires forall j :: 1 <= j <= n ==> fn(j).Err?
    requires 0 <= i < |FailedRounds(fn, n, d, true)|
    requires FailedRounds(fn, n, d, true)[i].OnRetry?
    ensures i + 1 < |FailedRounds(fn, n, d, true)|
    ensures FailedRounds(fn, n, d, true)[i + 1] == Sleep(d * FailedRounds(fn, n, d, true)[i].attempt)
  {
    var prev := FailedRounds(fn, n - 1, d, true);
    var t := FailedRounds(fn, n, d, true);
    assert t == prev + [Call(n), OnRetry(n, fn(n).error), Sleep(d * n)];
    if i < |prev| {
      CallbackBeforeDelay(fn, n - 1, d, i);
    }
  }

  /** Every attempt of a run was called before any later attempt (the calls are 1, 2, ... in order). */
  lemma CallsBounded<T, E>(fn: nat -> Result<T, E>, options: Options, r: Result<T, RetryError<E>>, trace: seq<Event<E>>)
    requires var m, d, on := MaxAttempts(options), DelayMs(options), options.hasOnRetry;
      match FirstOk(fn, 1, m)
      case Some(k) =>
        r == Ok(fn(k).value) && trace == FailedRounds(fn, k - 1, d, on) + [Call(k)]
      case None =>
        if m >= 1 then r == Err(Thrown(fn(m).error)) && trace == FailedRounds(fn, m - 1, d, on) + [Call(m)]
        else r == Err(NeverHappens) && trace == []
    ensures var n := |Pick(trace, Calls)|;
      Pick(trace, Calls) == Steps(1, n) && n <= (if MaxAttempts(options) > 0 then MaxAttempts(options) else 0)
    ensures r.Ok? ==> fn(|Pick(trace, Calls)|) == Ok(r.value)
    ensures r.Err? && MaxAttempts(options) >= 1 ==> r == Err(Thrown(fn(MaxAttempts(options)).error))
  {
    var m, d, on := MaxAttempts(options), DelayMs(options), options.hasOnRetry;
    match FirstOk(fn, 1, m)
    case Some(k) => RunShape(fn, k, d, on);
    case None =>
      if m >= 1 {
        RunShape(fn, m, d, on);
      }
  }
}
