/** `RetryManager` of plugins/services/llm/retry.rs. Durations are in nanoseconds and exact;
    the pseudo-random seed of the jitter is a parameter. */
module Retry {
  import opened Wrappers

  const U64_MAX: nat := 0xFFFF_FFFF_FFFF_FFFF

  datatype Backoff = Fixed(delay: nat) | Exponential(initial: nat, max: nat)

  datatype LlmConfig = LlmConfig(maxRetries: nat, backoff: Backoff)

  datatype LlmError = LlmError(message: string, retryable: bool)

  type Outcome<T> = Result<T, LlmError>

  /** What the seed is computed from: the delay and the attempt. */
  type Seed = (nat, nat) -> nat

  function Min(x: nat, y: nat): nat {
    if x <= y then x else y
  }

  function Pow2(n: nat): (p: nat)
    ensures p >= 1
  {
    if n == 0 then 1 else 2 * Pow2(n - 1)
  }

  /** `1u64 << attempt`, which uses the attempt's low six bits. */
  function Multiplier(attempt: nat): nat {
    Pow2(attempt % 64)
  }

  function Base(backoff: Backoff, attempt: nat): nat {
    match backoff
    case Fixed(delay) => delay
    case Exponential(initial, max) => Min(initial * Multiplier(attempt), max)
  }

  /** Between 75 and 125 percent of the delay, rounded down, in 64 bits. */
  function AddJitter(delay: nat, attempt: nat, seed: Seed): nat {
    if delay == 0 then 0
    else
      var pct := seed(delay, attempt) % 51;
      Min(delay * (75 + pct) / 100, U64_MAX)
  }

  function Delay(backoff: Backoff, attempt: nat, seed: Seed): nat {
    AddJitter(Base(backoff, attempt), attempt, seed)
  }

  predicate Retries<T>(o: Outcome<T>) {
    o.Err? && o.error.retryable
  }

  /** The calls stop with number `n`, counted from 0. */
  ghost predicate StopsAt<T>(maxRetries: nat, outcome: nat -> Outcome<T>, n: nat) {
    && n <= maxRetries
    && (forall i: nat | i < n :: Retries(outcome(i)))
    && (n == maxRetries || !Retries(outcome(n)))
  }

  /** Calls up to the first success, the first error that is not retryable or attempt
      `maxRetries`, returns that call's outcome, and sleeps between the calls. */
  method CallWithRetry<T>(cfg: LlmConfig, outcome: nat -> Outcome<T>, seed: Seed)
    returns (result: Outcome<T>, calls: nat, sleeps: seq<nat>)
    ensures calls >= 1 && StopsAt(cfg.maxRetries, outcome, calls - 1) && result == outcome(calls - 1)
    ensures |sleeps| == calls - 1 && forall i | 0 <= i < |sleeps| :: sleeps[i] == Delay(cfg.backoff, i, seed)
  {
    var attempt: nat := 0;
    sleeps := [];
    while true
      invariant attempt == |sleeps| <= cfg.maxRetries
      invariant forall i: nat | i < attempt :: Retries(outcome(i))
      invariant forall i | 0 <= i < |sleeps| :: sleeps[i] == Delay(cfg.backoff, i, seed)
      decreases cfg.maxRetries - attempt
    {
      result := outcome(attempt);
      calls := attempt + 1;
      if result.Ok? {
        return;
      }
      if !result.error.retryable || attempt >= cfg.maxRetries {
        return;
      }
      sleeps := sleeps + [Delay(cfg.backoff, attempt, seed)];
      attempt := attempt + 1;
    }
  }

  /** The stop is unique, so the contract of `CallWithRetry` leaves one behaviour. */
  lemma StopIsUnique<T>(maxRetries: nat, outcome: nat -> Outcome<T>, n: nat, m: nat)
    requires StopsAt(maxRetries, outcome, n) && StopsAt(maxRetries, outcome, m)
    ensures n == m
  {
    assert n < m ==> Retries(outcome(n));
    assert m < n ==> Retries(outcome(m));
  }

  // The delays.

  lemma ScaledDown(delay: nat, percent: nat)
    requires 75 <= percent <= 125
    ensures 100 * (delay * percent / 100) <= 125 * delay
    ensures 100 * (delay * percent / 100 + 1) > 75 * delay
  {
    assert 75 * delay <= delay * percent <= 125 * delay;
  }

  /** The jitter stays within a quarter of the delay, up to rounding; the lower bound needs
      the result to fit in 64 bits. */
  lemma JitterIsBounded(delay: nat, attempt: nat, seed: Seed)
    ensures 100 * AddJitter(delay, attempt, seed) <= 125 * delay
    ensures 125 * delay <= 100 * U64_MAX ==> 100 * (AddJitter(delay, attempt, seed) + 1) > 75 * delay
    ensures AddJitter(delay, attempt, seed) == 0 <==> delay <= 1 && (delay == 0 || seed(delay, attempt) % 51 < 25)
  {
    if delay != 0 {
      var pct := seed(delay, attempt) % 51;
      ScaledDown(delay, 75 + pct);
      assert delay >= 2 ==> delay * (75 + pct) >= 2 * (75 + pct);
    }
  }

  /** `min(initial * 2^n, max)`, as documented. */
  function Documented(initial: nat, max: nat, attempt: nat): nat {
    Min(initial * Pow2(attempt), max)
  }

  lemma {:induction false} Pow2Increases(m: nat, n: nat)
    requires m < n
    ensures Pow2(m) < Pow2(n)
  {
    if m < n - 1 {
      Pow2Increases(m, n - 1);
    }
  }

  lemma ScaledIncreases(initial: nat, p: nat, q: nat)
    requires p < q && initial > 0
    ensures initial * p < initial * q
  {
  }

  /** The base is the documented one if and only if the shift does not overflow, or overflows
      where it makes no difference. */
  lemma BaseIsDocumented(initial: nat, max: nat, attempt: nat)
    ensures Base(Exponential(initial, max), attempt) == Documented(initial, max, attempt)
      <==> attempt < 64 || initial == 0 || initial * Pow2(attempt % 64) >= max
  {
    if attempt >= 64 && initial > 0 {
      Pow2Increases(attempt % 64, attempt);
      ScaledIncreases(initial, Pow2(attempt % 64), Pow2(attempt));
    }
  }

  /** With at most 64 retries no delay is computed for an attempt beyond 63. */
  lemma DelaysAreDocumented(initial: nat, max: nat, maxRetries: nat, attempt: nat, seed: Seed)
    requires maxRetries <= 64 && attempt < maxRetries
    ensures Delay(Exponential(initial, max), attempt, seed)
      == AddJitter(Documented(initial, max, attempt), attempt, seed)
  {
    BaseIsDocumented(initial, max, attempt);
  }

  function Total(sleeps: seq<nat>): nat {
    if sleeps == [] then 0 else Total(sleeps[..|sleeps| - 1]) + sleeps[|sleeps| - 1]
  }

  ghost predicate AreDelays(backoff: Backoff, seed: Seed, sleeps: seq<nat>) {
    forall i | 0 <= i < |sleeps| :: sleeps[i] == Delay(backoff, i, seed)
  }

  /** At most 125 percent of the cap and of the geometric growth. */
  ghost predicate Within(initial: nat, max: nat, i: nat, sleep: nat) {
    100 * sleep <= 125 * max && 100 * sleep <= 125 * (initial * Pow2(i))
  }

  lemma LowBits(attempt: nat)
    ensures attempt % 64 <= attempt
  {
  }

  lemma MultiplierAtMost(attempt: nat)
    ensures Multiplier(attempt) <= Pow2(attempt)
  {
    LowBits(attempt);
    if attempt % 64 < attempt {
      Pow2Increases(attempt % 64, attempt);
    }
  }

  lemma MinAtMost(x: nat, y: nat)
    ensures Min(x, y) <= x && Min(x, y) <= y
  {
  }

  lemma BaseAtMost(initial: nat, max: nat, attempt: nat, p: nat)
    requires p == Pow2(attempt)
    ensures Base(Exponential(initial, max), attempt) <= max
    ensures Base(Exponential(initial, max), attempt) <= initial * p
  {
    var m := Multiplier(attempt);
    assert m <= p by {
      MultiplierAtMost(attempt);
    }
    assert initial * m <= initial * p by {
      AtMost(initial, m, p);
    }
    MinAtMost(initial * m, max);
  }

  lemma DelayIsWithin(initial: nat, max: nat, attempt: nat, seed: Seed, base: nat)
    requires base == Base(Exponential(initial, max), attempt)
    ensures Within(initial, max, attempt, AddJitter(base, attempt, seed))
  {
    JitterIsBounded(base, attempt, seed);
    BaseAtMost(initial, max, attempt, Pow2(attempt));
  }

  lemma {:induction false} TotalWithinMax(initial: nat, max: nat, sleeps: seq<nat>)
    requires forall i | 0 <= i < |sleeps| :: Within(initial, max, i, sleeps[i])
    ensures 100 * Total(sleeps) <= 125 * (max * |sleeps|)
  {
    if sleeps != [] {
      var n := |sleeps| - 1;
      TotalWithinMax(initial, max, sleeps[..n]);
      assert Within(initial, max, n, sleeps[n]);
      OneMore(max, n);
    }
  }

  lemma OneMore(x: nat, n: nat)
    ensures x * (n + 1) == x * n + x
  {
  }

  lemma {:induction false} TotalWithinGeometric(initial: nat, max: nat, sleeps: seq<nat>)
    requires forall i | 0 <= i < |sleeps| :: Within(initial, max, i, sleeps[i])
    ensures 100 * Total(sleeps) <= 125 * (initial * (Pow2(|sleeps|) - 1))
  {
    if sleeps != [] {
      var n := |sleeps| - 1;
      TotalWithinGeometric(initial, max, sleeps[..n]);
      assert Within(initial, max, n, sleeps[n]);
      GeometricStep(initial, Pow2(n));
    }
  }

  lemma GeometricStep(initial: nat, p: nat)
    requires p >= 1
    ensures initial * (2 * p - 1) == initial * (p - 1) + initial * p
  {
  }

  /** Under fixed backoff every sleep stays within a quarter of the configured delay, up to
      rounding, from the first attempt on, and so does their sum. */
  lemma {:induction false} FixedDelaysAreBounded(delay: nat, seed: Seed, sleeps: seq<nat>)
    requires AreDelays(Fixed(delay), seed, sleeps)
    ensures forall i | 0 <= i < |sleeps| :: 100 * sleeps[i] <= 125 * delay
    ensures 125 * delay <= 100 * U64_MAX ==> forall i | 0 <= i < |sleeps| :: 100 * (sleeps[i] + 1) > 75 * delay
    ensures 100 * Total(sleeps) <= 125 * (delay * |sleeps|)
    ensures 125 * delay <= 100 * U64_MAX ==> 100 * (Total(sleeps) + |sleeps|) >= 75 * (delay * |sleeps|)
  {
    if sleeps != [] {
      var n := |sleeps| - 1;
      FixedDelaysAreBounded(delay, seed, sleeps[..n]);
      JitterIsBounded(delay, n, seed);
      OneMore(delay, n);
      assert sleeps == sleeps[..n] + [sleeps[n]];
    }
  }

  /** However the calls come out and however many retries are allowed, the time asleep is
      bounded by the cap and, independently, by the geometric sum. */
  lemma TimeAsleepIsBounded(initial: nat, max: nat, maxRetries: nat, seed: Seed, sleeps: seq<nat>)
    requires AreDelays(Exponential(initial, max), seed, sleeps) && |sleeps| <= maxRetries
    ensures 100 * Total(sleeps) <= 125 * (max * maxRetries)
    ensures 100 * Total(sleeps) <= 125 * (initial * (Pow2(maxRetries) - 1))
  {
    forall i: nat | i < |sleeps|
      ensures Within(initial, max, i, sleeps[i])
    {
      DelayIsWithin(initial, max, i, seed, Base(Exponential(initial, max), i));
    }
    TotalWithinMax(initial, max, sleeps);
    TotalWithinGeometric(initial, max, sleeps);
    AtMost(max, |sleeps|, maxRetries);
    if |sleeps| < maxRetries {
      Pow2Increases(|sleeps|, maxRetries);
    }
    AtMost(initial, Pow2(|sleeps|) - 1, Pow2(maxRetries) - 1);
  }

  lemma AtMost(x: nat, y: nat, z: nat)
    requires y <= z
    ensures x * y <= x * z
  {
  }
}
