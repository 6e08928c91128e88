/** Retry configuration, the jittered exponential back-off between attempts and the retryable
    status test. Durations are nanoseconds. */
module Retry {
  import opened Common

  const MILLISECOND: int := 1_000_000
  const SECOND: int := 1_000_000_000

  const DEFAULT_BACKOFF_MIN: int := 10 * MILLISECOND
  const DEFAULT_BACKOFF_MAX: int := 100 * MILLISECOND

  datatype RetryConfig = RetryConfig(
    maxAttempts: int,
    backoffMin: int,
    backoffMax: int,
    retryOnStatus: seq<int>,
    perRequestTimeout: int,
    totalTimeout: int,
    perAttemptTimeouts: seq<int>)

  /** The integers read from the environment; None stands for unset or unparsable. */
  datatype Environment = Environment(
    maxAttempts: Option<int>,
    backoffMinMs: Option<int>,
    backoffMaxMs: Option<int>,
    retryOnStatus: seq<Option<int>>,
    perRequestSec: Option<int>,
    totalSec: Option<int>,
    perAttemptSec: seq<Option<int>>)

  function PositiveOr(v: Option<int>, unit: int, default: int): int {
    if v.Some? && v.value > 0 then v.value * unit else default
  }

  function Parsed(vs: seq<Option<int>>): seq<int> {
    if vs == [] then [] else Parsed(vs[..|vs| - 1]) + if vs[|vs| - 1].Some? then [vs[|vs| - 1].value] else []
  }

  function PositiveSeconds(vs: seq<Option<int>>): seq<int> {
    if vs == [] then []
    else
      PositiveSeconds(vs[..|vs| - 1]) +
      if vs[|vs| - 1].Some? && vs[|vs| - 1].value > 0 then [vs[|vs| - 1].value * SECOND] else []
  }

  ghost predicate Sane(cfg: RetryConfig) {
    && cfg.maxAttempts >= 1
    && 0 < cfg.backoffMin <= cfg.backoffMax
    && cfg.retryOnStatus != []
    && cfg.perRequestTimeout > 0
    && cfg.totalTimeout >= 0
    && forall t :: t in cfg.perAttemptTimeouts ==> t > 0
  }

  /** Of codes the readable ones are kept, of numbers of seconds the positive ones, as durations. */
  lemma ReadOne(n: int)
    ensures Parsed([]) == Parsed([None]) == [] && Parsed([Some(n)]) == [n]
    ensures PositiveSeconds([]) == PositiveSeconds([None]) == []
    ensures PositiveSeconds([Some(n)]) == if n > 0 then [n * 1_000_000_000] else []
  {
    var no: Option<int> := None;
    assert [no][..0] == [] && [Some(n)][..0] == [];
  }

  /** A list is read entry by entry, in order. */
  lemma {:induction false} ReadOneByOne(some: seq<Option<int>>, more: seq<Option<int>>)
    ensures Parsed(some + more) == Parsed(some) + Parsed(more)
    ensures PositiveSeconds(some + more) == PositiveSeconds(some) + PositiveSeconds(more)
  {
    if more == [] {
      assert some + more == some;
    } else {
      ReadOneByOne(some, more[..|more| - 1]);
      assert (some + more)[..|some + more| - 1] == some + more[..|more| - 1];
    }
  }

  lemma {:induction false} PositiveSecondsArePositive(vs: seq<Option<int>>)
    ensures forall t :: t in PositiveSeconds(vs) ==> t > 0
  {
    if vs != [] {
      PositiveSecondsArePositive(vs[..|vs| - 1]);
    }
  }

  /** Whatever the environment holds, the loaded configuration is sane; every readable positive
      setting is honoured, except that a maximum back-off below the minimum is raised to it. */
  method LoadRetryConfig(env: Environment) returns (cfg: RetryConfig)
    ensures Sane(cfg)
    ensures var n := env.maxAttempts;
            cfg.maxAttempts == if n.Some? && n.value > 0 then n.value else 3
    ensures var n := env.backoffMinMs;
            cfg.backoffMin == 1_000_000 * if n.Some? && n.value > 0 then n.value else 10
    ensures var n := env.backoffMaxMs;
            var asked := 1_000_000 * if n.Some? && n.value > 0 then n.value else 100;
            cfg.backoffMax == if asked < cfg.backoffMin then cfg.backoffMin else asked
    ensures cfg.retryOnStatus == if Parsed(env.retryOnStatus) == [] then [502, 503, 504] else Parsed(env.retryOnStatus)
    ensures var n := env.perRequestSec;
            cfg.perRequestTimeout == 1_000_000_000 * if n.Some? && n.value > 0 then n.value else 30
    ensures var n := env.totalSec;
            cfg.totalTimeout == 1_000_000_000 * if n.Some? && n.value > 0 then n.value else 0
    ensures cfg.perAttemptTimeouts == PositiveSeconds(env.perAttemptSec)
  {
    cfg := RetryConfig(3, DEFAULT_BACKOFF_MIN, DEFAULT_BACKOFF_MAX, [502, 503, 504], 30 * SECOND, 0, []);
    cfg := cfg.(maxAttempts := PositiveOr(env.maxAttempts, 1, cfg.maxAttempts));
    cfg := cfg.(backoffMin := PositiveOr(env.backoffMinMs, MILLISECOND, cfg.backoffMin));
    cfg := cfg.(backoffMax := PositiveOr(env.backoffMaxMs, MILLISECOND, cfg.backoffMax));
    var codes := [];
    for i := 0 to |env.retryOnStatus|
      invariant codes == Parsed(env.retryOnStatus[..i])
    {
      assert env.retryOnStatus[..i + 1][..i] == env.retryOnStatus[..i];
      if env.retryOnStatus[i].Some? {
        codes := codes + [env.retryOnStatus[i].value];
      }
    }
    assert env.retryOnStatus[..|env.retryOnStatus|] == env.retryOnStatus;
    if |codes| > 0 {
      cfg := cfg.(retryOnStatus := codes);
    }
    cfg := cfg.(perRequestTimeout := PositiveOr(env.perRequestSec, SECOND, cfg.perRequestTimeout));
    cfg := cfg.(totalTimeout := PositiveOr(env.totalSec, SECOND, cfg.totalTimeout));
    var timeouts := [];
    for i := 0 to |env.perAttemptSec|
      invariant timeouts == PositiveSeconds(env.perAttemptSec[..i])
    {
      assert env.perAttemptSec[..i + 1][..i] == env.perAttemptSec[..i];
      if env.perAttemptSec[i].Some? && env.perAttemptSec[i].value > 0 {
        timeouts := timeouts + [env.perAttemptSec[i].value * SECOND];
      }
    }
    assert env.perAttemptSec[..|env.perAttemptSec|] == env.perAttemptSec;
    PositiveSecondsArePositive(env.perAttemptSec);
    cfg := cfg.(perAttemptTimeouts := timeouts);
    if cfg.backoffMax < cfg.backoffMin {
      cfg := cfg.(backoffMax := cfg.backoffMin);
    }
  }

  function Pow2(n: nat): (p: int)
    ensures p >= 1
  {
    if n == 0 then 1 else 2 * Pow2(n - 1)
  }

  function EffectiveMin(cfg: RetryConfig): int {
    if cfg.backoffMin <= 0 then DEFAULT_BACKOFF_MIN else cfg.backoffMin
  }

  function EffectiveMax(cfg: RetryConfig): int {
    if cfg.backoffMax <= 0 then DEFAULT_BACKOFF_MAX else cfg.backoffMax
  }

  function Jittered(base: int, min: int, jitter: real): int {
    (base as real + jitter * min as real).Floor
  }

  /** `jitter` is the fraction of the minimum drawn at random, in [0, 1). */
  function CalculateBackoff(attempt: int, cfg: RetryConfig, jitter: real): int
    requires 0.0 <= jitter < 1.0
  {
    var min, max := EffectiveMin(cfg), EffectiveMax(cfg);
    var base := min * Pow2(if attempt < 0 then 0 else attempt);
    var backoff := Jittered(base, min, jitter);
    if backoff > max then max else backoff
  }

  lemma MulMonotone(m: int, x: int, y: int)
    requires m >= 0 && x <= y
    ensures m * x <= m * y
  {
    assert m * y - m * x == m * (y - x);
  }

  lemma JitterIsAFraction(m: real, jitter: real, extra: real)
    requires m > 0.0 && 0.0 <= jitter < 1.0 && extra == jitter * m
    ensures 0.0 <= extra < m
  {
    assert m - extra == (1.0 - jitter) * m;
  }

  lemma FloorBetween(base: int, extra: real, min: int)
    requires 0.0 <= extra < min as real
    ensures base <= (base as real + extra).Floor <= base + min
  {
    assert base as real + extra <= (base + min) as real;
  }

  /** Before capping, the wait lies between the exponential base and the next half step. */
  lemma UncappedBackoff(min: int, power: int, jitter: real)
    requires min > 0 && power >= 1 && 0.0 <= jitter < 1.0
    ensures min * power <= Jittered(min * power, min, jitter) <= min * power + min
    ensures min <= min * power
  {
    var m: real := min as real;
    var extra := jitter * m;
    JitterIsAFraction(m, jitter, extra);
    FloorBetween(min * power, extra, min);
    MulMonotone(min, 1, power);
  }

  /** Waits never exceed the maximum; they reach the minimum exactly when the two are in order,
      which `LoadRetryConfig` guarantees. */
  lemma BackoffBounds(attempt: int, cfg: RetryConfig, jitter: real)
    requires 0.0 <= jitter < 1.0
    ensures 0 < CalculateBackoff(attempt, cfg, jitter) <= EffectiveMax(cfg)
    ensures EffectiveMin(cfg) <= CalculateBackoff(attempt, cfg, jitter) <==> EffectiveMin(cfg) <= EffectiveMax(cfg)
  {
    UncappedBackoff(EffectiveMin(cfg), Pow2(if attempt < 0 then 0 else attempt), jitter);
  }

  function Lesser(a: int, b: int): int {
    if a < b then a else b
  }

  /** Without jitter the first wait is the minimum and each one after it twice the one before, up to the maximum; jitter
      adds its fraction of the minimum. Bounds that are not positive stand for 10 and 100 milliseconds. */
  lemma BackoffDoubles(attempt: nat, cfg: RetryConfig, jitter: real)
    requires 0.0 <= jitter < 1.0
    ensures var min := if cfg.backoffMin <= 0 then 10_000_000 else cfg.backoffMin;
            var max := if cfg.backoffMax <= 0 then 100_000_000 else cfg.backoffMax;
            && CalculateBackoff(0, cfg, 0.0) == Lesser(min, max)
            && CalculateBackoff(attempt + 1, cfg, 0.0) == Lesser(2 * CalculateBackoff(attempt, cfg, 0.0), max)
            && CalculateBackoff(attempt, cfg, jitter) ==
               Lesser(CalculateBackoff(attempt, cfg, 0.0) + (jitter * min as real).Floor, max)
    ensures forall k: int :: k < 0 ==> CalculateBackoff(k, cfg, jitter) == CalculateBackoff(0, cfg, jitter)
  {
    hide CalculateBackoff;
    Doubling(attempt, cfg, jitter);
    BelowZero(cfg, jitter);
  }

  lemma BelowZero(cfg: RetryConfig, jitter: real)
    requires 0.0 <= jitter < 1.0
    ensures forall k: int :: k < 0 ==> CalculateBackoff(k, cfg, jitter) == CalculateBackoff(0, cfg, jitter)
  {
    hide Jittered, Pow2;
  }

  lemma Doubling(attempt: nat, cfg: RetryConfig, jitter: real)
    requires 0.0 <= jitter < 1.0
    ensures var min, max := EffectiveMin(cfg), EffectiveMax(cfg);
            && CalculateBackoff(0, cfg, 0.0) == Lesser(min, max)
            && CalculateBackoff(attempt + 1, cfg, 0.0) == Lesser(2 * CalculateBackoff(attempt, cfg, 0.0), max)
            && CalculateBackoff(attempt, cfg, jitter) ==
               Lesser(CalculateBackoff(attempt, cfg, 0.0) + (jitter * min as real).Floor, max)
  {
    hide CalculateBackoff, Pow2, EffectiveMin, EffectiveMax;
    BackoffIs(attempt, cfg, jitter);
    BackoffIs(attempt, cfg, 0.0);
    BackoffIs(attempt + 1, cfg, 0.0);
    BackoffIs(0, cfg, 0.0);
    Doubled(attempt, EffectiveMin(cfg));
  }

  lemma Doubled(n: nat, min: int)
    ensures min * Pow2(n + 1) == 2 * (min * Pow2(n)) && min * Pow2(0) == min
  {
  }

  /** The wait is the exponential base plus a part of the minimum, capped. */
  lemma BackoffIs(attempt: nat, cfg: RetryConfig, jitter: real)
    requires 0.0 <= jitter < 1.0
    ensures var min := EffectiveMin(cfg);
            && CalculateBackoff(attempt, cfg, jitter) ==
               Lesser(min * Pow2(attempt) + (jitter * min as real).Floor, EffectiveMax(cfg))
            && (jitter * min as real).Floor >= 0 && (jitter == 0.0 ==> (jitter * min as real).Floor == 0)
            && min * Pow2(attempt) >= min > 0 && EffectiveMax(cfg) > 0
  {
    hide Pow2;
    var min := EffectiveMin(cfg);
    FloorAdds(min * Pow2(attempt), jitter * min as real);
    JitterIsAFraction(min as real, jitter, jitter * min as real);
    MulMonotone(min, 1, Pow2(attempt));
  }

  lemma FloorAdds(base: int, extra: real)
    ensures (base as real + extra).Floor == base + extra.Floor
  {
  }

  lemma {:induction false} Pow2Grows(a: nat, b: nat)
    requires a < b
    ensures Pow2(b) >= Pow2(a) + 1
  {
    if a + 1 < b {
      Pow2Grows(a, b - 1);
    }
  }

  /** A later attempt never waits less than an earlier one, whatever jitter each of them draws. */
  lemma BackoffNeverShrinks(a: nat, b: nat, cfg: RetryConfig, ja: real, jb: real)
    requires a < b && 0.0 <= ja < 1.0 && 0.0 <= jb < 1.0
    ensures CalculateBackoff(a, cfg, ja) <= CalculateBackoff(b, cfg, jb)
  {
    var min := EffectiveMin(cfg);
    UncappedBackoff(min, Pow2(a), ja);
    UncappedBackoff(min, Pow2(b), jb);
    Pow2Grows(a, b);
    MulMonotone(min, Pow2(a) + 1, Pow2(b));
    assert min * (Pow2(a) + 1) == min * Pow2(a) + min;
  }

  method ShouldRetryStatus(status: int, cfg: RetryConfig) returns (retry: bool)
    ensures retry <==> status in cfg.retryOnStatus
  {
    for i := 0 to |cfg.retryOnStatus|
      invariant status !in cfg.retryOnStatus[..i]
    {
      if status == cfg.retryOnStatus[i] {
        return true;
      }
    }
    return false;
  }
}
