/** Retry delays (framework/queue/service.go, retryBackoff), including the source's trip
    through float64 and back to a 64-bit duration. */
module Backoff {
  const TWO_53: int := 0x20_0000_0000_0000
  const TWO_63: int := 0x8000_0000_0000_0000

  /** `overflow` is what the platform's float-to-int64 conversion yields for a value that
      does not fit; the language leaves it open. */
  datatype Config = Config(maxAttempts: int, base: int, maxBackoff: int, overflow: int)

  function Min(a: int, b: int): int { if a <= b then a else b }
  function Max(a: int, b: int): int { if a >= b then a else b }

  /** n * 2^k */
  function Doubled(n: int, k: nat): int {
    if k == 0 then n else 2 * Doubled(n, k - 1)
  }

  lemma {:induction false} DoubledMono(n: int, j: nat, k: nat)
    requires n > 0 && j <= k
    ensures 0 < n <= Doubled(n, j) <= Doubled(n, k)
    decreases k
  {
    if j < k {
      DoubledMono(n, j, k - 1);
    } else if 0 < k {
      DoubledMono(n, k - 1, k - 1);
    }
  }

  lemma {:induction false} DoubledGrows(n: int, k: nat)
    requires n > 0
    ensures Doubled(n, k) >= Doubled(1, k)
  {
    if k > 0 {
      DoubledGrows(n, k - 1);
    }
  }

  /** The spacing of float64 values around m: the smallest power of two leaving at most 53 bits. */
  function Ulp(m: nat, unit: nat): (u: nat)
    requires unit >= 1
    ensures u >= unit
    decreases m + 1 - unit
  {
    if m < TWO_53 * unit then unit else Ulp(m, 2 * unit)
  }

  /** Round to nearest, ties to even. */
  function RoundNat(m: nat): int {
    var unit := Ulp(m, 1);
    var q, r := m / unit, m % unit;
    if 2 * r > unit || (2 * r == unit && q % 2 == 1) then (q + 1) * unit else q * unit
  }

  function Float64(n: int): int {
    if n < 0 then -RoundNat(-n) else RoundNat(n)
  }

  function DurationOf(v: int, overflow: int): int {
    if -TWO_63 <= v < TWO_63 then v else overflow
  }

  /** The cap applies only from the first claim on: with attempts <= 0 the base is returned as it is. */
  function RetryBackoff(cfg: Config, attempts: int): (delay: int)
    ensures attempts >= 1 ==> delay <= cfg.maxBackoff
  {
    if attempts <= 0 then cfg.base
    else
      var backoff :=
        if attempts - 1 >= 1024 then cfg.overflow  // 2^1024 is +Inf in float64
        else DurationOf(Doubled(Float64(cfg.base), attempts - 1), cfg.overflow);
      if backoff > cfg.maxBackoff then cfg.maxBackoff else backoff
  }

  /** The spacing is the smallest power of two that leaves at most 53 bits. */
  lemma {:induction false} UlpSpec(m: nat, unit: nat) returns (k: nat)
    requires unit >= 1
    ensures Ulp(m, unit) == Doubled(unit, k)
    ensures m < TWO_53 * Ulp(m, unit) && (k > 0 ==> TWO_53 * Ulp(m, unit) <= 2 * m)
    decreases m + 1 - unit
  {
    if m < TWO_53 * unit {
      k := 0;
    } else {
      var j := UlpSpec(m, 2 * unit);
      k := j + 1;
      DoubledTwice(unit, j);
    }
  }

  lemma {:induction false} DoubledTwice(n: int, j: nat)
    ensures Doubled(2 * n, j) == Doubled(n, j + 1)
  {
    if j > 0 {
      DoubledTwice(n, j - 1);
    }
  }

  /** The nearest multiple of u, an even one if two are equally near. */
  lemma NearestMultiple(n: int, u: int, q: int, r: int) returns (near: int)
    requires n >= 0 && u >= 1 && q == n / u && r == n % u
    ensures near == if 2 * r > u || (2 * r == u && q % 2 == 1) then q + 1 else q
    ensures -u <= 2 * (near * u - n) <= u
    ensures 2 * (near * u - n) == u || 2 * (near * u - n) == -u ==> near % 2 == 0
  {
    near := if 2 * r > u || (2 * r == u && q % 2 == 1) then q + 1 else q;
    assert (q + 1) * u == q * u + u;
    assert near * u - n == if near == q then -r else u - r;
  }

  /** A conversion to float64 yields the nearest multiple of the smallest power of two u that
      leaves at most 53 bits, an even one if two are equally near; signs do not matter. */
  lemma Float64Nearest(n: int) returns (u: int, k: nat, near: int)
    requires n >= 0
    ensures u == Doubled(1, k) && u >= 1
    ensures n < 0x20_0000_0000_0000 * u && (k > 0 ==> 0x20_0000_0000_0000 * u <= 2 * n)
    ensures Float64(n) == near * u && Float64(-n) == -(near * u)
    ensures -u <= 2 * (near * u - n) <= u
    ensures 2 * (near * u - n) == u || 2 * (near * u - n) == -u ==> near % 2 == 0
  {
    u := Ulp(n, 1);
    k := UlpSpec(n, 1);
    near := NearestMultiple(n, u, n / u, n % u);
    if n == 0 {
      assert RoundNat(0) == 0;
    }
  }

  /** A value that fits a signed 64-bit duration is kept. */
  lemma DurationKept(v: int, overflow: int)
    ensures DurationOf(v, overflow) ==
      if -0x8000_0000_0000_0000 <= v <= 0x7FFF_FFFF_FFFF_FFFF then v else overflow
  {
  }

  lemma DoubledNothing(k: nat)
    ensures Doubled(0, k) == 0
  {
  }

  /** A zero base gives no delay up to the 1024th attempt; then 2^1024 is infinite and the product
      is no number. */
  lemma ZeroBase(cfg: Config, attempts: int)
    requires cfg.base == 0 && attempts >= 1
    ensures RetryBackoff(cfg, attempts) == Min(if attempts <= 1024 then 0 else cfg.overflow, cfg.maxBackoff)
  {
    Float64Exact(0);
    if attempts <= 1024 {
      DoubledNothing(attempts - 1);
    }
  }

  lemma Float64Exact(n: nat)
    requires n <= TWO_53
    ensures Float64(n) == n
  {
    if n == TWO_53 {
      assert Ulp(n, 1) == Ulp(n, 2) == 2;
    }
  }

  lemma Doubled63()
    ensures Doubled(1, 63) == TWO_63
  {
    assert Doubled(1, 8) == 256;
    assert Doubled(1, 16) == 0x1_0000;
    assert Doubled(1, 24) == 0x100_0000;
    assert Doubled(1, 32) == 0x1_0000_0000;
    assert Doubled(1, 40) == 0x100_0000_0000;
    assert Doubled(1, 48) == 0x1_0000_0000_0000;
    assert Doubled(1, 56) == 0x100_0000_0000_0000;
  }

  /** A base of at most 2^53 loses nothing in float64, so scaling it is exact. */
  lemma ExactScaling(cfg: Config, attempts: int)
    requires 0 < cfg.base <= TWO_53 && attempts >= 1
    ensures Doubled(cfg.base, attempts - 1) >= 1
    ensures RetryBackoff(cfg, attempts)
         == Min(DurationOf(Doubled(cfg.base, attempts - 1), cfg.overflow), cfg.maxBackoff)
  {
    Float64Exact(cfg.base);
    DoubledMono(cfg.base, 0, attempts - 1);
    if attempts - 1 >= 1024 {
      Doubled63();
      DoubledMono(1, 63, attempts - 1);
      DoubledGrows(cfg.base, attempts - 1);
    }
  }

  /** The delay is the capped exponential exactly when the exponential still fits a 64-bit
      duration, or the platform's overflow value happens to reach the cap. */
  lemma BackoffExactIff(cfg: Config, attempts: int)
    requires 0 < cfg.base <= TWO_53 && cfg.maxBackoff < TWO_63 && attempts >= 1
    ensures RetryBackoff(cfg, attempts) == Min(cfg.maxBackoff, Doubled(cfg.base, attempts - 1))
       <==> (Doubled(cfg.base, attempts - 1) < TWO_63 || cfg.overflow >= cfg.maxBackoff)
  {
    ExactScaling(cfg, attempts);
  }

  lemma BackoffMonotone(cfg: Config, a: int, b: int)
    requires 0 < cfg.base <= TWO_53 && cfg.maxBackoff < TWO_63
    requires 1 <= a <= b && Doubled(cfg.base, b - 1) < TWO_63
    ensures RetryBackoff(cfg, a) <= RetryBackoff(cfg, b)
  {
    DoubledMono(cfg.base, a - 1, b - 1);
    ExactScaling(cfg, a);
    ExactScaling(cfg, b);
  }

  /** Past the 64-bit range the cap is lost: with the default two-second base and ten-minute
      cap, the 34th retry on a platform that converts to the smallest int64 is scheduled
      in the far past. */
  lemma BackoffOverflowEscapesCap()
    ensures RetryBackoff(Config(40, 2_000_000_000, 600_000_000_000, -TWO_63), 34) == -TWO_63
  {
    var n := 2_000_000_000;
    ExactScaling(Config(40, n, 600_000_000_000, -TWO_63), 34);
    assert Doubled(n, 8) == 256 * n;
    assert Doubled(n, 16) == 0x1_0000 * n;
    assert Doubled(n, 24) == 0x100_0000 * n;
    assert Doubled(n, 33) == 0x2_0000_0000 * n;
  }

  /** Total delay between the first claim and the k-th. */
  function SumBackoff(cfg: Config, k: nat): int {
    if k <= 1 then 0 else SumBackoff(cfg, k - 1) + RetryBackoff(cfg, k - 1)
  }

  /** While the cap is not reached the total telescopes to base * (2^(k-1) - 1). */
  lemma {:induction false} SumBackoffClosed(cfg: Config, k: nat)
    requires 0 < cfg.base <= TWO_53 && cfg.maxBackoff < TWO_63 && k >= 1
    requires k >= 2 ==> Doubled(cfg.base, k - 2) <= cfg.maxBackoff
    ensures SumBackoff(cfg, k) == Doubled(cfg.base, k - 1) - cfg.base
  {
    if k >= 2 {
      if k >= 3 {
        DoubledMono(cfg.base, k - 3, k - 2);
      }
      SumBackoffClosed(cfg, k - 1);
      ExactScaling(cfg, k - 1);
    }
  }

  /** The total of the capped exponentials. */
  function SumCapped(cfg: Config, k: nat): int {
    if k <= 1 then 0 else SumCapped(cfg, k - 1) + Min(cfg.maxBackoff, Doubled(cfg.base, k - 2))
  }

  /** As long as the exponentials fit 64 bits, or overflow reaches the cap, the delays add up to
      the capped exponentials. */
  lemma {:induction false} SumBackoffCapped(cfg: Config, k: nat)
    requires 0 < cfg.base <= TWO_53 && cfg.maxBackoff < TWO_63
    requires (k >= 2 ==> Doubled(cfg.base, k - 2) < TWO_63) || cfg.overflow >= cfg.maxBackoff
    ensures SumBackoff(cfg, k) == SumCapped(cfg, k)
  {
    if k >= 2 {
      if k >= 3 {
        DoubledMono(cfg.base, k - 3, k - 2);
      }
      SumBackoffCapped(cfg, k - 1);
      BackoffExactIff(cfg, k - 1);
    }
  }
}
