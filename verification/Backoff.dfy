/** Retry decisions shared by the durable queues (gmrag_api/src/outbox/mod.rs).

    The arithmetic is that of Rust's `i32` and `i64`: additions and products saturate. */
module Backoff {

  const I32_MAX := 0x7FFF_FFFF
  const I64_MAX := 0x7FFF_FFFF_FFFF_FFFF

  type I32 = x: int | -0x8000_0000 <= x <= I32_MAX
  type I64 = x: int | -0x8000_0000_0000_0000 <= x <= I64_MAX

  datatype BackoffConfig = BackoffConfig(baseSecs: I64, maxSecs: I64)

  function Max(a: int, b: int): int { if a >= b then a else b }
  function Min(a: int, b: int): int { if a <= b then a else b }

  function Pow2(n: nat): nat {
    if n == 0 then 1 else 2 * Pow2(n - 1)
  }

  /** `saturating_mul` of two non-negative values. */
  function SaturatingMul(a: nat, b: nat): nat {
    Min(a * b, I64_MAX)
  }

  /** `compute_backoff_secs`: the count is the one after the failure; exponents stop at 30. */
  function ComputeBackoffSecs(retryCountAfterFail: I32, baseSecs: I64, maxSecs: I64): (delay: I64)
    ensures 0 <= delay <= Max(maxSecs, 0)
  {
    var base, max := Max(baseSecs, 0), Max(maxSecs, 0);
    if base == 0 || max == 0 then 0
    else
      var exponent := Min(Max(SaturatingPred(retryCountAfterFail), 0), 30);
      Min(SaturatingMul(base, Pow2(exponent)), max)
  }

  function SaturatingPred(x: I32): I32 {
    if x == -0x8000_0000 then x else x - 1
  }

  function SaturatingSucc(x: I32): I32 {
    if x == I32_MAX then x else x + 1
  }

  datatype FailureDisposition =
    | Retryable(nextRetryCount: I32, backoffSecs: I64)
    | Dead(nextRetryCount: I32)

  function DispositionAfterFailure(currentRetryCount: I32, maxRetries: I32, permanentError: bool,
                                   backoff: BackoffConfig): (d: FailureDisposition)
  {
    var next := SaturatingSucc(currentRetryCount);
    if permanentError || next >= maxRetries then Dead(next)
    else Retryable(next, ComputeBackoffSecs(next, backoff.baseSecs, backoff.maxSecs))
  }

  // ----- What the delays amount to -----

  /** The documented delay, `min(base * 2^(n-1), max)` in unbounded arithmetic. */
  function IdealBackoff(n: nat, base: nat, max: nat): nat
    requires n >= 1
  {
    Min(base * Pow2(n - 1), max)
  }

  lemma {:induction false} Pow2Grows(a: nat, b: nat)
    requires a <= b
    ensures 1 <= Pow2(a) <= Pow2(b)
    decreases b
  {
    if a < b {
      Pow2Grows(a, b - 1);
    } else if b > 0 {
      Pow2Grows(b - 1, b - 1);
    }
  }

  lemma MulGrows(base: nat, a: nat, b: nat)
    requires a <= b
    ensures base * a <= base * b
  {
  }

  lemma DelayGrows(m: I32, n: I32, base: I64, max: I64)
    requires m <= n
    ensures ComputeBackoffSecs(m, base, max) <= ComputeBackoffSecs(n, base, max)
  {
    if base > 0 {
      var e, f := Min(Max(SaturatingPred(m), 0), 30), Min(Max(SaturatingPred(n), 0), 30);
      Pow2Grows(e, f);
      MulGrows(base, Pow2(e), Pow2(f));
    }
  }

  /** The delay is the documented one for every count exactly when the ceiling is within reach of
      the capped exponent (or there is no delay at all). Negative settings count as zero. */
  lemma DelayIsIdealIff(base: I64, max: I64)
    ensures (forall n: I32 | n >= 1 :: ComputeBackoffSecs(n, base, max) == IdealBackoff(n, Max(base, 0), Max(max, 0)))
       <==> base <= 0 || max <= base * Pow2(30)
  {
    hide ComputeBackoffSecs, IdealBackoff;
    if base <= 0 || max <= base * Pow2(30) {
      forall n: I32 | n >= 1 ensures ComputeBackoffSecs(n, base, max) == IdealBackoff(n, Max(base, 0), Max(max, 0)) {
        DelayIsIdealAt(n, base, max);
      }
    } else {
      DelayFallsShort(base, max);
    }
  }

  /** At the 32nd failure the capped exponent leaves the delay below the documented one. */
  lemma DelayFallsShort(base: I64, max: I64)
    requires base > 0 && max > base * Pow2(30)
    ensures ComputeBackoffSecs(32, base, max) < IdealBackoff(32, base, Max(max, 0))
  {
    var product := base * Pow2(30);
    Pow2Grows(0, 30);
    MulGrows(base, 1, Pow2(30));
    assert base * Pow2(31) == product + product by {
      assert Pow2(31) == Pow2(30) + Pow2(30);
      Distributes(base, Pow2(30), Pow2(30));
    }
  }

  lemma Distributes(a: int, b: int, c: int)
    ensures a * (b + c) == a * b + a * c
  {
  }

  lemma DelayIsIdealAt(n: I32, base: I64, max: I64)
    requires n >= 1
    requires base <= 0 || max <= base * Pow2(30)
    ensures ComputeBackoffSecs(n, base, max) == IdealBackoff(n, Max(base, 0), Max(max, 0))
  {
    if base > 0 && n - 1 > 30 {
      Pow2Grows(30, n - 1);
      MulGrows(base, Pow2(30), Pow2(n - 1));
    }
  }

  lemma Pow2Of30()
    ensures Pow2(30) == 0x4000_0000
  {
    assert Pow2(10) == 1024;
    assert Pow2(20) == 1024 * 1024 by { Pow2Adds(10, 10); }
    Pow2Adds(10, 20);
  }

  lemma {:induction false} Pow2Adds(a: nat, b: nat)
    ensures Pow2(a + b) == Pow2(a) * Pow2(b)
  {
    if a > 0 { Pow2Adds(a - 1, b); }
  }

  /** The bounds that the worker's configuration is clamped to keep every delay the documented one. */
  lemma ClampedConfigIsIdeal(base: I64, max: I64)
    requires 1 <= base <= 3_600 && 1 <= max <= 86_400
    ensures forall n: I32 | n >= 1 :: ComputeBackoffSecs(n, base, max) == IdealBackoff(n, base, max)
  {
    Pow2Of30();
    MulGrows(Pow2(30), 1, base);
    DelayIsIdealIff(base, max);
  }
}
