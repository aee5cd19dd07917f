/** The webhook retry schedule (internal/webhook/retry.go), in nanoseconds and
    over the reals: 10 s * 2^n, capped at 1 h, with a jitter of up to 20 %. */
module WebhookRetry {
  import opened Backoff

  const RETRY_BASE: real := 10_000_000_000.0
  const RETRY_MAX: real := 3_600_000_000_000.0
  const RETRY_JITTER: real := 0.2

  /** The delay before jitter. */
  function Nominal(n: nat): real {
    var delay := RETRY_BASE * (Pow2(n) as real);
    if delay > RETRY_MAX then RETRY_MAX else delay
  }

  predicate Draw(u: real) {
    0.0 <= u < 1.0
  }

  /** `u` is the random draw. */
  function Jittered(delay: real, u: real): real {
    delay + delay * RETRY_JITTER * (u * 2.0 - 1.0)
  }

  function JitteredDelay(n: nat, u: real): real {
    Jittered(Nominal(n), u)
  }

  function NextRetryAt(now: int, n: nat, u: real): int {
    now + JitteredDelay(n, u).Floor
  }

  predicate IsPermanentFailure(status: int) {
    400 <= status < 500 && status != 429
  }

  lemma {:induction false} NominalRange(n: nat)
    ensures RETRY_BASE <= Nominal(n) <= RETRY_MAX
    ensures n <= 8 ==> Nominal(n) == RETRY_BASE * (Pow2(n) as real)
    ensures n >= 9 ==> Nominal(n) == RETRY_MAX
  {
    assert Pow2(8) == 256 && Pow2(9) == 512;
    if n <= 8 { Pow2Monotone(n, 8); }
    if n >= 9 { Pow2Monotone(9, n); }
  }

  /** The jitter moves the delay by at most a fifth, whatever is drawn. */
  lemma JitterStaysWithinBand(n: nat, u: real)
    requires Draw(u)
    ensures 0.8 * Nominal(n) <= JitteredDelay(n, u) < 1.2 * Nominal(n)
  {
    NominalRange(n);
    Band(Nominal(n), u);
  }

  lemma Band(d: real, u: real)
    requires d > 0.0 && Draw(u)
    ensures 0.8 * d <= Jittered(d, u) < 1.2 * d
  {
    var fifth, v := d * RETRY_JITTER, u * 2.0 - 1.0;
    assert fifth == 0.2 * d;
    ScaleBetween(fifth, v);
    assert Jittered(d, u) == d + fifth * v;
  }

  lemma ScaleBetween(a: real, v: real)
    requires a > 0.0 && -1.0 <= v < 1.0
    ensures -a <= a * v < a
  {
    assert a * (1.0 - v) > 0.0;
    assert a * (v + 1.0) >= 0.0;
  }

  /** A retry is always at least 8 s and at most 72 minutes away. */
  lemma RetryIsLater(now: int, n: nat, u: real)
    requires Draw(u)
    ensures now + 8_000_000_000 <= NextRetryAt(now, n, u) <= now + 4_320_000_000_000
  {
    NominalRange(n);
    JitterStaysWithinBand(n, u);
  }

  /** The bands of consecutive attempts do not overlap exactly up to n = 7: from
      there on a later attempt may be scheduled sooner than an earlier one. */
  lemma BandsSeparateIff(n: nat)
    ensures (forall u, v :: Draw(u) && Draw(v) ==> JitteredDelay(n, u) < JitteredDelay(n + 1, v)) <==> n <= 7
  {
    NominalRange(n);
    NominalRange(n + 1);
    if n <= 7 {
      assert Pow2(n + 1) == 2 * Pow2(n);
      assert Nominal(n + 1) == 2.0 * Nominal(n);
      forall u, v | Draw(u) && Draw(v)
        ensures JitteredDelay(n, u) < JitteredDelay(n + 1, v)
      {
        JitterStaysWithinBand(n, u);
        JitterStaysWithinBand(n + 1, v);
      }
    } else {
      var u, v := 0.9, 0.0;
      assert Pow2(8) == 256;
      assert Nominal(n) >= 2_560_000_000_000.0;
      assert JitteredDelay(n, u) == Nominal(n) + Nominal(n) * 0.2 * 0.8;
      assert JitteredDelay(n + 1, v) == Nominal(n + 1) - Nominal(n + 1) * 0.2;
      assert Draw(u) && Draw(v) && JitteredDelay(n, u) >= JitteredDelay(n + 1, v);
    }
  }
}
