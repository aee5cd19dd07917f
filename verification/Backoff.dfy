/** The relay queue's retry delay: a left shift on a 64-bit signed duration
    that may wrap, followed by a cap (internal/relay/queue.go). */
module Backoff {
  import opened Common

  const TWO63: int := 0x8000_0000_0000_0000
  const TWO64: int := 0x1_0000_0000_0000_0000

  /** Defaults of NewRelayQueue, in nanoseconds: 5 s and 4 h. */
  const DEFAULT_BASE: int := 5_000_000_000
  const DEFAULT_MAX: int := 14_400_000_000_000

  function Pow2(k: nat): (r: int)
    ensures r >= 1
  {
    if k == 0 then 1 else 2 * Pow2(k - 1)
  }

  /** Two's-complement reduction to the int64 range. */
  function Wrap64(x: int): (r: int)
    ensures -TWO63 <= r < TWO63
    ensures -TWO63 <= x < TWO63 ==> r == x
  {
    var m := x % TWO64;
    if m >= TWO63 then m - TWO64 else m
  }

  /** Go's `d << k` on an int64 duration: the bits above 63 are lost, and every
      shift count of 64 or more gives 0. */
  function ShiftLeft(d: int, k: nat): int {
    Wrap64(d * Pow2(k))
  }

  /** The delay before the next try, after `attempts` failed ones. */
  function Delay(base: int, max: int, attempts: nat): (r: int)
    requires attempts >= 1
    ensures 0 < base && 0 < max ==> 0 < r <= max
  {
    var backoff := ShiftLeft(base, attempts - 1);
    if backoff > max || backoff <= 0 then max else backoff
  }

  /** The intended delay: doubled per failure and capped, without wrapping. */
  function Saturated(base: int, max: int, attempts: nat): int
    requires attempts >= 1
  {
    Min(base * Pow2(attempts - 1), max)
  }

  lemma {:induction false} Pow2Add(a: nat, b: nat)
    ensures Pow2(a + b) == Pow2(a) * Pow2(b)
  {
    if b == 0 {
    } else {
      Pow2Add(a, b - 1);
      assert Pow2(a) * Pow2(b) == 2 * (Pow2(a) * Pow2(b - 1));
    }
  }

  lemma {:induction false} Pow2Monotone(a: nat, b: nat)
    requires a <= b
    ensures Pow2(a) <= Pow2(b)
  {
    if a < b {
      Pow2Monotone(a, b - 1);
    }
  }

  lemma MulMonotone(x: int, y: int, z: int)
    requires 0 <= z && x <= y
    ensures x * z <= y * z
  {
  }

  /** While the product fits in an int64, the code computes the intended delay. */
  lemma DelayFits(base: int, max: int, attempts: nat)
    requires 0 < base && 0 < max && attempts >= 1
    requires base * Pow2(attempts - 1) < TWO63
    ensures Delay(base, max, attempts) == Min(base * Pow2(attempts - 1), max)
  {
    MulMonotone(0, base, Pow2(attempts - 1));
    assert base * Pow2(attempts - 1) > 0 by {
      MulMonotone(1, Pow2(attempts - 1), base);
    }
  }

  /** ... and it never shrinks from one failure to a later one. */
  lemma DelayMonotone(base: int, max: int, a: nat, b: nat)
    requires 0 < base && 0 < max && 1 <= a <= b
    requires base * Pow2(b - 1) < TWO63
    ensures Delay(base, max, a) <= Delay(base, max, b)
  {
    Pow2Monotone(a - 1, b - 1);
    MulMonotone(Pow2(a - 1), Pow2(b - 1), base);
    DelayFits(base, max, a);
    DelayFits(base, max, b);
  }

  lemma Pow2Values()
    ensures Pow2(9) == 512 && Pow2(30) == 0x4000_0000 && Pow2(31) == 0x8000_0000
    ensures Pow2(32) == 0x1_0000_0000 && Pow2(33) == 0x2_0000_0000 && Pow2(34) == 0x4_0000_0000
    ensures Pow2(44) == 0x1000_0000_0000 && Pow2(64) == TWO64
  {
    assert Pow2(8) == 256;
    Pow2Add(8, 8);
    Pow2Add(16, 16);
    Pow2Add(32, 8);
    Pow2Add(32, 32);
    Pow2Add(16, 14);
    assert Pow2(14) == 64 * Pow2(8);
    assert Pow2(44) == 16 * Pow2(40);
  }

  lemma MulAssoc(x: int, y: int, z: int)
    ensures x * (y * z) == (x * y) * z
  {
  }

  lemma MulMinus(x: int, y: int, z: int)
    ensures x * z - y * z == (x - y) * z
  {
  }

  /** Reducing a multiple of p modulo p * r gives a multiple of p. */
  lemma ModKeepsMultiple(a: int, p: int, r: int)
    requires p > 0 && r > 0 && p * r > 0
    ensures (a * p) % (p * r) == 0 || (a * p) % (p * r) >= p
  {
    var x, m := a * p, p * r;
    var q := x / m;
    assert x % m == x - q * m;
    assert q * m == (q * r) * p by { MulAssoc(q, r, p); }
    MulMinus(a, q * r, p);
    var c := a - q * r;
    assert x % m == c * p;
    if c >= 1 {
      MulMonotone(1, c, p);
    } else {
      MulMonotone(c, 0, p);
    }
  }

  /** A multiple of a power of two above `max` never wraps into 1..max. */
  lemma WrapSkipsLowRange(odd: int, n: nat, max: int)
    requires 0 < max < Pow2(n)
    ensures Wrap64(odd * Pow2(n)) <= 0 || Wrap64(odd * Pow2(n)) > max
  {
    Pow2Values();
    if n >= 64 {
      Pow2Add(n - 64, 64);
      MulAssoc(odd, Pow2(n - 64), TWO64);
      ModOfMultiple(odd * Pow2(n - 64), TWO64);
    } else {
      Pow2Add(n, 64 - n);
      ModKeepsMultiple(odd, Pow2(n), Pow2(64 - n));
    }
  }

  lemma ModOfMultiple(a: int, b: int)
    requires b > 0
    ensures (a * b) % b == 0
  {
    var x := a * b;
    var q := x / b;
    assert x % b == x - q * b;
    MulMinus(a, q, b);
    var c := a - q;
    if c >= 1 { MulMonotone(1, c, b); }
    if c <= -1 { MulMonotone(c, -1, b); }
  }

  /** Every base of the form odd * 2^t with odd * max < 2^63 is safe: wrapping
      never produces a delay below the cap, however often a job has failed. */
  lemma DelaySaturatesForSmallOddPart(odd: int, t: nat, max: int, attempts: nat)
    requires 0 < odd && 0 < max && attempts >= 1
    requires odd * max < TWO63
    ensures Delay(odd * Pow2(t), max, attempts) == Saturated(odd * Pow2(t), max, attempts)
  {
    var base, n := odd * Pow2(t), t + attempts - 1;
    assert base * Pow2(attempts - 1) == odd * Pow2(n) by {
      Pow2Add(t, attempts - 1);
      MulAssoc(odd, Pow2(t), Pow2(attempts - 1));
    }
    assert base > 0 by { MulMonotone(1, Pow2(t), odd); }
    if odd * Pow2(n) < TWO63 {
      DelayFits(base, max, attempts);
    } else {
      PowerExceedsCap(odd, max, Pow2(n));
      WrapSkipsLowRange(odd, n, max);
    }
  }

  lemma PowerExceedsCap(odd: int, max: int, p: int)
    requires 0 < odd && 0 < max && odd * max < TWO63 <= odd * p
    ensures max < p && max < TWO63
  {
    if p <= max { MulMonotone(p, max, odd); }
    MulMonotone(1, odd, max);
  }

  /** With the shipped defaults the delay is min(5 s * 2^(attempts-1), 4 h) for
      every number of failures, also past the point where the shift overflows. */
  lemma DefaultDelaySaturates(attempts: nat)
    requires attempts >= 1
    ensures Delay(DEFAULT_BASE, DEFAULT_MAX, attempts)
         == Min(5_000_000_000 * Pow2(attempts - 1), 4 * 3600 * 1_000_000_000)
  {
    var k := attempts - 1;
    if k <= 30 {
      Pow2Values();
      Pow2Monotone(k, 30);
      MulMonotone(Pow2(k), Pow2(30), DEFAULT_BASE);
      DelayFits(DEFAULT_BASE, DEFAULT_MAX, attempts);
    } else {
      DefaultPastOverflow(k);
    }
  }

  lemma DefaultPastOverflow(k: nat)
    requires k >= 31
    ensures Delay(DEFAULT_BASE, DEFAULT_MAX, k + 1) == Saturated(DEFAULT_BASE, DEFAULT_MAX, k + 1) == DEFAULT_MAX
  {
    Pow2Values();
    Pow2Monotone(31, k);
    MulMonotone(Pow2(31), Pow2(k), DEFAULT_BASE);
    if k >= 35 {
      DefaultFarPastOverflow(k);
    } else if k == 31 {
      assert DEFAULT_BASE * Pow2(31) == 10_737_418_240_000_000_000;
    } else if k == 32 {
      assert DEFAULT_BASE * Pow2(32) == 21_474_836_480_000_000_000;
    } else if k == 33 {
      assert DEFAULT_BASE * Pow2(33) == 42_949_672_960_000_000_000;
    } else {
      assert DEFAULT_BASE * Pow2(34) == 85_899_345_920_000_000_000;
    }
  }

  /** The base is 9765625 * 2^9 ns, so from here on every wrapped value is a
      multiple of 2^44 ns, which exceeds 4 h. */
  lemma DefaultFarPastOverflow(k: nat)
    requires k >= 35
    ensures ShiftLeft(DEFAULT_BASE, k) <= 0 || ShiftLeft(DEFAULT_BASE, k) > DEFAULT_MAX
  {
    Pow2Values();
    Pow2Add(9, k);
    MulAssoc(9765625, 512, Pow2(k));
    Pow2Monotone(44, 9 + k);
    WrapSkipsLowRange(9765625, 9 + k, DEFAULT_MAX);
  }

  /** Saturation is not automatic: a base of 2^62 + 1 ns wraps to 4 ns on the
      third failure, although the configured cap is 4 h. */
  lemma WrappedDelayCanBeTiny()
    ensures Delay(0x4000_0000_0000_0001, DEFAULT_MAX, 3) == 4
    ensures Saturated(0x4000_0000_0000_0001, DEFAULT_MAX, 3) == DEFAULT_MAX
  {
    assert Pow2(2) == 4;
  }

  /** Exactly when the code meets the intended delay, for every configuration:
      the product fits, or its wrapped value is caught by the code's own guard. */
  lemma DelaySaturatesIff(base: int, max: int, attempts: nat)
    requires 0 < base && 0 < max < TWO63 && attempts >= 1
    ensures Delay(base, max, attempts) == Saturated(base, max, attempts)
       <==> base * Pow2(attempts - 1) < TWO63
            || ShiftLeft(base, attempts - 1) <= 0
            || ShiftLeft(base, attempts - 1) >= max
  {
    if base * Pow2(attempts - 1) < TWO63 {
      DelayFits(base, max, attempts);
    }
  }

  /** From the 65th failure on every shift gives 0, so the cap applies. */
  lemma DelayPastAllBits(base: int, max: int, attempts: nat)
    requires 0 < base && 0 < max < TWO63 && attempts > 64
    ensures Delay(base, max, attempts) == Saturated(base, max, attempts) == max
  {
    var k := attempts - 65;
    Pow2Add(k, 64);
    Pow2Values();
    MulAssoc(base, Pow2(k), TWO64);
    ModOfMultiple(base * Pow2(k), TWO64);
    assert ShiftLeft(base, attempts - 1) == 0;
    MulMonotone(1, base * Pow2(k), TWO64);
  }

  /** So a configuration can be checked in advance: the code meets the intended
      delay for every number of failures if and only if it does for the first 64. */
  lemma AlwaysSaturatesIff(base: int, max: int)
    requires 0 < base && 0 < max < TWO63
    ensures (forall a: nat :: a >= 1 ==> Delay(base, max, a) == Saturated(base, max, a))
       <==> (forall a: nat :: 1 <= a <= 64 ==> Delay(base, max, a) == Saturated(base, max, a))
  {
    forall a: nat | a > 64
      ensures Delay(base, max, a) == Saturated(base, max, a)
    {
      DelayPastAllBits(base, max, a);
    }
  }
}
