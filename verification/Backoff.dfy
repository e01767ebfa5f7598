/** Restart delay and the sliding crash window (internal/supervisor/backoff.go). */
module Backoff {
  import opened Common

  datatype Policy = Policy(base: Duration, max: Duration, steadyReset: Duration,
                           crashWindow: Duration, crashCap: int)

  const DEFAULT_POLICY := Policy(1 * SECOND, 60 * SECOND, 300 * SECOND, 60 * SECOND, 3)

  // ---------------------------------------------------------------- Delay

  /** The delay before jitter: a 64-bit shift that may wrap, then the clamp and overflow test. */
  function Clamped(p: Policy, consecutive: int): Duration {
    var n := if consecutive < 1 then 1 else consecutive;
    var shift := if n - 1 > 62 then 62 else n - 1;
    var d := Wrap64(p.base * Pow2(shift));
    if d <= 0 || d > p.max then p.max else d
  }

  /** `roll` is the random draw in [0, 4): the factor is one of 0.8, 0.9, 1.0 and 1.1. */
  function Jitter(d: Duration, roll: nat): Duration
    requires roll < 4
  {
    TruncDiv(Wrap64(d * (8 + roll)), 10)
  }

  function Delay(p: Policy, consecutive: int, roll: nat): Duration
    requires roll < 4
  {
    Jitter(Clamped(p, consecutive), roll)
  }

  ghost predicate IsDelay(p: Policy, consecutive: int, d: Duration) {
    exists roll: nat :: roll < 4 && d == Delay(p, consecutive, roll)
  }

  /** The policy's `base` is `odd * 2^k` and neither the clamp nor the jitter can overflow. */
  ghost predicate Tame(p: Policy, k: nat, odd: nat) {
    && p.base == Pow2(k) * odd
    && p.base >= 1
    && odd * p.max < TWO_TO_63
    && 11 * p.max < TWO_TO_63
  }

  lemma {:induction false} Pow2Add(a: nat, b: nat)
    ensures Pow2(a + b) == Pow2(a) * Pow2(b)
    decreases b
  {
    if b > 0 {
      Pow2Add(a, b - 1);
      assert Pow2(a + b) == 2 * Pow2(a + (b - 1));
    }
  }

  lemma {:induction false} Pow2Mono(a: nat, b: nat)
    requires a <= b
    ensures Pow2(a) <= Pow2(b)
    decreases b
  {
    if a < b {
      Pow2Mono(a, b - 1);
    }
  }

  lemma SmallPowers()
    ensures Pow2(2) == 4 && Pow2(6) == 64 && Pow2(8) == 256
  {
    assert Pow2(4) == 16;
  }

  lemma Pow2At64()
    ensures Pow2(62) == TWO_TO_63 / 2 && Pow2(64) == TWO_TO_64
  {
    hide Pow2;
    SmallPowers();
    Pow2Add(8, 8);
    Pow2Add(16, 16);
    Pow2Add(32, 16);
    Pow2Add(48, 8);
    Pow2Add(56, 6);
    Pow2Add(62, 2);
  }

  lemma WrapIdentity(x: int)
    requires -TWO_TO_63 <= x < TWO_TO_63
    ensures Wrap64(x) == x
  {
  }

  /** A positive multiple of `f` is at least `f`. */
  lemma MultipleAtLeast(f: int, g: int)
    requires f >= 1 && f * g > 0
    ensures f <= f * g
  {
    if g >= 1 {
      MulMono(1, g, f);
    } else {
      MulMono(g, 0, f);
      assert false;
    }
  }

  lemma MulMono(a: int, b: int, c: int)
    requires a <= b && c >= 0
    ensures a * c <= b * c
  {
  }

  /** If `f` divides the modulus, the wrapped value of a multiple of `f` is again a multiple of `f`. */
  lemma WrapKeepsFactor(f: int, g: int, odd: int) returns (h: int)
    requires f * g == TWO_TO_64
    ensures Wrap64(odd * f) == f * h
  {
    var q :| odd * f == Wrap64(odd * f) + q * TWO_TO_64;
    h := odd - q * g;
    calc {
      f * h;
      f * odd - f * (q * g);
      { assert f * (q * g) == q * (f * g); }
      odd * f - q * TWO_TO_64;
    }
  }

  lemma Regroup(a: int, b: int, c: int)
    ensures a * (c * b) == (a * b) * c
  {
  }

  lemma WrapOfModulus(m: int)
    ensures Wrap64(m * TWO_TO_64) == 0
  {
    var q :| m * TWO_TO_64 == Wrap64(m * TWO_TO_64) + q * TWO_TO_64;
    assert (m - q) * TWO_TO_64 == Wrap64(m * TWO_TO_64);
  }

  lemma WrapLandsSmall(odd: nat, f: int, g: int, max: int)
    requires f >= 1 && f * g == TWO_TO_64 && odd * max < TWO_TO_63
    requires 0 < Wrap64(odd * f) <= max
    ensures Wrap64(odd * f) == odd * f
  {
    var h := WrapKeepsFactor(f, g, odd);
    MultipleAtLeast(f, h);
    MulMono(f, max, odd);
    MulMono(0, f, odd);
    WrapIdentity(odd * f);
  }

  /** A wrapped product that lands in (0, max] did not wrap at all. */
  lemma WrapLandsOnlyUnwrapped(odd: nat, e: nat, max: int)
    requires odd >= 1
    requires odd * max < TWO_TO_63
    requires 0 < Wrap64(odd * Pow2(e)) <= max
    ensures Wrap64(odd * Pow2(e)) == odd * Pow2(e)
  {
    Pow2At64();
    if e >= 64 {
      Pow2Add(64, e - 64);
      Regroup(odd, Pow2(e - 64), TWO_TO_64);
      WrapOfModulus(odd * Pow2(e - 64));
      assert false;
    } else {
      Pow2Add(e, 64 - e);
      WrapLandsSmall(odd, Pow2(e), Pow2(64 - e), max);
    }
  }

  lemma MulAtLeast(a: int, b: int)
    requires a >= 1 && b >= 1
    ensures a * b >= a && a * b >= b
  {
    MulMono(1, a, b);
    MulMono(1, b, a);
  }

  /** The shift, the clamp and the overflow test together compute min(base * 2^(n-1), max), for every
      number of crashes. */
  lemma ClampedIsExponential(p: Policy, k: nat, odd: nat, n: nat)
    requires n >= 1 && Tame(p, k, odd)
    ensures Clamped(p, n) == Min(p.base * Pow2(n - 1), p.max)
  {
    var s := if n - 1 > 62 then 62 else n - 1;
    var x := p.base * Pow2(s);
    Pow2Mono(s, n - 1);
    MulMono(Pow2(s), Pow2(n - 1), p.base);
    MulAtLeast(p.base, Pow2(s));
    if x <= p.max {
      WrapIdentity(x);
      Pow2At64();
    } else {
      ShiftIsOddPart(p, k, odd, s);
      if 0 < Wrap64(x) <= p.max {
        WrapLandsOnlyUnwrapped(odd, k + s, p.max);
        assert false;
      }
    }
  }

  /** For any base at all, the delay is the capped exponential exactly when the (clamped) shift does not wrap,
      or wraps to a value that the clamp and overflow test still catch. */
  lemma ClampedIsExponentialIff(p: Policy, n: nat)
    requires n >= 1 && p.base >= 1 && 11 * p.max < TWO_TO_63
    ensures var shifted := p.base * Pow2(Min(n - 1, 62));
            Clamped(p, n) == Min(p.base * Pow2(n - 1), p.max) <==>
              shifted < TWO_TO_63 || !(0 < Wrap64(shifted) < p.max)
  {
    var s := Min(n - 1, 62);
    var x := p.base * Pow2(s);
    Pow2Mono(s, n - 1);
    MulMono(Pow2(s), Pow2(n - 1), p.base);
    MulAtLeast(p.base, Pow2(s));
    Pow2At64();
    if x < TWO_TO_63 {
      WrapIdentity(x);
    }
  }

  /** No crash at all is treated as the first one. */
  lemma NoCrashIsTheFirst(p: Policy, n: int, roll: nat)
    requires n < 1 && roll < 4
    ensures Delay(p, n, roll) == Delay(p, 1, roll)
  {
  }

  lemma ShiftIsOddPart(p: Policy, k: nat, odd: nat, s: nat)
    requires Tame(p, k, odd)
    ensures odd >= 1 && p.base * Pow2(s) == odd * Pow2(k + s)
  {
    Pow2Add(k, s);
    assert Pow2(k) * odd * Pow2(s) == odd * (Pow2(k) * Pow2(s));
  }

  /** The draw picks one of the factors 0.8, 0.9, 1.0 and 1.1, and the product is rounded down: all of them lie
      in [0.8, 1.2), and for a delay of 10 ns or more no two draws give the same. */
  lemma JitterBounds(d: Duration, roll: nat)
    requires roll < 4 && 1 <= d && 11 * d < TWO_TO_63
    ensures 10 * Jitter(d, roll) <= (8 + roll) * d < 10 * Jitter(d, roll) + 10
    ensures 8 * d - 9 <= 10 * Jitter(d, roll) <= 11 * d < 12 * d
    ensures d >= 10 ==> forall other: nat :: other < roll ==> Jitter(d, other) < Jitter(d, roll)
  {
    WrapIdentity(d * (8 + roll));
    if d >= 10 {
      forall other: nat | other < roll ensures Jitter(d, other) < Jitter(d, roll) {
        WrapIdentity(d * (8 + other));
        MulMono(other + 1, roll, d);
      }
    }
  }

  /** The whole delay lies in [0.8, 1.2) of the capped exponential, up to rounding down. */
  lemma DelayBounds(p: Policy, k: nat, odd: nat, n: nat, roll: nat)
    requires n >= 1 && Tame(p, k, odd) && p.max >= 1 && roll < 4
    ensures var ideal := Min(p.base * Pow2(n - 1), p.max);
            8 * ideal - 9 <= 10 * Delay(p, n, roll) < 12 * ideal
  {
    ClampedIsExponential(p, k, odd, n);
    assert p.base * Pow2(n - 1) >= 1;
    JitterBounds(Clamped(p, n), roll);
  }

  lemma DefaultDelay(n: nat, roll: nat)
    requires n >= 1 && roll < 4
    ensures Clamped(DEFAULT_POLICY, n) == Min(SECOND * Pow2(n - 1), 60 * SECOND)
    ensures 8 * Clamped(DEFAULT_POLICY, n) - 9 <= 10 * Delay(DEFAULT_POLICY, n, roll) < 12 * Clamped(DEFAULT_POLICY, n)
  {
    assert Pow2(9) == 512;
    assert Tame(DEFAULT_POLICY, 9, 1953125);
    ClampedIsExponential(DEFAULT_POLICY, 9, 1953125, n);
    DelayBounds(DEFAULT_POLICY, 9, 1953125, n, roll);
  }

  /** Without the bound on the odd part the overflow test can be fooled: base 2^60 + 1 shifted by four
      wraps to 16 ns, where the cap of a minute was due. */
  lemma WrapCanUndercutTheCap()
    ensures var p := DEFAULT_POLICY.(base := 0x1000_0000_0000_0001);
            11 * p.max < TWO_TO_63 && Clamped(p, 5) == 16 && Min(p.base * Pow2(4), p.max) == 60 * SECOND
  {
    var base := 0x1000_0000_0000_0001;
    assert Pow2(4) == 16;
    assert base * 16 == 16 + 1 * TWO_TO_64;
    assert (base * 16 + TWO_TO_63) % TWO_TO_64 == 16 + TWO_TO_63;
  }
}
