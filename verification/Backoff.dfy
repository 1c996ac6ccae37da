/** `computeRTO`: capped exponential backoff in int64 arithmetic. */
module Backoff {

  const POW63 := 0x8000_0000_0000_0000
  const POW64 := 0x1_0000_0000_0000_0000
  const DEFAULT_BASE_MS := 2000
  const DEFAULT_MAX_MS := 30000
  const MS := 1_000_000

  /** Two's-complement wrap-around of Go's int64. */
  function Wrap64(n: int): int {
    (n + POW63) % POW64 - POW63
  }

  function Pow2(k: nat): nat {
    if k == 0 then 1 else 2 * Pow2(k - 1)
  }

  function Base(baseMs: int): int {
    if baseMs <= 0 then DEFAULT_BASE_MS else baseMs
  }

  /** The ceiling in force: an unset or too small maximum is raised to the base. */
  function Ceiling(baseMs: int, maxMs: int): int {
    if maxMs <= 0 || maxMs < Base(baseMs) then Base(baseMs) else maxMs
  }

  function BackoffMs(baseMs: int, maxMs: int, retries: int): int {
    var base, top := Base(baseMs), Ceiling(baseMs, maxMs);
    var k := if retries < 0 then 0 else retries;
    if k >= 31 then top
    else
      var shifted := Wrap64(base * Pow2(k));
      if shifted > top || shifted < base then top else shifted
  }

  /** The timeout in nanoseconds, computed the way the code computes it. */
  function ComputeRTO(baseMs: int, maxMs: int, retries: int): int {
    Wrap64(BackoffMs(baseMs, maxMs, retries) * MS)
  }

  /** The ceiling is at most about 292 years, so that it fits int64 nanoseconds. */
  predicate InRange(baseMs: int, maxMs: int) {
    Ceiling(baseMs, maxMs) * MS < POW63
  }

  /** The shift overflows int64 and wraps to a value that the code's guard lets through. */
  predicate WrapsInside(baseMs: int, maxMs: int, k: nat) {
    var base, shifted := Base(baseMs), Base(baseMs) * Pow2(k);
    k < 31 && shifted >= POW63 && base <= Wrap64(shifted) < Ceiling(baseMs, maxMs)
  }

  ghost predicate NeverWrapsInside(baseMs: int, maxMs: int) {
    forall k: nat :: !WrapsInside(baseMs, maxMs, k)
  }

  function Min(a: int, b: int): int {
    if a <= b then a else b
  }

  /**
    The documented min(base * 2^retries, max) is met exactly when the shift is computed
    (fewer than 31 retries) and does not wrap past the guard, or the true value has
    passed the ceiling anyway. It always lies between base and ceiling.
   */
  lemma ClosedForm(baseMs: int, maxMs: int, retries: nat)
    requires InRange(baseMs, maxMs)
    ensures var base, top := Base(baseMs), Ceiling(baseMs, maxMs);
            ComputeRTO(baseMs, maxMs, retries) == Min(base * Pow2(retries), top) * MS
            <==> if retries < 31 then !WrapsInside(baseMs, maxMs, retries) else top <= base * Pow2(retries)
    ensures Base(baseMs) * MS <= ComputeRTO(baseMs, maxMs, retries) <= Ceiling(baseMs, maxMs) * MS
  {
    Nanoseconds(baseMs, maxMs, retries);
    if retries < 31 {
      ShiftCase(baseMs, maxMs, retries);
    }
  }

  function Larger(a: int, b: int): int {
    if a >= b then a else b
  }

  /** A base that is not positive is 2000 ms; a positive one is itself, with the larger of the two as ceiling. */
  lemma SettingsMeaning(baseMs: int, maxMs: int, retries: nat)
    ensures baseMs >= 1 ==> Base(baseMs) == baseMs && Ceiling(baseMs, maxMs) == Larger(baseMs, maxMs)
    ensures baseMs <= 0 ==> ComputeRTO(baseMs, maxMs, retries) == ComputeRTO(2000, maxMs, retries)
  {
  }

  /** For settings of at most 2^31 ms the documented formula holds for every retry count. */
  lemma DocumentedForm(baseMs: int, maxMs: int, retries: nat)
    requires 1 <= baseMs <= 0x8000_0000 && maxMs <= 0x8000_0000
    ensures ComputeRTO(baseMs, maxMs, retries) == Min(baseMs * Pow2(retries), Larger(baseMs, maxMs)) * 1_000_000
  {
    SettingsMeaning(baseMs, maxMs, retries);
    SmallBaseNeverWraps(baseMs, maxMs);
    if retries >= 31 {
      ShiftedFar(baseMs, retries);
    }
    ClosedForm(baseMs, maxMs, retries);
  }

  lemma ShiftedFar(base: nat, k: nat)
    requires base >= 1 && k >= 31
    ensures base * Pow2(k) >= 0x8000_0000
  {
    Pow2Thirty();
    assert Pow2(31) == 2 * Pow2(30);
    Pow2Grows(31, k);
    MulMono(Pow2(k), 1, base);
  }

  /** In range, the conversion to nanoseconds is exact. */
  lemma Nanoseconds(baseMs: int, maxMs: int, k: nat)
    requires InRange(baseMs, maxMs)
    ensures Base(baseMs) <= BackoffMs(baseMs, maxMs, k) <= Ceiling(baseMs, maxMs)
    ensures ComputeRTO(baseMs, maxMs, k) == BackoffMs(baseMs, maxMs, k) * MS
  {
    WrapFits(BackoffMs(baseMs, maxMs, k) * MS);
  }

  lemma ShiftCase(baseMs: int, maxMs: int, k: nat)
    requires InRange(baseMs, maxMs) && k < 31
    ensures BackoffMs(baseMs, maxMs, k) ==
            if WrapsInside(baseMs, maxMs, k) then Wrap64(Base(baseMs) * Pow2(k))
            else Min(Base(baseMs) * Pow2(k), Ceiling(baseMs, maxMs))
  {
    var base, top := Base(baseMs), Ceiling(baseMs, maxMs);
    Pow2Grows(0, k);
    MulMono(base, 1, Pow2(k));
    GuardedShift(base, top, base * Pow2(k));
  }

  lemma GuardedShift(base: int, top: int, shifted: int)
    requires 1 <= base <= top < POW63 && base <= shifted
    ensures var w := Wrap64(shifted);
            (if w > top || w < base then top else w) ==
            if shifted >= POW63 && base <= w < top then w else Min(shifted, top)
  {
    if shifted < POW63 {
      WrapFits(shifted);
    }
  }

  lemma WrapFits(n: int)
    requires -POW63 <= n < POW63
    ensures Wrap64(n) == n
  {
  }

  lemma MulMono(a: nat, x: int, y: int)
    requires x <= y
    ensures a * x <= a * y
  {
  }

  lemma {:induction false} Pow2Grows(j: nat, k: nat)
    requires j <= k
    ensures 1 <= Pow2(j) <= Pow2(k)
    decreases k
  {
    if j < k {
      Pow2Grows(j, k - 1);
    } else if j > 0 {
      Pow2Grows(j - 1, k - 1);
    }
  }

  ghost predicate NeverShrinks(baseMs: int, maxMs: int) {
    forall j: nat, k: nat :: j <= k ==> ComputeRTO(baseMs, maxMs, j) <= ComputeRTO(baseMs, maxMs, k)
  }

  /** Waiting times never shrink as a packet is retried, exactly when no shift wraps past the guard. */
  lemma Monotone(baseMs: int, maxMs: int)
    requires InRange(baseMs, maxMs)
    ensures NeverShrinks(baseMs, maxMs) <==> NeverWrapsInside(baseMs, maxMs)
  {
    if NeverWrapsInside(baseMs, maxMs) {
      forall j: nat, k: nat | j <= k
        ensures ComputeRTO(baseMs, maxMs, j) <= ComputeRTO(baseMs, maxMs, k)
      {
        Grows(baseMs, maxMs, j, k);
      }
    } else {
      var k: nat :| WrapsInside(baseMs, maxMs, k);
      var j := Shrinks(baseMs, maxMs, k);
    }
  }

  lemma Grows(baseMs: int, maxMs: int, j: nat, k: nat)
    requires InRange(baseMs, maxMs) && NeverWrapsInside(baseMs, maxMs) && j <= k
    ensures ComputeRTO(baseMs, maxMs, j) <= ComputeRTO(baseMs, maxMs, k)
  {
    Nanoseconds(baseMs, maxMs, j);
    Nanoseconds(baseMs, maxMs, k);
    if k < 31 {
      GrowsBelow(baseMs, maxMs, j, k);
    } else {
      assert BackoffMs(baseMs, maxMs, k) == Ceiling(baseMs, maxMs);
    }
  }

  lemma GrowsBelow(baseMs: int, maxMs: int, j: nat, k: nat)
    requires InRange(baseMs, maxMs) && NeverWrapsInside(baseMs, maxMs) && j <= k < 31
    ensures BackoffMs(baseMs, maxMs, j) <= BackoffMs(baseMs, maxMs, k)
  {
    ShiftCase(baseMs, maxMs, j);
    ShiftCase(baseMs, maxMs, k);
    Pow2Grows(j, k);
    MulMono(Base(baseMs), Pow2(j), Pow2(k));
  }

  /** Before a shift overflows there is one that passed the ceiling, so a value that wraps inside is a step back. */
  lemma Shrinks(baseMs: int, maxMs: int, k: nat) returns (j: nat)
    requires InRange(baseMs, maxMs) && WrapsInside(baseMs, maxMs, k)
    ensures j < k && ComputeRTO(baseMs, maxMs, k) < ComputeRTO(baseMs, maxMs, j)
  {
    j := LastExact(Base(baseMs), k);
    ShiftCase(baseMs, maxMs, j);
    ShiftCase(baseMs, maxMs, k);
    Nanoseconds(baseMs, maxMs, j);
    Nanoseconds(baseMs, maxMs, k);
  }

  lemma {:induction false} LastExact(base: nat, k: nat) returns (j: nat)
    requires base < POW63 && base * Pow2(k) >= POW63
    ensures j < k && POW63 <= 2 * (base * Pow2(j)) && base * Pow2(j) < POW63
    decreases k
  {
    assert base * Pow2(0) == base;
    assert base * Pow2(k) == 2 * (base * Pow2(k - 1));
    if base * Pow2(k - 1) < POW63 {
      j := k - 1;
    } else {
      j := LastExact(base, k - 1);
    }
  }

  /** A ceiling more than 2^31 times the base is reached too early, at the 31st retry. */
  lemma ClosedFormFailsBeyondTheGuard()
    ensures InRange(1, 0x100_0000_0000)
    ensures ComputeRTO(1, 0x100_0000_0000, 31) == 0x100_0000_0000 * MS
    ensures Min(1 * Pow2(31), 0x100_0000_0000) == 0x8000_0000
  {
    assert Pow2(10) == 0x400;
    assert Pow2(20) == 0x10_0000;
    assert Pow2(30) == 0x4000_0000;
  }

  /** Whatever the settings, the conversion to nanoseconds overflows for no retry count exactly if it does not for the ceiling. */
  lemma NoOverflowIff(baseMs: int, maxMs: int)
    ensures (forall k: nat :: ComputeRTO(baseMs, maxMs, k) == BackoffMs(baseMs, maxMs, k) * MS)
            <==> Ceiling(baseMs, maxMs) * MS < POW63
  {
    var top := Ceiling(baseMs, maxMs);
    assert BackoffMs(baseMs, maxMs, 31) == top;
    if top * MS < POW63 {
      forall k: nat
        ensures ComputeRTO(baseMs, maxMs, k) == BackoffMs(baseMs, maxMs, k) * MS
      {
        assert 1 <= BackoffMs(baseMs, maxMs, k) <= top;
        WrapFits(BackoffMs(baseMs, maxMs, k) * MS);
      }
    } else {
      assert ComputeRTO(baseMs, maxMs, 31) < POW63;
    }
  }

  /** Such a setting: a base just above 2^34 ms, whose shift by 30 wraps to a value below the ceiling. */
  lemma BaseOutOfRange()
    ensures var base, top := 0x4_0000_0011, 0x100_0000_0000;
            InRange(base, top) && WrapsInside(base, top, 30) && ComputeRTO(base, top, 30) < ComputeRTO(base, top, 29)
  {
    assert Pow2(10) == 0x400;
    assert Pow2(20) == 0x10_0000;
    assert Pow2(29) == 0x2000_0000;
    assert BackoffMs(0x4_0000_0011, 0x100_0000_0000, 29) == 0x100_0000_0000;
    assert BackoffMs(0x4_0000_0011, 0x100_0000_0000, 30) == 0x4_4000_0000;
  }

  /** No base below 2^34 ms (about 198 days) has one. */
  lemma SmallBaseNeverWraps(baseMs: int, maxMs: int)
    requires Base(baseMs) < 0x4_0000_0000
    ensures NeverWrapsInside(baseMs, maxMs)
  {
    forall k: nat
      ensures !WrapsInside(baseMs, maxMs, k)
    {
      if k < 31 {
        ShiftFits(Base(baseMs), k);
        WrapOnce(Base(baseMs) * Pow2(k));
      }
    }
  }

  /** A shift that overflows by one bit is negative. */
  lemma WrapOnce(n: nat)
    requires n < POW64
    ensures Wrap64(n) == if n < POW63 then n else n - POW64
  {
  }

  lemma ShiftFits(base: int, k: nat)
    requires 1 <= base < 0x4_0000_0000 && k <= 30
    ensures 0 <= base * Pow2(k) < POW64
  {
    Pow2Grows(0, k);
    Pow2Grows(k, 30);
    Pow2Thirty();
    Product(base, Pow2(k));
  }

  lemma Product(base: nat, p: nat)
    requires base < 0x4_0000_0000 && p <= 0x4000_0000
    ensures 0 <= base * p < POW64
  {
    MulMono(p, base, 0x3_FFFF_FFFF);
  }

  lemma Pow2Thirty()
    ensures Pow2(30) == 0x4000_0000
  {
    assert Pow2(10) == 0x400;
    assert Pow2(20) == 0x10_0000;
  }

  // ---- total patience of a packet ----

  /** RTO(0) + ... + RTO(n-1). */
  function TotalRTO(baseMs: int, maxMs: int, n: nat): int {
    if n == 0 then 0 else TotalRTO(baseMs, maxMs, n - 1) + ComputeRTO(baseMs, maxMs, n - 1)
  }

  /** With the built-in settings. */
  lemma DefaultPatience()
    ensures TotalRTO(DEFAULT_BASE_MS, DEFAULT_MAX_MS, 4) == 30_000 * MS
    ensures TotalRTO(DEFAULT_BASE_MS, DEFAULT_MAX_MS, 11) == 240_000 * MS
  {
    forall k: nat | k <= 10 {
      DefaultRTO(k);
    }
    var b, m := DEFAULT_BASE_MS, DEFAULT_MAX_MS;
    assert TotalRTO(b, m, 2) == 6_000 * MS;
    assert TotalRTO(b, m, 4) == 30_000 * MS;
    assert TotalRTO(b, m, 6) == 90_000 * MS;
    assert TotalRTO(b, m, 8) == 150_000 * MS;
    assert TotalRTO(b, m, 10) == 210_000 * MS;
  }

  lemma DefaultRTO(k: nat)
    ensures ComputeRTO(DEFAULT_BASE_MS, DEFAULT_MAX_MS, k) ==
            (if k == 0 then 2_000 else if k == 1 then 4_000 else if k == 2 then 8_000
             else if k == 3 then 16_000 else 30_000) * MS
  {
    SmallBaseNeverWraps(DEFAULT_BASE_MS, DEFAULT_MAX_MS);
    ClosedForm(DEFAULT_BASE_MS, DEFAULT_MAX_MS, k);
    assert Pow2(2) == 4 && Pow2(4) == 16;
    if k >= 4 {
      Pow2Grows(4, k);
    }
  }
}
