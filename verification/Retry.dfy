/** Bounded retry with full-jitter exponential backoff: the connector's policy over
    64-bit integers and the phone's, and the retry loop itself. */
module Retry {
  import opened Arithmetic

  // ---- 64-bit shifts -------------------------------------------------------------

  const TWO_TO_63: int := 0x8000_0000_0000_0000
  const TWO_TO_64: int := 0x1_0000_0000_0000_0000

  function Pow2(n: nat): (r: int)
    ensures r >= 1
  {
    if n == 0 then 1 else 2 * Pow2(n - 1)
  }

  /** Two's-complement truncation to a signed 64-bit integer. */
  function Wrap64(x: int): int {
    (x + TWO_TO_63) % TWO_TO_64 - TWO_TO_63
  }

  /** Go's `x << n` on int64: no limit on the count. */
  function ShiftLeft(x: int, n: nat): int {
    if n >= 64 then 0 else Wrap64(x * Pow2(n))
  }

  function Min(x: int, y: int): int { if x < y then x else y }

  // ---- The connector's backoff ------------------------------------------------------

  /** The exclusive-of-jitter ceiling of the delay after the 0-based attempt. */
  function Ceiling(base: int, max: int, attempt: nat): int {
    var ceil := ShiftLeft(base, attempt);
    if ceil > max || ceil <= 0 then max else ceil
  }

  lemma {:induction false} Pow2Adds(m: nat, n: nat)
    ensures Pow2(m + n) == Pow2(m) * Pow2(n)
  {
    if m > 0 {
      Pow2Adds(m - 1, n);
      assert Pow2(m + n) == 2 * Pow2(m - 1 + n);
      assert 2 * (Pow2(m - 1) * Pow2(n)) == Pow2(m) * Pow2(n);
    }
  }

  lemma Pow2Of64()
    ensures Pow2(64) == TWO_TO_64
  {
    Pow2Adds(8, 8);
    assert Pow2(8) == 256;
    assert Pow2(16) == 0x1_0000;
    Pow2Adds(16, 16);
    assert Pow2(32) == 0x1_0000_0000;
    Pow2Adds(32, 32);
  }

  lemma Pow2Grows(m: nat, n: nat)
    requires m <= n
    ensures Pow2(m) <= Pow2(n)
  {
    Pow2Adds(m, n - m);
    assert Pow2(m) * 1 <= Pow2(m) * Pow2(n - m);
  }

  lemma WrapSmall(x: int)
    requires -TWO_TO_63 <= x < TWO_TO_63
    ensures Wrap64(x) == x
  {
  }

  lemma WrapIsOffset(x: int) returns (k: int)
    ensures Wrap64(x) == x - k * TWO_TO_64
  {
    k := (x + TWO_TO_63) / TWO_TO_64;
  }

  /** A truncated shift is still a multiple of the power of two, so if it is positive
      it is at least that power. */
  lemma ShiftIsMultiple(x: int, n: nat)
    requires ShiftLeft(x, n) > 0
    ensures ShiftLeft(x, n) >= Pow2(n)
  {
    var p := Pow2(n);
    Pow2Adds(n, 64 - n);
    Pow2Of64();
    var k := WrapIsOffset(x * p);
    Factorise(x, p, k, Pow2(64 - n));
    PositiveMultiple(p, x - k * Pow2(64 - n));
  }

  lemma PositiveMultiple(p: int, z: int)
    requires p >= 1 && p * z > 0
    ensures p * z >= p
  {
    if z >= 1 {
      MultiplyMonotone(p, 1, z);
    } else {
      MultiplyMonotone(p, z, 0);
    }
  }

  lemma Factorise(x: int, p: int, k: int, q: int)
    ensures x * p - k * (p * q) == p * (x - k * q)
  {
    assert k * (p * q) == p * (k * q);
  }

  lemma FactorBelow(base: int, max: int)
    requires base >= 1 && max >= 0
    ensures max <= base * max
  {
    assert 1 * max <= base * max;
  }

  /** The ceiling is exactly min(base * 2^attempt, max) for every attempt, wrapped and
      vanished shifts included, as long as base * max fits in 63 bits. */
  lemma CeilingIsExact(base: int, max: int, attempt: nat)
    requires base >= 1 && max >= 1 && base * max < TWO_TO_63
    ensures Ceiling(base, max, attempt) == Min(base * Pow2(attempt), max)
    ensures 1 <= Ceiling(base, max, attempt) <= max
  {
    var p := Pow2(attempt);
    FactorBelow(base, max);
    assert base * p >= 1 by {
      FactorBelow(base, p);
    }
    if base * p < TWO_TO_63 && attempt < 64 {
      WrapSmall(base * p);
    } else {
      if attempt >= 64 {
        Pow2Of64();
        Pow2Grows(64, attempt);
        FactorBelow(base, p);
      }
      MultiplyReflects(base, max, p);
      if ShiftLeft(base, attempt) > 0 {
        ShiftIsMultiple(base, attempt);
      }
    }
  }

  predicate Int64(x: int) {
    -TWO_TO_63 <= x < TWO_TO_63
  }

  /** Exactly when one attempt's ceiling is the mathematical one. A positive base is
      needed, because a shift that is not positive is taken for an overflow, and the shift
      must not wrap onto a positive value below the maximum; a maximum that is not positive
      is always the ceiling. */
  lemma CeilingIsExactIff(base: int, max: int, attempt: nat)
    requires Int64(base) && Int64(max)
    ensures Ceiling(base, max, attempt) == Min(base * Pow2(attempt), max) <==>
            if max <= 0 then base * Pow2(attempt) >= max
            else base >= 1 && (base * Pow2(attempt) < TWO_TO_63 || !(0 < ShiftLeft(base, attempt) < max))
  {
    if max > 0 && base >= 1 {
      PositiveCeilingIsExactIff(base, max, attempt);
    } else if base < 1 {
      MultiplyMonotone(Pow2(attempt), base, 0);
      Commute(base, Pow2(attempt));
    }
  }

  lemma PositiveCeilingIsExactIff(base: int, max: int, attempt: nat)
    requires base >= 1 && 1 <= max < TWO_TO_63
    ensures Ceiling(base, max, attempt) == Min(base * Pow2(attempt), max) <==>
            base * Pow2(attempt) < TWO_TO_63 || !(0 < ShiftLeft(base, attempt) < max)
  {
    var p := Pow2(attempt);
    assert base * p >= 1 by {
      FactorBelow(base, p);
    }
    if attempt >= 64 {
      Pow2Of64();
      Pow2Grows(64, attempt);
      FactorBelow(base, p);
    } else if base * p < TWO_TO_63 {
      WrapSmall(base * p);
    }
  }

  /** The documented bound fails for other policies: 5 shifted 62 places wraps onto 2^62. */
  lemma CeilingCanWrap()
    ensures var max := 0x4000_0000_0000_0001;
            Ceiling(5, max, 62) == 0x4000_0000_0000_0000 && Min(5 * Pow2(62), max) == max
  {
    Pow2Of64();
    assert Pow2(64) == 2 * Pow2(63) && Pow2(63) == 2 * Pow2(62);
    assert Pow2(62) == 0x4000_0000_0000_0000;
  }

  /** Both policies in use satisfy the bound (nanoseconds). */
  lemma PoliciesInUseAreExact(attempt: nat)
    ensures Ceiling(200_000_000, 5_000_000_000, attempt) == Min(200_000_000 * Pow2(attempt), 5_000_000_000)
    ensures Ceiling(100_000_000, 1_000_000_000, attempt) == Min(100_000_000 * Pow2(attempt), 1_000_000_000)
  {
    CeilingIsExact(200_000_000, 5_000_000_000, attempt);
    CeilingIsExact(100_000_000, 1_000_000_000, attempt);
  }

  // ---- The phone's backoff -------------------------------------------------------------

  /** The reporter's ceiling after the 1-based attempt; the exponent stops at 20. */
  function ReporterCeiling(base: int, max: int, attempt: nat): int
    requires attempt >= 1
  {
    Min(Wrap64(base * Pow2(Min(attempt - 1, 20))), max)
  }

  lemma Pow2Of20()
    ensures Pow2(20) == 1048576
  {
    Pow2Adds(10, 10);
    Pow2Adds(5, 5);
    assert Pow2(5) == 32;
  }

  lemma ShiftFits(base: int, n: nat)
    requires 0 <= base < 0x800_0000_0000 && n <= 20
    ensures Wrap64(base * Pow2(n)) == base * Pow2(n)
  {
    Pow2Of20();
    Pow2Grows(n, 20);
    MultiplyMonotone(base, Pow2(n), Pow2(20));
    MultiplyMonotone(base, 0, Pow2(n));
  }

  lemma LaterCeilings(base: int, max: int, attempt: nat)
    requires base >= 0 && attempt >= 21 && base * Pow2(20) >= max
    ensures base * Pow2(attempt - 1) >= max
  {
    Pow2Grows(20, attempt - 1);
    MultiplyMonotone(base, Pow2(20), Pow2(attempt - 1));
  }

  lemma ReporterCeilingIsExact(base: int, max: int, attempt: nat)
    requires 0 <= base < 0x800_0000_0000 && max >= 0 && attempt >= 1
    requires base == 0 || base * Pow2(20) >= max
    ensures ReporterCeiling(base, max, attempt) == Min(base * Pow2(attempt - 1), max)
  {
    ShiftFits(base, Min(attempt - 1, 20));
    if attempt >= 21 && base > 0 {
      LaterCeilings(base, max, attempt);
    }
  }

  lemma ReporterCeilingFallsShort(base: int, max: int)
    requires 0 < base < 0x800_0000_0000 && base * Pow2(20) < max
    ensures ReporterCeiling(base, max, 22) < Min(base * Pow2(21), max)
  {
    ShiftFits(base, 20);
    FactorBelow(base, Pow2(20));
    Doubled(base, Pow2(20));
  }

  lemma Doubled(x: int, p: int)
    ensures x * (2 * p) == 2 * (x * p)
  {
  }

  /** Is the phone's ceiling min(base * 2^(attempt-1), max) at every attempt? */
  ghost predicate ReporterExact(base: int, max: int) {
    forall attempt: nat :: attempt >= 1 ==>
      ReporterCeiling(base, max, attempt) == Min(base * Pow2(attempt - 1), max)
  }

  /** Does every exponent the phone can use leave the base, as truncated, above this? */
  ghost predicate ShiftsReach(base: int, max: int) {
    forall n: nat :: n <= 20 ==> Wrap64(base * Pow2(n)) >= max
  }

  lemma SmallBaseExactIff(base: int, max: int)
    requires 0 <= base < 0x800_0000_0000 && max >= 0
    ensures ReporterExact(base, max) <==> base == 0 || base * Pow2(20) >= max
  {
    if base == 0 || base * Pow2(20) >= max {
      forall attempt: nat | attempt >= 1
        ensures ReporterCeiling(base, max, attempt) == Min(base * Pow2(attempt - 1), max)
      {
        ReporterCeilingIsExact(base, max, attempt);
      }
    } else {
      ReporterCeilingFallsShort(base, max);
      assert ReporterCeiling(base, max, 22) != Min(base * Pow2(22 - 1), max);
    }
  }

  /** Doubling a number that reaches 2^63 within `k` places passes through the sign bit. */
  lemma {:induction false} PassesSignBit(base: int, k: nat) returns (j: nat)
    requires 0 <= base < TWO_TO_63 <= base * Pow2(k)
    ensures j <= k && TWO_TO_63 <= base * Pow2(j) < TWO_TO_64
  {
    if base * Pow2(k) < TWO_TO_64 {
      j := k;
    } else {
      assert k > 0;
      Doubled(base, Pow2(k - 1));
      j := PassesSignBit(base, k - 1);
    }
  }

  lemma WrapNegative(x: int)
    requires TWO_TO_63 <= x < TWO_TO_64
    ensures Wrap64(x) == x - TWO_TO_64 < 0
  {
  }

  /** A large base is shifted onto a negative number by some exponent. */
  lemma LargeBaseWraps(base: int) returns (j: nat)
    requires 0x800_0000_0000 <= base < TWO_TO_63
    ensures j <= 20 && base * Pow2(j) > 0 && -TWO_TO_63 <= Wrap64(base * Pow2(j)) < 0
  {
    Pow2Of20();
    MultiplyMonotone(Pow2(20), 0x800_0000_0000, base);
    Commute(base, Pow2(20));
    j := PassesSignBit(base, 20);
    WrapNegative(base * Pow2(j));
  }

  lemma LargeBaseIsNotExact(base: int, max: int)
    requires 0x800_0000_0000 <= base < TWO_TO_63 && max >= 0
    ensures !ReporterExact(base, max)
  {
    var j := LargeBaseWraps(base);
    assert ReporterCeiling(base, max, j + 1) != Min(base * Pow2(j + 1 - 1), max);
  }

  lemma WrapInRange(x: int)
    ensures Int64(Wrap64(x))
  {
  }

  lemma NegativeBaseIsNotExact(base: int, max: int)
    requires base < 0 && Int64(max)
    ensures !ReporterExact(base, max)
  {
    Pow2Of64();
    MultiplyMonotone(Pow2(64), base, -1);
    Commute(base, Pow2(64));
    WrapInRange(base * Pow2(20));
    assert ReporterCeiling(base, max, 65) != Min(base * Pow2(65 - 1), max);
  }

  lemma NegativeMaximum(base: int, max: int, attempt: nat)
    requires base >= 0 > max && attempt >= 1
    ensures ReporterCeiling(base, max, attempt) == Min(base * Pow2(attempt - 1), max) <==>
            Wrap64(base * Pow2(Min(attempt - 1, 20))) >= max
  {
    MultiplyMonotone(base, 0, Pow2(attempt - 1));
  }

  lemma NegativeMaximumExactIff(base: int, max: int)
    requires base >= 0 > max
    ensures ReporterExact(base, max) <==> ShiftsReach(base, max)
  {
    if ReporterExact(base, max) {
      forall n: nat | n <= 20 ensures Wrap64(base * Pow2(n)) >= max {
        NegativeMaximum(base, max, n + 1);
        assert ReporterCeiling(base, max, n + 1) == Min(base * Pow2(n + 1 - 1), max);
      }
    } else {
      var attempt: nat :| attempt >= 1 && ReporterCeiling(base, max, attempt) != Min(base * Pow2(attempt - 1), max);
      NegativeMaximum(base, max, attempt);
    }
  }

  /** The phone's ceiling is min(base * 2^(attempt-1), max) at every attempt iff the base
      is zero, or positive, below 2^43, and raised to the maximum by the last exponent.
      With a negative maximum every exponent must leave it at the maximum or above. */
  lemma ReporterCeilingIsExactIff(base: int, max: int)
    requires Int64(base) && Int64(max)
    ensures ReporterExact(base, max) <==>
            if max >= 0 then base == 0 || (0 < base < 0x800_0000_0000 && base * Pow2(20) >= max)
            else base >= 0 && ShiftsReach(base, max)
  {
    if base < 0 {
      NegativeBaseIsNotExact(base, max);
    } else if max < 0 {
      NegativeMaximumExactIff(base, max);
    } else if base < 0x800_0000_0000 {
      SmallBaseExactIff(base, max);
    } else {
      LargeBaseIsNotExact(base, max);
    }
  }

  lemma WrapTowardsZero(x: int)
    ensures x >= 0 ==> Wrap64(x) <= x
    ensures x < 0 ==> Wrap64(x) >= x
  {
  }

  lemma Spreads(base: int, p: int, q: int)
    requires 0 < p < q
    ensures base > 0 ==> 0 < base * p < base * q
    ensures base < 0 ==> base * q < base * p < 0
  {
    if base > 0 {
      MultiplyStrict(base, 0, p);
      MultiplyStrict(base, p, q);
    } else if base < 0 {
      MultiplyStrict(-base, 0, p);
      MultiplyStrict(-base, p, q);
      Negate(base, p);
      Negate(base, q);
    }
  }

  lemma OneMoreDoubling(k: nat, n: nat)
    requires k < n
    ensures Pow2(k) < Pow2(n)
  {
    Pow2Grows(k, n - 1);
  }

  /** Exactly when the ceiling is the one the comment beside the code gives, with the
      attempt itself as exponent: the code is a doubling behind, so only if both ceilings
      are the maximum, or the base is zero. */
  lemma CommentIsMetIff(base: int, max: int, attempt: nat)
    requires attempt >= 1
    ensures ReporterCeiling(base, max, attempt) == Min(base * Pow2(attempt), max) <==>
            base == 0 || (Wrap64(base * Pow2(Min(attempt - 1, 20))) >= max && base * Pow2(attempt) >= max)
    ensures 0 <= base < 0x800_0000_0000 ==>
              (ReporterCeiling(base, max, attempt) == Min(base * Pow2(attempt), max) <==>
               base == 0 || base * Pow2(Min(attempt - 1, 20)) >= max)
  {
    var n := Min(attempt - 1, 20);
    OneMoreDoubling(n, attempt);
    Spreads(base, Pow2(n), Pow2(attempt));
    WrapTowardsZero(base * Pow2(n));
    if 0 <= base < 0x800_0000_0000 {
      ShiftFits(base, n);
    }
  }

  /** With the defaults the ceilings are 500 ms, doubled with each attempt, up to 30 s;
      they are the comment's from the seventh attempt on only. */
  lemma ReporterDefaults(attempt: nat)
    requires attempt >= 1
    ensures ReporterCeiling(500, 30_000, attempt) == Min(500 * Pow2(attempt - 1), 30_000)
    ensures ReporterCeiling(500, 30_000, attempt) == Min(500 * Pow2(attempt), 30_000) <==> attempt >= 7
  {
    Pow2Of20();
    ReporterCeilingIsExact(500, 30_000, attempt);
    CommentIsMetIff(500, 30_000, attempt);
    assert Pow2(5) == 32 && Pow2(6) == 64;
    if attempt >= 7 {
      Pow2Grows(6, Min(attempt - 1, 20));
    } else {
      Pow2Grows(attempt - 1, 5);
    }
  }

  // ---- The draw -------------------------------------------------------------------------

  const MAX_INT64: int := TWO_TO_63 - 1

  /** Both sides draw below the ceiling plus one, computed in 64 bits; there is nothing to
      draw from unless that bound is positive. */
  function DrawBound(ceiling: int): int {
    Wrap64(ceiling + 1)
  }

  predicate CanDraw(ceiling: int) {
    DrawBound(ceiling) > 0
  }

  /** The delay a source of random numbers leads to. */
  function Delay(ceiling: int, random: int): int
    requires CanDraw(ceiling)
  {
    random % DrawBound(ceiling)
  }

  lemma RemainderOfSmall(d: int, bound: int)
    requires 0 <= d < bound
    ensures d % bound == d
  {
  }

  /** Delays are the numbers from zero to the ceiling, each of them possible. */
  lemma DelaysAreUpToCeiling(ceiling: int, d: int)
    requires -TWO_TO_63 <= ceiling <= MAX_INT64 && CanDraw(ceiling)
    ensures 0 <= d <= ceiling <==> exists random :: Delay(ceiling, random) == d
  {
    assert ceiling != MAX_INT64;
    WrapSmall(ceiling + 1);
    if 0 <= d <= ceiling {
      RemainderOfSmall(d, ceiling + 1);
      assert Delay(ceiling, d) == d;
    }
  }

  /** The connector's draw is defined iff the maximum is not negative and the ceiling is
      not the greatest 64-bit integer; every delay then lies between zero and the maximum. */
  lemma DrawIsDefinedIff(base: int, max: int, attempt: nat)
    requires -TWO_TO_63 <= max <= MAX_INT64
    ensures CanDraw(Ceiling(base, max, attempt)) <==>
            max >= 0 && !(max == MAX_INT64 && (ShiftLeft(base, attempt) <= 0 || ShiftLeft(base, attempt) == max))
    ensures CanDraw(Ceiling(base, max, attempt)) ==> 0 <= Ceiling(base, max, attempt) <= max
  {
    var ceiling := Ceiling(base, max, attempt);
    if ceiling < MAX_INT64 {
      WrapSmall(ceiling + 1);
    }
  }

  /** An unbounded maximum is not safe: after 63 doublings the draw panics. */
  lemma DrawCanPanic()
    ensures !CanDraw(Ceiling(1, MAX_INT64, 63))
  {
    Pow2Of64();
    assert Pow2(64) == 2 * Pow2(63);
    DrawIsDefinedIff(1, MAX_INT64, 63);
  }

  lemma PoliciesInUseCanDraw(attempt: nat)
    ensures CanDraw(Ceiling(200_000_000, 5_000_000_000, attempt))
    ensures CanDraw(Ceiling(100_000_000, 1_000_000_000, attempt))
  {
    DrawIsDefinedIff(200_000_000, 5_000_000_000, attempt);
    DrawIsDefinedIff(100_000_000, 1_000_000_000, attempt);
  }

  lemma NegativeCeilingThrows(ceiling: int)
    requires -TWO_TO_63 <= ceiling < 0
    ensures !CanDraw(ceiling)
  {
    WrapSmall(ceiling + 1);
  }

  /** A negative base or maximum throws at once, a large base as soon as it is shifted onto
      a negative number. */
  lemma SomeDrawThrows(base: int, max: int) returns (attempt: nat)
    requires Int64(base) && Int64(max) && (base < 0 || base >= 0x800_0000_0000 || max < 0)
    ensures attempt >= 1 && !CanDraw(ReporterCeiling(base, max, attempt))
  {
    attempt := 1;
    if base >= 0x800_0000_0000 {
      var j := LargeBaseWraps(base);
      attempt := j + 1;
    } else if base < 0 {
      WrapSmall(base);
    }
    WrapInRange(base * Pow2(Min(attempt - 1, 20)));
    NegativeCeilingThrows(ReporterCeiling(base, max, attempt));
  }

  lemma SmallBaseDraws(base: int, max: int, attempt: nat)
    requires 0 <= base < 0x800_0000_0000 && 0 <= max <= MAX_INT64 && attempt >= 1
    ensures CanDraw(ReporterCeiling(base, max, attempt)) && 0 <= ReporterCeiling(base, max, attempt) <= max
  {
    var n := Min(attempt - 1, 20);
    ShiftFits(base, n);
    Pow2Of20();
    Pow2Grows(n, 20);
    MultiplyMonotone(base, Pow2(n), Pow2(20));
    MultiplyMonotone(base, 0, Pow2(n));
    WrapSmall(ReporterCeiling(base, max, attempt) + 1);
  }

  /** The phone's draw is defined at every attempt iff the base is not negative and below
      2^43, and the maximum not negative. */
  lemma ReporterDrawIsDefinedIff(base: int, max: int)
    requires Int64(base) && Int64(max)
    ensures (forall attempt: nat :: attempt >= 1 ==> CanDraw(ReporterCeiling(base, max, attempt)))
            <==> 0 <= base < 0x800_0000_0000 && max >= 0
  {
    if 0 <= base < 0x800_0000_0000 && max >= 0 {
      forall attempt: nat | attempt >= 1 ensures CanDraw(ReporterCeiling(base, max, attempt)) {
        SmallBaseDraws(base, max, attempt);
      }
    } else {
      var attempt := SomeDrawThrows(base, max);
    }
  }

  // ---- The retry loop ----------------------------------------------------------------

  /** How one try of the operation ended. */
  datatype Attempt = Succeeded | Transient | Permanent | Cancelled

  /** How the whole loop ended. */
  datatype Outcome = Done | Failed(last: Attempt) | GaveUp | ContextDone | Panicked

  datatype Policy = Policy(attempts: int, base: int, max: int) {
    function CeilingAt(attempt: nat): int {
      Ceiling(base, max, attempt)
    }
  }

  /** When the context is done: on entry to an attempt, or while waiting after it. */
  datatype Context = Context(doneBefore: nat -> bool, doneWaiting: nat -> bool)

  function Tries(attempts: int): nat {
    if attempts < 1 then 1 else attempts
  }

  /** Is another attempt due after the 0-based one that ended this way? */
  predicate GoesOn(attempts: int, attempt: nat, a: Attempt) {
    a == Transient && attempt + 1 < Tries(attempts)
  }

  /** What the loop promises about the ways its attempts ended and its own outcome: every
      attempt but the last was transient, there were no more than allowed, and the outcome
      says how the last one ended or that the loop was broken off between attempts. */
  ghost predicate Obeys(attempts: int, ended: seq<Attempt>, r: Outcome) {
    && |ended| <= Tries(attempts)
    && (forall i :: 0 <= i < |ended| - 1 ==> ended[i] == Transient)
    && if ended == [] then r == ContextDone
       else
         match ended[|ended| - 1]
         case Succeeded => r == Done
         case Transient => if |ended| == Tries(attempts) then r == GaveUp else r == ContextDone || r == Panicked
         case a => r == Failed(a)
  }

  /** The same, reading the results one by one: the outcomes the loop can have after them
      when so many attempts were left. */
  function Endings(left: nat, ended: seq<Attempt>): set<Outcome> {
    if ended == [] then {ContextDone}
    else if left == 0 then {}
    else if ended[0] == Transient then
      if |ended| > 1 then Endings(left - 1, ended[1..])
      else if left == 1 then {GaveUp}
      else {ContextDone, Panicked}
    else if |ended| > 1 then {}
    else if ended[0] == Succeeded then {Done}
    else {Failed(ended[0])}
  }

  lemma EndingsOnce(a: Attempt, left: nat, o: Outcome)
    requires left > 0
    requires if a == Succeeded then o == Done
             else if a != Transient then o == Failed(a)
             else if left == 1 then o == GaveUp
             else o == ContextDone
    ensures o in Endings(left, [a])
  {
  }

  lemma EndingsPrepend(a: Attempt, later: seq<Attempt>, left: nat, o: Outcome)
    requires left > 1 && a == Transient && o in Endings(left - 1, later)
    ensures o in Endings(left, [a] + later)
  {
    assert ([a] + later)[1..] == later;
  }

  lemma {:induction false} EndingsObey(left: nat, ended: seq<Attempt>, o: Outcome)
    requires left > 0 && o in Endings(left, ended)
    ensures Obeys(left, ended, o)
  {
    if |ended| > 1 {
      assert left > 1;
      EndingsObey(left - 1, ended[1..], o);
      forall i | 0 <= i < |ended| - 1 ensures ended[i] == Transient {
        assert i > 0 ==> ended[i] == ended[1..][i - 1];
      }
      assert ended[|ended| - 1] == ended[1..][|ended| - 2];
    }
  }

  function Results(op: nat -> Attempt, calls: nat): (ended: seq<Attempt>)
    ensures |ended| == calls && forall i :: 0 <= i < calls ==> ended[i] == op(i)
  {
    if calls == 0 then [] else Results(op, calls - 1) + [op(calls - 1)]
  }

  /** Between two attempts a delay up to that attempt's ceiling is drawn; the loop panics
      iff there is nothing to draw from. */
  method Do(p: Policy, op: nat -> Attempt, ctx: Context, random: nat -> int)
    returns (r: Outcome, calls: nat, waits: seq<int>)
    ensures Obeys(p.attempts, Results(op, calls), r)
    ensures 0 <= calls <= (if p.attempts < 1 then 1 else p.attempts)
    ensures forall i :: 0 <= i < calls - 1 ==> op(i) == Transient
    ensures r == Done <==> calls > 0 && op(calls - 1) == Succeeded
    ensures r.Failed? <==> calls > 0 && op(calls - 1) in {Permanent, Cancelled}
    ensures r.Failed? ==> r.last == op(calls - 1)
    ensures r == GaveUp <==> calls == (if p.attempts < 1 then 1 else p.attempts) && op(calls - 1) == Transient
    ensures r == ContextDone ==>
              if calls == 0 then ctx.doneBefore(0) else ctx.doneWaiting(calls - 1) || ctx.doneBefore(calls)
    ensures |waits| <= calls <= |waits| + 1
    ensures forall i :: 0 <= i < |waits| ==> CanDraw(p.CeilingAt(i)) && waits[i] == Delay(p.CeilingAt(i), random(i))
    ensures r == Panicked <==>
              calls > 0 && GoesOn(p.attempts, calls - 1, op(calls - 1)) && !CanDraw(p.CeilingAt(calls - 1))
  {
    calls, waits := 0, [];
    while true
      invariant calls < Tries(p.attempts) && |waits| == calls
      invariant forall i :: 0 <= i < calls ==> op(i) == Transient && CanDraw(p.CeilingAt(i))
      invariant forall i :: 0 <= i < |waits| ==> waits[i] == Delay(p.CeilingAt(i), random(i))
      decreases Tries(p.attempts) - calls
    {
      if ctx.doneBefore(calls) {
        return ContextDone, calls, waits;
      }
      var last := op(calls);
      calls := calls + 1;
      if last == Succeeded {
        return Done, calls, waits;
      }
      if last == Permanent || last == Cancelled {
        return Failed(last), calls, waits;
      }
      if calls == Tries(p.attempts) {
        return GaveUp, calls, waits;
      }
      if !CanDraw(p.CeilingAt(calls - 1)) {
        return Panicked, calls, waits;
      }
      waits := waits + [Delay(p.CeilingAt(calls - 1), random(calls - 1))];
      if ctx.doneWaiting(calls - 1) {
        return ContextDone, calls, waits;
      }
    }
  }
}
