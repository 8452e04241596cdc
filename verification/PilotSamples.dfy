/**
 The control-pilot measurement (src/pilot.c): samples are split at a cutoff voltage,
 cleaned of outliers around their mean, and counted into a duty cycle.
 */
module PilotSamples {
  import opened CInt
  import opened Arith

  type Samples = seq<u16>

  // ---------- integer square root ----------

  /** The floor of the square root, found by counting up. */
  function IntSqrt(n: nat): (r: nat)
    ensures r * r <= n < (r + 1) * (r + 1)
  {
    if n == 0 then 0 else
    var r := IntSqrt(n - 1);
    if (r + 1) * (r + 1) <= n then (NextSquare(r, n); r + 1) else r
  }

  lemma NextSquare(r: nat, n: nat)
    requires n - 1 < (r + 1) * (r + 1)
    ensures n < (r + 2) * (r + 2)
  {
    assert (r + 2) * (r + 2) == (r + 1) * (r + 1) + 2 * r + 3;
  }

  /** The floor of the square root is the only number between its square and the next. */
  lemma IntSqrtUnique(n: nat, r: nat)
    requires r * r <= n < (r + 1) * (r + 1)
    ensures r == IntSqrt(n)
  {
    var s := IntSqrt(n);
    if r < s {
      SquareMonotone(r + 1, s);
    } else if s < r {
      SquareMonotone(s + 1, r);
    }
  }

  lemma SqrtAtLeast(n: nat, d: nat)
    requires d * d <= n
    ensures d <= IntSqrt(n)
  {
    if IntSqrt(n) < d {
      SquareMonotone(IntSqrt(n) + 1, d);
    }
  }

  /** A Newton step from above the root stays above it: the mean of two numbers bounds their product. */
  lemma NewtonStaysAbove(val: nat, x: nat)
    requires x > 0
    ensures var next := (x + val / x) / 2; val < (next + 1) * (next + 1)
  {
    var y := val / x;
    var next := (x + y) / 2;
    DivisionBelow(val, x);
    ProductBelowMean(x, y + 1);
    DoubleSquare(next + 1, x + y + 1);
  }

  lemma ProductBelowMean(x: nat, z: nat)
    ensures 4 * (x * z) <= (x + z) * (x + z)
  {
    var d := x - z;
    assert (d + 2 * z) * (d + 2 * z) == d * d + 4 * ((d + z) * z);
    assert d * d >= 0;
  }

  lemma DoubleSquare(n: nat, s: nat)
    requires s <= 2 * n
    ensures s * s <= 4 * (n * n)
  {
    SquareMonotone(s, 2 * n);
    assert (2 * n) * (2 * n) == 4 * (n * n);
  }

  /** `sqrt_u32`: Newton's iteration in 32-bit arithmetic gives the exact floor for every value but the largest. */
  method SqrtU32(val: u32) returns (x: u32)
    requires val != U32_RANGE - 1
    ensures x == IntSqrt(val)
  {
    if val == 0 {
      return 0;
    }
    x := val;
    var y: u32 := 1;
    assert val / val == 1;
    SquareAbove(val);
    while x > y
      invariant 0 < x <= val && y == val / x
      invariant val < (x + 1) * (x + 1)
      invariant x == val || x <= U32_RANGE / 2
      decreases x
    {
      NewtonStaysAbove(val, x);
      NewtonDescends(val, x, y);
      x := Wrap32(x + y) / 2;
      y := val / x;
    }
    RootFound(val, x);
  }

  /** Where Newton's iteration stops is the floor of the root. */
  lemma RootFound(val: nat, x: nat)
    requires x > 0 && x <= val / x && val < (x + 1) * (x + 1)
    ensures x == IntSqrt(val)
  {
    DivisionBelow(val, x);
    SquareBelow(val, x, val / x);
    IntSqrtUnique(val, x);
  }

  /** A step from above the root goes down, and its sum fits 32 bits. */
  lemma NewtonDescends(val: u32, x: u32, y: nat)
    requires val != U32_RANGE - 1 && 0 < x <= val && y == val / x < x
    requires x == val || x <= U32_RANGE / 2
    ensures Wrap32(x + y) == x + y && 0 < (x + y) / 2 < x && (x + y) / 2 <= U32_RANGE / 2
  {
    QuotientAtLeast(x, 1, val);
    if x == val {
      QuotientAtMost(val, 1, val);
    }
    HalfSum(x, y);
  }

  lemma HalfSum(x: u32, y: nat)
    requires 0 < y < x && (x <= U32_RANGE / 2 || (y == 1 && x < U32_RANGE - 1))
    ensures Wrap32(x + y) == x + y && 0 < (x + y) / 2 < x && (x + y) / 2 <= U32_RANGE / 2
  {
  }

  lemma SquareAbove(val: nat)
    ensures val < (val + 1) * (val + 1)
  {
    assert (val + 1) * (val + 1) == val * val + 2 * val + 1;
  }

  lemma SquareBelow(val: nat, x: nat, y: nat)
    requires x <= y && x * y <= val
    ensures x * x <= val
  {
    assert x * y - x * x == x * (y - x);
  }

  /** On the largest value the first sum wraps to 0, and the next division is by 0; on no other. */
  lemma FirstStepVanishesIff(val: u32)
    requires val > 0
    ensures Wrap32(val + 1) / 2 == 0 <==> val == U32_RANGE - 1
  {
  }

  // ---------- mean and deviation ----------

  function Sum(s: Samples): nat {
    if s == [] then 0 else Sum(s[..|s| - 1]) + s[|s| - 1]
  }

  function Deviation(v: u16, avg: u16): u16 {
    if v >= avg then v - avg else avg - v
  }

  function SumSquares(s: Samples, avg: u16): nat {
    if s == [] then 0
    else var d := Deviation(s[|s| - 1], avg); SumSquares(s[..|s| - 1], avg) + d * d
  }

  function Average(s: Samples): u16
    ensures s != [] ==> Average(s) == Sum(s) / |s|
  {
    if s == [] then 0 else (AverageAtMost(s, 0xFFFF); Sum(s) / |s|)
  }

  lemma {:induction false} SumAtMost(s: Samples, hi: nat)
    requires forall i :: 0 <= i < |s| ==> s[i] <= hi
    ensures Sum(s) <= |s| * hi
  {
    if s == [] {
    } else {
      SumAtMost(s[..|s| - 1], hi);
      Successor(|s| - 1, hi);
    }
  }

  lemma AverageAtMost(s: Samples, hi: nat)
    requires s != [] && forall i :: 0 <= i < |s| ==> s[i] <= hi
    ensures Sum(s) / |s| <= hi
  {
    SumAtMost(s, hi);
    QuotientAtMost(|s|, hi, Sum(s));
  }

  lemma {:induction false} SquaresBound(s: Samples, avg: u16, hi: nat)
    requires forall i :: 0 <= i < |s| ==> Deviation(s[i], avg) <= hi
    ensures SumSquares(s, avg) <= |s| * (hi * hi)
  {
    if s == [] {
    } else {
      SquaresBound(s[..|s| - 1], avg, hi);
      SquareMonotone(Deviation(s[|s| - 1], avg), hi);
      Successor(|s| - 1, hi * hi);
    }
  }

  lemma {:induction false} SquaresAtLeast(s: Samples, avg: u16, lo: nat)
    requires forall i :: 0 <= i < |s| ==> lo <= Deviation(s[i], avg)
    ensures |s| * (lo * lo) <= SumSquares(s, avg)
  {
    if s == [] {
    } else {
      SquaresAtLeast(s[..|s| - 1], avg, lo);
      SquareMonotone(lo, Deviation(s[|s| - 1], avg));
      Successor(|s| - 1, lo * lo);
    }
  }

  /** `calculate_standard_deviation` around the truncated mean. */
  function StdDev(s: Samples, avg: u16): (sd: u16)
  {
    if s == [] || avg == 0 then 0
    else (MeanSquareBound(s, avg); IntSqrt(SumSquares(s, avg) / |s|))
  }

  lemma MeanSquareBound(s: Samples, avg: u16)
    requires s != []
    ensures SumSquares(s, avg) / |s| <= 0xFFFF * 0xFFFF
    ensures IntSqrt(SumSquares(s, avg) / |s|) <= 0xFFFF
  {
    SquaresBound(s, avg, 0xFFFF);
    DivisionBelow(SumSquares(s, avg), |s|);
    AtMost(|s|, SumSquares(s, avg) / |s|, 0xFFFF * 0xFFFF);
    var r := IntSqrt(SumSquares(s, avg) / |s|);
    if r > 0xFFFF {
      SquareMonotone(0x1_0000, r);
    }
  }

  /** What the code computes for it: the sum of squares is kept in 32 bits. */
  function ComputedDeviation(s: Samples, avg: u16): u16 {
    if s == [] || avg == 0 then 0
    else
      var meanSquare := Wrap32(SumSquares(s, avg)) / |s|;
      QuotientAtMost(|s|, U32_RANGE - 1, Wrap32(SumSquares(s, avg)));
      RootFits(meanSquare);
      IntSqrt(meanSquare)
  }

  lemma RootFits(n: u32)
    ensures IntSqrt(n) <= 0xFFFF
  {
    if IntSqrt(n) > 0xFFFF {
      SquareMonotone(0x1_0000, IntSqrt(n));
    }
  }

  /** The loop of `calculate_standard_deviation`, for every buffer. */
  method CalculateStandardDeviation(s: Samples, avg: u16) returns (sd: u16)
    requires |s| < U32_RANGE
    ensures sd == ComputedDeviation(s, avg)
  {
    if |s| == 0 || avg == 0 {
      return 0;
    }
    var variance: u32 := 0;
    assert SumSquares(s[..0], avg) == 0 == Wrap32(0);
    hide SumSquares, IntSqrt;
    for i := 0 to |s|
      invariant variance == Wrap32(SumSquares(s[..i], avg))
    {
      hide Wrap32;
      var diff := s[i] - avg;
      SquaresStep(s, avg, i);
      SquareOfDifference(s[i], avg);
      WrapTwice(SumSquares(s[..i], avg), diff * diff);
      variance := Wrap32(variance + diff * diff);
    }
    assert s[..|s|] == s;
    RootDefined(s, avg);
    RootFits(variance / |s|);
    sd := SqrtU32(variance / |s|);
  }

  lemma SquareOfDifference(v: u16, avg: u16)
    ensures Deviation(v, avg) * Deviation(v, avg) == (v - avg) * (v - avg)
  {
  }

  lemma WrapTwice(a: nat, b: nat)
    ensures Wrap32(Wrap32(a) + b) == Wrap32(a + b)
  {
    assert a == U32_RANGE * (a / U32_RANGE) + Wrap32(a);
  }

  /** The root is never taken of the one value on which it fails. */
  lemma RootDefined(s: Samples, avg: u16)
    requires s != []
    ensures 0 <= Wrap32(SumSquares(s, avg)) / |s| < U32_RANGE - 1
  {
    var sum := Wrap32(SumSquares(s, avg));
    if |s| == 1 {
      SquaresBound(s, avg, 0xFFFF);
      assert sum <= 0xFFFF * 0xFFFF;
    }
    QuotientAtMost(|s|, if |s| == 1 then 0xFFFF * 0xFFFF else U32_RANGE / 2, sum);
  }

  /**
   With deviations of 15 bits and a 16-bit count, the computed deviation is the true one exactly
   when the mean is 0 or the sum of squares fits 32 bits.
   */
  lemma ComputedIsTrueIff(s: Samples, avg: u16)
    requires |s| < 0x1_0000 && forall i :: 0 <= i < |s| ==> Deviation(s[i], avg) < 0x8000
    ensures ComputedDeviation(s, avg) == StdDev(s, avg) <==> avg == 0 || SumSquares(s, avg) < U32_RANGE
  {
    hide IntSqrt;
    var sum := SumSquares(s, avg);
    if avg != 0 && sum >= U32_RANGE {
      SquaresBound(s, avg, 0x7FFF);
      MeanSquaresApart(sum, |s|);
    }
  }

  lemma MeanSquaresApart(sum: nat, n: nat)
    requires U32_RANGE <= sum <= n * (0x7FFF * 0x7FFF) && 0 < n < 0x1_0000
    ensures IntSqrt(Wrap32(sum) / n) != IntSqrt(sum / n)
  {
    hide IntSqrt, Wrap32;
    QuotientAtMost(n, 0x7FFF * 0x7FFF, sum);
    QuotientsApart(sum, n);
    RootsApart(Wrap32(sum) / n, sum / n);
  }

  lemma QuotientsApart(sum: nat, n: nat)
    requires sum >= U32_RANGE && 0 < n < 0x1_0000
    ensures Wrap32(sum) / n + 0x1_0000 <= sum / n
  {
    var low, p := Wrap32(sum), Wrap32(sum) / n;
    assert low + U32_RANGE <= sum;
    DivisionBelow(low, n);
    assert n * (p + 0x1_0000) == n * p + n * 0x1_0000;
    QuotientAtLeast(n, p + 0x1_0000, sum);
  }

  lemma RootsApart(p: nat, q: nat)
    requires p + 0x1_0000 <= q <= 0x7FFF * 0x7FFF
    ensures IntSqrt(p) != IntSqrt(q)
  {
    var r := IntSqrt(q);
    if r > 0x7FFF {
      SquareMonotone(0x8000, r);
    }
    assert (r + 1) * (r + 1) == r * r + 2 * r + 1;
  }

  lemma {:induction false} SquaresStep(s: Samples, avg: u16, i: nat)
    requires i < |s|
    ensures SumSquares(s[..i + 1], avg) ==
            SumSquares(s[..i], avg) + Deviation(s[i], avg) * Deviation(s[i], avg)
    ensures SumSquares(s[..i + 1], avg) <= SumSquares(s, avg)
    decreases |s|
  {
    assert s[..i + 1][..i] == s[..i];
    if i + 1 < |s| {
      var init := s[..|s| - 1];
      SquaresStep(init, avg, i);
      assert init[..i + 1] == s[..i + 1] && init[..i] == s[..i];
    } else {
      assert s[..i + 1] == s;
    }
  }

  /** Some sample lies within the standard deviation of the mean, although both are truncated. */
  lemma SomeWithinDeviation(s: Samples) returns (k: nat)
    requires s != []
    ensures k < |s| && Deviation(s[k], Average(s)) <= StdDev(s, Average(s))
  {
    k := Closest(s, Average(s));
    if Average(s) == 0 {
      ClosestToZero(s, k);
    } else {
      ClosestWithin(s, Average(s), k);
    }
  }

  lemma ClosestWithin(s: Samples, avg: u16, k: nat)
    requires k < |s| && avg > 0
    requires forall i :: 0 <= i < |s| ==> Deviation(s[k], avg) <= Deviation(s[i], avg)
    ensures Deviation(s[k], avg) <= StdDev(s, avg)
  {
    var d := Deviation(s[k], avg);
    SquaresAtLeast(s, avg, d);
    RootAtLeast(|s|, d, SumSquares(s, avg));
    assert StdDev(s, avg) == IntSqrt(SumSquares(s, avg) / |s|);
  }

  lemma RootAtLeast(n: nat, d: nat, total: nat)
    requires n > 0 && n * (d * d) <= total
    ensures d <= IntSqrt(total / n)
  {
    var q := d * d;
    QuotientAtLeast(n, q, total);
    SqrtAtLeast(total / n, d);
  }

  /** A distance is within the root of a mean square exactly when its square, times the count, is within the sum. */
  lemma WithinRootIff(n: nat, d: nat, total: nat)
    requires n > 0
    ensures d <= IntSqrt(total / n) <==> n * (d * d) <= total
  {
    var q, r := total / n, IntSqrt(total / n);
    if d <= r {
      SquareMonotone(d, r);
      Scale(n, d * d, q);
      DivisionBelow(total, n);
    }
    if n * (d * d) <= total {
      RootAtLeast(n, d, total);
    }
  }

  /** A mean that truncates to 0 has a sample that is 0. */
  lemma ClosestToZero(s: Samples, k: nat)
    requires k < |s| && Average(s) == 0
    requires forall i :: 0 <= i < |s| ==> Deviation(s[k], 0) <= Deviation(s[i], 0)
    ensures s[k] == 0
  {
    forall i | 0 <= i < |s|
      ensures s[k] <= s[i]
    {
      assert Deviation(s[k], 0) <= Deviation(s[i], 0);
    }
    SumAtLeast(s, s[k]);
    QuotientAtLeast(|s|, s[k], Sum(s));
  }

  lemma {:induction false} SumAtLeast(s: Samples, lo: nat)
    requires forall i :: 0 <= i < |s| ==> lo <= s[i]
    ensures |s| * lo <= Sum(s)
  {
    if s == [] {
    } else {
      SumAtLeast(s[..|s| - 1], lo);
      Successor(|s| - 1, lo);
    }
  }

  lemma {:induction false} Closest(s: Samples, avg: u16) returns (k: nat)
    requires s != []
    ensures k < |s|
    ensures forall i :: 0 <= i < |s| ==> Deviation(s[k], avg) <= Deviation(s[i], avg)
  {
    k := |s| - 1;
    if |s| > 1 {
      var j := Closest(s[..|s| - 1], avg);
      if Deviation(s[j], avg) < Deviation(s[k], avg) {
        k := j;
      }
      forall i | 0 <= i < |s|
        ensures Deviation(s[k], avg) <= Deviation(s[i], avg)
      {
        assert i < |s| - 1 ==> s[i] == s[..|s| - 1][i];
      }
    }
  }
}
