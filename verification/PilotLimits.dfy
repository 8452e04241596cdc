/**
 How many samples the pilot measurement can take: beyond a certain count the 32-bit sum of
 squares wraps, and outlier removal (src/pilot.c) may discard every sample.
 */
module PilotLimits {
  import opened CInt
  import opened Arith
  import opened PilotSamples
  import opened PilotMeasure

  /** The largest value that a 12-bit sample converts to, and its half. */
  const TOP_MV := 3296
  const HALF_MV := 1648

  /** The largest number of samples of which every nonempty side always keeps one. */
  const SAFE_COUNT := 1581

  // ---------- two levels ----------

  function Repeat(n: nat, v: u16): Samples {
    if n == 0 then [] else Repeat(n - 1, v) + [v]
  }

  lemma {:induction false} RepeatAt(n: nat, v: u16)
    ensures |Repeat(n, v)| == n && forall i :: 0 <= i < n ==> Repeat(n, v)[i] == v
  {
    if n == 0 {
    } else {
      RepeatAt(n - 1, v);
    }
  }

  lemma SquaresSnoc(s: Samples, v: u16, avg: u16)
    ensures SumSquares(s + [v], avg) == SumSquares(s, avg) + Deviation(v, avg) * Deviation(v, avg)
  {
    assert (s + [v])[..|s|] == s;
  }

  /** `q` is the square of the distance of `v` from `avg`. */
  lemma {:induction false} RepeatSums(s: Samples, n: nat, v: u16, avg: u16, q: nat)
    requires Deviation(v, avg) * Deviation(v, avg) == q
    ensures Sum(s + Repeat(n, v)) == Sum(s) + n * v
    ensures SumSquares(s + Repeat(n, v), avg) == SumSquares(s, avg) + n * q
    decreases n
  {
    hide Sum, SumSquares, Deviation;
    if n == 0 {
      assert s + Repeat(n, v) == s;
    } else {
      var before := s + Repeat(n - 1, v);
      RepeatSums(s, n - 1, v, avg, q);
      assert s + Repeat(n, v) == before + [v];
      SumSnoc(before, v);
      SquaresSnoc(before, v, avg);
      Successor(n - 1, v);
      Successor(n - 1, q);
    }
  }

  /** `h` samples at `lo` followed by `h` at `hi`. */
  function Levels(h: nat, lo: u16, hi: u16): Samples {
    Repeat(h, lo) + Repeat(h, hi)
  }

  lemma LevelsAt(h: nat, lo: u16, hi: u16)
    ensures |Levels(h, lo, hi)| == 2 * h
    ensures forall i :: 0 <= i < 2 * h ==> Levels(h, lo, hi)[i] == if i < h then lo else hi
  {
    RepeatAt(h, lo);
    RepeatAt(h, hi);
  }

  lemma LevelsSums(h: nat, lo: u16, d: u16, avg: u16)
    requires lo + 2 * d < 0x1_0000 && avg == lo + d
    ensures Sum(Levels(h, lo, lo + 2 * d)) == 2 * h * avg
    ensures SumSquares(Levels(h, lo, lo + 2 * d), avg) == 2 * h * (d * d)
  {
    hide Sum, SumSquares, Levels;
    LevelsSumsOf(h, lo, lo + 2 * d, avg, d * d);
    TwoHalves(h, lo, d, d * d);
  }

  lemma LevelsSumsOf(h: nat, lo: u16, hi: u16, avg: u16, q: nat)
    requires Deviation(lo, avg) * Deviation(lo, avg) == q == Deviation(hi, avg) * Deviation(hi, avg)
    ensures Sum(Levels(h, lo, hi)) == h * lo + h * hi
    ensures SumSquares(Levels(h, lo, hi), avg) == h * q + h * q
  {
    assert Sum([]) == 0 == SumSquares([], avg);
    hide Sum, SumSquares, Deviation, Repeat;
    RepeatSums([], h, lo, avg, q);
    assert [] + Repeat(h, lo) == Repeat(h, lo);
    RepeatSums(Repeat(h, lo), h, hi, avg, q);
  }

  lemma TwoHalves(h: nat, lo: nat, d: nat, q: nat)
    ensures h * lo + h * (lo + 2 * d) == 2 * h * (lo + d)
    ensures h * q + h * q == 2 * h * q
  {
  }

  /** Samples that are all too far from the mean for the wrapped sum are all discarded. */
  lemma NoneKept(s: Samples, noise: u16, e: u16)
    requires s != [] && noise < e && Wrap32(SumSquares(s, Average(s))) < |s| * (e * e)
    requires forall i :: 0 <= i < |s| ==> e <= Distance(s[i], Average(s))
    ensures Clean(s, noise).count == 0
  {
    hide Clean, Distance, Admitted, SumSquares, Average, Wrap32;
    KeepsOneIff(s, noise);
    forall i | 0 <= i < |s|
      ensures !Admitted(s, noise, s[i])
    {
      FarIsNotAdmitted(s, noise, e, s[i]);
    }
  }

  lemma FarIsNotAdmitted(s: Samples, noise: u16, e: u16, v: u16)
    requires noise < e <= Distance(v, Average(s)) && Wrap32(SumSquares(s, Average(s))) < |s| * (e * e)
    ensures !Admitted(s, noise, v)
  {
    hide Distance, SumSquares, Average, Wrap32;
    var d: nat := Distance(v, Average(s));
    SquareMonotone(e, d);
    Scale(|s|, e * e, d * d);
  }

  /**
   Of two levels in equal number, outlier removal keeps no sample exactly when they are further
   from their mean than the noise tolerance and their sum of squares does not fit 32 bits.
   */
  lemma TwoLevelsKeepNoneIff(h: nat, lo: u16, d: u16, noise: u16)
    requires h > 0 && 0 < d <= 0x7FFF && lo + 2 * d < 0x1_0000
    ensures Clean(Levels(h, lo, lo + 2 * d), noise).count == 0 <==> d > noise && 2 * h * (d * d) >= U32_RANGE
  {
    hide Clean, Sum, SumSquares, Distance, Average, Levels, Admitted;
    var s, avg := Levels(h, lo, lo + 2 * d), lo + d;
    LevelsAt(h, lo, lo + 2 * d);
    LevelsSums(h, lo, d, avg);
    MeanIs(s, avg, 0);
    LevelDistance(lo, d);
    if d > noise && 2 * h * (d * d) >= U32_RANGE {
      NoneKept(s, noise, d);
    } else {
      KeepsOneIff(s, noise);
      NearIsAdmitted(s, noise, d);
    }
  }

  lemma LevelDistance(lo: u16, d: u16)
    requires d <= 0x7FFF && lo + 2 * d < 0x1_0000
    ensures Distance(lo, lo + d) == d == Distance(lo + 2 * d, lo + d)
  {
  }

  lemma NearIsAdmitted(s: Samples, noise: u16, d: u16)
    requires s != [] && Average(s) > 0 && Distance(s[0], Average(s)) == d
    requires SumSquares(s, Average(s)) == |s| * (d * d) && (d <= noise || |s| * (d * d) < U32_RANGE)
    ensures Admitted(s, noise, s[0])
  {
    hide Distance, SumSquares, Average;
  }

  lemma MeanIs(s: Samples, avg: u16, rest: nat)
    requires rest < |s| && Sum(s) == |s| * avg + rest
    ensures Average(s) == avg
  {
    QuotientAtLeast(|s|, avg, Sum(s));
    QuotientAtMost(|s|, avg, Sum(s));
  }

  // ---------- few samples ----------

  /** A sum of squares around `a` is largest for samples at the ends of their range. */
  lemma {:induction false} SquaresChord(s: Samples, a: u16)
    requires forall i :: 0 <= i < |s| ==> s[i] <= TOP_MV
    ensures SumSquares(s, a) <= (TOP_MV - 2 * a) * Sum(s) + |s| * (a * a)
  {
    hide Deviation;
    if s == [] {
    } else {
      var init, x := s[..|s| - 1], s[|s| - 1];
      SquaresChord(init, a);
      ChordAt(x, a);
      ChordStep(TOP_MV - 2 * a, Sum(init), x, |init|, a * a);
    }
  }

  lemma ChordStep(m: int, sum: nat, x: nat, n: nat, q: nat)
    ensures m * (sum + x) + (n + 1) * q == m * sum + n * q + (m * x + q)
  {
  }

  lemma ChordAt(x: u16, a: u16)
    requires x <= TOP_MV
    ensures Deviation(x, a) * Deviation(x, a) <= (TOP_MV - 2 * a) * x + a * a
  {
    Scale(x, x, TOP_MV);
    assert (x - a) * (x - a) == x * x - 2 * a * x + a * a;
    assert Deviation(x, a) * Deviation(x, a) == (x - a) * (x - a);
    assert (TOP_MV - 2 * a) * x == x * TOP_MV - 2 * a * x;
  }

  /** Around the truncated mean that is at most one more per sample than for two equal halves. */
  lemma ChordBound(n: nat, a: nat, r: nat)
    requires r < n && a <= TOP_MV
    ensures (TOP_MV - 2 * a) * (n * a + r) + n * (a * a) <= n * (HALF_MV * HALF_MV + 1)
  {
    var k := HALF_MV - a;
    assert (TOP_MV - 2 * a) * (n * a + r) + n * (a * a) == n * (a * (TOP_MV - a)) + 2 * k * r by {
      assert TOP_MV - 2 * a == 2 * k && TOP_MV - a == 2 * k + a;
      assert 2 * k * (n * a + r) == n * (2 * k * a) + 2 * k * r;
      assert n * (2 * k * a) + n * (a * a) == n * (a * (2 * k + a));
    }
    assert a * (TOP_MV - a) == HALF_MV * HALF_MV - k * k;
    assert n * (HALF_MV * HALF_MV - k * k) == n * (HALF_MV * HALF_MV) - n * (k * k);
    SlackBound(n, k, r);
    assert n * (HALF_MV * HALF_MV + 1) == n * (HALF_MV * HALF_MV) + n;
  }

  lemma SlackBound(n: nat, k: int, r: nat)
    requires r < n
    ensures 2 * k * r <= n * (k * k) + n
  {
    assert n * (k * k) - n * (2 * k) + n == n * ((k - 1) * (k - 1));
    assert n * ((k - 1) * (k - 1)) >= 0;
    if k >= 0 {
      Scale(2 * k, r, n);
      assert n * (2 * k) == 2 * k * n;
    } else {
      assert 2 * k * r <= 0 && n * (k * k) >= 0;
    }
  }

  /** The sum of squares of so few samples fits 32 bits. */
  lemma FewSquaresFit(s: Samples)
    requires 0 < |s| <= SAFE_COUNT && forall i :: 0 <= i < |s| ==> s[i] <= TOP_MV
    ensures SumSquares(s, Average(s)) < U32_RANGE
  {
    hide Sum, SumSquares;
    AverageAtMost(s, TOP_MV);
    SquaresChord(s, Average(s));
    ChordOfMean(Sum(s), |s|);
  }

  lemma ChordOfMean(sum: nat, n: nat)
    requires 0 < n <= SAFE_COUNT && sum / n <= TOP_MV
    ensures var a := sum / n; (TOP_MV - 2 * a) * sum + n * (a * a) < U32_RANGE
  {
    var a := sum / n;
    DivisionBelow(sum, n);
    assert n * (a + 1) == n * a + n;
    var r := sum - n * a;
    ChordBound(n, a, r);
    Scale(HALF_MV * HALF_MV + 1, n, SAFE_COUNT);
  }

  // ---------- many samples ----------

  /** As many samples as wanted, half of them 0 and half at full scale, and one more if the number is odd. */
  function Extreme(n: nat, top: u16, odd: u16): Samples {
    Levels(n / 2, 0, top) + if n % 2 == 1 then [odd] else []
  }

  /** A sample at full scale, or, if that would move the truncated mean, a little lower. */
  function OddSample(n: nat): u16 {
    if n <= HALF_MV then 3230 else TOP_MV
  }

  /** The converter's values for these. */
  function OddRaw(n: nat): u16 {
    if n <= HALF_MV then 4010 else 4095
  }

  lemma ExtremeAt(n: nat, top: u16, odd: u16)
    ensures |Extreme(n, top, odd)| == n
    ensures forall i :: 0 <= i < n ==>
              Extreme(n, top, odd)[i] == if i < n / 2 then 0 else if i < n / 2 * 2 then top else odd
  {
    LevelsAt(n / 2, 0, top);
  }

  lemma ExtremeKeepsNone(n: nat, noise: u16)
    requires SAFE_COUNT < n < 0x1_0000 && noise < 1582
    ensures Clean(Extreme(n, TOP_MV, OddSample(n)), noise).count == 0
  {
    var h := n / 2;
    if n % 2 == 0 {
      Scale(2 * (HALF_MV * HALF_MV), 791, h);
      assert 2 * h * (HALF_MV * HALF_MV) == 2 * (HALF_MV * HALF_MV) * h;
      TwoLevelsKeepNoneIff(h, 0, HALF_MV, noise);
      assert Extreme(n, TOP_MV, OddSample(n)) == Levels(h, 0, TOP_MV);
    } else {
      OddExtremeKeepsNone(n, h, noise);
    }
  }

  lemma OddExtremeKeepsNone(n: nat, h: nat, noise: u16)
    requires n == 2 * h + 1 && SAFE_COUNT < n < 0x1_0000 && noise < 1582
    ensures Clean(Extreme(n, TOP_MV, OddSample(n)), noise).count == 0
  {
    hide Clean, Sum, SumSquares, Distance, Average, Levels, Extreme;
    var s, x := Extreme(n, TOP_MV, OddSample(n)), OddSample(n);
    var e := x - HALF_MV;
    ExtremeAt(n, TOP_MV, x);
    OddSums(n, h, x);
    MeanIs(s, HALF_MV, e);
    OddSquares(n, h, e, SumSquares(s, HALF_MV));
    ExtremeDistances(e);
    NoneKept(s, noise, e);
  }

  lemma OddSums(n: nat, h: nat, x: u16)
    requires n == 2 * h + 1 && HALF_MV <= x
    ensures var s, e := Extreme(n, TOP_MV, x), x - HALF_MV;
            Sum(s) == n * HALF_MV + e && SumSquares(s, HALF_MV) == 2 * h * (HALF_MV * HALF_MV) + e * e
  {
    hide Sum, SumSquares, Levels;
    assert Extreme(n, TOP_MV, x) == Levels(h, 0, TOP_MV) + [x];
    LevelsSnocSums(h, x, x - HALF_MV);
  }

  lemma LevelsSnocSums(h: nat, x: u16, e: nat)
    requires x == HALF_MV + e
    ensures var s := Levels(h, 0, TOP_MV) + [x];
            Sum(s) == (2 * h + 1) * HALF_MV + e && SumSquares(s, HALF_MV) == 2 * h * (HALF_MV * HALF_MV) + e * e
  {
    assert Deviation(x, HALF_MV) == e;
    hide Sum, SumSquares, Levels, Deviation;
    LevelsSums(h, 0, HALF_MV, HALF_MV);
    SumSnoc(Levels(h, 0, TOP_MV), x);
    SquaresSnoc(Levels(h, 0, TOP_MV), x, HALF_MV);
  }

  lemma ExtremeDistances(e: u16)
    requires e <= HALF_MV
    ensures Distance(0, HALF_MV) == HALF_MV == Distance(TOP_MV, HALF_MV) && Distance(HALF_MV + e, HALF_MV) == e
  {
  }

  lemma OddSquares(n: nat, h: nat, e: nat, squares: nat)
    requires n == 2 * h + 1 && SAFE_COUNT < n < 0x1_0000
    requires e == if n <= HALF_MV then 1582 else HALF_MV
    requires squares == 2 * h * (HALF_MV * HALF_MV) + e * e
    ensures Wrap32(squares) < n * (e * e)
  {
    var g := HALF_MV * HALF_MV;
    assert 2 * h * g == 2 * g * h;
    Scale(2 * g, 791, h);
    assert Wrap32(squares) <= squares - U32_RANGE;
    assert n * (e * e) == 2 * h * (e * e) + e * e;
  }

  // ---------- the count that is safe ----------

  ghost predicate TwelveBit(adc: Samples) {
    forall i :: 0 <= i < |adc| ==> adc[i] < 4096
  }

  /** After the measurement each side that had samples still has one. */
  ghost predicate SidesKept(adc: Samples, cutoff: u16, noise: u16)
    requires TwelveBit(adc)
  {
    var s := Millivolts(adc);
    var w := Measured(s, cutoff, noise);
    (Side(s, cutoff, true) != [] ==> w.highs > 0) && (Side(s, cutoff, false) != [] ==> w.lows > 0)
  }

  /** That is so for whatever the converter delivers in `n` samples, and for every cutoff. */
  ghost predicate AlwaysKept(n: nat, noise: u16) {
    forall adc: Samples, cutoff: u16 :: |adc| == n && TwelveBit(adc) ==> SidesKept(adc, cutoff, noise)
  }

  lemma MillivoltsAt(adc: Samples)
    requires TwelveBit(adc)
    ensures |Millivolts(adc)| == |adc|
    ensures forall i :: 0 <= i < |adc| ==> Millivolts(adc)[i] == Millivolt(adc[i]) <= TOP_MV
  {
    forall i | 0 <= i < |adc|
      ensures Millivolts(adc)[i] == Millivolt(adc[i]) <= TOP_MV
    {
      MillivoltBound(adc[i]);
    }
  }

  /** With that many samples of 12 bits, as with the default 500, no arithmetic of the measurement wraps. */
  lemma FewSamplesDoNotWrap(s: Samples, cutoff: u16, above: bool)
    requires |s| <= SAFE_COUNT && forall i :: 0 <= i < |s| ==> s[i] <= TOP_MV
    ensures NoWrap(Side(s, cutoff, above))
  {
    var side := Side(s, cutoff, above);
    SidesSplit(s, cutoff);
    forall i | 0 <= i < |side|
      ensures side[i] <= TOP_MV
    {
      SideHas(s, cutoff, above, i);
    }
    if side != [] {
      AverageAtMost(side, TOP_MV);
      FewSquaresFit(side);
    }
  }

  lemma SideKept(s: Samples, cutoff: u16, above: bool, noise: u16)
    requires |s| <= SAFE_COUNT && forall i :: 0 <= i < |s| ==> s[i] <= TOP_MV
    ensures Side(s, cutoff, above) != [] ==> Clean(Side(s, cutoff, above), noise).count > 0
  {
    hide Clean, Side;
    FewSamplesDoNotWrap(s, cutoff, above);
    if Side(s, cutoff, above) != [] {
      CleanKeepsOne(Side(s, cutoff, above), noise);
    }
  }

  lemma {:induction false} SideBelow(s: Samples, cutoff: u16)
    requires forall i :: 0 <= i < |s| ==> s[i] <= cutoff
    ensures Side(s, cutoff, false) == s && Side(s, cutoff, true) == []
  {
    if s == [] {
    } else {
      hide Side;
      var init, v := s[..|s| - 1], s[|s| - 1];
      SideBelow(init, cutoff);
      SideSnoc(init, v, cutoff, true);
      SideSnoc(init, v, cutoff, false);
      assert s == init + [v];
    }
  }

  lemma ExtremeReceived(n: nat, adc: Samples)
    requires adc == Extreme(n, 4095, OddRaw(n))
    ensures |adc| == n && TwelveBit(adc) && Millivolts(adc) == Extreme(n, TOP_MV, OddSample(n))
  {
    ExtremeAt(n, 4095, OddRaw(n));
    ExtremeAt(n, TOP_MV, OddSample(n));
    MillivoltsAt(adc);
    assert Millivolt(0) == 0 && Millivolt(4095) == TOP_MV && Millivolt(4010) == 3230;
  }

  /**
   Outlier removal leaves every nonempty side a sample, whatever 12-bit samples arrive and whatever
   the cutoff, for up to 1581 samples; and, with a noise tolerance below 1582 mV, for no more.
   */
  lemma AlwaysKeptIff(n: nat, noise: u16)
    requires n < 0x1_0000
    ensures n <= SAFE_COUNT ==> AlwaysKept(n, noise)
    ensures noise < 1582 ==> (AlwaysKept(n, noise) <==> n <= SAFE_COUNT)
  {
    if n <= SAFE_COUNT {
      forall adc: Samples, cutoff: u16 | |adc| == n && TwelveBit(adc)
        ensures SidesKept(adc, cutoff, noise)
      {
        MillivoltsAt(adc);
        SideKept(Millivolts(adc), cutoff, true, noise);
        SideKept(Millivolts(adc), cutoff, false, noise);
      }
    } else if noise < 1582 {
      ExtremeLosesAll(n, noise);
    }
  }

  lemma ExtremeLosesAll(n: nat, noise: u16)
    requires SAFE_COUNT < n < 0x1_0000 && noise < 1582
    ensures !AlwaysKept(n, noise)
  {
    hide Clean;
    var adc := Extreme(n, 4095, OddRaw(n));
    ExtremeReceived(n, adc);
    MillivoltsAt(adc);
    SideBelow(Millivolts(adc), TOP_MV);
    ExtremeKeepsNone(n, noise);
    assert !SidesKept(adc, TOP_MV, noise);
  }
}
