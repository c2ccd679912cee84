/**
  Streaming variance and the wall-clock window over it. A window's variance is
  merged from one accumulator per bar; it is shown to be the two-pass sample
  variance over every tick in the window, and the clips at zero never to act.
 */
module Variance {
  import opened Bars
  import opened Wrappers

  // ------------------------------------------------------- what is estimated

  function Sum(xs: seq<real>): real { if xs == [] then 0.0 else Sum(xs[..|xs| - 1]) + xs[|xs| - 1] }

  function Sq(x: real): real { x * x }

  function SumSq(xs: seq<real>): real { if xs == [] then 0.0 else SumSq(xs[..|xs| - 1]) + Sq(xs[|xs| - 1]) }

  /** The squared deviations from `a`, summed in a second pass. */
  function Deviation(xs: seq<real>, a: real): real {
    if xs == [] then 0.0 else Deviation(xs[..|xs| - 1], a) + Sq(xs[|xs| - 1] - a)
  }

  function Mean(xs: seq<real>): real
    requires xs != []
  {
    Sum(xs) / |xs| as real
  }

  /** The two-pass, Bessel-corrected sample variance. */
  function SampleVariance(xs: seq<real>): real {
    if |xs| < 2 then 0.0 else Deviation(xs, Mean(xs)) / (|xs| - 1) as real
  }

  // ----------------------------------------------------------- the estimator

  datatype Moments = Moments(n: nat, mean: real, m2: real)

  const ZERO := Moments(0, 0.0, 0.0)

  function Clip(x: real): real { if x < 0.0 then 0.0 else x }

  function UpdateMoments(w: Moments, x: real): Moments {
    var n := w.n + 1;
    var delta := x - w.mean;
    var mean := w.mean + delta / n as real;
    Moments(n, mean, w.m2 + delta * (x - mean))
  }

  function UpdateAll(w: Moments, xs: seq<real>): Moments {
    if xs == [] then w else UpdateMoments(UpdateAll(w, xs[..|xs| - 1]), xs[|xs| - 1])
  }

  function MergeMoments(a: Moments, b: Moments): Moments {
    if b.n == 0 then a
    else if a.n == 0 then b
    else
      var n := a.n + b.n;
      var delta := b.mean - a.mean;
      Moments(n, a.mean + delta * (b.n as real / n as real),
              a.m2 + b.m2 + delta * delta * a.n as real * b.n as real / n as real)
  }

  function FromSums(n: int, total: real, totalSq: real): Moments {
    if n < 1 then ZERO
    else
      var mean := total / n as real;
      Moments(n, mean, Clip(totalSq - n as real * mean * mean))
  }

  function VarianceOf(w: Moments): real { if w.n < 2 then 0.0 else Clip(w.m2 / (w.n - 1) as real) }

  class Welford {
    var n: nat
    var mean: real
    var m2: real

    function Abs(): Moments
      reads this
    {
      Moments(n, mean, m2)
    }

    constructor ()
      ensures Abs() == ZERO
    {
      n, mean, m2 := 0, 0.0, 0.0;
    }

    method Update(x: real)
      modifies this
      ensures Abs() == UpdateMoments(old(Abs()), x)
    {
      n := n + 1;
      var delta := x - mean;
      mean := mean + delta / n as real;
      m2 := m2 + delta * (x - mean);
    }

    method UpdateMany(xs: seq<real>)
      modifies this
      ensures Abs() == UpdateAll(old(Abs()), xs)
    {
      for i := 0 to |xs|
        invariant Abs() == UpdateAll(old(Abs()), xs[..i])
      {
        assert xs[..i + 1][..i] == xs[..i];
        Update(xs[i]);
      }
      assert xs[..|xs|] == xs;
    }
  }

  // ---------------------------------------------------------------- exactness

  /** The moments are those of exactly these samples. */
  ghost predicate Exact(w: Moments, xs: seq<real>) { ExactSums(w, |xs|, Sum(xs), SumSq(xs)) }

  predicate ExactSums(w: Moments, n: nat, s: real, q: real) {
    w.n == n && (n == 0 ==> w.mean == 0.0) && n as real * w.mean == s && w.m2 == q - w.mean * s
  }

  lemma {:induction false} SumsConcatenate(xs: seq<real>, ys: seq<real>)
    ensures Sum(xs + ys) == Sum(xs) + Sum(ys) && SumSq(xs + ys) == SumSq(xs) + SumSq(ys)
  {
    if ys == [] {
      assert xs + ys == xs;
    } else {
      assert (xs + ys)[..|xs + ys| - 1] == xs + ys[..|ys| - 1];
      SumsConcatenate(xs, ys[..|ys| - 1]);
    }
  }

  lemma UpdateIsExact(w: Moments, xs: seq<real>, x: real)
    requires Exact(w, xs)
    ensures Exact(UpdateMoments(w, x), xs + [x])
  {
    hide Sum, SumSq, Sq;
    SumsOfSnoc(xs, x);
    UpdateSums(w, |xs|, Sum(xs), SumSq(xs), x);
  }

  lemma SumsOfSnoc(xs: seq<real>, x: real)
    ensures Sum(xs + [x]) == Sum(xs) + x && SumSq(xs + [x]) == SumSq(xs) + Sq(x)
  {
    assert (xs + [x])[..|xs|] == xs;
  }

  lemma UpdateSums(w: Moments, n: nat, s: real, q: real, x: real)
    requires ExactSums(w, n, s, q)
    ensures ExactSums(UpdateMoments(w, x), n + 1, s + x, q + Sq(x))
  {
    var w' := UpdateMoments(w, x);
    UpdateArithmetic(n as real, w.mean, s, x, w'.mean);
    assert w'.m2 == q - w.mean * s + (x - w.mean) * (x - w'.mean);
  }

  /** Sample by sample, the moments stay those of everything seen. */
  lemma {:induction false} UpdateAllIsExact(w: Moments, seen: seq<real>, xs: seq<real>)
    requires Exact(w, seen)
    ensures Exact(UpdateAll(w, xs), seen + xs)
  {
    if xs == [] {
      assert seen + xs == seen;
    } else {
      var init, x := xs[..|xs| - 1], xs[|xs| - 1];
      UpdateAllIsExact(w, seen, init);
      UpdateIsExact(UpdateAll(w, init), seen + init, x);
      assert seen + init + [x] == seen + xs;
    }
  }

  lemma UpdateArithmetic(n: real, m: real, s: real, x: real, m': real)
    requires n >= 0.0 && n * m == s && m' == m + (x - m) / (n + 1.0)
    ensures (n + 1.0) * m' == s + x
    ensures -(m * s) + (x - m) * (x - m') == x * x - m' * (s + x)
  {
    var d := (x - m) / (n + 1.0);
    assert d * (n + 1.0) == x - m;
    assert (n + 1.0) * m' == (n + 1.0) * m + (n + 1.0) * d;
    assert (n + 1.0) * m == s + m;
    assert (x - m) * (x - m') == x * x - x * m' - m * x + m * m';
    assert m' * (s + x) == m' * s + m' * x;
    assert m * (s + x - m') == m * (n * m') by {
      assert s + x - m' == n * m';
    }
    assert m * (n * m') == m' * s by {
      assert m * (n * m') == (n * m) * m';
    }
    assert m * (s + x - m') == m * s + m * x - m * m';
  }

  /** Chan's combination is the moments of both samples together. */
  lemma MergeIsExact(a: Moments, xs: seq<real>, b: Moments, ys: seq<real>)
    requires Exact(a, xs) && Exact(b, ys)
    ensures Exact(MergeMoments(a, b), xs + ys)
  {
    SumsConcatenate(xs, ys);
    if b.n == 0 {
      assert xs + ys == xs;
    } else if a.n == 0 {
      assert xs + ys == ys;
    } else {
      hide Sum, SumSq;
      MergeSums(a, Sum(xs), SumSq(xs), b, Sum(ys), SumSq(ys));
    }
  }

  lemma MergeForm(a: Moments, b: Moments, p: real, q: real)
    requires a.n > 0 && b.n > 0 && p == a.n as real && q == b.n as real
    ensures var m, d := MergeMoments(a, b), b.mean - a.mean;
      m.n == a.n + b.n && m.mean == a.mean + d * (q / (p + q)) && m.m2 == a.m2 + b.m2 + d * d * p * q / (p + q)
  {
    assert (a.n + b.n) as real == p + q;
  }

  lemma MergeSums(a: Moments, s: real, u: real, b: Moments, t: real, v: real)
    requires a.n > 0 && b.n > 0 && ExactSums(a, a.n, s, u) && ExactSums(b, b.n, t, v)
    ensures ExactSums(MergeMoments(a, b), a.n + b.n, s + t, u + v)
  {
    hide MergeMoments;
    var p, q, m := a.n as real, b.n as real, MergeMoments(a, b);
    MergeForm(a, b, p, q);
    MergeArithmetic(p, a.mean, s, q, b.mean, t, m.mean);
  }

  lemma MergeArithmetic(p: real, a: real, s: real, q: real, b: real, t: real, m: real)
    requires p > 0.0 && q > 0.0 && p * a == s && q * b == t && m == a + (b - a) * (q / (p + q))
    ensures (p + q) * m == s + t
    ensures -(a * s) - b * t + (b - a) * (b - a) * p * q / (p + q) == -(m * (s + t))
  {
    var n, d := p + q, b - a;
    var r := q / n;
    assert r * n == q;
    assert n * m == n * a + d * (r * n);
    assert n * a == s + q * a;
    assert d * q == t - q * a;
    var v := d * d * p * q / n;
    assert v * n == d * d * p * q;
    // Both sides times n.
    MergeSquares(p, a, s, q, b, t);
    assert (m * (s + t)) * n == (n * m) * (s + t);
    assert (-(a * s) - b * t + v + m * (s + t)) * n == 0.0 by {
      assert (-(a * s) - b * t) * n == -((a * s) * n) - (b * t) * n;
    }
    NoZeroDivisor(-(a * s) - b * t + v + m * (s + t), n);
  }

  lemma NoZeroDivisor(x: real, n: real)
    requires n > 0.0 && x * n == 0.0
    ensures x == 0.0
  {}

  lemma MergeSquares(p: real, a: real, s: real, q: real, b: real, t: real)
    requires p * a == s && q * b == t
    ensures (a * s) * (p + q) + (b * t) * (p + q) - (b - a) * (b - a) * p * q == (s + t) * (s + t)
  {
    assert (a * s) * p == s * s by { assert (a * s) * p == (p * a) * s; }
    assert (b * t) * q == t * t by { assert (b * t) * q == (q * b) * t; }
    assert (a * s) * q == a * a * (p * q) by { assert a * s == a * a * p; }
    assert (b * t) * p == b * b * (p * q) by { assert b * t == b * b * q; }
    assert (b - a) * (b - a) == b * b - 2.0 * (a * b) + a * a;
    assert (b - a) * (b - a) * p * q == (b * b - 2.0 * (a * b) + a * a) * (p * q);
    assert (b * b - 2.0 * (a * b) + a * a) * (p * q) == b * b * (p * q) - 2.0 * (a * b) * (p * q) + a * a * (p * q);
    assert s * t == (a * b) * (p * q);
    assert (s + t) * (s + t) == s * s + 2.0 * (s * t) + t * t;
  }

  /** Squared deviations from `a`, from the count, the sum and the sum of squares. */
  function Expanded(n: real, s: real, q: real, a: real): real { q - 2.0 * a * s + n * (a * a) }

  lemma {:induction false} DeviationExpands(xs: seq<real>, a: real)
    ensures Deviation(xs, a) == Expanded(|xs| as real, Sum(xs), SumSq(xs), a)
    ensures Deviation(xs, a) >= 0.0
  {
    if xs != [] {
      var init, x := xs[..|xs| - 1], xs[|xs| - 1];
      DeviationExpands(init, a);
      hide Sq, Expanded;
      SquareOfDifference(x, a);
      ExpandedOfSnoc(|init| as real, Sum(init), SumSq(init), a, x);
    }
  }

  lemma ExpandedOfSnoc(n: real, s: real, q: real, a: real, x: real)
    ensures Expanded(n, s, q, a) + Sq(x - a) == Expanded(n + 1.0, s + x, q + Sq(x), a)
  {
    SquareOfDifference(x, a);
    assert 2.0 * a * (s + x) == 2.0 * a * s + 2.0 * a * x;
    assert (n + 1.0) * (a * a) == n * (a * a) + a * a;
  }

  lemma SquareOfDifference(x: real, a: real)
    ensures Sq(x - a) == Sq(x) - 2.0 * a * x + a * a && Sq(x - a) >= 0.0
  {
    SquareIsNotNegative(x - a);
  }

  lemma SquareIsNotNegative(d: real)
    ensures Sq(d) >= 0.0
  {}

  /** Exact moments hold the second-pass deviation, so no clip ever changes them. */
  lemma ExactIsTwoPass(w: Moments, xs: seq<real>)
    requires Exact(w, xs) && xs != []
    ensures w.mean == Mean(xs) && w.m2 == Deviation(xs, Mean(xs)) >= 0.0
  {
    var n, s := |xs| as real, Sum(xs);
    assert w.mean == s / n by { assert n * w.mean == s; DivideBack(n, w.mean, s); }
    DeviationExpands(xs, w.mean);
    assert n * (w.mean * w.mean) == (n * w.mean) * w.mean == s * w.mean;
    assert 2.0 * w.mean * s == w.mean * s + w.mean * s;
  }

  lemma DivideBack(n: real, m: real, s: real)
    requires n > 0.0 && n * m == s
    ensures m == s / n
  {}

  /** Rehydrated from the additive sums of a bar, the moments are still exact, and the clip had nothing to cut. */
  lemma FromSumsIsExact(xs: seq<real>)
    ensures Exact(FromSums(|xs|, Sum(xs), SumSq(xs)), xs)
    ensures xs != [] ==> var mean := Sum(xs) / |xs| as real; SumSq(xs) - |xs| as real * mean * mean >= 0.0
  {
    if xs != [] {
      hide Sum, SumSq, Deviation, FromSums, ExactSums, Expanded;
      SquaresExceedTheMean(xs);
      NothingToClip(|xs|, Sum(xs), SumSq(xs));
    }
  }

  lemma SquaresExceedTheMean(xs: seq<real>)
    requires xs != []
    ensures SumSq(xs) - |xs| as real * (Sum(xs) / |xs| as real) * (Sum(xs) / |xs| as real) >= 0.0
  {
    hide Sum, SumSq, Deviation, Expanded;
    var a := Sum(xs) / |xs| as real;
    DeviationExpands(xs, a);
    AboutTheMean(|xs| as real, Sum(xs), SumSq(xs), a, Deviation(xs, a));
  }

  lemma SumsArithmetic(n: real, s: real, q: real)
    requires n > 0.0
    ensures var m := s / n; n * m == s && n * m * m == m * s && q - 2.0 * m * s + n * (m * m) == q - n * m * m
  {
    var m := s / n;
    assert n * m == s;
    assert n * (m * m) == (n * m) * m;
  }

  lemma AboutTheMean(n: real, s: real, q: real, a: real, d: real)
    requires n > 0.0 && a == s / n && d == Expanded(n, s, q, a)
    ensures d == q - n * a * a
  {
    SumsArithmetic(n, s, q);
  }

  lemma NothingToClip(n: nat, s: real, q: real)
    requires n > 0 && q - n as real * (s / n as real) * (s / n as real) >= 0.0
    ensures ExactSums(FromSums(n, s, q), n, s, q)
  {
    SumsArithmetic(n as real, s, q);
  }

  lemma VarianceIsTwoPass(w: Moments, xs: seq<real>)
    requires Exact(w, xs)
    ensures VarianceOf(w) == SampleVariance(xs)
  {
    if |xs| >= 2 {
      ExactIsTwoPass(w, xs);
      NotNegative(w.m2, (|xs| - 1) as real);
    }
  }

  lemma NotNegative(x: real, n: real)
    requires x >= 0.0 && n > 0.0
    ensures x / n >= 0.0
  {}

  // --------------------------------------------------------------- the window

  /** A tick's return, a missing one counted as zero: the count of a bar includes it either way. */
  function Returns(ln: real -> real, os: seq<Obs>): seq<real> {
    seq(|os|, i requires 0 <= i < |os| => match Return(ln, os[i]) case Some(r) => r case None => 0.0)
  }

  lemma {:induction false} BarSumsAreReturnSums(ln: real -> real, os: seq<Obs>)
    ensures SumReturns(ln, os) == Sum(Returns(ln, os)) && SumSquares(ln, os) == SumSq(Returns(ln, os))
  {
    if os != [] {
      var init := os[..|os| - 1];
      BarSumsAreReturnSums(ln, init);
      assert Returns(ln, os)[..|os| - 1] == Returns(ln, init);
    }
  }

  /** Drop the bars at the front that start before the cutoff. */
  function DropBefore(bars: seq<Sealed>, cutoff: int): seq<Sealed> {
    if bars != [] && bars[0].bucket < cutoff then DropBefore(bars[1..], cutoff) else bars
  }

  function MergedMoments(bars: seq<Sealed>): Moments {
    if bars == [] then ZERO else
      var b := bars[|bars| - 1].stats;
      MergeMoments(MergedMoments(bars[..|bars| - 1]), FromSums(b.px.ticks, b.sumRet, b.sumRetSq))
  }

  class RollingWindow {
    const windowSeconds: int
    var bars: seq<Sealed>

    constructor (windowSeconds: int)
      ensures this.windowSeconds == windowSeconds && bars == []
    {
      this.windowSeconds, bars := windowSeconds, [];
    }

    method Push(bar: Sealed)
      modifies this
      ensures bars == DropBefore(old(bars) + [bar], bar.bucket - windowSeconds)
    {
      bars := bars + [bar];
      Evict(bar.bucket);
    }

    method Evict(now: int)
      modifies this
      ensures bars == DropBefore(old(bars), now - windowSeconds)
    {
      var cutoff := now - windowSeconds;
      while bars != [] && bars[0].bucket < cutoff
        invariant DropBefore(bars, cutoff) == DropBefore(old(bars), cutoff)
        decreases |bars|
      {
        bars := bars[1..];
      }
    }

    method Combine() returns (acc: Moments)
      ensures acc == MergedMoments(bars)
    {
      acc := ZERO;
      for i := 0 to |bars|
        invariant acc == MergedMoments(bars[..i])
      {
        assert bars[..i + 1][..i] == bars[..i];
        var b := bars[i].stats;
        acc := MergeMoments(acc, FromSums(b.px.ticks, b.sumRet, b.sumRetSq));
      }
      assert bars[..|bars|] == bars;
    }
  }

  /** The window after pushing the bars one by one. */
  function Pushed(windowSeconds: int, bars: seq<Sealed>): seq<Sealed> {
    if bars == [] then [] else
      var b := bars[|bars| - 1];
      DropBefore(Pushed(windowSeconds, bars[..|bars| - 1]) + [b], b.bucket - windowSeconds)
  }

  function Within(bars: seq<Sealed>, cutoff: int): seq<Sealed> {
    if bars == [] then [] else
      Within(bars[..|bars| - 1], cutoff) + (if bars[|bars| - 1].bucket >= cutoff then [bars[|bars| - 1]] else [])
  }

  ghost predicate Increasing(bars: seq<Sealed>) { forall i, j | 0 <= i < j < |bars| :: bars[i].bucket < bars[j].bucket }

  lemma {:induction false} WithinIsIncreasing(bars: seq<Sealed>, cutoff: int)
    requires Increasing(bars)
    ensures Increasing(Within(bars, cutoff)) && forall b | b in Within(bars, cutoff) :: b in bars && b.bucket >= cutoff
  {
    if bars != [] {
      var init, last := bars[..|bars| - 1], bars[|bars| - 1];
      WithinIsIncreasing(init, cutoff);
      forall b | b in init ensures b.bucket < last.bucket && b in bars {
        var i :| 0 <= i < |init| && init[i] == b;
        assert bars[i] == b && bars[|init|] == last;
      }
    }
  }

  /** Dropping from the front of an ascending window keeps exactly what is recent enough. */
  lemma {:induction false} DropBeforeIsWithin(bars: seq<Sealed>, lo: int, hi: int)
    requires Increasing(bars) && lo <= hi
    ensures DropBefore(Within(bars, lo), hi) == Within(bars, hi)
  {
    if bars != [] {
      var init, last := bars[..|bars| - 1], bars[|bars| - 1];
      assert Increasing(init);
      DropBeforeIsWithin(init, lo, hi);
      if last.bucket < hi {
        NothingRecent(init, hi, last.bucket);
      }
      hide Increasing;
      DropBeforeOfSnoc(Within(init, lo), last, hi);
      assert Within(init, lo) + [] == Within(init, lo) && Within(init, hi) + [] == Within(init, hi);
    }
  }

  lemma {:induction false} NothingRecent(bars: seq<Sealed>, cutoff: int, above: int)
    requires above < cutoff && forall i | 0 <= i < |bars| :: bars[i].bucket <= above
    ensures Within(bars, cutoff) == []
  {
    if bars != [] {
      NothingRecent(bars[..|bars| - 1], cutoff, above);
    }
  }

  lemma {:induction false} DropBeforeOfSnoc(bars: seq<Sealed>, last: Sealed, cutoff: int)
    ensures DropBefore(bars + [last], cutoff) ==
      if DropBefore(bars, cutoff) == [] && last.bucket < cutoff then [] else DropBefore(bars, cutoff) + [last]
  {
    if bars == [] {
      assert [] + [last] == [last];
    } else {
      assert (bars + [last])[0] == bars[0] && (bars + [last])[1..] == bars[1..] + [last];
      if bars[0].bucket < cutoff {
        DropBeforeOfSnoc(bars[1..], last, cutoff);
      }
    }
  }

  /** After any pushes in ascending order, the window is every bar recent enough for the newest, and no other. */
  lemma {:induction false} WindowIsRecentBars(windowSeconds: int, bars: seq<Sealed>)
    requires windowSeconds >= 0 && Increasing(bars) && bars != []
    ensures Pushed(windowSeconds, bars) == Within(bars, bars[|bars| - 1].bucket - windowSeconds)
  {
    var init, last := bars[..|bars| - 1], bars[|bars| - 1];
    var hi := last.bucket - windowSeconds;
    assert Increasing(init);
    if init == [] {
      assert bars == [last];
      assert [] + [last] == [last];
      assert Within(bars, hi) == [] + [last] by { assert bars[..0] == []; }
    } else {
      var lo := init[|init| - 1].bucket - windowSeconds;
      assert init[|init| - 1] == bars[|init| - 1];
      WindowIsRecentBars(windowSeconds, init);
      DropBeforeOfSnoc(Within(init, lo), last, hi);
      DropBeforeIsWithin(init, lo, hi);
    }
  }

  /** The returns behind a window of bars, bar after bar. */
  function AllReturns(ln: real -> real, minutes: seq<seq<Obs>>): seq<real> {
    if minutes == [] then [] else
      AllReturns(ln, minutes[..|minutes| - 1]) + Returns(ln, minutes[|minutes| - 1])
  }

  /** Each bar is the sealed bar of its minute's ticks. */
  ghost predicate SealedFrom(ln: real -> real, bars: seq<Sealed>, minutes: seq<seq<Obs>>) {
    |bars| == |minutes| &&
    forall i | 0 <= i < |bars| :: minutes[i] != [] && bars[i].stats == StatsOf(ln, minutes[i])
  }

  lemma {:induction false} MergedIsExact(ln: real -> real, bars: seq<Sealed>, minutes: seq<seq<Obs>>)
    requires SealedFrom(ln, bars, minutes)
    ensures Exact(MergedMoments(bars), AllReturns(ln, minutes))
  {
    if bars != [] {
      var n := |bars| - 1;
      MergedIsExact(ln, bars[..n], minutes[..n]);
      BarSumsAreReturnSums(ln, minutes[n]);
      var b := bars[n].stats;
      assert b.px.ticks == |Returns(ln, minutes[n])|;
      FromSumsIsExact(Returns(ln, minutes[n]));
      MergeIsExact(MergedMoments(bars[..n]), AllReturns(ln, minutes[..n]),
                   FromSums(b.px.ticks, b.sumRet, b.sumRetSq), Returns(ln, minutes[n]));
    }
  }

  /** One merge per bar comes to the two-pass variance over every tick of the window. */
  lemma WindowVarianceIsTwoPass(ln: real -> real, bars: seq<Sealed>, minutes: seq<seq<Obs>>)
    requires SealedFrom(ln, bars, minutes)
    ensures VarianceOf(MergedMoments(bars)) == SampleVariance(AllReturns(ln, minutes))
  {
    MergedIsExact(ln, bars, minutes);
    VarianceIsTwoPass(MergedMoments(bars), AllReturns(ln, minutes));
  }

  /** The ticks of the bars that start at or after the cutoff, bar by bar. */
  function RecentMinutes(bars: seq<Sealed>, minutes: seq<seq<Obs>>, cutoff: int): seq<seq<Obs>>
    requires |bars| == |minutes|
  {
    if bars == [] then [] else
      var n := |bars| - 1;
      RecentMinutes(bars[..n], minutes[..n], cutoff) + (if bars[n].bucket >= cutoff then [minutes[n]] else [])
  }

  lemma SameLength(ln: real -> real, bars: seq<Sealed>, minutes: seq<seq<Obs>>)
    requires SealedFrom(ln, bars, minutes)
    ensures |bars| == |minutes|
  {}

  lemma {:induction false} RecentAreSealed(ln: real -> real, bars: seq<Sealed>, minutes: seq<seq<Obs>>, cutoff: int)
    requires SealedFrom(ln, bars, minutes)
    ensures SealedFrom(ln, Within(bars, cutoff), RecentMinutes(bars, minutes, cutoff))
  {
    if bars != [] {
      hide StatsOf;
      var n := |bars| - 1;
      RecentAreSealed(ln, bars[..n], minutes[..n], cutoff);
    }
  }

  /**
    A window's figure, whatever was pushed into it: the two-pass variance of every
    tick return of the bars that start within `windowSeconds` of the newest.
   */
  lemma PushedVarianceIsTwoPass(ln: real -> real, windowSeconds: int, bars: seq<Sealed>, minutes: seq<seq<Obs>>)
    requires windowSeconds >= 0 && Increasing(bars) && bars != [] && SealedFrom(ln, bars, minutes)
    ensures VarianceOf(MergedMoments(Pushed(windowSeconds, bars))) ==
      SampleVariance(AllReturns(ln, RecentMinutes(bars, minutes, bars[|bars| - 1].bucket - windowSeconds)))
  {
    hide *;
    SameLength(ln, bars, minutes);
    var cutoff := bars[|bars| - 1].bucket - windowSeconds;
    WindowIsRecentBars(windowSeconds, bars);
    RecentAreSealed(ln, bars, minutes, cutoff);
    WindowVarianceIsTwoPass(ln, Within(bars, cutoff), RecentMinutes(bars, minutes, cutoff));
  }
}
