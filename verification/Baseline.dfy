/**
  The reference a z-score is measured against: an exponentially weighted mean and
  variance of ln(sigma), updated in constant space and freezable. Over reals, the
  recurrence is exactly the weighted mean and variance of every sample admitted.
 */
module Baseline {
  import opened Wrappers

  /** The elementary functions the detector is built on; nothing below depends on their values. */
  datatype Maths = Maths(ln: real -> real, exp: real -> real, sqrt: real -> real)

  /** Not above this floor, a sigma has no logarithm worth learning. */
  const MIN_SIGMA: real := 0.000000000000001

  datatype Moments = Moments(lam: real, mean: real, variance: real, n: nat, debias: real, frozen: bool)

  function Empty(lam: real): Moments { Moments(lam, 0.0, 0.0, 0, 0.0, false) }

  /** How far one sample moves the mean, the variance that leaves, and the weight then on samples. */
  function Increment(lam: real, diff: real): real { (1.0 - lam) * diff }

  function Spread(lam: real, variance: real, diff: real): real { lam * (variance + diff * Increment(lam, diff)) }

  function Corrected(lam: real, debias: real): real { lam * debias + (1.0 - lam) }

  /** One more ln(sigma) in the moments. */
  function Admit(m: Moments, x: real): Moments {
    var diff := x - m.mean;
    m.(mean := if m.n == 0 then x else m.mean + Increment(m.lam, diff),
       variance := if m.n == 0 then 0.0 else Spread(m.lam, m.variance, diff),
       n := m.n + 1,
       debias := Corrected(m.lam, m.debias))
  }

  function ObserveSigma(ln: real -> real, m: Moments, sigma: real): Moments {
    if m.frozen || sigma <= MIN_SIGMA then m else Admit(m, ln(sigma))
  }

  function Max0(x: real): real { if x < 0.0 then 0.0 else x }

  function Stdev(f: Maths, m: Moments): real {
    f.sqrt(Max0(if m.debias <= 0.0 then m.variance else m.variance / m.debias))
  }

  function Score(f: Maths, m: Moments, minSamples: nat, sigma: real): Option<real> {
    if m.n < minSamples || m.variance <= 0.0 || sigma <= MIN_SIGMA then None
    else if Stdev(f, m) <= 0.0 then None
    else Some((f.ln(sigma) - m.mean) / Stdev(f, m))
  }

  class VolatilityBaseline {
    const minSamples: nat
    const lam: real
    var mean: real
    var variance: real
    var n: nat
    var frozen: bool
    var debias: real

    function Abs(): Moments
      reads this
    {
      Moments(lam, mean, variance, n, debias, frozen)
    }

    constructor (lam: real, minSamples: nat)
      ensures Abs() == Empty(lam) && this.minSamples == minSamples
    {
      this.lam, this.minSamples := lam, minSamples;
      mean, variance, n, frozen, debias := 0.0, 0.0, 0, false, 0.0;
    }

    constructor FromSnapshot(s: Moments, minSamples: nat)
      ensures Abs() == s && this.minSamples == minSamples
    {
      lam, this.minSamples := s.lam, minSamples;
      mean, variance, n, frozen, debias := s.mean, s.variance, s.n, s.frozen, s.debias;
    }

    method Observe(ln: real -> real, sigma: real)
      modifies this
      ensures Abs() == ObserveSigma(ln, old(Abs()), sigma)
    {
      hide Increment, Spread, Corrected;
      if frozen || sigma <= MIN_SIGMA {
        return;
      }
      var x := ln(sigma);
      if n == 0 {
        mean := x;
        variance := 0.0;
      } else {
        var diff := x - mean;
        mean := mean + Increment(lam, diff);
        variance := Spread(lam, variance, diff);
      }
      n := n + 1;
      debias := Corrected(lam, debias);
    }

    method Freeze()
      modifies this`frozen
      ensures Abs() == old(Abs()).(frozen := true)
    {
      frozen := true;
    }

    method Thaw()
      modifies this`frozen
      ensures Abs() == old(Abs()).(frozen := false)
    {
      frozen := false;
    }
  }

  // --------------------------------------------------- the explicit weights

  function Pow(x: real, n: nat): real { if n == 0 then 1.0 else x * Pow(x, n - 1) }

  /** The weight of sample `i` out of `n`: the oldest keeps what the others leave. */
  function Weight(lam: real, n: nat, i: nat): real
    requires i < n
  {
    if i == 0 then Pow(lam, n - 1) else (1.0 - lam) * Pow(lam, n - 1 - i)
  }

  // Products and squares by name, so that a proof may take them apart only where it must.
  function Times(a: real, b: real): real { a * b }

  function Sq(x: real): real { x * x }

  /** The first `k` terms of a weighted sum over `n` samples. */
  function Weighted(lam: real, n: nat, ys: seq<real>, k: nat): real
    requires k <= n && k <= |ys|
  {
    if k == 0 then 0.0 else Weighted(lam, n, ys, k - 1) + Times(Weight(lam, n, k - 1), ys[k - 1])
  }

  function Same(n: nat, a: real): seq<real> { seq(n, _ => a) }

  function Ones(n: nat): seq<real> { Same(n, 1.0) }

  function WeightedMean(lam: real, xs: seq<real>): real { Weighted(lam, |xs|, xs, |xs|) }

  function Squares(xs: seq<real>, a: real): (r: seq<real>)
    ensures |r| == |xs| && forall i | 0 <= i < |xs| :: r[i] == Sq(xs[i] - a)
  {
    seq(|xs|, i requires 0 <= i < |xs| => Sq(xs[i] - a))
  }

  function WeightedVariance(lam: real, xs: seq<real>): real {
    Weighted(lam, |xs|, Squares(xs, WeightedMean(lam, xs)), |xs|)
  }

  /** The moments after admitting the samples one by one. */
  function After(lam: real, xs: seq<real>): Moments {
    if xs == [] then Empty(lam) else Admit(After(lam, xs[..|xs| - 1]), xs[|xs| - 1])
  }

  lemma WeightScales(lam: real, n: nat, i: nat)
    requires i < n
    ensures Weight(lam, n + 1, i) == lam * Weight(lam, n, i)
  {
    if i > 0 {
      Swap(1.0 - lam, lam, Pow(lam, n - 1 - i));
    }
  }

  lemma Swap(a: real, b: real, c: real)
    ensures a * (b * c) == b * (a * c)
  {}

  lemma Reassociate(p: real, a: real, b: real, c: real)
    requires p == a * b
    ensures Times(p, c) == Times(a, Times(b, c))
  {}

  lemma DistributeTimes(c: real, p: real, q: real)
    ensures Times(c, p + q) == Times(c, p) + Times(c, q) && Times(c, 0.0) == 0.0
  {}

  lemma Distribute(c: real, p: real, q: real)
    ensures c * (p + q) == c * p + c * q
  {}

  lemma {:induction false} OneMoreSampleScales(lam: real, n: nat, ys: seq<real>, zs: seq<real>, k: nat)
    requires k <= n && k <= |ys| && k <= |zs| && forall i | 0 <= i < k :: ys[i] == zs[i]
    ensures Weighted(lam, n + 1, zs, k) == Times(lam, Weighted(lam, n, ys, k))
  {
    hide Times, Weight;
    if k == 0 {
      DistributeTimes(lam, 0.0, 0.0);
    } else {
      OneMoreSampleScales(lam, n, ys, zs, k - 1);
      WeightScales(lam, n, k - 1);
      Reassociate(Weight(lam, n + 1, k - 1), lam, Weight(lam, n, k - 1), ys[k - 1]);
      DistributeTimes(lam, Weighted(lam, n, ys, k - 1), Times(Weight(lam, n, k - 1), ys[k - 1]));
    }
  }

  lemma WeightedOfSnoc(lam: real, ys: seq<real>, y: real)
    requires ys != []
    ensures Weighted(lam, |ys| + 1, ys + [y], |ys| + 1) == lam * Weighted(lam, |ys|, ys, |ys|) + (1.0 - lam) * y
  {
    var n := |ys|;
    OneMoreSampleScales(lam, n, ys, ys + [y], n);
    assert Pow(lam, 0) == 1.0;
    assert Weight(lam, n + 1, n) == 1.0 - lam;
  }

  lemma {:induction false} WeightsSumToOne(lam: real, n: nat)
    requires n > 0
    ensures Weighted(lam, n, Ones(n), n) == 1.0
  {
    if n == 1 {
      assert Weighted(lam, 1, Ones(1), 0) == 0.0;
    } else {
      var ones := Ones(n - 1);
      WeightsSumToOne(lam, n - 1);
      WeightedOfSnoc(lam, ones, 1.0);
      assert ones + [1.0] == Ones(n);
    }
  }

  /** A weighted sum of squares about any point, from the sum and the sum of squares about zero. */
  lemma {:induction false} SquaresExpand(lam: real, n: nat, xs: seq<real>, a: real, k: nat)
    requires k <= n == |xs|
    ensures Weighted(lam, n, Squares(xs, a), k) ==
      Weighted(lam, n, Squares(xs, 0.0), k) - 2.0 * a * Weighted(lam, n, xs, k) + a * a * Weighted(lam, n, Ones(n), k)
  {
    hide Times, Sq, Weight;
    if k > 0 {
      SquaresExpand(lam, n, xs, a, k - 1);
      ExpandStep(Weighted(lam, n, Squares(xs, a), k - 1), Weighted(lam, n, Squares(xs, 0.0), k - 1),
                 Weighted(lam, n, xs, k - 1), Weighted(lam, n, Ones(n), k - 1), Weight(lam, n, k - 1), xs[k - 1], a);
    }
  }

  lemma ExpandStep(A: real, s: real, m: real, o: real, w: real, x: real, a: real)
    requires A == s - 2.0 * a * m + a * a * o
    ensures A + Times(w, Sq(x - a)) == (s + Times(w, Sq(x - 0.0))) - 2.0 * a * (m + Times(w, x)) + a * a * (o + Times(w, 1.0))
  {
    OneSquare(w, x, a);
    Distribute(2.0 * a, m, w * x);
    Distribute(a * a, o, w * 1.0);
  }

  lemma OneSquare(w: real, x: real, a: real)
    ensures w * ((x - a) * (x - a)) == w * ((x - 0.0) * (x - 0.0)) - 2.0 * a * (w * x) + a * a * (w * 1.0)
  {}

  /** The recurrence's step, on sums: mean m, second moment q, a new sample x. */
  lemma VarianceStep(lam: real, m: real, q: real, x: real)
    ensures var m' := m + (1.0 - lam) * (x - m);
      (lam * q + (1.0 - lam) * (x * x)) - m' * m' == lam * ((q - m * m) + (x - m) * ((1.0 - lam) * (x - m)))
  {
    var d, u := x - m, 1.0 - lam;
    var m' := m + u * d;
    assert x == m + d && lam == 1.0 - u;
    assert x * x == m * m + 2.0 * (m * d) + d * d;
    assert m' * m' == m * m + 2.0 * (u * (m * d)) + u * u * (d * d) by {
      Square(m, u * d);
      assert m * (u * d) == u * (m * d);
      assert (u * d) * (u * d) == u * u * (d * d);
    }
    assert u * (x * x) == u * (m * m) + 2.0 * (u * (m * d)) + u * (d * d);
    assert d * (u * d) == u * (d * d);
    assert lam * q == q - u * q;
    assert lam * ((q - m * m) + u * (d * d)) == (q - m * m + u * (d * d)) - u * (q - m * m + u * (d * d));
    assert u * (q - m * m + u * (d * d)) == u * q - u * (m * m) + u * u * (d * d);
  }

  lemma Square(a: real, b: real)
    ensures (a + b) * (a + b) == a * a + 2.0 * (a * b) + b * b
  {}

  /** The weighted variance is the second moment less the squared mean. */
  lemma VarianceIsSecondMoment(lam: real, xs: seq<real>)
    requires xs != []
    ensures var m := WeightedMean(lam, xs);
      WeightedVariance(lam, xs) == Weighted(lam, |xs|, Squares(xs, 0.0), |xs|) - m * m
  {
    hide Weighted, Squares;
    var n, m := |xs|, WeightedMean(lam, xs);
    SquaresExpand(lam, n, xs, m, n);
    WeightsSumToOne(lam, n);
    AboutTheMean(WeightedVariance(lam, xs), Weighted(lam, n, Squares(xs, 0.0), n), m, Weighted(lam, n, Ones(n), n));
  }

  lemma AboutTheMean(v: real, q: real, m: real, o: real)
    requires v == q - 2.0 * m * m + m * m * o && o == 1.0
    ensures v == q - m * m
  {
    assert m * m * o == m * m;
    assert 2.0 * m * m == m * m + m * m;
  }

  /**
    The streaming recurrence is exact: after any samples, mean and variance are the
    weighted mean and the weighted variance, and the bias correction is one less
    the weight still on nothing.
   */
  lemma {:induction false} RecurrenceIsExact(lam: real, xs: seq<real>)
    ensures var m := After(lam, xs);
      && m.n == |xs| && m.lam == lam && m.debias == 1.0 - Pow(lam, |xs|)
      && (xs != [] ==> m.mean == WeightedMean(lam, xs) && m.variance == WeightedVariance(lam, xs))
  {
    hide WeightedMean, WeightedVariance, Increment, Spread, Corrected, Pow;
    if xs == [] {
      PowOfNone(lam);
    } else {
      CorrectedStep(lam, |xs| - 1);
      var init, x := xs[..|xs| - 1], xs[|xs| - 1];
      assert init + [x] == xs;
      RecurrenceIsExact(lam, init);
      if init == [] {
        assert xs == [x];
        OneSample(lam, x);
      } else {
        MomentsOfSnoc(lam, init, x);
      }
    }
  }

  lemma PowOfNone(lam: real)
    ensures Pow(lam, 0) == 1.0
  {}

  /** The weight still on nothing shrinks by the decay. */
  lemma CorrectedStep(lam: real, n: nat)
    ensures Corrected(lam, 1.0 - Pow(lam, n)) == 1.0 - Pow(lam, n + 1)
  {
    var p := Pow(lam, n);
    assert Pow(lam, n + 1) == lam * p;
  }

  lemma MomentsOfSnoc(lam: real, xs: seq<real>, x: real)
    requires xs != []
    ensures var m, v := WeightedMean(lam, xs), WeightedVariance(lam, xs);
      && WeightedMean(lam, xs + [x]) == m + Increment(lam, x - m)
      && WeightedVariance(lam, xs + [x]) == Spread(lam, v, x - m)
  {
    hide Weighted, WeightedVariance, Squares, Sq, Increment, Spread;
    WeightedOfSnoc(lam, xs, x);
    WeightedOfSnoc(lam, Squares(xs, 0.0), Sq(x));
    SquaresOfSnoc(xs, x);
    VarianceIsSecondMoment(lam, xs);
    VarianceIsSecondMoment(lam, xs + [x]);
    var n, ys := |xs|, xs + [x];
    MomentStep(lam, x, WeightedMean(lam, xs), Weighted(lam, n, Squares(xs, 0.0), n), WeightedVariance(lam, xs),
               WeightedMean(lam, ys), Weighted(lam, n + 1, Squares(ys, 0.0), n + 1), WeightedVariance(lam, ys));
  }

  lemma MomentStep(lam: real, x: real, m: real, q: real, v: real, m': real, q': real, v': real)
    requires m' == lam * m + (1.0 - lam) * x && q' == lam * q + (1.0 - lam) * Sq(x)
    requires v == q - m * m && v' == q' - m' * m'
    ensures m' == m + Increment(lam, x - m) && v' == Spread(lam, v, x - m)
  {
    assert lam * m + (1.0 - lam) * x == m + (1.0 - lam) * (x - m);
    VarianceStep(lam, m, q, x);
  }

  lemma SquaresOfSnoc(xs: seq<real>, x: real)
    ensures Squares(xs + [x], 0.0) == Squares(xs, 0.0) + [Sq(x)]
  {
    hide Sq;
    assert x - 0.0 == x;
  }

  lemma OneSample(lam: real, x: real)
    ensures WeightedMean(lam, [x]) == x && WeightedVariance(lam, [x]) == 0.0
  {
    var xs := [x];
    assert Weight(lam, 1, 0) == 1.0;
    assert Weighted(lam, 1, xs, 0) == 0.0;
    assert WeightedMean(lam, xs) == x;
    assert Weighted(lam, 1, Squares(xs, x), 0) == 0.0;
    assert Squares(xs, x)[0] == 0.0;
  }

  lemma {:induction false} PowIsPositive(lam: real, n: nat)
    requires 0.0 < lam < 1.0
    ensures 0.0 < Pow(lam, n) <= 1.0
  {
    if n > 0 {
      PowIsPositive(lam, n - 1);
      assert lam * Pow(lam, n - 1) <= Pow(lam, n - 1);
    }
  }

  lemma WeightIsPositive(lam: real, n: nat, i: nat)
    requires 0.0 < lam < 1.0 && i < n
    ensures 0.0 < Weight(lam, n, i)
  {
    var p := Pow(lam, if i == 0 then n - 1 else n - 1 - i);
    PowIsPositive(lam, if i == 0 then n - 1 else n - 1 - i);
    ProductIsPositive(1.0 - lam, p);
  }

  lemma ProductIsPositive(a: real, b: real)
    requires 0.0 < a && 0.0 < b
    ensures 0.0 < a * b
  {}

  lemma {:induction false} WeightedIsMonotone(lam: real, n: nat, ys: seq<real>, zs: seq<real>, k: nat)
    requires 0.0 < lam < 1.0 && k <= n && k <= |ys| && k <= |zs|
    requires forall i | 0 <= i < k :: ys[i] <= zs[i]
    ensures Weighted(lam, n, ys, k) <= Weighted(lam, n, zs, k)
  {
    if k > 0 {
      WeightedIsMonotone(lam, n, ys, zs, k - 1);
      WeightIsPositive(lam, n, k - 1);
      hide Weight;
      ScaledOrder(Weight(lam, n, k - 1), ys[k - 1], zs[k - 1]);
    }
  }

  lemma ScaledOrder(w: real, y: real, z: real)
    requires 0.0 < w && y <= z
    ensures Times(w, y) <= Times(w, z)
  {}

  lemma {:induction false} WeightedConstant(lam: real, n: nat, a: real, k: nat)
    requires k <= n
    ensures Weighted(lam, n, Same(n, a), k) == a * Weighted(lam, n, Ones(n), k)
  {
    if k > 0 {
      WeightedConstant(lam, n, a, k - 1);
      var w := Weight(lam, n, k - 1);
      assert Times(w, a) == a * Times(w, 1.0);
      Distribute(a, Weighted(lam, n, Ones(n), k - 1), Times(w, 1.0));
    }
  }

  /** The variance is never negative, and the mean never leaves the range of the samples. */
  lemma MomentsStayInRange(lam: real, xs: seq<real>, lo: real, hi: real)
    requires 0.0 < lam < 1.0 && xs != [] && forall i | 0 <= i < |xs| :: lo <= xs[i] <= hi
    ensures lo <= After(lam, xs).mean <= hi && After(lam, xs).variance >= 0.0 && 0.0 < After(lam, xs).debias < 1.0
  {
    hide WeightedVariance, Pow;
    RecurrenceIsExact(lam, xs);
    MeanStaysInRange(lam, xs, lo, hi);
    VarianceIsNotNegative(lam, xs);
    PowIsBelowOne(lam, |xs|);
  }

  lemma PowIsBelowOne(lam: real, n: nat)
    requires 0.0 < lam < 1.0 && n > 0
    ensures 0.0 < Pow(lam, n) < 1.0
  {
    PowIsPositive(lam, n - 1);
    PowIsPositive(lam, n);
    assert lam * Pow(lam, n - 1) < 1.0 * Pow(lam, n - 1);
  }

  lemma MeanStaysInRange(lam: real, xs: seq<real>, lo: real, hi: real)
    requires 0.0 < lam < 1.0 && xs != [] && forall i | 0 <= i < |xs| :: lo <= xs[i] <= hi
    ensures lo <= WeightedMean(lam, xs) <= hi
  {
    hide Weighted;
    var n := |xs|;
    WeightsSumToOne(lam, n);
    WeightedConstant(lam, n, lo, n);
    WeightedConstant(lam, n, hi, n);
    WeightedIsMonotone(lam, n, Same(n, lo), xs, n);
    WeightedIsMonotone(lam, n, xs, Same(n, hi), n);
  }

  lemma VarianceIsNotNegative(lam: real, xs: seq<real>)
    requires 0.0 < lam < 1.0
    ensures WeightedVariance(lam, xs) >= 0.0
  {
    hide Weighted;
    var n, a := |xs|, WeightedMean(lam, xs);
    var sq := Squares(xs, a);
    WeightedConstant(lam, n, 0.0, n);
    forall i | 0 <= i < n ensures 0.0 <= sq[i] { NonNegative(xs[i] - a); }
    WeightedIsMonotone(lam, n, Same(n, 0.0), sq, n);
  }

  lemma NonNegative(d: real)
    ensures Sq(d) >= 0.0
  {}
}
