/**
  How one bar is looked at, in the figures the detector is configured with: which bars
  are held back, what a score is, what the hour of the day does to a volatility, and
  what a bar teaches.
 */
module Evaluation {
  import opened Baseline
  import opened Detector
  import opened Trigger
  import V = Variance
  import opened Wrappers

  // ------------------------------------------------------------- held back

  /** When the session in progress opened, as far as bars were seen: at a bar that found it open after one that did not. */
  function SessionStart(c: Config, d: Detector, b: Bar): Option<int> {
    if c.isOpen(b.ts) && d.wasOpen == Some(false) then Some(b.ts) else d.openedAt
  }

  predicate HeldBack(c: Config, d: Detector, b: Bar) {
    || !c.isOpen(b.ts) || b.isGap || b.isBackfill || b.feedStale
    || (SessionStart(c, d, b).Some? && b.ts < SessionStart(c, d, b).value + c.sessionWarmup)
  }

  /**
    A bar held back, or one of the first `rearmBars` after it, is not evaluated:
    nothing is learned from it, and all it can bring is a loss of observations. Any
    other bar is scored, and that score is what is remembered.
   */
  lemma HeldBackBarsAreInert(c: Config, d: Detector, b: Bar)
    requires Usable(c) && WholeDay(d.profile)
    ensures var (d', tr) := UpdateDetector(c, d, b);
      && d'.contiguousOk == (if HeldBack(c, d, b) then 0 else d.contiguousOk + 1)
      && (HeldBack(c, d, b) || d.contiguousOk < c.rearmBars ==>
            && d'.baseline == d.baseline && d'.profile == d.profile && d'.rebaselining == d.rebaselining && d'.lastZ == None
            && (tr.Some? ==> tr.value.cause == ObservationLost))
      && (!HeldBack(c, d, b) && d.contiguousOk >= c.rearmBars ==>
            d'.lastZ == Score(c.maths, d.baseline, c.minSamples, Adjusted(c, d, b)) &&
            (tr.Some? && tr.value.cause == ObservationLost ==> d'.lastZ == None))
  {
    hide Score, Factor, ObserveSigma, LearnHour;
  }

  /** The bars one after the other. */
  ghost function Fed(c: Config, d: Detector, bs: seq<Bar>): (r: Detector)
    requires Usable(c) && WholeDay(d.profile)
    ensures WholeDay(r.profile)
  {
    if bs == [] then d else UpdateDetector(c, Fed(c, d, bs[..|bs| - 1]), bs[|bs| - 1]).0
  }

  /** None of the bars is held back as it comes. */
  ghost predicate NoneHeldBack(c: Config, d: Detector, bs: seq<Bar>)
    requires Usable(c) && WholeDay(d.profile)
  {
    bs == [] || (NoneHeldBack(c, d, bs[..|bs| - 1]) && !HeldBack(c, Fed(c, d, bs[..|bs| - 1]), bs[|bs| - 1]))
  }

  /** After a bar held back it takes `rearmBars` bars that are not before one is evaluated again. */
  lemma {:induction false} RearmsAfter(c: Config, d: Detector, b: Bar, bs: seq<Bar>)
    requires Usable(c) && WholeDay(d.profile) && HeldBack(c, d, b)
    requires NoneHeldBack(c, UpdateDetector(c, d, b).0, bs)
    ensures Fed(c, UpdateDetector(c, d, b).0, bs).contiguousOk == |bs|
    ensures |bs| <= c.rearmBars ==> Fed(c, UpdateDetector(c, d, b).0, bs).baseline == d.baseline
  {
    hide UpdateDetector, HeldBack;
    var d' := UpdateDetector(c, d, b).0;
    HeldBackBarsAreInert(c, d, b);
    if bs != [] {
      RearmsAfter(c, d, b, bs[..|bs| - 1]);
      HeldBackBarsAreInert(c, Fed(c, d', bs[..|bs| - 1]), bs[|bs| - 1]);
    }
  }

  ghost predicate AllOpen(c: Config, bs: seq<Bar>) { forall i | 0 <= i < |bs| :: c.isOpen(bs[i].ts) }

  lemma {:induction false} SessionStands(c: Config, d: Detector, bs: seq<Bar>, t: int)
    requires Usable(c) && WholeDay(d.profile) && d.openedAt == Some(t) && d.wasOpen == Some(true) && AllOpen(c, bs)
    ensures Fed(c, d, bs).openedAt == Some(t) && Fed(c, d, bs).wasOpen == Some(true)
  {
    if bs != [] {
      var front := bs[..|bs| - 1];
      assert AllOpen(c, front) && c.isOpen(bs[|bs| - 1].ts);
      SessionStands(c, d, front, t);
      SessionStep(c, Fed(c, d, front), bs[|bs| - 1]);
    }
  }

  lemma SessionStep(c: Config, d: Detector, b: Bar)
    requires Usable(c) && WholeDay(d.profile)
    ensures var d' := UpdateDetector(c, d, b).0; d'.openedAt == SessionStart(c, d, b) && d'.wasOpen == Some(c.isOpen(b.ts))
  {
    hide Score, Factor, ObserveSigma, LearnHour, Update;
  }

  /**
    After a bar that found the market closed, from the first that finds it open: while
    it stays open, every bar is held back until `sessionWarmup` after that one, and
    from then on no bar is that is not a gap, a backfill or from a stale feed.
   */
  lemma WarmsUpAfterTheOpen(c: Config, d: Detector, closed: Bar, first: Bar, bs: seq<Bar>, b: Bar)
    requires Usable(c) && WholeDay(d.profile)
    requires !c.isOpen(closed.ts) && c.isOpen(first.ts) && AllOpen(c, bs) && c.isOpen(b.ts)
    ensures var d' := Fed(c, UpdateDetector(c, UpdateDetector(c, d, closed).0, first).0, bs);
      HeldBack(c, d', b) <==> b.ts - first.ts < c.sessionWarmup || b.isGap || b.isBackfill || b.feedStale
  {
    hide UpdateDetector, Fed;
    var d1 := UpdateDetector(c, d, closed).0;
    SessionStep(c, d, closed);
    SessionStep(c, d1, first);
    SessionStands(c, UpdateDetector(c, d1, first).0, bs, first.ts);
  }

  // --------------------------------------------------------------- the score

  ghost predicate IsRoot(sqrt: real -> real) { forall x | x >= 0.0 :: sqrt(x) >= 0.0 && sqrt(x) * sqrt(x) == x }

  lemma RootIsPositive(sqrt: real -> real, x: real)
    requires IsRoot(sqrt) && x > 0.0
    ensures sqrt(x) > 0.0
  {
    assert sqrt(x) * sqrt(x) == x;
  }

  /** Of a quotient by a root: its square and its sign. */
  lemma Standardised(num: real, root: real, v: real, w: real, z: real)
    requires root > 0.0 && w > 0.0 && root * root == v / w && z == num / root
    ensures z * z * v == w * (num * num) && (z > 0.0 <==> num > 0.0) && (z < 0.0 <==> num < 0.0)
  {
    assert z * root == num;
    assert v / w * w == v;
    var q := root * root;
    assert z * z * q == num * num by { assert z * z * (root * root) == (z * root) * (z * root); }
    assert z * z * v == w * (z * z * q) by { assert v == q * w; Regroup(z * z, q, w); }
  }

  lemma Regroup(a: real, q: real, w: real)
    ensures a * (q * w) == w * (a * q)
  {}

  /**
    A score exists once there are enough samples and they differ, and it is how many
    deviations the logarithm lies from the weighted mean: of the weighted variance,
    corrected for the weight `lam^n` still on nothing.
   */
  lemma ScoreIsStandardised(f: Maths, lam: real, xs: seq<real>, minSamples: nat, sigma: real)
    requires 0.0 < lam < 1.0 && xs != [] && IsRoot(f.sqrt)
    ensures var score := Score(f, After(lam, xs), minSamples, sigma);
      && (score.Some? <==> |xs| >= minSamples && WeightedVariance(lam, xs) > 0.0 && sigma > MIN_SIGMA)
      && (score.Some? ==>
            var z, off := score.value, f.ln(sigma) - WeightedMean(lam, xs);
            && z * z * WeightedVariance(lam, xs) == (1.0 - Pow(lam, |xs|)) * (off * off)
            && (z > 0.0 <==> off > 0.0) && (z < 0.0 <==> off < 0.0))
  {
    hide WeightedMean, WeightedVariance, Pow, Baseline.After;
    RecurrenceIsExact(lam, xs);
    PowIsBelowOne(lam, |xs|);
    var m := Baseline.After(lam, xs);
    var v, w := m.variance, m.debias;
    if v > 0.0 {
      QuotientIsPositive(v, w);
      RootIsPositive(f.sqrt, v / w);
      Standardised(f.ln(sigma) - m.mean, f.sqrt(v / w), v, w, (f.ln(sigma) - m.mean) / f.sqrt(v / w));
    }
  }

  lemma QuotientIsPositive(v: real, w: real)
    requires v > 0.0 && w > 0.0
    ensures v / w > 0.0
  {}

  // -------------------------------------------------------- the hour of the day

  /** The hour an instant in seconds falls in, counted from midnight. */
  lemma HourOfDay(day: int, hour: nat, second: nat)
    requires hour < 24 && second < 3600
    ensures HourOf(day * 86_400 + hour * 3_600 + second) == hour
  {
    var ts := day * 86_400 + hour * 3_600 + second;
    assert ts == (day * 24 + hour) * 3_600 + second;
    assert ts / 3600 == day * 24 + hour;
  }

  predicate Learns(c: ProfileConfig, p: Profile, h: nat)
    requires WholeDay(p) && h < HOURS
  {
    p.hourN[h] >= c.minSamples
  }

  /** Rising, and one at zero: all that is used of the exponential. */
  ghost predicate ExpLike(exp: real -> real) { exp(0.0) == 1.0 && forall x, y | x <= y :: exp(x) <= exp(y) }

  lemma OneMoreHour(n: nat, x: real)
    ensures (n + 1) as real * x == n as real * x + x
  {}

  lemma {:induction false} LearnedIsAtMost(c: ProfileConfig, p: Profile, k: nat, top: real)
    requires WholeDay(p) && k <= HOURS && forall h: nat | h < k && Learns(c, p, h) :: p.hourMean[h] <= top
    ensures Learned(c, p, k).0 <= Learned(c, p, k).1 as real * top
  {
    if k > 0 {
      LearnedIsAtMost(c, p, k - 1, top);
      OneMoreHour(Learned(c, p, k - 1).1, top);
    }
  }

  lemma {:induction false} LearnedIsAtLeast(c: ProfileConfig, p: Profile, k: nat, low: real)
    requires WholeDay(p) && k <= HOURS && forall h: nat | h < k && Learns(c, p, h) :: p.hourMean[h] >= low
    ensures Learned(c, p, k).0 >= Learned(c, p, k).1 as real * low
  {
    if k > 0 {
      LearnedIsAtLeast(c, p, k - 1, low);
      OneMoreHour(Learned(c, p, k - 1).1, low);
    }
  }

  lemma AverageAtMost(s: real, n: real, top: real)
    requires n > 0.0
    ensures s <= n * top ==> s / n <= top
    ensures s >= n * top ==> s / n >= top
  {
    assert s / n * n == s;
  }

  /**
    The busiest of the learned hours has a factor of at least one, and the quietest of
    at most one: a volatility is scaled down in the first and up in the second.
   */
  lemma FactorFollowsTheHour(f: Maths, c: ProfileConfig, p: Profile, hour: nat)
    requires WholeDay(p) && hour < HOURS && Clamps(c) && ExpLike(f.exp)
    ensures (forall h: nat | h < HOURS && Learns(c, p, h) :: p.hourMean[h] <= p.hourMean[hour]) ==> Factor(f, c, p, hour) >= 1.0
    ensures (forall h: nat | h < HOURS && Learns(c, p, h) :: p.hourMean[h] >= p.hourMean[hour]) ==> Factor(f, c, p, hour) <= 1.0
  {
    var (s, n) := Learned(c, p, HOURS);
    var m := p.hourMean[hour];
    if n > 0 {
      AverageAtMost(s, n as real, m);
      hide Learned;
      if forall h: nat | h < HOURS && Learns(c, p, h) :: p.hourMean[h] <= m {
        LearnedIsAtMost(c, p, HOURS, m);
        assert f.exp(m - s / n as real) >= f.exp(0.0);
      }
      if forall h: nat | h < HOURS && Learns(c, p, h) :: p.hourMean[h] >= m {
        LearnedIsAtLeast(c, p, HOURS, m);
        assert f.exp(m - s / n as real) <= f.exp(0.0);
      }
    }
  }

  lemma OneMoreLearned(c: ProfileConfig, p: Profile, k: nat)
    requires WholeDay(p) && 0 < k <= HOURS
    ensures |set h | 0 <= h < k && Learns(c, p, h)| ==
      |set h | 0 <= h < k - 1 && Learns(c, p, h)| + if Learns(c, p, k - 1) then 1 else 0
  {
    hide Learns;
    var all, before := set h | 0 <= h < k && Learns(c, p, h), set h | 0 <= h < k - 1 && Learns(c, p, h);
    assert all == if Learns(c, p, k - 1) then before + {k - 1} else before;
  }

  lemma {:induction false} LearnedIsCounted(c: ProfileConfig, p: Profile, k: nat)
    requires WholeDay(p) && k <= HOURS
    ensures Learned(c, p, k).1 == |set h | 0 <= h < k && Learns(c, p, h)|
  {
    var all := set h | 0 <= h < k && Learns(c, p, h);
    if k == 0 {
      assert all == {};
    } else {
      LearnedIsCounted(c, p, k - 1);
      assert Learned(c, p, k).1 == Learned(c, p, k - 1).1 + if Learns(c, p, k - 1) then 1 else 0;
      hide Learned, Learns;
      OneMoreLearned(c, p, k);
    }
  }

  /** Until its hour is learned, and enough hours are, a volatility is left as measured. */
  lemma UnlearnedHoursScaleNothing(f: Maths, c: ProfileConfig, p: Profile, hour: nat)
    requires WholeDay(p) && hour < HOURS && Clamps(c)
    requires p.hourN[hour] < c.minSamples || |set h | 0 <= h < HOURS && Learns(c, p, h)| < c.minReadyHours
    ensures Factor(f, c, p, hour) == 1.0
  {
    LearnedIsCounted(c, p, HOURS);
  }

  /** The means of the learned hours. */
  function LearnedMeans(c: ProfileConfig, p: Profile, k: nat): seq<real>
    requires WholeDay(p) && k <= HOURS
  {
    if k == 0 then [] else
      LearnedMeans(c, p, k - 1) + if p.hourN[k - 1] >= c.minSamples then [p.hourMean[k - 1]] else []
  }

  lemma {:induction false} LearnedIsTheirSum(c: ProfileConfig, p: Profile, k: nat)
    requires WholeDay(p) && k <= HOURS
    ensures Learned(c, p, k) == (V.Sum(LearnedMeans(c, p, k)), |LearnedMeans(c, p, k)|)
  {
    if k > 0 {
      var front := LearnedMeans(c, p, k - 1);
      LearnedIsTheirSum(c, p, k - 1);
      assert front + [] == front;
      assert (front + [p.hourMean[k - 1]])[..|front|] == front;
    }
  }

  /** Of a learned hour the factor is the exponential of how far its mean lies above that of all learned hours, kept within the clamps. */
  lemma FactorIsAgainstTheTypicalHour(f: Maths, c: ProfileConfig, p: Profile, hour: nat)
    requires WholeDay(p) && hour < HOURS && Clamps(c) && Learns(c, p, hour)
    requires |LearnedMeans(c, p, HOURS)| >= c.minReadyHours && LearnedMeans(c, p, HOURS) != []
    ensures var x, r := f.exp(p.hourMean[hour] - V.Mean(LearnedMeans(c, p, HOURS))), Factor(f, c, p, hour);
      && (c.lo <= x <= c.hi ==> r == x) && (x <= c.lo ==> r == c.lo) && (x >= c.hi ==> r == c.hi)
  {
    hide Learned, LearnedMeans, V.Sum;
    LearnedIsTheirSum(c, p, HOURS);
  }

  /** The law of the exponential, and that it is positive. */
  ghost predicate ExpLaw(exp: real -> real) {
    exp(0.0) == 1.0 && (forall x, y :: exp(x + y) == Times(exp(x), exp(y))) && forall x :: exp(x) > 0.0
  }

  function Clamped(c: ProfileConfig, x: real): real { if x < c.lo then c.lo else if c.hi < x then c.hi else x }

  /** The factors of hours with these means against the level `a`, multiplied together. */
  function Product(f: Maths, c: ProfileConfig, means: seq<real>, a: real): real {
    if means == [] then 1.0 else Times(Product(f, c, means[..|means| - 1], a), Clamped(c, f.exp(means[|means| - 1] - a)))
  }

  /** No factor is raised to the lower clamp; none is cut to the upper. */
  predicate NoneRaised(f: Maths, c: ProfileConfig, means: seq<real>, a: real) {
    forall i | 0 <= i < |means| :: f.exp(means[i] - a) >= c.lo
  }

  predicate NoneCut(f: Maths, c: ProfileConfig, means: seq<real>, a: real) {
    forall i | 0 <= i < |means| :: f.exp(means[i] - a) <= c.hi
  }

  lemma FactorIsClamped(f: Maths, c: ProfileConfig, p: Profile, hour: nat)
    requires WholeDay(p) && hour < HOURS && Clamps(c) && Learns(c, p, hour)
    requires |LearnedMeans(c, p, HOURS)| >= c.minReadyHours && LearnedMeans(c, p, HOURS) != []
    ensures Factor(f, c, p, hour) == Clamped(c, f.exp(p.hourMean[hour] - V.Mean(LearnedMeans(c, p, HOURS))))
  {
    FactorIsAgainstTheTypicalHour(f, c, p, hour);
  }

  lemma ScaleBy(a: real, b: real, x: real, y: real)
    requires 0.0 < a <= b && 0.0 < x <= y
    ensures 0.0 < Times(a, x) <= Times(b, y) && (a < b || x < y ==> Times(a, x) < Times(b, y))
  {
    assert a * x <= a * y <= b * y;
    if a < b {
      assert a * y < b * y;
    } else if x < y {
      assert a * x < a * y;
    }
  }

  lemma ClampBounds(c: ProfileConfig, x: real)
    requires Clamps(c) && x > 0.0
    ensures var k := Clamped(c, x);
      0.0 < k && (x >= c.lo ==> k <= x) && (x <= c.hi ==> k >= x) && (k == x <==> c.lo <= x <= c.hi)
  {}

  lemma ExpOfSum(exp: real -> real, x: real, y: real)
    requires ExpLaw(exp)
    ensures exp(x + y) == Times(exp(x), exp(y)) && exp(x) > 0.0 && exp(0.0) == 1.0
  {
    hide Times;
  }

  /** How far the means lie above `a`, all together. */
  function Distance(means: seq<real>, a: real): real { V.Sum(means) - |means| as real * a }

  lemma DistanceSnoc(means: seq<real>, a: real)
    requires means != []
    ensures Distance(means, a) == Distance(means[..|means| - 1], a) + (means[|means| - 1] - a)
  {
    OneMoreHour(|means| - 1, a);
  }

  lemma NoDistance(a: real)
    ensures Distance([], a) == 0.0
  {}

  lemma FrontUnclamped(f: Maths, c: ProfileConfig, means: seq<real>, a: real)
    requires means != []
    ensures var front, x := means[..|means| - 1], f.exp(means[|means| - 1] - a);
      && (NoneRaised(f, c, means, a) <==> NoneRaised(f, c, front, a) && x >= c.lo)
      && (NoneCut(f, c, means, a) <==> NoneCut(f, c, front, a) && x <= c.hi)
  {
    var front := means[..|means| - 1];
    assert forall i | 0 <= i < |front| :: front[i] == means[i];
    assert forall i | 0 <= i < |means| :: i == |front| || means[i] == front[i];
  }

  lemma ProductSnoc(f: Maths, c: ProfileConfig, means: seq<real>, a: real)
    ensures Product(f, c, means, a) == if means == [] then 1.0
      else Times(Product(f, c, means[..|means| - 1], a), Clamped(c, f.exp(means[|means| - 1] - a)))
  {
    hide Times, Clamped;
  }

  lemma NoneOfNone(f: Maths, c: ProfileConfig, a: real)
    ensures NoneRaised(f, c, [], a) && NoneCut(f, c, [], a)
  {}

  /** What the factors multiply to against `e`, the exponential of all the means' distances together. */
  lemma {:induction false} ProductAgainst(f: Maths, c: ProfileConfig, means: seq<real>, a: real)
    requires ExpLaw(f.exp) && Clamps(c)
    ensures var r, e := Product(f, c, means, a), f.exp(Distance(means, a));
      && r > 0.0 && e > 0.0
      && (NoneRaised(f, c, means, a) ==> r <= e && (r == e <==> NoneCut(f, c, means, a)))
      && (NoneCut(f, c, means, a) ==> r >= e && (r == e <==> NoneRaised(f, c, means, a)))
  {
    hide *;
    ProductSnoc(f, c, means, a);
    if means == [] {
      NoDistance(a);
      ExpOfSum(f.exp, 0.0, 0.0);
      NoneOfNone(f, c, a);
    } else {
      var front, x := means[..|means| - 1], f.exp(means[|means| - 1] - a);
      ProductAgainst(f, c, front, a);
      DistanceSnoc(means, a);
      ExpOfSum(f.exp, Distance(front, a), means[|means| - 1] - a);
      ExpOfSum(f.exp, means[|means| - 1] - a, 0.0);
      ExpOfSum(f.exp, Distance(means, a), 0.0);
      FrontUnclamped(f, c, means, a);
      ClampBounds(c, x);
      var before, r, k := f.exp(Distance(front, a)), Product(f, c, front, a), Clamped(c, x);
      ScaleBy(r, r, k, k);
      if NoneRaised(f, c, means, a) {
        ScaleBy(r, before, k, x);
      }
      if NoneCut(f, c, means, a) {
        ScaleBy(before, r, x, k);
      }
    }
  }

  /**
    The factors of the learned hours normalise themselves: multiplied together they
    are one, so their geometric mean is, as long as the clamps touch none of them. If
    some are cut and none raised they come to less, if some are raised and none cut
    to more.
   */
  lemma FactorsNormalise(f: Maths, c: ProfileConfig, p: Profile)
    requires WholeDay(p) && Clamps(c) && ExpLaw(f.exp) && LearnedMeans(c, p, HOURS) != []
    ensures var means := LearnedMeans(c, p, HOURS);
      var a := V.Mean(means);
      var r := Product(f, c, means, a);
      && (NoneRaised(f, c, means, a) ==> r <= 1.0 && (r == 1.0 <==> NoneCut(f, c, means, a)))
      && (NoneCut(f, c, means, a) ==> r >= 1.0 && (r == 1.0 <==> NoneRaised(f, c, means, a)))
  {
    hide LearnedMeans, Product, NoneRaised, NoneCut, Distance, ExpLaw, V.Sum, V.Mean;
    var means := LearnedMeans(c, p, HOURS);
    ProductAgainst(f, c, means, V.Mean(means));
    MeanTimesCount(means);
    ExpOfSum(f.exp, 0.0, 0.0);
  }

  lemma MeanTimesCount(xs: seq<real>)
    requires xs != []
    ensures Distance(xs, V.Mean(xs)) == 0.0
  {
    hide V.Sum;
  }

  /** A volatility is divided by its hour's factor. */
  lemma AdjustedByTheHour(c: Config, d: Detector, b: Bar)
    requires Usable(c) && WholeDay(d.profile)
    ensures Adjusted(c, d, b) * Factor(c.maths, c.profile, d.profile, HourOf(b.ts)) == b.sigma
  {
    hide Factor;
  }

  /** The same hour taught one volatility after the other. */
  function Taught(ln: real -> real, p: Profile, sigmas: seq<real>, hour: nat): (r: Profile)
    requires WholeDay(p) && hour < HOURS
    ensures WholeDay(r)
  {
    if sigmas == [] then p else LearnHour(ln, Taught(ln, p, sigmas[..|sigmas| - 1], hour), sigmas[|sigmas| - 1], hour)
  }

  function Logs(ln: real -> real, sigmas: seq<real>): (r: seq<real>)
    ensures |r| == |sigmas| && forall i | 0 <= i < |r| :: r[i] == ln(sigmas[i])
  {
    seq(|sigmas|, i requires 0 <= i < |sigmas| => ln(sigmas[i]))
  }

  lemma {:induction false} HourFollowsRecurrence(ln: real -> real, p: Profile, sigmas: seq<real>, hour: nat)
    requires WholeDay(p) && hour < HOURS && p.hourN[hour] == 0
    requires forall i | 0 <= i < |sigmas| :: sigmas[i] > MIN_SIGMA
    ensures var r := Taught(ln, p, sigmas, hour);
      && r.lam == p.lam && r.hourN[hour] == |sigmas|
      && (sigmas != [] ==> r.hourMean[hour] == Baseline.After(p.lam, Logs(ln, sigmas)).mean)
      && Baseline.After(p.lam, Logs(ln, sigmas)).n == |sigmas| && Baseline.After(p.lam, Logs(ln, sigmas)).lam == p.lam
      && forall h | 0 <= h < HOURS && h != hour :: r.hourMean[h] == p.hourMean[h] && r.hourN[h] == p.hourN[h]
  {
    hide Spread, Corrected;
    if sigmas != [] {
      HourFollowsRecurrence(ln, p, sigmas[..|sigmas| - 1], hour);
      assert Logs(ln, sigmas)[..|sigmas| - 1] == Logs(ln, sigmas[..|sigmas| - 1]);
    }
  }

  /** What an hour has learned is the weighted mean of its logarithms; no other hour is touched. */
  lemma HourIsWeightedMean(ln: real -> real, p: Profile, sigmas: seq<real>, hour: nat)
    requires WholeDay(p) && hour < HOURS && p.hourN[hour] == 0
    requires forall i | 0 <= i < |sigmas| :: sigmas[i] > MIN_SIGMA
    ensures var r := Taught(ln, p, sigmas, hour);
      && r.hourN[hour] == |sigmas|
      && (sigmas != [] ==> r.hourMean[hour] == WeightedMean(p.lam, Logs(ln, sigmas)))
      && forall h | 0 <= h < HOURS && h != hour :: r.hourMean[h] == p.hourMean[h] && r.hourN[h] == p.hourN[h]
  {
    hide Taught, WeightedMean, Logs;
    HourFollowsRecurrence(ln, p, sigmas, hour);
    RecurrenceIsExact(p.lam, Logs(ln, sigmas));
  }

  /** What an evaluated bar leaves learned: in normal conditions the adjusted volatility and, for its hour, the one measured; under stress nothing, unless re-learning. */
  lemma WhatABarTeaches(c: Config, d: Detector, b: Bar)
    requires Usable(c) && WholeDay(d.profile) && !HeldBack(c, d, b) && d.contiguousOk >= c.rearmBars
    ensures var d' := UpdateDetector(c, d, b).0;
      var adjusted, hour := Adjusted(c, d, b), HourOf(b.ts);
      if d'.trigger.regime == Normal then
        && d'.profile == Taught(c.maths.ln, d.profile, [b.sigma], hour)
        && (adjusted > MIN_SIGMA ==> d'.baseline == Admit(d.baseline.(frozen := false), c.maths.ln(adjusted)))
      else
        d'.profile == d.profile && (!d'.rebaselining ==> d'.baseline == d.baseline.(frozen := true))
  {
    hide Score, Factor, Admit, LearnHour, Update;
    assert [b.sigma][..0] == [];
  }
}
