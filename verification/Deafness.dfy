/**
  A run, from the very first leader on, in which a stress event long enough to thaw
  ends under an ordinary label: a process that was re-learning when it lost the lead
  is promoted again over a fresh event.
 */
module Deafness {
  import opened Baseline
  import opened Detector
  import opened Failover
  import opened Trigger
  import opened Wrappers

  const THRESHOLDS := TriggerConfig(2.0, 1.0, 1, 0, 60, 0, 100, 1_000)

  function Always(f: Maths): Config {
    Config(THRESHOLDS, 0, 0, 2, ProfileConfig(100, 1, 0.5, 2.0), f, _ => true)
  }

  /** All that is used of the root: positive of positive numbers, and no larger than its argument or one. */
  ghost predicate RootLike(sqrt: real -> real) {
    forall x :: x > 0.0 ==> 0.0 < sqrt(x) <= if x < 1.0 then 1.0 else x
  }

  /** Four measurable volatilities, by their logarithms. */
  ghost predicate Levels(f: Maths, low: real, usual: real, high: real, higher: real) {
    && low > MIN_SIGMA && usual > MIN_SIGMA && high > MIN_SIGMA && higher > MIN_SIGMA
    && f.ln(low) == 0.0 && f.ln(usual) == 1.0 && f.ln(high) == 10.0 && f.ln(higher) == 100.0
  }

  function Minute(sigma: real, ts: int): Bar { Bar(sigma, ts, false, false, false) }

  /** A detector that evaluates every bar of the day's first hour, with few of them learned and none remembered past `now`. */
  ghost predicate Stands(d: Detector, regime: Regime, since: Option<int>, thawed: bool, base: Moments, relearning: bool, n: nat, now: int) {
    && WholeDay(d.profile) && d.profile.hourN[0] == n
    && d.wasOpen != Some(false) && d.openedAt.None?
    && d.trigger.regime == regime && d.trigger.since == since && d.trigger.thawed == thawed && d.trigger.candidate.None?
    && (d.trigger.lastEscalation.Some? ==> d.trigger.lastEscalation.value <= now)
    && d.baseline == base && d.rebaselining == relearning
  }

  lemma HourIsUnlearned(f: Maths, p: Profile)
    requires WholeDay(p) && p.hourN[0] < 100
    ensures Factor(f, Always(f).profile, p, 0) == 1.0
  {}

  /** What a bar of the hour presents: its own volatility, scored against the baseline. */
  lemma BarIsScored(f: Maths, d: Detector, sigma: real, ts: int, n: nat)
    requires 0 <= ts < 3600 && n < 100
    requires WholeDay(d.profile) && d.profile.hourN[0] == n && d.wasOpen != Some(false) && d.openedAt.None?
    ensures !Gated(Always(f), d, Minute(sigma, ts)) && !Rearming(Always(f), d) && HourOf(ts) == 0
    ensures Presented(Always(f), d, Minute(sigma, ts)) == Sample(Score(f, d.baseline, 2, sigma), sigma, ts, true)
  {
    hide Score, Factor;
    HourIsUnlearned(f, d.profile);
  }

  /** Under normal conditions a score below the threshold, or none, is learned. */
  lemma QuietBar(f: Maths, d: Detector, base: Moments, relearning: bool, n: nat, now: int, sigma: real, ts: int)
    requires Stands(d, Normal, d.trigger.since, false, base, relearning, n, now) && now <= ts && 0 <= ts < 3600 && n < 99
    requires sigma > MIN_SIGMA && (Score(f, base, 2, sigma).None? || Score(f, base, 2, sigma).value < 2.0)
    ensures var (d', tr) := UpdateDetector(Always(f), d, Minute(sigma, ts));
      tr.None? && Stands(d', Normal, d.trigger.since, false, ObserveSigma(f.ln, base.(frozen := false), sigma), relearning, n + 1, ts)
  {
    hide Score, Factor, ObserveSigma;
    BarIsScored(f, d, sigma, ts, n);
  }

  lemma HighBar(f: Maths, d: Detector, base: Moments, relearning: bool, n: nat, now: int, sigma: real, ts: int)
    requires Stands(d, Normal, d.trigger.since, false, base, relearning, n, now) && now <= ts && 0 <= ts < 3600 && n < 99
    requires Score(f, base, 2, sigma).Some? && Score(f, base, 2, sigma).value >= 2.0
    ensures var (d', tr) := UpdateDetector(Always(f), d, Minute(sigma, ts));
      && tr.Some? && tr.value.to.Stressed? && tr.value.ts == ts
      && Stands(d', Stressed, Some(ts), false, base.(frozen := true), false, n, ts)
  {
    hide Score, Factor, ObserveSigma;
    BarIsScored(f, d, sigma, ts, n);
  }

  /** Still high a hundred seconds on: the reference thaws, and learns. */
  lemma ThawingBar(f: Maths, d: Detector, base: Moments, n: nat, now: int, since: int, sigma: real, ts: int)
    requires Stands(d, Stressed, Some(since), false, base, false, n, now) && now <= ts && since + 100 <= ts && 0 <= ts < 3600 && n < 99
    requires Score(f, base, 2, sigma).Some? && Score(f, base, 2, sigma).value >= 2.0
    ensures var (d', tr) := UpdateDetector(Always(f), d, Minute(sigma, ts));
      && tr.None?
      && Stands(d', Stressed, Some(since), true, ObserveSigma(f.ln, base.(frozen := false), sigma), true, n, ts)
  {
    hide Score, Factor, ObserveSigma;
    BarIsScored(f, d, sigma, ts, n);
  }

  /** A low bar a hundred seconds on clears, and the label is a thaw's only if the reference has thawed. */
  lemma ClearingBar(f: Maths, d: Detector, thawed: bool, base: Moments, relearning: bool, n: nat, now: int, since: int, sigma: real, ts: int)
    requires Stands(d, Stressed, Some(since), thawed, base, relearning, n, now)
    requires now <= ts && since + 100 <= ts && 0 <= ts < 3600 && n < 99
    requires sigma > MIN_SIGMA && Score(f, base, 2, sigma).Some? && Score(f, base, 2, sigma).value <= 1.0
    ensures var (d', tr) := UpdateDetector(Always(f), d, Minute(sigma, ts));
      && tr.Some? && tr.value.to.Normal? && tr.value.ts == ts
      && tr.value.cause == (if thawed || !relearning then BaselineThaw else Threshold)
      && Stands(d', Normal, Some(ts), false, ObserveSigma(f.ln, base.(frozen := false), sigma), false, n + 1, ts)
  {
    hide Score, Factor, ObserveSigma;
    BarIsScored(f, d, sigma, ts, n);
  }

  // ------------------------------------------------------------- the moments

  const ONE := Moments(0.5, 0.0, 0.0, 1, 0.5, false)
  const TWO := Moments(0.5, 0.5, 0.25, 2, 0.75, false)
  const THREE := Moments(0.5, 5.25, 22.6875, 3, 0.875, false)
  const FOUR := Moments(0.5, 2.625, 18.234375, 4, 0.9375, false)

  lemma Learns(f: Maths, m: Moments, sigma: real, x: real, next: Moments)
    requires !m.frozen && sigma > MIN_SIGMA && f.ln(sigma) == x && Admit(m, x) == next
    ensures ObserveSigma(f.ln, m, sigma) == next
  {}

  lemma Admissions()
    ensures Admit(Empty(0.5), 0.0) == ONE && Admit(ONE, 1.0) == TWO
    ensures Admit(TWO, 10.0) == THREE && Admit(THREE, 0.0) == FOUR
  {}

  lemma Quotient(x: real, y: real)
    requires y > 0.0
    ensures x >= 2.0 * y ==> x / y >= 2.0
    ensures x <= 0.0 ==> x / y <= 0.0
  {}

  lemma Scoring(f: Maths, low: real, usual: real, high: real, higher: real)
    requires RootLike(f.sqrt) && Levels(f, low, usual, high, higher)
    ensures Score(f, Empty(0.5), 2, low).None? && Score(f, ONE, 2, usual).None?
    ensures forall frozen :: Score(f, TWO.(frozen := frozen), 2, high).Some? && Score(f, TWO.(frozen := frozen), 2, high).value >= 2.0
    ensures Score(f, THREE, 2, low).Some? && Score(f, THREE, 2, low).value <= 1.0
    ensures Score(f, FOUR, 2, higher).Some? && Score(f, FOUR, 2, higher).value >= 2.0
    ensures Score(f, FOUR.(frozen := true), 2, low).Some? && Score(f, FOUR.(frozen := true), 2, low).value <= 1.0
  {
    var two, three, four := Stdev(f, TWO), Stdev(f, THREE), Stdev(f, FOUR);
    assert TWO.variance / TWO.debias == 1.0 / 3.0 && THREE.variance / THREE.debias < 26.0 && FOUR.variance / FOUR.debias < 20.0;
    assert 0.0 < two <= 1.0 && 0.0 < three && 0.0 < four <= 20.0;
    Quotient(f.ln(high) - TWO.mean, two);
    Quotient(f.ln(low) - THREE.mean, three);
    Quotient(f.ln(higher) - FOUR.mean, four);
    Quotient(f.ln(low) - FOUR.mean, four);
  }

  // ----------------------------------------------------------------- the run

  /** The run so far, from the first leader. */
  ghost predicate Reaches(c: Config, es: seq<Event>, l: Leader)
    requires Usable(c)
  {
    Legal(c, First(0.5, 0.5), es) && Run(c, First(0.5, 0.5), es) == l
  }

  lemma Goes(c: Config, es: seq<Event>, l: Leader, e: Event)
    requires Usable(c) && Reaches(c, es, l) && WholeDay(l.det.profile) && Possible(l, e) && InTime(l, e)
    ensures Reaches(c, es + [e], Step(c, l, e))
  {
    hide Possible, InTime, Step;
    RunSplits(c, First(0.5, 0.5), es, [e]);
    OneStep(c, l, e);
  }

  /** Every process promoted is fresh, or as it was when it last led. */
  ghost predicate Genuine(c: Config, es: seq<Event>)
    requires Usable(c) && Legal(c, First(0.5, 0.5), es)
  {
    forall i | 0 <= i < |es| && es[i].Promote? ::
      es[i].process == Cold(0.5, 0.5) || exists j | 0 <= j <= i :: LedAt(c, es, j, es[i].process)
  }

  ghost predicate LedAt(c: Config, es: seq<Event>, j: nat, d: Detector)
    requires Usable(c) && Legal(c, First(0.5, 0.5), es) && j <= |es|
  {
    Legal(c, First(0.5, 0.5), es[..j]) && Run(c, First(0.5, 0.5), es[..j]).det == d
  }

  /** After this run, the bar clears an event `thawAfter` or more old, and is not labelled a thaw. */
  ghost predicate Mislabels(c: Config, es: seq<Event>, b: Bar)
    requires Usable(c)
  {
    && Legal(c, First(0.5, 0.5), es) && Genuine(c, es)
    && var l := Run(c, First(0.5, 0.5), es);
       && InTime(l, SealBar(b)) && WholeDay(l.det.profile) && Deaf(l.det) && l.log != []
       && var tr := UpdateDetector(c, l.det, b).1;
          && tr.Some? && tr.value.to.Normal? && tr.value.cause == Threshold
          && b.ts - l.log[|l.log| - 1].ts >= c.trigger.thawAfter
  }

  /** A process leads into an event it lets thaw, and so is re-learning. */
  lemma FirstReign(f: Maths, low: real, usual: real, high: real, higher: real) returns (es: seq<Event>, l: Leader)
    requires RootLike(f.sqrt) && Levels(f, low, usual, high, higher)
    ensures Reaches(Always(f), es, l) && (forall e | e in es :: e.SealBar?) && l.clock == Some(102) && l.stored == Some(SaveDetector(l.det))
    ensures Stands(l.det, Stressed, Some(2), true, THREE, true, 2, 102)
  {
    hide Score, Factor, Admit, ObserveSigma, UpdateDetector, RootLike, Levels;
    var c := Always(f);
    LevelsMean(f, low, usual, high, higher);
    Admissions();
    Learns(f, Empty(0.5), low, 0.0, ONE);
    Learns(f, ONE, usual, 1.0, TWO);
    Learns(f, TWO, high, 10.0, THREE);
    Scoring(f, low, usual, high, higher);
    es, l := [], First(0.5, 0.5);
    QuietBar(f, l.det, Empty(0.5), false, 0, 0, low, 0);
    es, l := Sealed(c, es, l, Minute(low, 0));
    QuietBar(f, l.det, ONE, false, 1, 0, usual, 1);
    es, l := Sealed(c, es, l, Minute(usual, 1));
    HighBar(f, l.det, TWO, false, 2, 1, high, 2);
    es, l := Sealed(c, es, l, Minute(high, 2));
    ThawingBar(f, l.det, TWO.(frozen := true), 2, 2, 2, high, 102);
    es, l := Sealed(c, es, l, Minute(high, 102));
  }

  lemma LevelsMean(f: Maths, low: real, usual: real, high: real, higher: real)
    requires Levels(f, low, usual, high, higher)
    ensures low > MIN_SIGMA && usual > MIN_SIGMA && high > MIN_SIGMA && higher > MIN_SIGMA
    ensures f.ln(low) == 0.0 && f.ln(usual) == 1.0 && f.ln(high) == 10.0
  {}

  lemma Sealed(c: Config, es: seq<Event>, l: Leader, b: Bar) returns (es': seq<Event>, l': Leader)
    requires Usable(c) && Reaches(c, es, l) && WholeDay(l.det.profile) && (l.clock.Some? ==> l.clock.value <= b.ts)
    ensures es' == es + [SealBar(b)] && Reaches(c, es', l') && l' == Step(c, l, SealBar(b))
    ensures l'.det == UpdateDetector(c, l.det, b).0 && l'.clock == Some(b.ts) && l'.stored == Some(SaveDetector(l'.det))
    ensures var tr := UpdateDetector(c, l.det, b).1; l'.log == if tr.Some? then l.log + [tr.value] else l.log
  {
    hide UpdateDetector;
    es', l' := es + [SealBar(b)], Step(c, l, SealBar(b));
    Goes(c, es, l, SealBar(b));
  }

  lemma Promoted(c: Config, es: seq<Event>, l: Leader, p: Detector) returns (es': seq<Event>, l': Leader)
    requires Usable(c) && Reaches(c, es, l) && WholeDay(l.det.profile) && WholeDay(p.profile) && l.stored == Some(SaveDetector(l.det))
    ensures es' == es + [Promote(p)] && Reaches(c, es', l')
    ensures l'.det == RestoreDetector(p, SaveDetector(l.det)) && l'.log == l.log && l'.clock == l.clock && l'.stored == l.stored
  {
    hide UpdateDetector;
    es', l' := es + [Promote(p)], Step(c, l, Promote(p));
    Goes(c, es, l, Promote(p));
  }

  /** Another process ends that event and escalates again, and the first is promoted over its event. */
  lemma SecondReign(f: Maths, low: real, usual: real, high: real, higher: real, es: seq<Event>, l: Leader)
    returns (es': seq<Event>, l': Leader)
    requires RootLike(f.sqrt) && Levels(f, low, usual, high, higher)
    requires Reaches(Always(f), es, l) && l.clock == Some(102) && l.stored == Some(SaveDetector(l.det))
    requires Stands(l.det, Stressed, Some(2), true, THREE, true, 2, 102)
    ensures Reaches(Always(f), es', l')
    ensures es' == es + [Promote(Cold(0.5, 0.5)), SealBar(Minute(low, 103)), SealBar(Minute(higher, 104)), Promote(l.det)]
    ensures l'.clock == Some(104) && l'.log != [] && l'.log[|l'.log| - 1].ts == 104
    ensures Stands(l'.det, Stressed, Some(104), false, FOUR.(frozen := true), true, 3, 104)
  {
    hide Score, Factor, Admit, ObserveSigma, UpdateDetector, RootLike, Levels;
    var c := Always(f);
    LevelsMean(f, low, usual, high, higher);
    Admissions();
    Learns(f, THREE, low, 0.0, FOUR);
    Scoring(f, low, usual, high, higher);
    es', l' := Promoted(c, es, l, Cold(0.5, 0.5));
    ClearingBar(f, l'.det, true, THREE, false, 2, 102, 2, low, 103);
    es', l' := Sealed(c, es', l', Minute(low, 103));
    HighBar(f, l'.det, FOUR, false, 3, 103, higher, 104);
    es', l' := Sealed(c, es', l', Minute(higher, 104));
    es', l' := Promoted(c, es', l', l.det);
  }

  /**
    The label of a thaw can be lost: whatever the logarithm and the root, a run of
    two processes, each promoted as it really would be, comes to an event that has
    lasted as long as a thaw takes and is then cleared under an ordinary label.
   */
  lemma DeafClearIsMislabelled(f: Maths, low: real, usual: real, high: real, higher: real)
    requires RootLike(f.sqrt) && Levels(f, low, usual, high, higher)
    ensures Usable(Always(f)) && exists es, b :: Mislabels(Always(f), es, b)
  {
    hide Score, Factor, ObserveSigma, UpdateDetector, RootLike, Levels, Legal, Run;
    var c := Always(f);
    var led, first := FirstReign(f, low, usual, high, higher);
    var es, l := SecondReign(f, low, usual, high, higher, led, first);
    LevelsMean(f, low, usual, high, higher);
    Scoring(f, low, usual, high, higher);
    ClearingBar(f, l.det, false, FOUR.(frozen := true), true, 3, 104, 104, low, 204);
    assert es[..|led|] == led;
    assert LedAt(c, es, |led|, first.det);
    forall i | 0 <= i < |es| && es[i].Promote?
      ensures es[i].process == Cold(0.5, 0.5) || exists j | 0 <= j <= i :: LedAt(c, es, j, es[i].process)
    {
      if i < |led| {
        assert led[i] in led && es[i] == led[i];
      } else if i > |led| {
        assert es[i] == Promote(first.det);
      }
    }
    assert Mislabels(c, es, Minute(low, 204));
  }
}
