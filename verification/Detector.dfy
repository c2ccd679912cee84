/**
  One symbol's detection path: gate, normalise by hour of day, score against the
  freezable baseline, decide, and learn only from normal conditions.
 */
module Detector {
  import opened Baseline
  import opened Trigger
  import opened Wrappers

  // ----------------------------------------------------- the hour-of-day profile

  const HOURS := 24

  datatype Profile = Profile(lam: real, hourMean: seq<real>, hourN: seq<nat>)

  datatype ProfileConfig = ProfileConfig(minSamples: nat, minReadyHours: nat, lo: real, hi: real)

  predicate WholeDay(p: Profile) { |p.hourMean| == HOURS && |p.hourN| == HOURS }

  function HourOf(ts: int): nat { (ts / 3600) % HOURS }

  /** Sum and count of the first `k` hours that are learned. */
  function Learned(c: ProfileConfig, p: Profile, k: nat): (real, nat)
    requires WholeDay(p) && k <= HOURS
  {
    if k == 0 then (0.0, 0) else
      var (s, n) := Learned(c, p, k - 1);
      if p.hourN[k - 1] >= c.minSamples then (s + p.hourMean[k - 1], n + 1) else (s, n)
  }

  predicate Clamps(c: ProfileConfig) { 0.0 < c.lo < 1.0 < c.hi }

  /** Typical volatility of an hour against the typical hour; exactly one until it is learned. */
  function Factor(f: Maths, c: ProfileConfig, p: Profile, hour: nat): (r: real)
    requires WholeDay(p) && hour < HOURS && Clamps(c)
    ensures c.lo <= r <= c.hi
  {
    var (s, n) := Learned(c, p, HOURS);
    if n < c.minReadyHours || n == 0 || p.hourN[hour] < c.minSamples then 1.0
    else
      var x := f.exp(p.hourMean[hour] - s / n as real);
      if x < c.lo then c.lo else if c.hi < x then c.hi else x
  }

  /** An hour's running mean after one more ln(sigma). */
  function Blend(lam: real, n: nat, m: real, x: real): real { if n == 0 then x else m + (1.0 - lam) * (x - m) }

  function LearnHour(ln: real -> real, p: Profile, sigma: real, hour: nat): (r: Profile)
    requires WholeDay(p) && hour < HOURS
    ensures WholeDay(r)
  {
    if sigma <= MIN_SIGMA then p
    else p.(hourMean := p.hourMean[hour := Blend(p.lam, p.hourN[hour], p.hourMean[hour], ln(sigma))],
            hourN := p.hourN[hour := p.hourN[hour] + 1])
  }

  // ------------------------------------------------------------------ the detector

  datatype Config = Config(
    trigger: TriggerConfig, sessionWarmup: int, rearmBars: nat, minSamples: nat,
    profile: ProfileConfig, maths: Maths, isOpen: int -> bool)

  ghost predicate Usable(c: Config) { Accepted(c.trigger) && Clamps(c.profile) }

  datatype Detector = Detector(
    trigger: State, baseline: Moments, profile: Profile,
    wasOpen: Option<bool>, openedAt: Option<int>, contiguousOk: nat, lastZ: Option<real>, rebaselining: bool)

  datatype Bar = Bar(sigma: real, ts: int, isGap: bool, isBackfill: bool, feedStale: bool)

  function OpenedAt(c: Config, d: Detector, ts: int): Option<int> {
    if d.wasOpen == Some(false) && c.isOpen(ts) then Some(ts) else d.openedAt
  }

  /** Whether the bar must not be evaluated at all. */
  predicate Gated(c: Config, d: Detector, b: Bar) {
    || !c.isOpen(b.ts)
    || (OpenedAt(c, d, b.ts).Some? && b.ts - OpenedAt(c, d, b.ts).value < c.sessionWarmup)
    || b.isGap || b.isBackfill || b.feedStale
  }

  predicate Rearming(c: Config, d: Detector) { d.contiguousOk + 1 <= c.rearmBars }

  function Adjusted(c: Config, d: Detector, b: Bar): real
    requires Usable(c) && WholeDay(d.profile)
  {
    b.sigma / Factor(c.maths, c.profile, d.profile, HourOf(b.ts))
  }

  /** What the trigger is shown for this bar. */
  function Presented(c: Config, d: Detector, b: Bar): Sample
    requires Usable(c) && WholeDay(d.profile)
  {
    if Gated(c, d, b) || Rearming(c, d) then Sample(None, b.sigma, b.ts, false)
    else Sample(Score(c.maths, d.baseline, c.minSamples, Adjusted(c, d, b)), Adjusted(c, d, b), b.ts, true)
  }

  /** The stress has lasted long enough for the reference to follow it. */
  predicate Thaws(c: Config, d: Detector, b: Bar) {
    !Gated(c, d, b) && !Rearming(c, d) && ShouldThaw(c.trigger, d.trigger, b.ts) && !d.rebaselining
  }

  function UpdateDetector(c: Config, d: Detector, b: Bar): (r: (Detector, Option<Transition>))
    requires Usable(c) && WholeDay(d.profile)
    ensures WholeDay(r.0.profile)
  {
    var s := Presented(c, d, b);
    var seen := d.(wasOpen := Some(c.isOpen(b.ts)), openedAt := OpenedAt(c, d, b.ts));
    if Gated(c, d, b) || Rearming(c, d) then
      var (t, tr) := Update(c.trigger, d.trigger, s);
      (seen.(trigger := t, contiguousOk := if Gated(c, d, b) then 0 else d.contiguousOk + 1, lastZ := None), tr)
    else
      var thaws := Thaws(c, d, b);
      var base := if thaws then d.baseline.(frozen := false) else d.baseline;
      var (t, tr) := Update(c.trigger, if thaws then MarkThawed(d.trigger) else d.trigger, s);
      var rebaselining := tr.None? && (thaws || d.rebaselining);
      var held := base.(frozen := if t.regime.Normal? then false else if !rebaselining then true else base.frozen);
      (seen.(trigger := t, contiguousOk := d.contiguousOk + 1, lastZ := s.z, rebaselining := rebaselining,
             baseline := if t.regime.Normal? || rebaselining then ObserveSigma(c.maths.ln, held, s.sigma) else held,
             profile := if t.regime.Normal? then LearnHour(c.maths.ln, d.profile, b.sigma, HourOf(b.ts)) else d.profile),
       tr)
  }

  datatype Saved = Saved(trigger: Snapshot, baseline: Moments, profile: Profile)

  function SaveDetector(d: Detector): Saved { Saved(Save(d.trigger), d.baseline, d.profile) }

  /** A stored snapshot replaces the trigger, the baseline and the profile, and nothing else. */
  function RestoreDetector(d: Detector, s: Saved): Detector {
    d.(trigger := Restore(s.trigger), baseline := s.baseline, profile := s.profile)
  }

  function Cold(baselineLam: real, profileLam: real): (d: Detector)
    ensures WholeDay(d.profile)
  {
    Detector(INITIAL, Empty(baselineLam), Profile(profileLam, seq(HOURS, _ => 0.0), seq(HOURS, _ => 0)),
             None, None, 0, None, false)
  }

  // --------------------------------------------------------------- the classes

  class DiurnalProfile {
    const lam: real
    var hourMean: seq<real>
    var hourN: seq<nat>

    function Abs(): Profile
      reads this
    {
      Profile(lam, hourMean, hourN)
    }

    constructor (s: Profile)
      ensures Abs() == s
    {
      lam, hourMean, hourN := s.lam, s.hourMean, s.hourN;
    }

    method Observe(ln: real -> real, sigma: real, hour: nat)
      requires WholeDay(Abs()) && hour < HOURS
      modifies this
      ensures Abs() == LearnHour(ln, old(Abs()), sigma, hour)
    {
      if sigma > MIN_SIGMA {
        hourMean := hourMean[hour := Blend(lam, hourN[hour], hourMean[hour], ln(sigma))];
        hourN := hourN[hour := hourN[hour] + 1];
      }
    }
  }

  class RegimeDetector {
    const config: Config
    var trigger: SchmittTrigger
    var baseline: VolatilityBaseline
    var profile: DiurnalProfile
    var wasOpen: Option<bool>
    var openedAt: Option<int>
    var contiguousOk: nat
    var lastZ: Option<real>
    var rebaselining: bool

    function Abs(): Detector
      reads this, trigger, baseline, profile
    {
      Detector(trigger.Abs(), baseline.Abs(), profile.Abs(), wasOpen, openedAt, contiguousOk, lastZ, rebaselining)
    }

    ghost predicate Valid()
      reads this, trigger, baseline, profile
    {
      && Usable(config) && WholeDay(profile.Abs()) && trigger.config == config.trigger
      && baseline.minSamples == config.minSamples
      && (trigger.candidate.Some? ==> trigger.candidateSince.Some?)
    }

    constructor (config: Config, baselineLam: real, profileLam: real)
      requires Usable(config)
      ensures Valid() && Abs() == Cold(baselineLam, profileLam) && this.config == config
      ensures fresh(trigger) && fresh(baseline) && fresh(profile)
    {
      this.config := config;
      trigger := new SchmittTrigger(config.trigger);
      baseline := new VolatilityBaseline(baselineLam, config.minSamples);
      profile := new DiurnalProfile(Profile(profileLam, seq(HOURS, _ => 0.0), seq(HOURS, _ => 0)));
      wasOpen, openedAt, contiguousOk, lastZ, rebaselining := None, None, 0, None, false;
    }

    /** True exactly for the bars `Gated` names; of the state, only what is known of the session moves. */
    method Gate(b: Bar) returns (gated: bool)
      modifies this`wasOpen, this`openedAt
      ensures gated == Gated(config, old(Abs()), b)
      ensures wasOpen == Some(config.isOpen(b.ts)) && openedAt == OpenedAt(config, old(Abs()), b.ts)
    {
      var openNow := config.isOpen(b.ts);
      if wasOpen == Some(false) && openNow {
        openedAt := Some(b.ts);
      }
      wasOpen := Some(openNow);
      if !openNow {
        return true;
      }
      if openedAt.Some? && b.ts - openedAt.value < config.sessionWarmup {
        return true;
      }
      return b.isGap || b.isBackfill || b.feedStale;
    }

    /** The new state and the transition are what `UpdateDetector` makes of the old state. */
    method Observe(b: Bar) returns (tr: Option<Transition>)
      requires Valid()
      modifies this, trigger, baseline, profile
      ensures Valid() && (Abs(), tr) == UpdateDetector(config, old(Abs()), b)
      ensures trigger == old(trigger) && baseline == old(baseline) && profile == old(profile)
    {
      hide Update, Score, Factor, ObserveSigma, LearnHour;
      var gated := Gate(b);
      if gated {
        contiguousOk, lastZ := 0, None;
        tr := trigger.Observe(Sample(None, b.sigma, b.ts, false));
        return;
      }
      contiguousOk := contiguousOk + 1;
      if contiguousOk <= config.rearmBars {
        lastZ := None;
        tr := trigger.Observe(Sample(None, b.sigma, b.ts, false));
        return;
      }
      var adjusted := b.sigma / Factor(config.maths, config.profile, profile.Abs(), HourOf(b.ts));
      lastZ := Score(config.maths, baseline.Abs(), config.minSamples, adjusted);
      if ShouldThaw(config.trigger, trigger.Abs(), b.ts) && !rebaselining {
        rebaselining := true;
        baseline.Thaw();
        trigger.Thaw();
      }
      tr := trigger.Observe(Sample(lastZ, adjusted, b.ts, true));
      if tr.Some? {
        rebaselining := false;
      }
      Learn(b, adjusted);
    }

    /** Freeze through stress, learn from normal conditions or while re-learning an accepted level. */
    method Learn(b: Bar, adjusted: real)
      requires Valid()
      modifies baseline, profile
      ensures Valid()
      ensures var base := old(baseline.Abs());
        var held := base.(frozen := if trigger.regime.Normal? then false else if !rebaselining then true else base.frozen);
        baseline.Abs() == if trigger.regime.Normal? || rebaselining then ObserveSigma(config.maths.ln, held, adjusted) else held
      ensures profile.Abs() == if trigger.regime.Normal? then LearnHour(config.maths.ln, old(profile.Abs()), b.sigma, HourOf(b.ts))
                               else old(profile.Abs())
    {
      if trigger.regime == Stressed && !rebaselining {
        baseline.Freeze();
      } else if trigger.regime == Normal {
        baseline.Thaw();
      }
      if trigger.regime == Normal || rebaselining {
        baseline.Observe(config.maths.ln, adjusted);
      }
      if trigger.regime == Normal {
        profile.Observe(config.maths.ln, b.sigma, HourOf(b.ts));
      }
    }

    method RestoreFrom(s: Saved)
      requires Valid() && WholeDay(s.profile)
      modifies this`trigger, this`baseline, this`profile
      ensures Valid() && Abs() == RestoreDetector(old(Abs()), s)
      ensures fresh(trigger) && fresh(baseline) && fresh(profile)
    {
      trigger := new SchmittTrigger.FromSnapshot(config.trigger, s.trigger);
      baseline := new VolatilityBaseline.FromSnapshot(s.baseline, config.minSamples);
      profile := new DiurnalProfile(s.profile);
    }
  }
}
