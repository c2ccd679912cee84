/**
  The regime trigger: two thresholds, confirmation in samples and in time, a
  cooldown on escalation only, and a hold while nothing can be measured.
  Instants are seconds; the z-score is an input, absent while the baseline is not
  ready. The human-readable reasons are not modelled.
 */
module Trigger {
  import opened Wrappers

  datatype Regime = Normal | Stressed {
    function Flip(): Regime { if Normal? then Stressed else Normal }
  }

  datatype Cause = Threshold | BaselineThaw | ObservationLost

  datatype TriggerConfig = TriggerConfig(
    enterZ: real, exitZ: real,
    minConfirm: nat, confirmFor: int, sampleTimeout: int,
    cooldown: int, thawAfter: int, observationTimeout: int)

  /** What the configuration refuses to be built without. */
  predicate Accepted(c: TriggerConfig) {
    c.exitZ < c.enterZ && c.minConfirm >= 1 && c.confirmFor >= 0 && c.sampleTimeout > 0 && c.sampleTimeout > c.confirmFor
  }

  datatype Transition = Transition(
    ts: int, seqNo: int, from: Regime, to: Regime,
    trigger: Option<real>, threshold: real, sigma: Option<real>, cause: Cause)

  /** One observation; an unarmed one, or one without a z-score, is not evaluated. */
  datatype Sample = Sample(z: Option<real>, sigma: real, ts: int, armed: bool)

  datatype State = State(
    regime: Regime, seqNo: int, since: Option<int>,
    candidate: Option<Regime>, candidateSince: Option<int>, samples: nat,
    lastSample: Option<int>, lastEscalation: Option<int>, unobservedSince: Option<int>, thawed: bool)

  const INITIAL := State(Normal, 0, None, None, None, 0, None, None, None, false)

  // ---------------------------------------------------------------- one step

  predicate Evaluated(s: Sample) { s.armed && s.z.Some? }

  function Target(c: TriggerConfig, r: Regime, z: real): Regime {
    if r.Normal? then (if z >= c.enterZ then Stressed else Normal)
    else (if z <= c.exitZ then Normal else Stressed)
  }

  function Forget(t: State): State { t.(candidate := None, candidateSince := None, samples := 0) }

  function Commit(c: TriggerConfig, t: State, target: Regime, z: Option<real>, threshold: real, sigma: Option<real>,
                  ts: int, cause: Cause): (State, Transition) {
    (Forget(t).(regime := target, seqNo := t.seqNo + 1, since := Some(ts), thawed := false,
                lastEscalation := if target.Stressed? then Some(ts) else t.lastEscalation),
     Transition(ts, t.seqNo + 1, t.regime, target, z, threshold, sigma, cause))
  }

  function Hold(c: TriggerConfig, t: State, ts: int): (State, Option<Transition>) {
    var start := if t.unobservedSince.None? then ts else t.unobservedSince.value;
    var t' := Forget(t).(unobservedSince := Some(start));
    if t.regime.Stressed? && ts - start >= c.observationTimeout then
      var (t'', tr) := Commit(c, t', Normal, None, c.exitZ, None, ts, ObservationLost);
      (t'', Some(tr))
    else (t', None)
  }

  function Accumulate(c: TriggerConfig, t: State, target: Regime, s: Sample): (State, Option<Transition>)
    requires s.z.Some?
  {
    var t' := if t.candidate == Some(target) then t.(samples := t.samples + 1)
              else t.(candidate := Some(target), candidateSince := Some(s.ts), samples := 1);
    var heldFor := s.ts - (if t'.candidateSince.Some? then t'.candidateSince.value else s.ts);
    if t'.samples < c.minConfirm || heldFor < c.confirmFor then (t', None)
    else if target.Stressed? && t.lastEscalation.Some? && s.ts - t.lastEscalation.value < c.cooldown then (t', None)
    else
      var (t'', tr) := Commit(c, t', target, s.z, if target.Stressed? then c.enterZ else c.exitZ, Some(s.sigma), s.ts,
                              if target.Normal? && t.thawed then BaselineThaw else Threshold);
      (t'', Some(tr))
  }

  function Update(c: TriggerConfig, t: State, s: Sample): (State, Option<Transition>) {
    if !Evaluated(s) then Hold(c, t, s.ts)
    else
      var chained := if t.lastSample.Some? && s.ts - t.lastSample.value > c.sampleTimeout then Forget(t) else t;
      var t' := chained.(unobservedSince := None, lastSample := Some(s.ts));
      var target := Target(c, t.regime, s.z.value);
      if target == t.regime then (Forget(t'), None) else Accumulate(c, t', target, s)
  }

  function MarkThawed(t: State): State { t.(thawed := true) }

  predicate ShouldThaw(c: TriggerConfig, t: State, now: int) {
    t.regime.Stressed? && t.since.Some? && now - t.since.value >= c.thawAfter
  }

  // ------------------------------------------------------------- persistence

  datatype Snapshot = Snapshot(regime: Regime, seqNo: int, since: Option<int>, lastEscalation: Option<int>, thawed: bool)

  function Save(t: State): Snapshot { Snapshot(t.regime, t.seqNo, t.since, t.lastEscalation, t.thawed) }

  function Restore(s: Snapshot): State {
    INITIAL.(regime := s.regime, seqNo := s.seqNo, since := s.since, lastEscalation := s.lastEscalation, thawed := s.thawed)
  }

  // --------------------------------------------------------------- the class

  class SchmittTrigger {
    const config: TriggerConfig
    var regime: Regime
    var seqNo: int
    var regimeSince: Option<int>
    var candidate: Option<Regime>
    var candidateSince: Option<int>
    var candidateSamples: nat
    var lastSampleTs: Option<int>
    var lastEscalation: Option<int>
    var unobservedSince: Option<int>
    var thawed: bool

    function Abs(): State
      reads this
    {
      State(regime, seqNo, regimeSince, candidate, candidateSince, candidateSamples,
            lastSampleTs, lastEscalation, unobservedSince, thawed)
    }

    constructor (config: TriggerConfig)
      ensures this.config == config && Abs() == INITIAL
    {
      this.config := config;
      regime, seqNo, regimeSince := Normal, 0, None;
      candidate, candidateSince, candidateSamples := None, None, 0;
      lastSampleTs, lastEscalation, unobservedSince, thawed := None, None, None, false;
    }

    constructor FromSnapshot(config: TriggerConfig, s: Snapshot)
      ensures this.config == config && Abs() == Restore(s)
    {
      this.config := config;
      regime, seqNo, regimeSince := s.regime, s.seqNo, s.since;
      candidate, candidateSince, candidateSamples := None, None, 0;
      lastSampleTs, lastEscalation, unobservedSince, thawed := None, s.lastEscalation, None, s.thawed;
    }

    method ResetCandidate()
      modifies this
      ensures Abs() == Forget(old(Abs()))
    {
      candidate, candidateSince, candidateSamples := None, None, 0;
    }

    method Thaw()
      modifies this
      ensures Abs() == MarkThawed(old(Abs()))
    {
      thawed := true;
    }

    method CommitTo(target: Regime, z: Option<real>, threshold: real, sigma: Option<real>, ts: int, cause: Cause)
      returns (tr: Transition)
      modifies this
      ensures (Abs(), tr) == Commit(config, old(Abs()), target, z, threshold, sigma, ts, cause)
    {
      var before := regime;
      regime := target;
      seqNo := seqNo + 1;
      regimeSince := Some(ts);
      ResetCandidate();
      thawed := false;
      if target == Stressed {
        lastEscalation := Some(ts);
      }
      tr := Transition(ts, seqNo, before, target, z, threshold, sigma, cause);
    }

    method HoldRegime(ts: int) returns (tr: Option<Transition>)
      modifies this
      ensures (Abs(), tr) == Hold(config, old(Abs()), ts)
    {
      tr := None;
      ResetCandidate();
      if unobservedSince.None? {
        unobservedSince := Some(ts);
      }
      if regime == Stressed && ts - unobservedSince.value >= config.observationTimeout {
        var lost := CommitTo(Normal, None, config.exitZ, None, ts, ObservationLost);
        tr := Some(lost);
      }
    }

    method AccumulateFor(target: Regime, s: Sample) returns (tr: Option<Transition>)
      requires s.z.Some?
      requires candidate == Some(target) ==> candidateSince.Some?
      modifies this
      ensures (Abs(), tr) == Accumulate(config, old(Abs()), target, s)
    {
      if candidate != Some(target) {
        candidate, candidateSince, candidateSamples := Some(target), Some(s.ts), 1;
      } else {
        candidateSamples := candidateSamples + 1;
      }
      var heldFor := s.ts - candidateSince.value;
      if candidateSamples < config.minConfirm || heldFor < config.confirmFor {
        return None;
      }
      if target == Stressed && lastEscalation.Some? && s.ts - lastEscalation.value < config.cooldown {
        return None;
      }
      var threshold := if target == Stressed then config.enterZ else config.exitZ;
      var cause := Threshold;
      if target == Normal && thawed {
        cause := BaselineThaw;
      }
      var done := CommitTo(target, s.z, threshold, Some(s.sigma), s.ts, cause);
      tr := Some(done);
    }

    /** One observation; a transition only where the committed regime changes. */
    method Observe(s: Sample) returns (tr: Option<Transition>)
      requires candidate.Some? ==> candidateSince.Some?
      modifies this
      ensures (Abs(), tr) == Update(config, old(Abs()), s)
      ensures candidate.Some? ==> candidateSince.Some?
    {
      if !s.armed || s.z.None? {
        tr := HoldRegime(s.ts);
        return;
      }
      unobservedSince := None;
      if lastSampleTs.Some? && s.ts - lastSampleTs.value > config.sampleTimeout {
        ResetCandidate();
      }
      lastSampleTs := Some(s.ts);
      var target := Target(config, regime, s.z.value);
      if target == regime {
        ResetCandidate();
        return None;
      }
      tr := AccumulateFor(target, s);
    }
  }

  // ----------------------------------------- what a transition is evidence of

  /** Evaluated, and at or beyond the threshold for leaving regime `r`: the upper one from normal, the lower one from stressed. */
  predicate Qualifies(c: TriggerConfig, r: Regime, s: Sample) {
    s.armed && s.z.Some? && if r == Normal then c.enterZ <= s.z.value else s.z.value <= c.exitZ
  }

  predicate Consecutive(c: TriggerConfig, a: Sample, b: Sample) { b.ts - a.ts <= c.sampleTimeout }

  /** How many samples at the end of `h` qualify one after the other, none too late after the one before. */
  function Streak(c: TriggerConfig, r: Regime, h: seq<Sample>): (n: nat)
    ensures n <= |h| && (n > 0 <==> h != [] && Qualifies(c, r, h[|h| - 1]))
  {
    if h == [] || !Qualifies(c, r, h[|h| - 1]) then 0
    else if |h| >= 2 && Qualifies(c, r, h[|h| - 2]) && Consecutive(c, h[|h| - 2], h[|h| - 1]) then
      Streak(c, r, h[..|h| - 1]) + 1
    else 1
  }

  /** When the unevaluated samples at the end of `h` began. */
  function BlindSince(h: seq<Sample>): (r: Option<int>)
    ensures r.Some? <==> h != [] && !Evaluated(h[|h| - 1])
  {
    if h == [] || Evaluated(h[|h| - 1]) then None
    else if |h| >= 2 && !Evaluated(h[|h| - 2]) then BlindSince(h[..|h| - 1])
    else Some(h[|h| - 1].ts)
  }

  /** Samples that all qualify, each close enough after the one before. */
  predicate IsRun(c: TriggerConfig, r: Regime, run: seq<Sample>) {
    && (forall i | 0 <= i < |run| :: Qualifies(c, r, run[i]))
    && (forall i | 0 < i < |run| :: Consecutive(c, run[i - 1], run[i]))
  }

  /** A run of samples that confirms leaving regime `r`. */
  predicate Backs(c: TriggerConfig, r: Regime, run: seq<Sample>) {
    |run| >= c.minConfirm && |run| >= 1 && IsRun(c, r, run) && run[|run| - 1].ts - run[0].ts >= c.confirmFor
  }

  predicate CoolingDown(c: TriggerConfig, t: State, ts: int) {
    t.regime.Normal? && t.lastEscalation.Some? && ts - t.lastEscalation.value < c.cooldown
  }

  /** The trigger after the samples `h` seen since it last changed regime or was restored. */
  ghost predicate Remembers(c: TriggerConfig, t: State, h: seq<Sample>) {
    var n := Streak(c, t.regime, h);
    && t.samples == n
    && (n == 0 ==> t.candidate.None? && t.candidateSince.None?)
    && (n > 0 ==> t.candidate == Some(t.regime.Flip()) && t.candidateSince == Some(h[|h| - n].ts) &&
                  t.lastSample == Some(h[|h| - 1].ts))
    && (t.regime.Stressed? ==> t.unobservedSince == BlindSince(h))
  }

  /** The streak is a run, and with the sample before it, it would not be one. */
  lemma {:induction false} StreakIsTheLongestRun(c: TriggerConfig, r: Regime, h: seq<Sample>)
    ensures var n := Streak(c, r, h);
      IsRun(c, r, h[|h| - n..]) && (n < |h| ==> !IsRun(c, r, h[|h| - n - 1..]))
  {
    hide Qualifies, Consecutive, IsRun;
    if h == [] {
      NoRun(c, r, h);
    } else {
      var init, last := h[..|h| - 1], h[|h| - 1];
      StreakIsTheLongestRun(c, r, init);
      var m := Streak(c, r, init);
      if Streak(c, r, h) > 1 {
        LongerStreak(c, r, h, m);
      } else {
        ShortStreak(c, r, h);
      }
    }
  }

  lemma NoRun(c: TriggerConfig, r: Regime, h: seq<Sample>)
    requires h == []
    ensures IsRun(c, r, h[|h|..])
  {}

  /** A run and the sample after it, and what comes just before both. */
  lemma LongerStreak(c: TriggerConfig, r: Regime, h: seq<Sample>, m: nat)
    requires 0 < m < |h| && Qualifies(c, r, h[|h| - 1]) && Consecutive(c, h[|h| - 2], h[|h| - 1])
    requires IsRun(c, r, h[..|h| - 1][|h| - 1 - m..])
    requires m < |h| - 1 ==> !IsRun(c, r, h[..|h| - 1][|h| - 2 - m..])
    ensures IsRun(c, r, h[|h| - m - 1..]) && (m + 1 < |h| ==> !IsRun(c, r, h[|h| - m - 2..]))
  {
    hide Qualifies, Consecutive, IsRun;
    var init, last := h[..|h| - 1], h[|h| - 1];
    assert init[|init| - m..] + [last] == h[|h| - m - 1..];
    RunGrows(c, r, init[|init| - m..], last);
    if m < |init| {
      assert init[|init| - m - 1..] + [last] == h[|h| - m - 2..];
      RunShrinks(c, r, init[|init| - m - 1..], last);
    }
  }

  lemma ShortStreak(c: TriggerConfig, r: Regime, h: seq<Sample>)
    requires h != [] && Streak(c, r, h) <= 1
    ensures var n := Streak(c, r, h);
      IsRun(c, r, h[|h| - n..]) && (n < |h| ==> !IsRun(c, r, h[|h| - n - 1..]))
  {
    hide Qualifies, Consecutive;
    if Streak(c, r, h) == 0 {
      assert h[|h| - 1..][0] == h[|h| - 1];
    } else if |h| >= 2 {
      LastTwo(c, r, h);
    }
  }

  lemma LastTwo(c: TriggerConfig, r: Regime, h: seq<Sample>)
    requires |h| >= 2
    ensures IsRun(c, r, h[|h| - 2..]) ==> Qualifies(c, r, h[|h| - 2]) && Consecutive(c, h[|h| - 2], h[|h| - 1])
  {
    hide Qualifies, Consecutive;
    var two := h[|h| - 2..];
    assert two[0] == h[|h| - 2] && two[1] == h[|h| - 1];
    if IsRun(c, r, two) {
      assert Qualifies(c, r, two[0]) && Consecutive(c, two[1 - 1], two[1]);
    }
  }

  lemma RunGrows(c: TriggerConfig, r: Regime, run: seq<Sample>, s: Sample)
    requires IsRun(c, r, run) && Qualifies(c, r, s) && run != [] && Consecutive(c, run[|run| - 1], s)
    ensures IsRun(c, r, run + [s])
  {}

  lemma RunShrinks(c: TriggerConfig, r: Regime, run: seq<Sample>, s: Sample)
    ensures IsRun(c, r, run + [s]) ==> IsRun(c, r, run)
  {
    var longer := run + [s];
    assert forall i | 0 <= i < |run| :: run[i] == longer[i];
    if IsRun(c, r, longer) {
      forall i | 0 < i < |run| ensures Consecutive(c, run[i - 1], run[i]) {
        assert Consecutive(c, longer[i - 1], longer[i]);
      }
    }
  }

  /** The longest qualifying run at the end of `h` is long enough in samples and in time. */
  predicate Confirms(c: TriggerConfig, r: Regime, h: seq<Sample>) {
    var n := Streak(c, r, h);
    n >= 1 && n >= c.minConfirm && h[|h| - 1].ts - h[|h| - n].ts >= c.confirmFor
  }

  lemma ConfirmsIsBacked(c: TriggerConfig, r: Regime, h: seq<Sample>)
    ensures var n := Streak(c, r, h); Confirms(c, r, h) <==> Backs(c, r, h[|h| - n..])
  {
    StreakIsTheLongestRun(c, r, h);
  }

  predicate Lost(c: TriggerConfig, t: State, h: seq<Sample>, ts: int) {
    t.regime.Stressed? && BlindSince(h).Some? && ts - BlindSince(h).value >= c.observationTimeout
  }

  lemma UnevaluatedStep(c: TriggerConfig, t: State, h: seq<Sample>, s: Sample)
    requires Remembers(c, t, h) && !Evaluated(s)
    ensures var (t', tr) := Update(c, t, s);
      && !Confirms(c, t.regime, h + [s])
      && (tr.Some? <==> Lost(c, t, h + [s], s.ts))
      && (tr.Some? ==> tr.value.cause == ObservationLost && tr.value.threshold == c.exitZ)
      && (tr.Some? ==> tr.value.trigger == None && tr.value.sigma == None)
      && Remembers(c, t', if tr.Some? then [] else h + [s])
  {
    assert (h + [s])[..|h + [s]| - 1] == h;
    if h != [] {
      assert (h + [s])[|h + [s]| - 2] == h[|h| - 1];
    }
  }

  lemma InBandStep(c: TriggerConfig, t: State, h: seq<Sample>, s: Sample)
    requires Remembers(c, t, h) && Evaluated(s) && !Qualifies(c, t.regime, s)
    ensures var (t', tr) := Update(c, t, s);
      !Confirms(c, t.regime, h + [s]) && !Lost(c, t, h + [s], s.ts) && tr.None? && Remembers(c, t', h + [s])
  {}

  /** A qualifying sample extends the run it follows in time, or starts a new one. */
  lemma StreakOfSnoc(c: TriggerConfig, r: Regime, h: seq<Sample>, s: Sample)
    requires Qualifies(c, r, s)
    ensures var n, m := Streak(c, r, h + [s]), Streak(c, r, h);
      n == if m > 0 && Consecutive(c, h[|h| - 1], s) then m + 1 else 1
  {
    hide Qualifies, Consecutive;
    var h' := h + [s];
    assert h'[|h'| - 1] == s && h'[..|h'| - 1] == h;
    assert h != [] ==> h'[|h'| - 2] == h[|h| - 1];
  }

  /** What a confirmed transition records of the sample that confirmed it. */
  lemma ConfirmedRecords(c: TriggerConfig, t: State, s: Sample)
    requires Qualifies(c, t.regime, s)
    ensures var tr := Update(c, t, s).1;
      tr.Some? ==>
        && tr.value.trigger == s.z && tr.value.sigma == Some(s.sigma)
        && tr.value.threshold == if t.regime == Normal then c.enterZ else c.exitZ
  {}

  lemma QualifyingStep(c: TriggerConfig, t: State, h: seq<Sample>, s: Sample)
    requires Accepted(c) && Remembers(c, t, h) && Qualifies(c, t.regime, s)
    ensures var (t', tr) := Update(c, t, s);
      && (tr.Some? <==> Confirms(c, t.regime, h + [s]) && !CoolingDown(c, t, s.ts))
      && !Lost(c, t, h + [s], s.ts)
      && (tr.Some? ==> tr.value.cause == if t.regime.Stressed? && t.thawed then BaselineThaw else Threshold)
      && Remembers(c, t', if tr.Some? then [] else h + [s])
  {
    StreakOfSnoc(c, t.regime, h, s);
    var h' := h + [s];
    var n := Streak(c, t.regime, h');
    assert h'[|h'| - n] == if n == 1 then s else h[|h| - (n - 1)];
  }

  /**
    Exactly when the trigger commits. With `h` the samples since it last changed
    regime or was restored, the next sample brings a confirmed transition if and
    only if the longest unbroken qualifying run ending in it confirms and no
    cooldown is on; it brings an observation-lost one if and only if the regime is
    stressed and nothing was evaluated for the timeout; otherwise nothing is
    committed and the memory of the run is carried on.
   */
  lemma CommitsExactlyWhen(c: TriggerConfig, t: State, h: seq<Sample>, s: Sample)
    requires Accepted(c) && Remembers(c, t, h)
    ensures var (t', tr) := Update(c, t, s);
      var h' := h + [s];
      var n := Streak(c, t.regime, h');
      var confirmed := Backs(c, t.regime, h'[|h'| - n..]) && !CoolingDown(c, t, s.ts);
      var lost := Lost(c, t, h', s.ts);
      && (tr.Some? <==> confirmed || lost)
      && (confirmed ==> tr.value.cause != ObservationLost && tr.value.trigger == s.z && tr.value.sigma == Some(s.sigma))
      && (lost ==> tr.value.cause == ObservationLost && tr.value.trigger == None && tr.value.sigma == None)
      && (tr.Some? ==>
            && tr.value.ts == s.ts && tr.value.from == t.regime && tr.value.to == t.regime.Flip() == t'.regime
            && tr.value.seqNo == t'.seqNo == t.seqNo + 1
            && tr.value.threshold == (if tr.value.to == Stressed then c.enterZ else c.exitZ)
            && (tr.value.cause == BaselineThaw <==> t.regime.Stressed? && t.thawed && confirmed))
      && Remembers(c, t', if tr.Some? then [] else h')
  {
    ConfirmsIsBacked(c, t.regime, h + [s]);
    if !Evaluated(s) {
      UnevaluatedStep(c, t, h, s);
    } else if Qualifies(c, t.regime, s) {
      QualifyingStep(c, t, h, s);
      ConfirmedRecords(c, t, s);
    } else {
      InBandStep(c, t, h, s);
    }
  }

  // --------------------------------------------------------------- the band

  predicate InTimeOrder(h: seq<Sample>) { forall i, j | 0 <= i <= j < |h| :: h[i].ts <= h[j].ts }

  /** The last `n` samples are armed and scored, none too late after the one before, enough of them and over enough time. */
  predicate Unbroken(c: TriggerConfig, h: seq<Sample>, n: nat) {
    && 0 < n <= |h| && n >= c.minConfirm && h[|h| - 1].ts - h[|h| - n].ts >= c.confirmFor
    && (forall i | |h| - n <= i < |h| :: h[i].armed && h[i].z.Some?)
    && (forall i | |h| - n < i < |h| :: h[i].ts - h[i - 1].ts <= c.sampleTimeout)
  }

  predicate HeldHigh(c: TriggerConfig, h: seq<Sample>, n: nat) {
    Unbroken(c, h, n) && forall i | |h| - n <= i < |h| :: h[i].z.value >= c.enterZ
  }

  predicate HeldLow(c: TriggerConfig, h: seq<Sample>, n: nat) {
    Unbroken(c, h, n) && forall i | |h| - n <= i < |h| :: h[i].z.value <= c.exitZ
  }

  lemma HeldIsBacked(c: TriggerConfig, h: seq<Sample>, n: nat)
    requires 0 < n <= |h|
    ensures Backs(c, Normal, h[|h| - n..]) <==> HeldHigh(c, h, n)
    ensures Backs(c, Stressed, h[|h| - n..]) <==> HeldLow(c, h, n)
  {
    var run := h[|h| - n..];
    assert forall i | 0 <= i < n :: run[i] == h[|h| - n + i];
    assert forall i | |h| - n <= i < |h| :: h[i] == run[i - (|h| - n)];
    forall i | |h| - n < i < |h|
      ensures Consecutive(c, run[i - (|h| - n) - 1], run[i - (|h| - n)]) <==> h[i].ts - h[i - 1].ts <= c.sampleTimeout
    {}
    if Unbroken(c, h, n) {
      forall j | 0 < j < n ensures Consecutive(c, run[j - 1], run[j]) {
        assert h[|h| - n + j].ts - h[|h| - n + j - 1].ts <= c.sampleTimeout;
      }
    }
  }

  lemma EndOfRun(c: TriggerConfig, r: Regime, run: seq<Sample>, k: nat)
    requires k <= |run| && IsRun(c, r, run)
    ensures IsRun(c, r, run[k..])
  {
    hide Qualifies, Consecutive;
    var end := run[k..];
    assert forall i | 0 <= i < |end| :: end[i] == run[k + i];
    forall i | 0 < i < |end| ensures Consecutive(c, end[i - 1], end[i]) {
      assert Consecutive(c, run[k + i - 1], run[k + i]);
    }
  }

  lemma StreakReaches(c: TriggerConfig, r: Regime, h: seq<Sample>, n: nat)
    requires 0 < n <= |h| && IsRun(c, r, h[|h| - n..])
    ensures Streak(c, r, h) >= n
  {
    hide IsRun, Streak;
    StreakIsTheLongestRun(c, r, h);
    var m := Streak(c, r, h);
    var k := if m < n then m + 1 else n;
    EndOfRun(c, r, h[|h| - n..], n - k);
    assert h[|h| - n..][n - k..] == h[|h| - k..];
  }

  lemma LongerInTime(h: seq<Sample>, n: nat, m: nat)
    requires InTimeOrder(h) && 0 < n <= m <= |h|
    ensures h[|h| - m].ts <= h[|h| - n].ts
  {}

  lemma BackedByEnds(c: TriggerConfig, r: Regime, h: seq<Sample>, n: nat)
    requires 0 < n <= |h|
    ensures Backs(c, r, h[|h| - n..]) <==>
      n >= c.minConfirm && IsRun(c, r, h[|h| - n..]) && h[|h| - 1].ts - h[|h| - n].ts >= c.confirmFor
  {
    hide IsRun;
  }

  /** If any stretch at the end confirms, the longest does. */
  lemma AnyRunConfirms(c: TriggerConfig, r: Regime, h: seq<Sample>, n: nat)
    requires InTimeOrder(h) && 0 < n <= |h| && Backs(c, r, h[|h| - n..])
    ensures var m := Streak(c, r, h); m >= n && Backs(c, r, h[|h| - m..])
  {
    hide IsRun, Streak, Backs, InTimeOrder;
    BackedByEnds(c, r, h, n);
    StreakReaches(c, r, h, n);
    var m := Streak(c, r, h);
    LongerInTime(h, n, m);
    StreakIsTheLongestRun(c, r, h);
    BackedByEnds(c, r, h, m);
  }

  /**
    The two thresholds, in numbers. For samples in time order, the next one escalates
    if and only if some stretch ending in it lies at or above `enterZ` throughout and
    no cooldown is on, from normal only; it clears, other than for want of
    observations, if and only if some stretch lies at or below `exitZ` throughout,
    from stressed only.
   */
  lemma ThresholdsApply(c: TriggerConfig, t: State, h: seq<Sample>, s: Sample)
    requires Accepted(c) && Remembers(c, t, h) && InTimeOrder(h + [s])
    ensures var tr := Update(c, t, s).1;
      var h' := h + [s];
      && (tr.Some? && tr.value.to == Stressed <==>
            && t.regime == Normal && (exists n :: HeldHigh(c, h', n))
            && (t.lastEscalation.Some? ==> s.ts - t.lastEscalation.value >= c.cooldown))
      && (tr.Some? && tr.value.to == Normal && tr.value.cause != ObservationLost <==>
            t.regime == Stressed && exists n :: HeldLow(c, h', n))
  {
    hide Update, Backs, HeldHigh, HeldLow, InTimeOrder;
    CommitsExactlyWhen(c, t, h, s);
    var h' := h + [s];
    var m := Streak(c, t.regime, h');
    if m > 0 {
      HeldIsBacked(c, h', m);
    } else {
      NothingBacks(c, t.regime, h');
    }
    forall n: nat | HeldHigh(c, h', n) || HeldLow(c, h', n)
      ensures t.regime == Normal && HeldHigh(c, h', n) ==> m > 0 && Backs(c, t.regime, h'[|h'| - m..])
      ensures t.regime == Stressed && HeldLow(c, h', n) ==> m > 0 && Backs(c, t.regime, h'[|h'| - m..])
    {
      HeldIsSome(c, h', n);
      HeldIsBacked(c, h', n);
      if Backs(c, t.regime, h'[|h'| - n..]) {
        AnyRunConfirms(c, t.regime, h', n);
      }
    }
  }

  lemma HeldIsSome(c: TriggerConfig, h: seq<Sample>, n: nat)
    requires HeldHigh(c, h, n) || HeldLow(c, h, n)
    ensures 0 < n <= |h|
  {}

  lemma NothingBacks(c: TriggerConfig, r: Regime, h: seq<Sample>)
    ensures !Backs(c, r, h[|h|..])
  {}

  /** The samples one after the other, and every transition they bring. */
  function Feed(c: TriggerConfig, t: State, ss: seq<Sample>): (State, seq<Transition>) {
    if ss == [] then (t, [])
    else
      var (t', trs) := Feed(c, t, ss[..|ss| - 1]);
      var (t'', tr) := Update(c, t', ss[|ss| - 1]);
      (t'', if tr.Some? then trs + [tr.value] else trs)
  }

  /** Between the thresholds neither fires. */
  predicate InBand(c: TriggerConfig, s: Sample) { s.z.Some? ==> c.exitZ < s.z.value < c.enterZ }

  /**
    Over any samples in the band, from either regime and whatever was half confirmed
    before, nothing is committed but a loss of observations; and if every sample is
    evaluated, nothing at all.
   */
  lemma {:induction false} BandHoldsTheRegime(c: TriggerConfig, t: State, ss: seq<Sample>)
    requires forall i | 0 <= i < |ss| :: InBand(c, ss[i])
    ensures forall i | 0 <= i < |Feed(c, t, ss).1| :: Feed(c, t, ss).1[i].cause == ObservationLost
    ensures (forall i | 0 <= i < |ss| :: ss[i].armed && ss[i].z.Some?) ==>
      Feed(c, t, ss).1 == [] && Feed(c, t, ss).0.regime == t.regime
  {
    if ss != [] {
      hide Update;
      BandHoldsTheRegime(c, t, ss[..|ss| - 1]);
      BandStep(c, Feed(c, t, ss[..|ss| - 1]).0, ss[|ss| - 1]);
    }
  }

  lemma BandStep(c: TriggerConfig, t: State, s: Sample)
    requires InBand(c, s)
    ensures var (t', tr) := Update(c, t, s);
      (tr.Some? ==> tr.value.cause == ObservationLost) && (s.armed && s.z.Some? ==> tr.None? && t'.regime == t.regime)
  {}

  /** A stress is not called off while the scores stay above the lower threshold, nor called while they stay below the upper. */
  lemma {:induction false} RegimeOutlastsNoise(c: TriggerConfig, t: State, ss: seq<Sample>)
    requires forall i | 0 <= i < |ss| :: ss[i].armed && ss[i].z.Some?
    requires if t.regime == Stressed then forall i | 0 <= i < |ss| :: ss[i].z.value > c.exitZ
      else forall i | 0 <= i < |ss| :: ss[i].z.value < c.enterZ
    ensures Feed(c, t, ss).1 == [] && Feed(c, t, ss).0.regime == t.regime
  {
    if ss != [] {
      hide Update;
      RegimeOutlastsNoise(c, t, ss[..|ss| - 1]);
      NoiseStep(c, Feed(c, t, ss[..|ss| - 1]).0, ss[|ss| - 1]);
    }
  }

  lemma NoiseStep(c: TriggerConfig, t: State, s: Sample)
    requires s.armed && s.z.Some?
    requires if t.regime == Stressed then s.z.value > c.exitZ else s.z.value < c.enterZ
    ensures Update(c, t, s).1.None? && Update(c, t, s).0.regime == t.regime
  {}
}
