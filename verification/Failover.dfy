/**
  A symbol's detector across any number of leaders. Each sealed bar writes the
  snapshot and the transition in one transaction, so a leader that dies takes with
  it only what no bar had written. A promoted process restores the snapshot into
  its own detector, which may have led before.
 */
module Failover {
  import opened Baseline
  import opened Detector
  import opened Trigger
  import opened Wrappers

  /** `seen` is what the trigger was shown since it last changed regime or was restored. */
  datatype Leader = Leader(det: Detector, stored: Option<Saved>, log: seq<Transition>, clock: Option<int>, seen: seq<Sample>)

  datatype Event = SealBar(bar: Bar) | Promote(process: Detector)

  /** A process promoted before any snapshot exists starts cold. */
  ghost predicate Possible(l: Leader, e: Event) {
    match e
    case SealBar(b) => true
    case Promote(p) => WholeDay(p.profile) && (l.stored.None? ==> p.trigger == INITIAL)
  }

  ghost function Step(c: Config, l: Leader, e: Event): Leader
    requires Usable(c) && WholeDay(l.det.profile)
  {
    match e
    case SealBar(b) =>
      var (d, tr) := UpdateDetector(c, l.det, b);
      Leader(d, Some(SaveDetector(d)), if tr.Some? then l.log + [tr.value] else l.log, Some(b.ts),
             if tr.Some? then [] else l.seen + [Presented(c, l.det, b)])
    case Promote(p) =>
      l.(det := if l.stored.Some? then RestoreDetector(p, l.stored.value) else p, seen := [])
  }

  function First(baselineLam: real, profileLam: real): Leader { Leader(Cold(baselineLam, profileLam), None, [], None, []) }

  // ------------------------------------------------------- the transition log

  function RegimeAfter(n: nat): Regime { if n % 2 == 0 then Normal else Stressed }

  /** The log so far: numbered from one without a hole, alternating from normal, escalations a cooldown apart. */
  ghost predicate WellLogged(c: TriggerConfig, log: seq<Transition>) {
    && (forall i | 0 <= i < |log| :: log[i].seqNo == i + 1 && log[i].from == RegimeAfter(i) && log[i].to == RegimeAfter(i + 1))
    && (forall i | 2 <= i < |log| && i % 2 == 0 :: log[i].ts - log[i - 2].ts >= c.cooldown)
  }

  /** Transitions in the order of their bars, none later than the clock. */
  ghost predicate InOrder(log: seq<Transition>, clock: Option<int>) {
    && (forall i, j | 0 <= i <= j < |log| :: log[i].ts <= log[j].ts)
    && (log != [] ==> clock.Some? && log[|log| - 1].ts <= clock.value)
  }

  function LastEscalation(log: seq<Transition>): Option<int> {
    if log == [] then None
    else if log[|log| - 1].to.Stressed? then Some(log[|log| - 1].ts)
    else LastEscalation(log[..|log| - 1])
  }

  /** What a trigger must remember of the log. */
  ghost predicate FollowsLog(t: State, log: seq<Transition>) {
    && t.seqNo == |log| && t.regime == RegimeAfter(|log|)
    && t.lastEscalation == LastEscalation(log)
    && t.since == (if log == [] then None else Some(log[|log| - 1].ts))
  }

  lemma LastEscalationAt(c: TriggerConfig, log: seq<Transition>)
    requires WellLogged(c, log)
    ensures LastEscalation(log) == if |log| == 0 then None
      else if |log| % 2 == 1 then Some(log[|log| - 1].ts) else Some(log[|log| - 2].ts)
  {
    if |log| >= 2 {
      assert log[|log| - 1].to == RegimeAfter(|log|) && log[|log| - 2].to == RegimeAfter(|log| - 1);
      assert log[..|log| - 1][|log| - 2] == log[|log| - 2];
    } else if |log| == 1 {
      assert log[0].to == RegimeAfter(1);
    }
  }

  /** A transition is numbered next, leaves the current regime, and escalates only out of cooldown. */
  lemma UpdateSteps(c: TriggerConfig, t: State, s: Sample)
    requires Accepted(c)
    requires t.candidate.Some? ==> t.candidate == Some(t.regime.Flip())
    ensures var (t', tr) := Update(c, t, s);
      if tr.None? then t'.regime == t.regime && t'.seqNo == t.seqNo && t'.since == t.since && t'.lastEscalation == t.lastEscalation
      else
        && tr.value.seqNo == t.seqNo + 1 == t'.seqNo
        && tr.value.from == t.regime && tr.value.to == t.regime.Flip() == t'.regime
        && t'.since == Some(tr.value.ts)
        && t'.lastEscalation == (if t'.regime.Stressed? then Some(tr.value.ts) else t.lastEscalation)
        && (t'.regime.Stressed? && t.lastEscalation.Some? ==> tr.value.ts - t.lastEscalation.value >= c.cooldown)
  {}

  lemma LogGrows(c: TriggerConfig, log: seq<Transition>, tr: Transition)
    requires WellLogged(c, log)
    requires tr.seqNo == |log| + 1 && tr.from == RegimeAfter(|log|) && tr.to == tr.from.Flip()
    requires tr.to.Stressed? && LastEscalation(log).Some? ==> tr.ts - LastEscalation(log).value >= c.cooldown
    ensures WellLogged(c, log + [tr])
    ensures LastEscalation(log + [tr]) == if tr.to.Stressed? then Some(tr.ts) else LastEscalation(log)
  {
    LastEscalationAt(c, log);
    assert (log + [tr])[..|log|] == log;
    assert RegimeAfter(|log| + 1) == RegimeAfter(|log|).Flip();
    AppendsWell(c, log, tr);
  }

  lemma AppendsWell(c: TriggerConfig, log: seq<Transition>, tr: Transition)
    requires WellLogged(c, log)
    requires tr.seqNo == |log| + 1 && tr.from == RegimeAfter(|log|) && tr.to == RegimeAfter(|log| + 1)
    requires |log| >= 2 && |log| % 2 == 0 ==> tr.ts - log[|log| - 2].ts >= c.cooldown
    ensures WellLogged(c, log + [tr])
  {
    hide RegimeAfter;
    var log' := log + [tr];
    assert forall i | 0 <= i < |log| :: log'[i] == log[i];
  }

  lemma TriggerFollowsLog(c: TriggerConfig, t: State, log: seq<Transition>, s: Sample)
    requires Accepted(c) && WellLogged(c, log) && FollowsLog(t, log)
    requires t.candidate.Some? ==> t.candidate == Some(t.regime.Flip())
    ensures var (t', tr) := Update(c, t, s);
      var log' := if tr.Some? then log + [tr.value] else log;
      WellLogged(c, log') && FollowsLog(t', log')
  {
    hide Update;
    UpdateSteps(c, t, s);
    var tr := Update(c, t, s).1;
    if tr.Some? {
      LogGrows(c, log, tr.value);
    }
  }

  // ---------------------------------------------------------------- invariant

  ghost predicate Inv(c: Config, l: Leader)
    requires Usable(c)
  {
    && WholeDay(l.det.profile)
    && WellLogged(c.trigger, l.log) && FollowsLog(l.det.trigger, l.log)
    && InOrder(l.log, l.clock)
    && Remembers(c.trigger, l.det.trigger, l.seen)
    && (if l.stored.Some? then l.stored.value == SaveDetector(l.det)
        else l.det.trigger == INITIAL && l.log == [] && l.clock.None?)
    && (l.det.trigger.regime.Stressed? && l.det.trigger.thawed ==>
          l.clock.Some? && l.clock.value - l.det.trigger.since.value >= c.trigger.thawAfter)
    && (l.det.trigger.regime.Stressed? && !l.det.trigger.thawed ==> l.det.baseline.frozen)
    && (l.det.trigger.regime.Normal? ==> !l.det.trigger.thawed)
  }

  /** Bars are sealed in order, over all leaders. */
  ghost predicate InTime(l: Leader, e: Event) { e.SealBar? && l.clock.Some? ==> l.clock.value <= e.bar.ts }

  lemma MarkThawedRemembers(c: TriggerConfig, t: State, h: seq<Sample>)
    requires Remembers(c, t, h)
    ensures Remembers(c, MarkThawed(t), h)
  {}

  /** The trigger of the detector takes one step of its own on the sample it is presented with. */
  lemma DetectorFeedsTrigger(c: Config, d: Detector, b: Bar)
    requires Usable(c) && WholeDay(d.profile)
    ensures var (d', tr) := UpdateDetector(c, d, b);
      (d'.trigger, tr) == Update(c.trigger, if Thaws(c, d, b) then MarkThawed(d.trigger) else d.trigger, Presented(c, d, b))
  {}

  lemma CandidateIsTheOtherRegime(c: TriggerConfig, t: State, h: seq<Sample>)
    requires Remembers(c, t, h)
    ensures t.candidate.Some? ==> t.candidate == Some(t.regime.Flip())
  {}

  lemma SealKeepsOrder(c: Config, l: Leader, b: Bar)
    requires Usable(c) && WholeDay(l.det.profile) && InOrder(l.log, l.clock) && InTime(l, SealBar(b))
    ensures InOrder(Step(c, l, SealBar(b)).log, Some(b.ts))
  {
    hide Update, UpdateDetector;
    DetectorFeedsTrigger(c, l.det, b);
    var t := if Thaws(c, l.det, b) then MarkThawed(l.det.trigger) else l.det.trigger;
    UpdateMovesThawed(c.trigger, t, Presented(c, l.det, b));
  }

  lemma SealKeepsLog(c: Config, l: Leader, b: Bar)
    requires Usable(c) && Inv(c, l)
    ensures var l' := Step(c, l, SealBar(b));
      && WellLogged(c.trigger, l'.log) && FollowsLog(l'.det.trigger, l'.log)
      && Remembers(c.trigger, l'.det.trigger, l'.seen)
  {
    var t := if Thaws(c, l.det, b) then MarkThawed(l.det.trigger) else l.det.trigger;
    DetectorFeedsTrigger(c, l.det, b);
    MarkThawedRemembers(c.trigger, l.det.trigger, l.seen);
    CandidateIsTheOtherRegime(c.trigger, t, l.seen);
    TriggerFollowsLog(c.trigger, t, l.log, Presented(c, l.det, b));
    CommitsExactlyWhen(c.trigger, t, l.seen, Presented(c, l.det, b));
  }

  lemma UpdateMovesThawed(c: TriggerConfig, t: State, s: Sample)
    ensures var (t', tr) := Update(c, t, s);
      && t'.thawed == (tr.None? && t.thawed)
      && (!Evaluated(s) && tr.Some? ==> t'.regime.Normal?)
      && (tr.None? ==> t'.regime == t.regime && t'.since == t.since)
      && (tr.Some? ==> t'.since == Some(s.ts) && tr.value.ts == s.ts)
  {}

  /** What one bar does to the freeze flag, by what it does to the trigger. */
  lemma FreezeRule(c: Config, d: Detector, b: Bar)
    requires Usable(c) && WholeDay(d.profile)
    ensures var (d', tr) := UpdateDetector(c, d, b);
      && d'.trigger.thawed == (tr.None? && (d.trigger.thawed || Thaws(c, d, b)))
      && (tr.None? ==> d'.trigger.regime == d.trigger.regime && d'.trigger.since == d.trigger.since)
      && (tr.Some? ==> d'.trigger.since == Some(b.ts))
      && (d'.trigger.regime.Stressed? && !d'.trigger.thawed ==> d'.baseline.frozen || (tr.None? && d'.baseline.frozen == d.baseline.frozen))
  {
    hide Update, Score, Factor, ObserveSigma, LearnHour;
    var t := if Thaws(c, d, b) then MarkThawed(d.trigger) else d.trigger;
    UpdateMovesThawed(c.trigger, t, Presented(c, d, b));
    var (d', tr) := UpdateDetector(c, d, b);
    if !Gated(c, d, b) && !Rearming(c, d) {
      var base := d.baseline.(frozen := if Thaws(c, d, b) then false else d.baseline.frozen);
      var held := base.(frozen := if d'.trigger.regime.Normal? then false else if !d'.rebaselining then true else base.frozen);
      ObserveKeepsFlag(c.maths.ln, held, Presented(c, d, b).sigma);
    }
  }

  lemma ObserveKeepsFlag(ln: real -> real, m: Moments, sigma: real)
    ensures ObserveSigma(ln, m, sigma).frozen == m.frozen
  {}

  /** Freezing and thawing across one bar. */
  lemma SealKeepsFreeze(c: Config, l: Leader, b: Bar)
    requires Usable(c) && Inv(c, l) && InTime(l, SealBar(b))
    ensures var t, d := Step(c, l, SealBar(b)).det.trigger, Step(c, l, SealBar(b)).det;
      && (t.regime.Stressed? && t.thawed ==> t.since.Some? && b.ts - t.since.value >= c.trigger.thawAfter)
      && (t.regime.Stressed? && !t.thawed ==> d.baseline.frozen)
      && (t.regime.Normal? ==> !t.thawed)
  {
    hide UpdateDetector, WellLogged, Remembers;
    FreezeRule(c, l.det, b);
    assert l.det.trigger.regime.Stressed? ==> l.log != [] && l.det.trigger.since.Some?;
  }

  lemma StepKeeps(c: Config, l: Leader, e: Event)
    requires Usable(c) && Inv(c, l) && Possible(l, e) && InTime(l, e)
    ensures Inv(c, Step(c, l, e))
  {
    match e
    case SealBar(b) =>
      SealKeepsLog(c, l, b);
      SealKeepsOrder(c, l, b);
      SealKeepsFreeze(c, l, b);
    case Promote(p) =>
  }

  ghost predicate Legal(c: Config, l: Leader, es: seq<Event>)
    requires Usable(c)
    decreases |es|
  {
    es == [] || (WholeDay(l.det.profile) && Possible(l, es[0]) && InTime(l, es[0]) && Legal(c, Step(c, l, es[0]), es[1..]))
  }

  ghost function Run(c: Config, l: Leader, es: seq<Event>): Leader
    requires Usable(c) && Legal(c, l, es)
    decreases |es|
  {
    if es == [] then l else Run(c, Step(c, l, es[0]), es[1..])
  }

  lemma {:induction false} RunSplits(c: Config, l: Leader, es: seq<Event>, more: seq<Event>)
    requires Usable(c)
    ensures Legal(c, l, es + more) <==> Legal(c, l, es) && Legal(c, Run(c, l, es), more)
    ensures Legal(c, l, es + more) ==> Run(c, l, es + more) == Run(c, Run(c, l, es), more)
    decreases |es|
  {
    if es == [] {
      assert [] + more == more;
    } else {
      hide Step, Possible, InTime;
      assert (es + more)[0] == es[0] && (es + more)[1..] == es[1..] + more;
      if WholeDay(l.det.profile) {
        RunSplits(c, Step(c, l, es[0]), es[1..], more);
      }
    }
  }

  lemma RunKeeps(c: Config, l: Leader, es: seq<Event>)
    requires Usable(c) && Inv(c, l) && Legal(c, l, es)
    ensures Inv(c, Run(c, l, es))
    decreases |es|
  {
    if es != [] {
      StepKeeps(c, l, es[0]);
      RunKeeps(c, Step(c, l, es[0]), es[1..]);
    }
  }

  // ------------------------------------------------------------- main results

  /** Over any run with any number of deaths and promotions, the log has no hole, alternates, and cools down. */
  lemma LogHasNoHoles(c: Config, baselineLam: real, profileLam: real, es: seq<Event>)
    requires Usable(c) && Legal(c, First(baselineLam, profileLam), es)
    ensures var l := Run(c, First(baselineLam, profileLam), es);
      WellLogged(c.trigger, l.log) && InOrder(l.log, l.clock) && FollowsLog(l.det.trigger, l.log)
  {
    RunKeeps(c, First(baselineLam, profileLam), es);
  }

  /** Escalations `k` apart in the log are `k` cooldowns apart in time. */
  lemma {:induction false} EscalationsSpread(c: TriggerConfig, log: seq<Transition>, i: nat, k: nat)
    requires WellLogged(c, log) && i % 2 == 0 && i + 2 * k < |log|
    ensures log[i + 2 * k].ts - log[i].ts >= k * c.cooldown
  {
    if k > 0 {
      EscalationsSpread(c, log, i, k - 1);
      assert i + 2 * k - 2 == i + 2 * (k - 1);
      assert log[i + 2 * k].ts - log[i + 2 * k - 2].ts >= c.cooldown;
      assert k * c.cooldown == (k - 1) * c.cooldown + c.cooldown;
    }
  }

  /** A stretch of the log no longer than `window` in time holds at most two transitions per cooldown, and three. */
  lemma AlertRateIsBounded(c: TriggerConfig, log: seq<Transition>, clock: Option<int>, i: nat, j: nat, window: nat)
    requires WellLogged(c, log) && InOrder(log, clock) && c.cooldown > 0 && i <= j < |log|
    requires log[j].ts - log[i].ts <= window
    ensures j - i + 1 <= 2 * (window / c.cooldown) + 3
  {
    var a := if i % 2 == 0 then i else i + 1;
    if a <= j {
      var k := (j - a) / 2;
      assert a % 2 == 0 && a + 2 * k <= j <= a + 2 * k + 1;
      EscalationsSpread(c, log, a, k);
      assert log[a + 2 * k].ts <= log[j].ts && log[i].ts <= log[a].ts;
      hide WellLogged, InOrder;
      SpreadFits(k, c.cooldown, window, log[a + 2 * k].ts - log[a].ts);
    }
  }

  lemma SpreadFits(k: nat, cooldown: int, window: nat, spread: int)
    requires cooldown > 0 && k * cooldown <= spread <= window
    ensures k <= window / cooldown
  {
    AtMostQuotient(k, cooldown, window);
  }

  /** No run of leaders, however often they die, can alert faster. */
  lemma NoFailoverRaisesTheRate(c: Config, baselineLam: real, profileLam: real, es: seq<Event>, i: nat, j: nat, window: nat)
    requires Usable(c) && c.trigger.cooldown > 0 && Legal(c, First(baselineLam, profileLam), es)
    requires i <= j < |Run(c, First(baselineLam, profileLam), es).log|
    requires Run(c, First(baselineLam, profileLam), es).log[j].ts - Run(c, First(baselineLam, profileLam), es).log[i].ts <= window
    ensures j - i + 1 <= 2 * (window / c.trigger.cooldown) + 3
  {
    LogHasNoHoles(c, baselineLam, profileLam, es);
    var l := Run(c, First(baselineLam, profileLam), es);
    AlertRateIsBounded(c.trigger, l.log, l.clock, i, j, window);
  }

  lemma AtMostQuotient(k: nat, m: int, x: nat)
    requires m > 0 && k * m <= x
    ensures k <= x / m
  {
    var q := x / m;
    assert x == q * m + x % m;
    if q < k {
      assert (q + 1) * m <= k * m by { Scale(q + 1, k, m); }
    }
  }

  lemma Scale(a: int, b: int, m: int)
    requires a <= b && m > 0
    ensures a * m <= b * m
  {}

  /** The last `n` samples shown confirm leaving the regime. */
  predicate BackedBy(c: TriggerConfig, from: Regime, shown: seq<Sample>, n: int) {
    0 < n <= |shown| && Backs(c, from, shown[|shown| - n..])
  }

  /**
    Whatever happened before, a threshold or thaw transition is backed by the bars
    since the last promotion or change: a run of evaluated samples, long enough in
    number and in time, all beyond the threshold and none too far from the one before.
   */
  lemma TransitionsAreBacked(c: Config, baselineLam: real, profileLam: real, es: seq<Event>, b: Bar)
    requires Usable(c) && Legal(c, First(baselineLam, profileLam), es)
    requires InTime(Run(c, First(baselineLam, profileLam), es), SealBar(b))
    ensures var l := Run(c, First(baselineLam, profileLam), es);
      var tr := if WholeDay(l.det.profile) then UpdateDetector(c, l.det, b).1 else None;
      tr.Some? && tr.value.cause != ObservationLost ==>
        var shown := l.seen + [Presented(c, l.det, b)];
        exists n :: BackedBy(c.trigger, tr.value.from, shown, n)
  {
    RunKeeps(c, First(baselineLam, profileLam), es);
    SealIsBacked(c, Run(c, First(baselineLam, profileLam), es), b);
  }

  lemma SealIsBacked(c: Config, l: Leader, b: Bar)
    requires Usable(c) && Inv(c, l)
    ensures var tr := UpdateDetector(c, l.det, b).1;
      tr.Some? && tr.value.cause != ObservationLost ==>
        exists n :: BackedBy(c.trigger, tr.value.from, l.seen + [Presented(c, l.det, b)], n)
  {
    hide Update, UpdateDetector, Presented, Score, Factor, Backs, WellLogged, Remembers;
    var t := if Thaws(c, l.det, b) then MarkThawed(l.det.trigger) else l.det.trigger;
    var s := Presented(c, l.det, b);
    DetectorFeedsTrigger(c, l.det, b);
    MarkThawedRemembers(c.trigger, l.det.trigger, l.seen);
    CommitsExactlyWhen(c.trigger, t, l.seen, s);
    var shown := l.seen + [s];
    var n := Streak(c.trigger, t.regime, shown);
    var tr := UpdateDetector(c, l.det, b).1;
    if tr.Some? && tr.value.cause != ObservationLost {
      BackedIsSomething(c.trigger, t.regime, shown[|shown| - n..]);
      assert BackedBy(c.trigger, tr.value.from, shown, n);
    }
  }

  lemma BackedIsSomething(c: TriggerConfig, r: Regime, run: seq<Sample>)
    requires Backs(c, r, run)
    ensures |run| > 0
  {}

  ghost predicate SeenInOrder(l: Leader) {
    InTimeOrder(l.seen) && (l.seen != [] ==> l.clock.Some? && l.seen[|l.seen| - 1].ts <= l.clock.value)
  }

  lemma StepKeepsSeen(c: Config, l: Leader, e: Event)
    requires Usable(c) && WholeDay(l.det.profile) && InTime(l, e) && SeenInOrder(l)
    ensures SeenInOrder(Step(c, l, e))
    ensures e.SealBar? ==> InTimeOrder(l.seen + [Presented(c, l.det, e.bar)])
  {
    hide UpdateDetector, Score, Factor;
  }

  lemma {:induction false} RunKeepsSeen(c: Config, l: Leader, es: seq<Event>)
    requires Usable(c) && Legal(c, l, es) && SeenInOrder(l)
    ensures SeenInOrder(Run(c, l, es))
    decreases |es|
  {
    if es != [] {
      hide Step, Possible, InTime, SeenInOrder;
      StepKeepsSeen(c, l, es[0]);
      RunKeepsSeen(c, Step(c, l, es[0]), es[1..]);
    }
  }

  /**
    The two thresholds over any number of leaders: a bar escalates if and only if the
    regime is normal, no cooldown of the log's last escalation is on, and some stretch
    of what was shown since the last promotion or change, up to this bar, scores at or
    above `enterZ` throughout; it clears, other than for want of observations, if and
    only if the regime is stressed and some stretch scores at or below `exitZ`.
   */
  lemma ThresholdsApplyInEveryRun(c: Config, baselineLam: real, profileLam: real, es: seq<Event>, b: Bar)
    requires Usable(c) && Legal(c, First(baselineLam, profileLam), es)
    requires InTime(Run(c, First(baselineLam, profileLam), es), SealBar(b))
    ensures var l := Run(c, First(baselineLam, profileLam), es);
      && WholeDay(l.det.profile)
      && var tr, shown := UpdateDetector(c, l.det, b).1, l.seen + [Presented(c, l.det, b)];
         && (tr.Some? && tr.value.to == Stressed <==>
               && RegimeAfter(|l.log|) == Normal && (exists n :: HeldHigh(c.trigger, shown, n))
               && (LastEscalation(l.log).Some? ==> b.ts - LastEscalation(l.log).value >= c.trigger.cooldown))
         && (tr.Some? && tr.value.to == Normal && tr.value.cause != ObservationLost <==>
               RegimeAfter(|l.log|) == Stressed && exists n :: HeldLow(c.trigger, shown, n))
  {
    hide Update, UpdateDetector, Remembers, HeldHigh, HeldLow, WellLogged, LastEscalation, RegimeAfter, Step, InTimeOrder;
    var l0 := First(baselineLam, profileLam);
    FirstKeeps(c, baselineLam, profileLam);
    RunKeeps(c, l0, es);
    NothingSeenYet(baselineLam, profileLam);
    RunKeepsSeen(c, l0, es);
    var l := Run(c, l0, es);
    var t := if Thaws(c, l.det, b) then MarkThawed(l.det.trigger) else l.det.trigger;
    StepKeepsSeen(c, l, SealBar(b));
    DetectorFeedsTrigger(c, l.det, b);
    MarkThawedRemembers(c.trigger, l.det.trigger, l.seen);
    PresentedAt(c, l.det, b);
    ThresholdsApply(c.trigger, t, l.seen, Presented(c, l.det, b));
  }

  lemma NothingSeenYet(baselineLam: real, profileLam: real)
    ensures SeenInOrder(First(baselineLam, profileLam))
  {}

  lemma PresentedAt(c: Config, d: Detector, b: Bar)
    requires Usable(c) && WholeDay(d.profile)
    ensures Presented(c, d, b).ts == b.ts
  {
    hide Score, Factor;
  }

  // ------------------------------------------------------- freeze and labels

  predicate SameMoments(a: Moments, b: Moments) {
    a.lam == b.lam && a.mean == b.mean && a.variance == b.variance && a.n == b.n && a.debias == b.debias
  }

  /** Inside the stress event that began at `since`, on the reference it began with. */
  ghost predicate During(d: Detector, since: int, reference: Moments, profile: Profile) {
    && d.trigger.regime.Stressed? && d.trigger.since == Some(since)
    && d.profile == profile
    && (!d.trigger.thawed ==> d.baseline.frozen && SameMoments(d.baseline, reference))
  }

  ghost predicate StaysInside(c: Config, l: Leader, e: Event, since: int)
    requires Usable(c)
  {
    && WholeDay(l.det.profile) && Possible(l, e) && InTime(l, e)
    && |Step(c, l, e).log| == |l.log|
  }

  /** The escalating bar itself leaves the reference and the profile as they were before it. */
  lemma EscalationFreezes(c: Config, l: Leader, b: Bar)
    requires Usable(c) && Inv(c, l) && InTime(l, SealBar(b))
    ensures var l' := Step(c, l, SealBar(b));
      l.det.trigger.regime.Normal? && l'.det.trigger.regime.Stressed? ==>
        During(l'.det, b.ts, l.det.baseline, l.det.profile)
  {
    hide Gated, Rearming, Score, Factor;
  }

  lemma FrozenLearnsNothing(ln: real -> real, m: Moments, sigma: real)
    requires m.frozen
    ensures ObserveSigma(ln, m, sigma) == m
  {}

  /** A bar inside the event, on the detector alone. */
  lemma StressBar(c: Config, d: Detector, b: Bar, since: int, reference: Moments, profile: Profile)
    requires Usable(c) && WholeDay(d.profile) && During(d, since, reference, profile) && UpdateDetector(c, d, b).1.None?
    ensures During(UpdateDetector(c, d, b).0, since, reference, profile)
    ensures !d.trigger.thawed && b.ts - since < c.trigger.thawAfter ==> !UpdateDetector(c, d, b).0.trigger.thawed
  {
    hide Update, Score, Factor, ObserveSigma, LearnHour, Presented;
    var t := if Thaws(c, d, b) then MarkThawed(d.trigger) else d.trigger;
    UpdateMovesThawed(c.trigger, t, Presented(c, d, b));
    if d.baseline.frozen {
      FrozenLearnsNothing(c.maths.ln, d.baseline, Presented(c, d, b).sigma);
    }
  }

  lemma StressStep(c: Config, l: Leader, e: Event, since: int, reference: Moments, profile: Profile)
    requires Usable(c) && Inv(c, l) && During(l.det, since, reference, profile) && StaysInside(c, l, e, since)
    ensures During(Step(c, l, e).det, since, reference, profile)
    ensures !l.det.trigger.thawed && (e.SealBar? ==> e.bar.ts - since < c.trigger.thawAfter) ==> !Step(c, l, e).det.trigger.thawed
  {
    match e
    case SealBar(b) =>
      hide UpdateDetector, During;
      StressBar(c, l.det, b, since, reference, profile);
    case Promote(p) =>
  }

  ghost predicate Inside(c: Config, l: Leader, es: seq<Event>, since: int)
    requires Usable(c)
    decreases |es|
  {
    es == [] || (StaysInside(c, l, es[0], since) && Inside(c, Step(c, l, es[0]), es[1..], since))
  }

  lemma InsideIsLegal(c: Config, l: Leader, es: seq<Event>, since: int)
    requires Usable(c) && Inside(c, l, es, since)
    ensures Legal(c, l, es)
    decreases |es|
  {
    if es != [] {
      InsideIsLegal(c, Step(c, l, es[0]), es[1..], since);
    }
  }

  /**
    From an escalation until it clears, over any bars and any promotions, the
    hour-of-day profile does not change; and until a bar comes `thawAfter` or more
    after it, neither do the baseline's moments: they stay what they were before
    the escalating bar.
   */
  lemma ReferenceIsHeld(c: Config, l: Leader, es: seq<Event>, since: int, reference: Moments, profile: Profile)
    requires Usable(c) && Inv(c, l) && During(l.det, since, reference, profile) && Inside(c, l, es, since)
    ensures Legal(c, l, es)
    ensures Run(c, l, es).det.profile == profile
    ensures !l.det.trigger.thawed && (forall e | e in es && e.SealBar? :: e.bar.ts - since < c.trigger.thawAfter) ==>
      SameMoments(Run(c, l, es).det.baseline, reference)
    decreases |es|
  {
    if es != [] {
      StressStep(c, l, es[0], since, reference, profile);
      StepKeeps(c, l, es[0]);
      ReferenceIsHeld(c, Step(c, l, es[0]), es[1..], since, reference, profile);
      InsideIsLegal(c, l, es, since);
    }
  }

  lemma {:induction false} LogOnlyGrows(c: Config, l: Leader, es: seq<Event>)
    requires Usable(c) && Legal(c, l, es)
    ensures |l.log| <= |Run(c, l, es).log|
    decreases |es|
  {
    if es != [] {
      hide UpdateDetector, Possible, InTime;
      LogOnlyGrows(c, Step(c, l, es[0]), es[1..]);
    }
  }

  lemma {:induction false} NoMoreLogIsInside(c: Config, l: Leader, es: seq<Event>, since: int)
    requires Usable(c) && Legal(c, l, es) && |Run(c, l, es).log| == |l.log|
    ensures Inside(c, l, es, since)
    decreases |es|
  {
    if es != [] {
      LogOnlyGrows(c, l, [es[0]]);
      LogOnlyGrows(c, Step(c, l, es[0]), es[1..]);
      NoMoreLogIsInside(c, Step(c, l, es[0]), es[1..], since);
    }
  }

  /**
    The same of every run from the first leader on: `b` escalates after `es`, and
    nothing is logged in `more`. The profile is the one before `b`; so are the
    moments, unless a bar came `thawAfter` or more after `b`.
   */
  lemma EveryEventHoldsItsReference(c: Config, baselineLam: real, profileLam: real, es: seq<Event>, b: Bar, more: seq<Event>)
    requires Usable(c) && Legal(c, First(baselineLam, profileLam), es + ([SealBar(b)] + more))
    ensures var l0 := First(baselineLam, profileLam);
      && Legal(c, l0, es) && Legal(c, l0, es + [SealBar(b)])
      && var before, during, after := Run(c, l0, es), Run(c, l0, es + [SealBar(b)]), Run(c, l0, es + ([SealBar(b)] + more));
         before.det.trigger.regime.Normal? && during.det.trigger.regime.Stressed? && |after.log| == |during.log| ==>
           && after.det.profile == before.det.profile
           && ((forall e | e in more && e.SealBar? :: e.bar.ts - b.ts < c.trigger.thawAfter) ==>
                 SameMoments(after.det.baseline, before.det.baseline))
  {
    hide Inv, During, SameMoments, UpdateDetector;
    var l0 := First(baselineLam, profileLam);
    RunSplits(c, l0, es, [SealBar(b)] + more);
    var before := Run(c, l0, es);
    RunSplits(c, before, [SealBar(b)], more);
    RunSplits(c, l0, es, [SealBar(b)]);
    FirstKeeps(c, baselineLam, profileLam);
    RunKeeps(c, l0, es);
    var during := Step(c, before, SealBar(b));
    OneStep(c, before, SealBar(b));
    if before.det.trigger.regime.Normal? && during.det.trigger.regime.Stressed? && |Run(c, during, more).log| == |during.log| {
      EscalationFreezes(c, before, b);
      StepKeeps(c, before, SealBar(b));
      NoMoreLogIsInside(c, during, more, b.ts);
      NotThawedYet(c, before, b);
      ReferenceIsHeld(c, during, more, b.ts, before.det.baseline, before.det.profile);
    }
  }

  lemma FirstKeeps(c: Config, baselineLam: real, profileLam: real)
    requires Usable(c)
    ensures Inv(c, First(baselineLam, profileLam))
  {}

  lemma OneStep(c: Config, l: Leader, e: Event)
    requires Usable(c)
    ensures Legal(c, l, [e]) <==> WholeDay(l.det.profile) && Possible(l, e) && InTime(l, e)
    ensures Legal(c, l, [e]) ==> Run(c, l, [e]) == Step(c, l, e)
  {
    hide Step, Possible, InTime;
    assert [e][1..] == [];
  }

  lemma NotThawedYet(c: Config, l: Leader, b: Bar)
    requires Usable(c) && Inv(c, l)
    ensures l.det.trigger.regime.Normal? && Step(c, l, SealBar(b)).det.trigger.regime.Stressed? ==>
      !Step(c, l, SealBar(b)).det.trigger.thawed
  {
    hide Update, Score, Factor, ObserveSigma, LearnHour, Presented;
    var t := if Thaws(c, l.det, b) then MarkThawed(l.det.trigger) else l.det.trigger;
    UpdateMovesThawed(c.trigger, t, Presented(c, l.det, b));
  }

  /** Under stress, told to re-learn by an event that is not this one: the reference will never thaw. */
  predicate Deaf(d: Detector) { d.trigger.regime.Stressed? && d.rebaselining && !d.trigger.thawed }

  /**
    A confirmed clear is labelled a thaw exactly when it comes `thawAfter` or more
    after the escalation, unless the detector is deaf: then it never is.
   */
  lemma ThawLabelIsExact(c: Config, l: Leader, b: Bar)
    requires Usable(c) && Inv(c, l) && InTime(l, SealBar(b))
    ensures var tr := UpdateDetector(c, l.det, b).1;
      tr.Some? && tr.value.to.Normal? && tr.value.cause != ObservationLost ==>
        && l.det.trigger.since.Some?
        && (tr.value.cause == BaselineThaw <==>
              b.ts - l.det.trigger.since.value >= c.trigger.thawAfter && !Deaf(l.det))
  {
    hide Score, Factor;
    DetectorFeedsTrigger(c, l.det, b);
    assert l.det.trigger.regime.Stressed? ==> l.log != [];
  }

  /**
    A detector goes deaf only by a promotion of a process that led before, was
    re-learning then, and restores an event that has not thawed; it stays deaf
    until that event ends or another process is promoted.
   */
  lemma DeafnessComesFromPromotion(c: Config, l: Leader, e: Event)
    requires Usable(c) && Inv(c, l) && Possible(l, e) && InTime(l, e)
    ensures match e
      case SealBar(b) => Deaf(Step(c, l, e).det) <==> Deaf(l.det) && |Step(c, l, e).log| == |l.log|
      case Promote(p) => l.stored.Some? ==>
        (Deaf(Step(c, l, e).det) <==> p.rebaselining && l.det.trigger.regime.Stressed? && !l.det.trigger.thawed)
  {
    hide Score, Factor;
  }

  /** Leaders that each start as a fresh process are never deaf, so every clear is labelled for what it was. */
  lemma FreshProcessesLabelHonestly(c: Config, baselineLam: real, profileLam: real, es: seq<Event>, b: Bar)
    requires Usable(c) && Legal(c, First(baselineLam, profileLam), es)
    requires InTime(Run(c, First(baselineLam, profileLam), es), SealBar(b))
    requires forall e | e in es && e.Promote? :: !e.process.rebaselining
    ensures var l := Run(c, First(baselineLam, profileLam), es);
      && WholeDay(l.det.profile)
      && var tr := UpdateDetector(c, l.det, b).1;
         tr.Some? && tr.value.to.Normal? && tr.value.cause != ObservationLost ==>
           && l.log != [] && tr.value.from == l.log[|l.log| - 1].to
           && (tr.value.cause == BaselineThaw <==> b.ts - l.log[|l.log| - 1].ts >= c.trigger.thawAfter)
  {
    var l0 := First(baselineLam, profileLam);
    RunKeeps(c, l0, es);
    NeverDeaf(c, l0, es);
    var l := Run(c, l0, es);
    ThawLabelIsExact(c, l, b);
    DetectorFeedsTrigger(c, l.det, b);
    SealKeepsLog(c, l, b);
    var tr := UpdateDetector(c, l.det, b).1;
    if tr.Some? && l.log != [] {
      assert (l.log + [tr.value])[|l.log|] == tr.value;
    }
  }

  lemma NeverDeaf(c: Config, l: Leader, es: seq<Event>)
    requires Usable(c) && Inv(c, l) && Legal(c, l, es) && !Deaf(l.det)
    requires forall e | e in es && e.Promote? :: !e.process.rebaselining
    ensures !Deaf(Run(c, l, es).det)
    decreases |es|
  {
    if es != [] {
      StepKeeps(c, l, es[0]);
      DeafnessComesFromPromotion(c, l, es[0]);
      NeverDeaf(c, Step(c, l, es[0]), es[1..]);
    }
  }
}
