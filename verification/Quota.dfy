/**
  One ledger of the provider requests made with a shared token. Every process enters
  its requests through one atomic script; live ones are never held back, background
  ones are granted only below the caps. Instants are milliseconds; requests Redis
  could not record are not modelled.
 */
module Quota {
  const HOUR_MS := 3_600_000
  const DAY_MS := 86_400_000
  const UNCAPPED := 1_000_000_000_000

  datatype Stamp = Stamp(at: int, background: bool)

  datatype QuotaLimits = QuotaLimits(perHour: int, perDay: int, reservePerHour: int, reservePerDay: int) {
    function HourCap(): int { perHour - reservePerHour }
    function DayCap(): int { perDay - reservePerDay }
  }

  /** The entries later than `t`, in order. */
  function After(es: seq<Stamp>, t: int): (r: seq<Stamp>)
    ensures |r| <= |es|
  {
    if es == [] then []
    else if es[|es| - 1].at > t then After(es[..|es| - 1], t) + [es[|es| - 1]]
    else After(es[..|es| - 1], t)
  }

  /** The ledger after a request: entries a day old or more go, and the request comes in unless a window is full. */
  function Enter(es: seq<Stamp>, now: int, hourCap: int, dayCap: int, background: bool): (seq<Stamp>, bool) {
    var kept := After(es, now - DAY_MS);
    if |After(kept, now - HOUR_MS - 1)| >= hourCap || |kept| >= dayCap then (kept, false)
    else (kept + [Stamp(now, background)], true)
  }

  class RequestQuota {
    const limits: QuotaLimits
    var entries: seq<Stamp>

    constructor (limits: QuotaLimits)
      ensures this.limits == limits && entries == []
    {
      this.limits, entries := limits, [];
    }

    /** The script, with the counts it replies. */
    method EnterRequest(now: int, hourCap: int, dayCap: int, background: bool) returns (granted: bool, hour: int, day: int)
      modifies this`entries
      ensures (entries, granted) == Enter(old(entries), now, hourCap, dayCap, background)
      ensures day == |entries| && hour == |After(After(old(entries), now - DAY_MS), now - HOUR_MS - 1)| + if granted then 1 else 0
    {
      entries := After(entries, now - DAY_MS);
      hour := |After(entries, now - HOUR_MS - 1)|;
      day := |entries|;
      if hour >= hourCap || day >= dayCap {
        return false, hour, day;
      }
      entries := entries + [Stamp(now, background)];
      return true, hour + 1, day + 1;
    }

    /** Entered under caps no account has; the flag says if a window now holds more than the account's allowance. */
    method Record(now: int) returns (over: bool)
      modifies this`entries
      ensures entries == Enter(old(entries), now, UNCAPPED, UNCAPPED, false).0
      ensures over == (|After(entries, now - HOUR_MS - 1)| > limits.perHour || |entries| > limits.perDay)
    {
      var granted, hour, day := EnterRequest(now, UNCAPPED, UNCAPPED, false);
      AfterSnoc(After(old(entries), now - DAY_MS), Stamp(now, false), now - HOUR_MS - 1);
      over := hour > limits.perHour || day > limits.perDay;
    }

    /** Granted, and entered, exactly when both windows are below their caps less the reserve. */
    method Take(now: int) returns (granted: bool)
      modifies this`entries
      ensures (entries, granted) == Enter(old(entries), now, limits.HourCap(), limits.DayCap(), true)
    {
      var hour, day;
      granted, hour, day := EnterRequest(now, limits.HourCap(), limits.DayCap(), true);
    }
  }

  // ------------------------------------------------------------------ all that was

  datatype Request = Request(now: int, background: bool)

  /** The ledger, and everything ever entered in it. */
  datatype World = World(entries: seq<Stamp>, history: seq<Stamp>)

  const START := World([], [])

  function Step(limits: QuotaLimits, w: World, r: Request): World {
    var (es, granted) := Granting(limits, w.entries, r);
    World(es, if granted then w.history + [Stamp(r.now, r.background)] else w.history)
  }

  function Granting(limits: QuotaLimits, es: seq<Stamp>, r: Request): (seq<Stamp>, bool) {
    if r.background then Enter(es, r.now, limits.HourCap(), limits.DayCap(), true)
    else Enter(es, r.now, UNCAPPED, UNCAPPED, false)
  }

  function Run(limits: QuotaLimits, rs: seq<Request>): World {
    if rs == [] then START else Step(limits, Run(limits, rs[..|rs| - 1]), rs[|rs| - 1])
  }

  /** The clock, shared by all processes, does not go back. */
  predicate ClockRuns(rs: seq<Request>) { forall i, j | 0 <= i <= j < |rs| :: rs[i].now <= rs[j].now }

  predicate NoneAfter(es: seq<Stamp>, t: int) { forall i | 0 <= i < |es| :: es[i].at <= t }

  /** How many background requests were granted at instants `from` to `to`, both included. */
  function Granted(es: seq<Stamp>, from: int, to: int): nat {
    if es == [] then 0
    else Granted(es[..|es| - 1], from, to) + if es[|es| - 1].background && from <= es[|es| - 1].at <= to then 1 else 0
  }

  lemma AfterNone()
    ensures forall t :: After([], t) == []
  {}

  lemma AfterSnoc(es: seq<Stamp>, s: Stamp, t: int)
    ensures After(es + [s], t) == if s.at > t then After(es, t) + [s] else After(es, t)
  {
    assert (es + [s])[..|es|] == es;
  }

  lemma GrantedSnoc(es: seq<Stamp>, s: Stamp, from: int, to: int)
    ensures Granted(es + [s], from, to) == Granted(es, from, to) + if s.background && from <= s.at <= to then 1 else 0
  {
    assert (es + [s])[..|es|] == es;
  }

  /** Forgetting earlier and then more is forgetting more. */
  lemma {:induction false} AfterAfter(es: seq<Stamp>, early: int, late: int)
    requires early <= late
    ensures After(After(es, early), late) == After(es, late)
  {
    if es != [] {
      var front, s := es[..|es| - 1], es[|es| - 1];
      AfterAfter(front, early, late);
      AfterSnoc(After(front, early), s, late);
    }
  }

  /** A window's grants are among the entries since it began. */
  lemma {:induction false} GrantedAreEntered(es: seq<Stamp>, from: int, to: int)
    ensures Granted(es, from, to) <= |After(es, from - 1)|
  {
    if es != [] {
      GrantedAreEntered(es[..|es| - 1], from, to);
    }
  }

  lemma {:induction false} AfterIsMonotone(es: seq<Stamp>, early: int, late: int)
    requires early <= late
    ensures |After(es, late)| <= |After(es, early)|
  {
    if es != [] {
      AfterIsMonotone(es[..|es| - 1], early, late);
    }
  }

  // --------------------------------------------------------------------- invariant

  /** The ledger holds everything entered less than a day before the newest request, and nothing else. */
  ghost predicate Inv(w: World, clock: int) {
    w.entries == After(w.history, clock - DAY_MS) && NoneAfter(w.history, clock)
  }

  lemma StepKeeps(limits: QuotaLimits, w: World, clock: int, r: Request)
    requires Inv(w, clock) && clock <= r.now
    ensures Inv(Step(limits, w, r), r.now)
    ensures After(w.entries, r.now - DAY_MS) == After(w.history, r.now - DAY_MS)
    ensures After(After(w.entries, r.now - DAY_MS), r.now - HOUR_MS - 1) == After(w.history, r.now - HOUR_MS - 1)
  {
    hide After;
    AfterAfter(w.history, clock - DAY_MS, r.now - DAY_MS);
    AfterAfter(w.history, r.now - DAY_MS, r.now - HOUR_MS - 1);
    AfterSnoc(w.history, Stamp(r.now, r.background), r.now - DAY_MS);
  }

  lemma {:induction false} RunKeeps(limits: QuotaLimits, rs: seq<Request>)
    requires ClockRuns(rs)
    ensures if rs == [] then Run(limits, rs) == START else Inv(Run(limits, rs), rs[|rs| - 1].now)
  {
    if rs != [] {
      var front := rs[..|rs| - 1];
      RunKeeps(limits, front);
      if front == [] {
        StepKeeps(limits, START, rs[|rs| - 1].now, rs[|rs| - 1]);
      } else {
        StepKeeps(limits, Run(limits, front), front[|front| - 1].now, rs[|rs| - 1]);
      }
    }
  }

  lemma GrantNeedsRoom(limits: QuotaLimits, w: World, clock: int, r: Request)
    requires Inv(w, clock) && clock <= r.now && r.background
    ensures Granting(limits, w.entries, r).1 <==>
      |After(w.history, r.now - HOUR_MS - 1)| < limits.HourCap() && |After(w.history, r.now - DAY_MS)| < limits.DayCap()
  {
    hide After;
    StepKeeps(limits, w, clock, r);
  }

  /** The clock before the next request. */
  lemma ClockBefore(limits: QuotaLimits, rs: seq<Request>, r: Request) returns (clock: int)
    requires ClockRuns(rs + [r])
    ensures ClockRuns(rs) && clock <= r.now && Inv(Run(limits, rs), clock)
  {
    hide After, Step;
    assert forall i | 0 <= i < |rs| :: (rs + [r])[i] == rs[i];
    assert (rs + [r])[|rs|] == r;
    RunKeeps(limits, rs);
    AfterNone();
    clock := if rs == [] then r.now else rs[|rs| - 1].now;
  }

  /**
    Pruning forgets nothing that counts: a background request is granted exactly when
    everything ever entered leaves the rolling hour and the rolling day under the caps.
   */
  lemma GrantIsExact(limits: QuotaLimits, rs: seq<Request>, r: Request)
    requires ClockRuns(rs + [r]) && r.background
    ensures var w := Run(limits, rs);
      Granting(limits, w.entries, r).1 <==>
        |After(w.history, r.now - HOUR_MS - 1)| < limits.HourCap() && |After(w.history, r.now - DAY_MS)| < limits.DayCap()
  {
    hide After, Run, Granting, Inv, ClockRuns;
    var clock := ClockBefore(limits, rs, r);
    GrantNeedsRoom(limits, Run(limits, rs), clock, r);
  }

  /** How many requests of either kind were made at or after an instant. */
  function MadeSince(es: seq<Stamp>, from: int): nat {
    if es == [] then 0 else MadeSince(es[..|es| - 1], from) + if es[|es| - 1].at >= from then 1 else 0
  }

  lemma {:induction false} AfterIsCounted(es: seq<Stamp>, t: int)
    ensures |After(es, t)| == MadeSince(es, t + 1)
  {
    if es != [] {
      AfterIsCounted(es[..|es| - 1], t);
    }
  }

  /** The same by number: fewer requests of either kind in the last hour, and in less than a day, than the account allows beyond its reserve. */
  lemma GrantIsByCount(limits: QuotaLimits, rs: seq<Request>, r: Request)
    requires ClockRuns(rs + [r]) && r.background
    ensures var h := Run(limits, rs).history;
      (Run(limits, rs + [r]).history == h + [Stamp(r.now, true)] <==>
        && MadeSince(h, r.now - HOUR_MS) < limits.perHour - limits.reservePerHour
        && MadeSince(h, r.now - DAY_MS + 1) < limits.perDay - limits.reservePerDay)
  {
    hide After, Granting, ClockRuns, MadeSince;
    var w := Run(limits, rs);
    GrantIsExact(limits, rs, r);
    AfterIsCounted(w.history, r.now - HOUR_MS - 1);
    AfterIsCounted(w.history, r.now - DAY_MS);
    assert (rs + [r])[..|rs|] == rs;
  }

  lemma {:induction false} LedgerFits(limits: QuotaLimits, rs: seq<Request>)
    ensures |Run(limits, rs).entries| <= |rs|
  {
    if rs != [] {
      LedgerFits(limits, rs[..|rs| - 1]);
    }
  }

  /** A request of the live feed is entered whatever background work was granted: it would take more requests than ever made to refuse one. */
  lemma LiveIsNeverRefused(limits: QuotaLimits, rs: seq<Request>, r: Request)
    requires !r.background && |rs| < 1_000_000_000_000
    ensures Run(limits, rs + [r]).history == Run(limits, rs).history + [Stamp(r.now, false)]
  {
    LedgerFits(limits, rs);
    assert (rs + [r])[..|rs|] == rs;
  }

  /** The caps as the number of grants they allow. */
  function Allowance(cap: int): nat { if cap < 0 then 0 else cap }

  ghost predicate Reserved(limits: QuotaLimits, history: seq<Stamp>, a: int) {
    && Granted(history, a, a + HOUR_MS) <= Allowance(limits.HourCap())
    && Granted(history, a + 1, a + DAY_MS) <= Allowance(limits.DayCap())
  }

  lemma StepKeepsReserve(limits: QuotaLimits, w: World, clock: int, r: Request, a: int)
    requires Inv(w, clock) && clock <= r.now && Reserved(limits, w.history, a)
    ensures Reserved(limits, Step(limits, w, r).history, a)
  {
    hide After, Granted, Granting, Inv;
    GrantedSnoc(w.history, Stamp(r.now, r.background), a, a + HOUR_MS);
    GrantedSnoc(w.history, Stamp(r.now, r.background), a + 1, a + DAY_MS);
    if r.background {
      GrantNeedsRoom(limits, w, clock, r);
      WindowHasRoom(w.history, r.now, a, a + HOUR_MS, HOUR_MS);
      WindowHasRoom(w.history, r.now, a + 1, a + DAY_MS, DAY_MS - 1);
    }
  }

  /**
    Whatever live and background requests are mixed, by however many processes: any
    hour, both ends included, holds at most the hourly limit less its reserve of
    granted background requests, and any day, open at its start, the daily one.
   */
  lemma {:induction false} ReserveIsKept(limits: QuotaLimits, rs: seq<Request>, a: int)
    requires ClockRuns(rs)
    ensures Granted(Run(limits, rs).history, a, a + HOUR_MS) <= Allowance(limits.HourCap())
    ensures Granted(Run(limits, rs).history, a + 1, a + DAY_MS) <= Allowance(limits.DayCap())
  {
    hide Granted, Step, Inv, ClockRuns;
    if rs == [] {
      GrantedNone(a, a + HOUR_MS);
      GrantedNone(a + 1, a + DAY_MS);
    } else {
      var front, r := rs[..|rs| - 1], rs[|rs| - 1];
      assert rs == front + [r];
      var clock := ClockBefore(limits, front, r);
      ReserveIsKept(limits, front, a);
      StepKeepsReserve(limits, Run(limits, front), clock, r, a);
    }
  }

  lemma GrantedNone(from: int, to: int)
    ensures Granted([], from, to) == 0
  {}

  /** Grants in a window no longer than `length` that reaches `now` are among the entries of the last `length`. */
  lemma WindowHasRoom(es: seq<Stamp>, now: int, from: int, to: int, length: int)
    requires to - from <= length
    ensures from <= now <= to ==> Granted(es, from, to) <= |After(es, now - length - 1)|
  {
    hide After, Granted;
    if from <= now <= to {
      GrantedAreEntered(es, from, to);
      AfterIsMonotone(es, now - length - 1, from - 1);
    }
  }

  /** Where the account allows more than the reserve, that much is left of every hour, and of every day, whatever background work was granted. */
  lemma ReserveIsLeft(limits: QuotaLimits, rs: seq<Request>, a: int)
    requires ClockRuns(rs)
    ensures var h := Run(limits, rs).history;
      && (limits.perHour >= limits.reservePerHour ==> Granted(h, a, a + HOUR_MS) + limits.reservePerHour <= limits.perHour)
      && (limits.perDay >= limits.reservePerDay ==> Granted(h, a + 1, a + DAY_MS) + limits.reservePerDay <= limits.perDay)
      && (limits.perHour <= limits.reservePerHour || limits.perDay <= limits.reservePerDay ==> Granted(h, a, a) == 0)
  {
    hide Run, Granted, ClockRuns;
    var h := Run(limits, rs).history;
    ReserveIsKept(limits, rs, a);
    ReserveIsKept(limits, rs, a - 1);
    GrantedIsMore(h, a, a, a + HOUR_MS);
    GrantedIsMore(h, a, a, a - 1 + DAY_MS);
  }

  lemma {:induction false} GrantedIsMore(h: seq<Stamp>, a: int, b: int, c: int)
    requires b <= c
    ensures Granted(h, a, b) <= Granted(h, a, c)
  {
    if h != [] {
      GrantedIsMore(h[..|h| - 1], a, b, c);
    }
  }

  // ------------------------------------------------- the day with both ends in it

  lemma {:induction false} GrantedSplits(es: seq<Stamp>, from: int, mid: int, to: int)
    requires from - 1 <= mid <= to
    ensures Granted(es, from, to) == Granted(es, from, mid) + Granted(es, mid + 1, to)
  {
    if es != [] {
      GrantedSplits(es[..|es| - 1], from, mid, to);
    }
  }

  /** A day with both ends in it holds at most the daily cap and what was granted at the instant it opens. */
  lemma ClosedDayBound(limits: QuotaLimits, rs: seq<Request>, a: int)
    requires ClockRuns(rs)
    ensures var h := Run(limits, rs).history;
      && Granted(h, a, a + DAY_MS) <= Allowance(limits.DayCap()) + Granted(h, a, a)
      && Granted(h, a, a + DAY_MS) <= 2 * Allowance(limits.DayCap())
      && (Granted(h, a, a) == 0 ==> Granted(h, a, a + DAY_MS) <= Allowance(limits.DayCap()))
  {
    hide Run, Granted, ClockRuns;
    var h := Run(limits, rs).history;
    GrantedSplits(h, a, a, a + DAY_MS);
    ReserveIsKept(limits, rs, a);
    ReserveIsKept(limits, rs, a - 1);
    GrantedSplits(h, a, a, a - 1 + DAY_MS);
  }

  /** Twenty-four hours, a millisecond longer than an hour each, reach past the day. */
  lemma {:induction false} HoursBound(limits: QuotaLimits, rs: seq<Request>, a: int, n: nat)
    requires ClockRuns(rs)
    ensures Granted(Run(limits, rs).history, a, a + n * (HOUR_MS + 1) - 1) <= n * Allowance(limits.HourCap())
  {
    hide Run, ClockRuns;
    var h := Run(limits, rs).history;
    if n == 0 {
      NothingBetween(h, a);
    } else {
      HoursBound(limits, rs, a, n - 1);
      var b := a + (n - 1) * (HOUR_MS + 1);
      GrantedSplits(h, a, b - 1, b + HOUR_MS);
      ReserveIsKept(limits, rs, b);
      assert n * Allowance(limits.HourCap()) == (n - 1) * Allowance(limits.HourCap()) + Allowance(limits.HourCap());
    }
  }

  lemma {:induction false} NothingBetween(es: seq<Stamp>, a: int)
    ensures Granted(es, a, a - 1) == 0
  {
    if es != [] {
      NothingBetween(es[..|es| - 1], a);
    }
  }

  // ------------------------------------------------------- requests in one instant

  function Burst(now: int, n: nat): (r: seq<Request>)
    ensures |r| == n && forall i | 0 <= i < n :: r[i] == Request(now, true)
  {
    if n == 0 then [] else Burst(now, n - 1) + [Request(now, true)]
  }

  function Stamps(now: int, n: nat): (r: seq<Stamp>)
    ensures |r| == n && forall i | 0 <= i < n :: r[i] == Stamp(now, true)
  {
    if n == 0 then [] else Stamps(now, n - 1) + [Stamp(now, true)]
  }

  predicate NoneLater(rs: seq<Request>, now: int) { forall i | 0 <= i < |rs| :: rs[i].now <= now }

  lemma BurstKeepsClock(rs: seq<Request>, now: int, n: nat)
    requires ClockRuns(rs) && NoneLater(rs, now)
    ensures ClockRuns(rs + Burst(now, n)) && NoneLater(rs + Burst(now, n), now)
  {}

  lemma {:induction false} AfterBurst(es: seq<Stamp>, now: int, n: nat, t: int)
    ensures |After(es + Stamps(now, n), t)| == |After(es, t)| + if now > t then n else 0
  {
    hide After;
    if n == 0 {
      assert es + [] == es;
    } else {
      AfterBurst(es, now, n - 1, t);
      assert es + Stamps(now, n) == (es + Stamps(now, n - 1)) + [Stamp(now, true)];
      AfterSnoc(es + Stamps(now, n - 1), Stamp(now, true), t);
    }
  }

  lemma {:induction false} GrantedBurst(es: seq<Stamp>, now: int, n: nat, from: int, to: int)
    ensures Granted(es + Stamps(now, n), from, to) == Granted(es, from, to) + if from <= now <= to then n else 0
  {
    hide Granted;
    if n == 0 {
      assert es + [] == es;
    } else {
      GrantedBurst(es, now, n - 1, from, to);
      assert es + Stamps(now, n) == (es + Stamps(now, n - 1)) + [Stamp(now, true)];
      GrantedSnoc(es + Stamps(now, n - 1), Stamp(now, true), from, to);
    }
  }

  lemma RunSnoc(limits: QuotaLimits, rs: seq<Request>, r: Request)
    ensures Run(limits, rs + [r]) == Step(limits, Run(limits, rs), r)
  {
    assert (rs + [r])[..|rs|] == rs;
  }

  lemma StepGranted(limits: QuotaLimits, w: World, r: Request)
    requires r.background
    ensures Step(limits, w, r).history == if Granting(limits, w.entries, r).1 then w.history + [Stamp(r.now, true)] else w.history
  {}

  /** As many requests at one instant as both windows have room for are all granted. */
  lemma {:induction false} BurstIsGranted(limits: QuotaLimits, rs: seq<Request>, now: int, n: nat)
    requires ClockRuns(rs) && NoneLater(rs, now)
    requires n > 0 ==> |After(Run(limits, rs).history, now - HOUR_MS - 1)| + n <= limits.HourCap()
    requires n > 0 ==> |After(Run(limits, rs).history, now - DAY_MS)| + n <= limits.DayCap()
    ensures Run(limits, rs + Burst(now, n)).history == Run(limits, rs).history + Stamps(now, n)
  {
    hide Run, After, Granting, Step, ClockRuns, NoneLater;
    if n == 0 {
      assert rs + Burst(now, n) == rs;
      assert Run(limits, rs).history + Stamps(now, n) == Run(limits, rs).history;
    } else {
      BurstIsGranted(limits, rs, now, n - 1);
      var before, h, r := rs + Burst(now, n - 1), Run(limits, rs).history, Request(now, true);
      BurstKeepsClock(rs, now, n);
      assert rs + Burst(now, n) == before + [r];
      GrantIsExact(limits, before, r);
      AfterBurst(h, now, n - 1, now - HOUR_MS - 1);
      AfterBurst(h, now, n - 1, now - DAY_MS);
      RunSnoc(limits, before, r);
      StepGranted(limits, Run(limits, before), r);
      assert h + Stamps(now, n) == (h + Stamps(now, n - 1)) + [Stamp(now, true)];
    }
  }

  /** Twice the daily cap, when an hour has room for it: everything granted as the day opens is forgotten at once as it ends. */
  lemma TwiceTheCapIsReached(limits: QuotaLimits, t: int)
    requires 0 <= limits.DayCap() <= limits.HourCap()
    ensures var d := limits.DayCap() as nat;
      var rs := Burst(t, d) + Burst(t + DAY_MS, d);
      ClockRuns(rs) && Granted(Run(limits, rs).history, t, t + DAY_MS) == 2 * limits.DayCap()
  {
    hide Run, After, Granted, ClockRuns, NoneLater, Burst, Stamps;
    var d := limits.DayCap() as nat;
    NothingAsked(limits, t);
    BurstKeepsClock([], t, d);
    BurstIsGranted(limits, [], t, d);
    assert [] + Burst(t, d) == Burst(t, d) && [] + Stamps(t, d) == Stamps(t, d);
    LaterStill(Burst(t, d), t, t + DAY_MS);
    BurstKeepsClock(Burst(t, d), t + DAY_MS, d);
    AfterBurst([], t, d, t + DAY_MS - HOUR_MS - 1);
    AfterBurst([], t, d, t);
    AfterNone();
    BurstIsGranted(limits, Burst(t, d), t + DAY_MS, d);
    GrantedBurst([], t, d, t, t + DAY_MS);
    GrantedBurst(Stamps(t, d), t + DAY_MS, d, t, t + DAY_MS);
    GrantedNone(t, t + DAY_MS);
  }

  lemma NothingAsked(limits: QuotaLimits, now: int)
    ensures ClockRuns([]) && NoneLater([], now) && Run(limits, []) == START
    ensures After(START.history, now - HOUR_MS - 1) == [] && After(START.history, now - DAY_MS) == []
  {}

  lemma LaterStill(rs: seq<Request>, now: int, later: int)
    requires NoneLater(rs, now) && now <= later
    ensures NoneLater(rs, later)
  {}

  // ------------------------------------------------------------ the exact condition

  /** A history of granted background requests only, the first at `t` and none after `to`. */
  ghost predicate AllGranted(es: seq<Stamp>, t: int, to: int) {
    && (forall i | 0 <= i < |es| :: es[i].background && t <= es[i].at <= to)
    && (es != [] ==> es[0].at == t)
  }

  lemma {:induction false} AllGrantedCount(es: seq<Stamp>, t: int, to: int)
    requires forall i | 0 <= i < |es| :: es[i].background && t <= es[i].at <= to
    ensures Granted(es, t, to) == |es|
  {
    if es != [] {
      AllGrantedCount(es[..|es| - 1], t, to);
    }
  }

  lemma {:induction false} NoneAfterMeansNone(es: seq<Stamp>, t: int)
    requires NoneAfter(es, t)
    ensures After(es, t) == []
  {
    if es != [] {
      NoneAfterMeansNone(es[..|es| - 1], t);
    }
  }

  /** The entry that opens a day is forgotten as the day ends. */
  lemma {:induction false} FirstIsForgotten(es: seq<Stamp>, t: int)
    requires es != [] && es[0].at <= t
    ensures |After(es, t)| < |es|
  {
    if |es| > 1 {
      FirstIsForgotten(es[..|es| - 1], t);
    } else {
      assert es[..0] == [];
    }
  }

  /** Hour after hour at the hourly cap, each a millisecond past the one before: all granted while the day has room. */
  lemma {:induction false} FullHours(limits: QuotaLimits, t: int, j: nat) returns (rs: seq<Request>)
    requires limits.HourCap() > 0 && j <= 23 && j * limits.HourCap() <= limits.DayCap()
    ensures var h := Run(limits, rs).history;
      && ClockRuns(rs) && NoneLater(rs, t + j * (HOUR_MS + 1))
      && |h| == j * limits.HourCap() && AllGranted(h, t, t + j * (HOUR_MS + 1))
      && NoneAfter(h, t + j * (HOUR_MS + 1) - HOUR_MS - 1)
  {
    if j == 0 {
      rs := [];
    } else {
      hide Run, ClockRuns, NoneLater, Granting, After;
      assert j * limits.HourCap() == (j - 1) * limits.HourCap() + limits.HourCap();
      rs := FullHours(limits, t, j - 1);
      rs := OneMoreHour(limits, rs, t, j - 1, limits.HourCap());
    }
  }

  /** Another hour's requests, up to the hourly cap and what the day has left. */
  lemma OneMoreHour(limits: QuotaLimits, before: seq<Request>, t: int, j: nat, n: nat) returns (rs: seq<Request>)
    requires j <= 23 && ClockRuns(before) && NoneLater(before, t + j * (HOUR_MS + 1))
    requires AllGranted(Run(limits, before).history, t, t + j * (HOUR_MS + 1))
    requires NoneAfter(Run(limits, before).history, t + j * (HOUR_MS + 1) - HOUR_MS - 1)
    requires (Run(limits, before).history == [] ==> j == 0) && n <= limits.HourCap() && |Run(limits, before).history| + n <= limits.DayCap()
    ensures var h := Run(limits, rs).history;
      && ClockRuns(rs) && NoneLater(rs, t + j * (HOUR_MS + 1)) && NoneLater(rs, t + (j + 1) * (HOUR_MS + 1))
      && h == Run(limits, before).history + Stamps(t + j * (HOUR_MS + 1), n)
      && AllGranted(h, t, t + (j + 1) * (HOUR_MS + 1))
      && NoneAfter(h, t + j * (HOUR_MS + 1))
  {
    hide Run, After, ClockRuns, NoneLater;
    var now, h := t + j * (HOUR_MS + 1), Run(limits, before).history;
    NoneAfterMeansNone(h, now - HOUR_MS - 1);
    AfterAtMostAll(h, now - DAY_MS);
    BurstIsGranted(limits, before, now, n);
    BurstKeepsClock(before, now, n);
    rs := before + Burst(now, n);
    LaterStill(rs, now, t + (j + 1) * (HOUR_MS + 1));
  }

  lemma AfterAtMostAll(es: seq<Stamp>, t: int)
    ensures |After(es, t)| <= |es|
  {}

  ghost predicate ClosedDayKeeps(limits: QuotaLimits, rs: seq<Request>, a: int) {
    Granted(Run(limits, rs).history, a, a + DAY_MS) <= Allowance(limits.DayCap())
  }

  /** With room in the hours, some run grants one more than the daily cap between the two ends of a day. */
  lemma DayCanOverflow(limits: QuotaLimits, t: int) returns (rs: seq<Request>)
    requires 0 < limits.HourCap() && 0 < limits.DayCap() < 24 * limits.HourCap()
    ensures ClockRuns(rs) && Granted(Run(limits, rs).history, t, t + DAY_MS) == limits.DayCap() + 1
  {
    hide Run, After, ClockRuns, NoneLater, Granted, NoneAfter;
    var c, d := limits.HourCap(), limits.DayCap();
    var full, left := HoursOf(c, d);
    assert full == 0 || full * c > 0;
    var hours := FullHours(limits, t, full);
    var h0 := Run(limits, hours).history;
    var day := OneMoreHour(limits, hours, t, full, left);
    var last := t + full * (HOUR_MS + 1);
    LastHourHasRoom(h0, last, left, t, full);
    LaterStill(day, last, t + DAY_MS);
    rs := LastOneFits(limits, day, t);
  }

  /** A day's requests as full hours and what is left. */
  lemma HoursOf(c: int, d: int) returns (full: nat, left: nat)
    requires 0 < c && 0 < d < 24 * c
    ensures full <= 23 && left < c && full * c + left == d
  {
    full, left := d / c, d % c;
    assert d == full * c + left;
    assert (24 - full) * c == 24 * c - full * c;
    PositiveFactor(24 - full, c);
  }

  lemma PositiveFactor(x: int, c: int)
    requires c > 0 && x * c > 0
    ensures x > 0
  {}

  lemma LastHourHasRoom(h0: seq<Stamp>, last: int, left: nat, t: int, full: nat)
    requires full <= 23 && last == t + full * (HOUR_MS + 1) && NoneAfter(h0, last - HOUR_MS - 1)
    ensures |After(h0 + Stamps(last, left), t + DAY_MS - HOUR_MS - 1)| <= left
  {
    hide After, Stamps;
    AfterBurst(h0, last, left, t + DAY_MS - HOUR_MS - 1);
    NoneAfterStill(h0, last - HOUR_MS - 1, t + DAY_MS - HOUR_MS - 1);
    NoneAfterMeansNone(h0, t + DAY_MS - HOUR_MS - 1);
  }

  lemma NoneAfterStill(es: seq<Stamp>, t: int, later: int)
    requires NoneAfter(es, t) && t <= later
    ensures NoneAfter(es, later)
  {}

  /** A last request as the day ends: the one that opened it is forgotten. */
  lemma LastOneFits(limits: QuotaLimits, day: seq<Request>, t: int) returns (rs: seq<Request>)
    requires ClockRuns(day) && NoneLater(day, t + DAY_MS)
    requires var h := Run(limits, day).history;
      && AllGranted(h, t, t + DAY_MS) && 0 < |h| <= limits.DayCap()
      && |After(h, t + DAY_MS - HOUR_MS - 1)| < limits.HourCap()
    ensures ClockRuns(rs) && Granted(Run(limits, rs).history, t, t + DAY_MS) == |Run(limits, day).history| + 1
  {
    hide Run, After, ClockRuns, NoneLater, Granted;
    var h := Run(limits, day).history;
    FirstIsForgotten(h, t);
    BurstIsGranted(limits, day, t + DAY_MS, 1);
    BurstKeepsClock(day, t + DAY_MS, 1);
    rs := day + Burst(t + DAY_MS, 1);
    GrantedBurst(h, t + DAY_MS, 1, t, t + DAY_MS);
    AllGrantedCount(h, t, t + DAY_MS);
  }

  /**
    When a day with both ends in it keeps the daily limit in every run: exactly when
    nothing is ever granted, or the hours alone already keep it.
   */
  lemma ClosedDayKeepsIff(limits: QuotaLimits)
    ensures (forall rs, a | ClockRuns(rs) :: ClosedDayKeeps(limits, rs, a)) <==>
      limits.DayCap() <= 0 || limits.HourCap() <= 0 || 24 * limits.HourCap() <= limits.DayCap()
  {
    hide Run, Granted, ClockRuns;
    if limits.DayCap() <= 0 || limits.HourCap() <= 0 || 24 * limits.HourCap() <= limits.DayCap() {
      forall rs, a | ClockRuns(rs)
        ensures ClosedDayKeeps(limits, rs, a)
      {
        ClosedDayBound(limits, rs, a);
        HoursBound(limits, rs, a, 24);
        GrantedSplits(Run(limits, rs).history, a, a + DAY_MS, a + 24 * (HOUR_MS + 1) - 1);
      }
    } else {
      var rs := DayCanOverflow(limits, 0);
      assert !ClosedDayKeeps(limits, rs, 0);
    }
  }
}
