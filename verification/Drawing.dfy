/**
  A minute as it is drawn, and what frames may do to it: the forming bar while there
  is one, otherwise every report held of the minute, joined. And the claims of a run
  made from any of its frames to any later one.
 */
module Drawing {
  import opened Candles
  import opened MinuteBook
  import opened Store
  import opened Wrappers

  predicate FormsAt(v: View, t: int) { v.forming.Some? && v.forming.value.t == t }

  function Drawn(v: View, t: int): Option<Bar> {
    if FormsAt(v, t) then v.forming
    else if t in v.slots then Some(v.slots[t].merged)
    else None
  }

  /** The first tick frame of a minute the provider's history already holds, with less of a range than the provider's. */
  ghost predicate StartsOver(v: View, e: Frame, t: int) {
    && e.Tick? && e.bar.t == t && !SealedIn(v.slots, t) && (v.forming.Some? ==> v.forming.value.t < t)
    && var provider := PartIn(At(v.slots, t), Reported(Backfill));
       provider.Some? && !Covers(e.bar, provider.value)
  }

  // -------------------------------------------------------------- a live frame

  /** Nothing forming is of a later minute than `b`, or of its minute with more ticks. */
  predicate IsNews(f: Option<Bar>, b: Bar) { f.Some? ==> f.value.t < b.t || (f.value.t == b.t && f.value.n <= b.n) }

  /** A tick frame that brings news of a minute not held sealed is what is drawn; any other changes nothing. */
  lemma LiveFrameIsDrawn(v: View, b: Bar)
    requires ValidView(v)
    ensures var v' := ApplyForming(v, b);
      if IsNews(v.forming, b) && !SealedIn(v.slots, b.t) then v'.forming == Some(b) && Drawn(v', b.t) == Some(b)
      else v' == v
    ensures v.forming.None? || v.forming.value.t == b.t ==> ApplyForming(v, b).slots == v.slots
  {
    hide ValidView, SealedIn, Hold;
  }

  /** A vol frame leaves nothing forming at or before its minute, and what forms later as it was. */
  lemma SealLeavesLaterForming(v: View, b: Bar)
    requires ValidView(v)
    ensures var f, f' := v.forming, SealMinute(v, b).forming;
      f' == if f.Some? && f.value.t > b.t then f else None
  {
    hide ValidView, Hold, Store.Report;
  }

  /** Tick frames as they were published: minutes do not go back, nor the ticks of one minute. */
  predicate InPublishOrder(es: seq<Frame>) {
    && (forall i | 0 <= i < |es| :: es[i].Tick?)
    && (forall i, j | 0 <= i < j < |es| :: IsNews(Some(es[i].bar), es[j].bar))
  }

  lemma {:induction false} RunSnoc(v: View, es: seq<Frame>)
    requires Legal(v, es) && es != []
    ensures var front := es[..|es| - 1];
      Legal(v, front) && Possible(Run(v, front), es[|es| - 1]) && Run(v, es) == Step(Run(v, front), es[|es| - 1])
    decreases |es|
  {
    hide Possible, Step;
    if |es| == 1 {
      assert es[..0] == [] && es[1..] == [];
    } else {
      RunSnoc(Step(v, es[0]), es[1..]);
      assert es[..|es| - 1][0] == es[0] && es[..|es| - 1][1..] == es[1..][..|es| - 2];
    }
  }

  /** Frame `i` of the run is of a minute not held sealed when it comes. */
  ghost predicate Lands(v: View, es: seq<Frame>, i: nat)
    requires i < |es| && es[i].Tick?
  {
    Legal(v, es[..i]) && !SealedIn(Run(v, es[..i]).slots, es[i].bar.t)
  }

  /**
    Over tick frames in publish order the forming bar is always the last one
    delivered of a minute not held sealed, or the bar from before them all.
   */
  lemma {:induction false} TheLastFrameForms(v: View, es: seq<Frame>) returns (k: int)
    requires Legal(v, es) && InPublishOrder(es) && ValidView(v)
    requires forall i | 0 <= i < |es| :: IsNews(v.forming, es[i].bar)
    ensures -1 <= k < |es| && Run(v, es).forming == if k < 0 then v.forming else Some(es[k].bar)
    ensures (k >= 0 ==> Lands(v, es, k)) && forall i | k < i < |es| :: !Lands(v, es, i)
    ensures ValidView(Run(v, es))
    decreases |es|
  {
    if es == [] {
      k := -1;
    } else {
      hide SealedIn, ValidView, ApplyForming, Legal, Run, Lands, IsNews, InPublishOrder, Drawn;
      var n := |es| - 1;
      var front, b := es[..n], es[n].bar;
      RunSnoc(v, es);
      OrderOfFront(v.forming, es);
      k := TheLastFrameForms(v, front);
      forall i: nat | i < n ensures Lands(v, front, i) <==> Lands(v, es, i) {
        LandsInFront(v, es, i);
      }
      LiveFrameIsDrawn(Run(v, front), b);
      StepIsValid(v, es);
      LandsNow(v, es);
      if Lands(v, es, n) {
        k := n;
      }
    }
  }

  lemma OrderOfFront(f: Option<Bar>, es: seq<Frame>)
    requires es != [] && InPublishOrder(es) && forall i | 0 <= i < |es| :: IsNews(f, es[i].bar)
    ensures var front, b := es[..|es| - 1], es[|es| - 1].bar;
      && InPublishOrder(front) && (forall i | 0 <= i < |front| :: IsNews(f, front[i].bar))
      && IsNews(f, b) && forall i | 0 <= i < |front| :: front[i] == es[i] && IsNews(Some(es[i].bar), b)
  {
    hide IsNews;
    assert forall i | 0 <= i < |es| - 1 :: es[..|es| - 1][i] == es[i];
  }

  lemma LandsInFront(v: View, es: seq<Frame>, i: nat)
    requires i < |es| - 1 && es[i].Tick?
    ensures Lands(v, es[..|es| - 1], i) <==> Lands(v, es, i)
  {
    hide SealedIn, Run, Legal;
    assert es[..|es| - 1][..i] == es[..i];
  }

  lemma LandsNow(v: View, es: seq<Frame>)
    requires es != [] && es[|es| - 1].Tick? && Legal(v, es[..|es| - 1])
    ensures Lands(v, es, |es| - 1) <==> !SealedIn(Run(v, es[..|es| - 1]).slots, es[|es| - 1].bar.t)
  {
    hide SealedIn, Run, Legal;
  }

  lemma StepIsValid(v: View, es: seq<Frame>)
    requires Legal(v, es) && es != [] && Legal(v, es[..|es| - 1]) && ValidView(Run(v, es[..|es| - 1])) && es[|es| - 1].Tick?
    requires Possible(Run(v, es[..|es| - 1]), es[|es| - 1])
    requires Run(v, es) == Step(Run(v, es[..|es| - 1]), es[|es| - 1])
    ensures ValidView(Run(v, es)) && Run(v, es) == ApplyForming(Run(v, es[..|es| - 1]), es[|es| - 1].bar)
  {
    hide SealedIn, Run, Legal;
  }

  // ---------------------------------------------------------------- one report

  lemma MergedCovers(slots: Slots, t: int, k: Kind)
    requires ValidSlots(slots) && t in slots && PartIn(At(slots, t), k).Some?
    ensures Covers(slots[t].merged, PartIn(At(slots, t), k).value)
  {
    hide Join;
    ValidAt(slots, t);
    JoinMeans(slots[t].parts);
  }

  /** A bar that covers what an unsealed minute can hold covers the join of it. */
  lemma MergedIsCovered(slots: Slots, t: int, b: Bar)
    requires ValidSlots(slots) && t in slots && !SealedIn(slots, t)
    requires forall k | k == Provisional || k == Reported(Backfill) :: PartIn(At(slots, t), k).Some? ==> Covers(b, PartIn(At(slots, t), k).value)
    ensures Covers(b, slots[t].merged)
  {
    hide Join, IndexOf;
    var s := slots[t];
    ValidAt(slots, t);
    JoinMeans(s.parts);
    forall i | 0 <= i < |s.parts|
      ensures Covers(b, s.parts[i])
    {
      IndexIs(s.kinds, i);
      assert PartIn(At(slots, t), s.kinds[i]) == Some(s.parts[i]);
      assert !IsSealed(s.kinds[i]);
    }
    assert forall p | p in s.parts :: Covers(b, p);
  }

  lemma PutLeaves(slots: Slots, b: Bar, kind: Kind, t: int)
    requires ValidSlots(slots) && |slots| <= MINUTE_CAP + TRIM_SLACK && Suits(kind, b) && t != b.t
    ensures var r := PutBook(slots, b, kind).0; At(r, t) == At(slots, t) || Capped(r, t)
  {
    hide PutSlot, ValidSlot, PutBook, Capped;
    BookStep(slots, b, kind, t);
  }

  /** A bar held over is covered by its minute from then on. */
  lemma HoldDraws(slots: Slots, f: Bar)
    requires ValidSlots(slots) && |slots| <= MINUTE_CAP + TRIM_SLACK && !SealedIn(slots, f.t)
    ensures var r := Hold(slots, f); Capped(r, f.t) || (f.t in r && Covers(r[f.t].merged, f))
  {
    hide PutBook, ValidSlot, SealedSlot, PartIn, ValidSlots, Capped;
    var own := f.(src := Stream);
    ProvisionalAcrossPut(slots, own, Provisional, f.t);
    BookStepKeys(slots, own, Provisional, f.t);
    if f.t in Hold(slots, f) {
      MergedCovers(Hold(slots, f), f.t, Provisional);
    }
  }

  // ----------------------------------------------------------------- one frame

  /** A tick frame narrows a drawn minute exactly when it starts over one the provider reported wider. */
  lemma TickDraws(v: View, b: Bar, t: int)
    requires ValidView(v) && FormingIsOpen(v)
    requires Own(v, b.t).Some? ==> Covers(b, Own(v, b.t).value)
    ensures var v' := ApplyForming(v, b);
      Capped(v'.slots, t) || SealedIn(v'.slots, t) || (Keeps(Drawn(v, t), Drawn(v', t)) <==> !StartsOver(v, Tick(b), t))
  {
    hide PutBook, ValidSlot, SealedIn, PartIn, ValidSlots, Capped, Hold;
    if !Stale(v.forming, b) && !SealedIn(v.slots, b.t) {
      if b.t == t && !FormsAt(v, t) {
        StartDraws(v.slots, t, b);
      }
      if v.forming.Some? && b.t > v.forming.value.t {
        var f := v.forming.value;
        if f.t == t {
          HoldDraws(v.slots, f);
        } else {
          HoldLeaves(v.slots, f, t);
        }
      }
    }
  }

  lemma HoldLeaves(slots: Slots, f: Bar, t: int)
    requires ValidSlots(slots) && |slots| <= MINUTE_CAP + TRIM_SLACK && t != f.t
    ensures At(Hold(slots, f), t) == At(slots, t) || Capped(Hold(slots, f), t)
  {
    hide PutBook, ValidSlots, Capped;
    PutLeaves(slots, f.(src := Stream), Provisional, t);
  }

  /** A first bar of an unsealed minute covers what was drawn of it exactly when it covers the provider's bar. */
  lemma StartDraws(slots: Slots, t: int, b: Bar)
    requires ValidSlots(slots) && !SealedIn(slots, t)
    requires var own := PartIn(At(slots, t), Provisional); own.Some? ==> Covers(b, own.value)
    ensures var provider := PartIn(At(slots, t), Reported(Backfill));
      (t in slots ==> Covers(b, slots[t].merged)) <==> (provider.Some? ==> Covers(b, provider.value))
  {
    hide ValidSlots, SealedIn;
    var provider := PartIn(At(slots, t), Reported(Backfill));
    if t in slots {
      if provider.Some? ==> Covers(b, provider.value) {
        MergedIsCovered(slots, t, b);
      } else {
        MergedCovers(slots, t, Reported(Backfill));
      }
    }
  }

  /** A vol frame narrows no minute but its own, which it seals. */
  lemma VolDraws(v: View, b: Bar, t: int)
    requires ValidView(v) && FormingIsOpen(v) && IsSealed(Reported(b.src))
    ensures Keeps(Drawn(v, t), Drawn(SealMinute(v, b), t)) || SealedIn(SealMinute(v, b).slots, t) || CappedBySeal(v, b, t)
  {
    hide PutBook, ValidSlot, SealedIn, ValidSlots, Capped, Hold, Store.Report;
    if t == b.t {
      OwnMinuteSeals(v, b);
    } else {
      var put := Store.Report(v.slots, b);
      ReportLeaves(v.slots, b, t);
      if v.forming.Some? && v.forming.value.t < b.t {
        var f := v.forming.value;
        if f.t == t {
          ReportSeals(v.slots, b, t);
          SealedNeedsSlot(put, t);
          HoldDraws(put, f);
        } else {
          HoldLeaves(put, f, t);
        }
      }
    }
  }

  lemma ReportLeaves(slots: Slots, b: Bar, t: int)
    requires ValidSlots(slots) && |slots| <= MINUTE_CAP + TRIM_SLACK && t != b.t
    ensures At(Store.Report(slots, b), t) == At(slots, t) || Capped(Store.Report(slots, b), t)
  {
    hide PutBook, ValidSlots, Capped;
    PutLeaves(slots, b, Reported(b.src), t);
  }

  lemma ReportSeals(slots: Slots, b: Bar, t: int)
    requires ValidSlots(slots) && |slots| <= MINUTE_CAP + TRIM_SLACK
    ensures var r := Store.Report(slots, b);
      t in r ==> (SealedIn(r, t) <==> SealedIn(slots, t) || (t == b.t && IsSealed(Reported(b.src))))
  {
    hide PutBook, ValidSlots, SealedIn;
    SealedStaysAcrossPut(slots, b, Reported(b.src), t);
  }

  lemma OwnMinuteSeals(v: View, b: Bar)
    requires ValidView(v) && IsSealed(Reported(b.src))
    ensures SealedIn(SealMinute(v, b).slots, b.t) || CappedBySeal(v, b, b.t)
  {
    hide PutBook, ValidSlot, SealedIn, ValidSlots, Capped, PutSlot;
    var put := Store.Report(v.slots, b);
    ReportSeals(v.slots, b, b.t);
    BookStepKeys(v.slots, b, Reported(b.src), b.t);
    if v.forming.Some? && v.forming.value.t < b.t && b.t in put {
      var f := v.forming.value.(src := Stream);
      BookStepKeys(put, f, Provisional, b.t);
      SealedStaysAcrossPut(put, f, Provisional, b.t);
    }
  }

  /**
    One frame, tick or vol: a drawn minute is sealed, or dropped by the cap, or it
    narrows exactly when a tick frame starts it over below the provider's range.
   */
  lemma FrameDraws(v: View, e: Frame, t: int)
    requires Possible(v, e) && !e.Load? && FormingIsOpen(v)
    requires e.Tick? && Own(v, e.bar.t).Some? ==> Covers(e.bar, Own(v, e.bar.t).value)
    ensures Excuses(v, e, t) || (Keeps(Drawn(v, t), Drawn(Step(v, e), t)) <==> !StartsOver(v, e, t))
  {
    hide Own, SealedIn, ApplyForming, SealMinute, Capped, Keeps, ValidView, FormingIsOpen, Drawn;
    ViewIsValid(v, e);
    match e
    case Tick(b) => TickDraws(v, b, t);
    case Vol(b) => VolDraws(v, b, t);
  }

  lemma ViewIsValid(v: View, e: Frame)
    requires Possible(v, e)
    ensures ValidView(v)
  {}

  // --------------------------------------------------------------- whole runs

  /** Tick frames that are cumulative and cover what is held, from a view whose forming minute is open. */
  ghost predicate Fair(v: View, es: seq<Frame>) { Legal(v, es) && FormingIsOpen(v) && Cumulative(es) && Ahead(v, es) }

  ghost predicate Live(es: seq<Frame>) { forall i | 0 <= i < |es| :: !es[i].Load? }

  ghost predicate DrawnExcused(v: View, es: seq<Frame>, t: int)
    requires Legal(v, es)
    decreases |es|
  {
    es != [] && (Excuses(v, es[0], t) || StartsOver(v, es[0], t) || DrawnExcused(Step(v, es[0]), es[1..], t))
  }

  lemma FairTail(v: View, es: seq<Frame>)
    requires Fair(v, es) && es != []
    ensures Possible(v, es[0]) && Fair(Step(v, es[0]), es[1..])
  {
    hide Own, ValidView, FormingIsOpen, Ahead, Cumulative;
    AheadStays(v, es);
    AheadNow(v, es);
    hide Step;
    FrameStep(v, es[0], 0);
  }

  lemma FairNow(v: View, es: seq<Frame>)
    requires Fair(v, es) && es != []
    ensures FormingIsOpen(v) && Possible(v, es[0])
    ensures es[0].Tick? && Own(v, es[0].bar.t).Some? ==> Covers(es[0].bar, Own(v, es[0].bar.t).value)
  {
    AheadNow(v, es);
  }

  /** Over tick and vol frames a minute never narrows as drawn, until it is sealed, dropped by the cap, or started over. */
  lemma {:induction false} DrawnNeverNarrows(v: View, es: seq<Frame>, t: int)
    requires Fair(v, es) && Live(es)
    ensures Legal(v, es) && (Keeps(Drawn(v, t), Drawn(Run(v, es), t)) || DrawnExcused(v, es, t))
    decreases |es|
  {
    if es != [] {
      hide Own, Step, Drawn, Possible, Excuses, StartsOver, Fair, FormingIsOpen;
      FairNow(v, es);
      FairTail(v, es);
      FairIsLegal(v, es);
      FrameDraws(v, es[0], t);
      DrawnNeverNarrows(Step(v, es[0]), es[1..], t);
    }
  }

  lemma FairIsLegal(v: View, es: seq<Frame>)
    requires Fair(v, es)
    ensures Legal(v, es)
  {}

  /** A fair run is fair from each of its frames on. */
  lemma {:induction false} FairFrom(v: View, es: seq<Frame>, i: nat)
    requires Fair(v, es) && i <= |es|
    ensures Legal(v, es[..i]) && Fair(Run(v, es[..i]), es[i..])
    ensures Legal(v, es) && Run(v, es) == Run(Run(v, es[..i]), es[i..])
    decreases i
  {
    hide Fair, Possible, Step, ValidView;
    FairIsLegal(v, es);
    if i == 0 {
      assert es[0..] == es && es[..0] == [];
    } else {
      FairTail(v, es);
      assert es[..i][0] == es[0] && es[..i][1..] == es[1..][..i - 1] && es[i..] == es[1..][i - 1..];
      FairFrom(Step(v, es[0]), es[1..], i - 1);
    }
  }

  lemma {:induction false} LegalPrefix(v: View, es: seq<Frame>, j: nat)
    requires Legal(v, es) && j <= |es|
    ensures Legal(v, es[..j])
    decreases j
  {
    if j > 0 {
      hide Possible, Step;
      LegalPrefix(Step(v, es[0]), es[1..], j - 1);
      assert es[..j][0] == es[0] && es[..j][1..] == es[1..][..j - 1];
    }
  }

  lemma FairPrefix(v: View, es: seq<Frame>, j: nat)
    requires Fair(v, es) && j <= |es|
    ensures Fair(v, es[..j])
  {
    hide Own, FormingIsOpen;
    LegalPrefix(v, es, j);
    assert forall i | 0 <= i < j :: es[..j][i] == es[i];
  }

  /**
    From any frame of a run to any later one: a minute's own bar does not narrow
    unless something excuses it in between, and neither, over tick and vol frames,
    does the minute as drawn. An excuse before the first of the two frames, or after
    the second, excuses nothing.
   */
  lemma NeverNarrowsBetween(v: View, es: seq<Frame>, i: nat, j: nat, t: int)
    requires Fair(v, es) && i <= j <= |es|
    ensures Legal(v, es[..i]) && Legal(v, es[..j])
    ensures var a, b := Run(v, es[..i]), Run(v, es[..j]);
      && Legal(a, es[i..j])
      && (Keeps(Own(a, t), Own(b, t)) || Excused(a, es[i..j], t))
      && (Live(es[i..j]) ==> Keeps(Drawn(a, t), Drawn(b, t)) || DrawnExcused(a, es[i..j], t))
  {
    hide Own, Drawn, Keeps, Legal, Run, Excused, DrawnExcused, FormingIsOpen, Ahead, Cumulative, Live;
    FairPrefix(v, es, j);
    var up := es[..j];
    FairFrom(v, up, i);
    assert up[..i] == es[..i] && up[i..] == es[i..j];
    var a := Run(v, es[..i]);
    RangeNeverNarrows(a, es[i..j], t);
    if Live(es[i..j]) {
      DrawnNeverNarrows(a, es[i..j], t);
    }
  }
}
