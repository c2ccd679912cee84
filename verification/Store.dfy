/**
  One pair's live minutes: tick frames carry the minute so far, vol frames seal it,
  snapshots and the history request merge over it. Rendering topics are not modelled.
 */
module Store {
  import opened Candles
  import opened MinuteBook
  import opened OrderedKeys
  import opened Wrappers

  datatype View = View(slots: Slots, forming: Option<Bar>)

  predicate SealedIn(slots: Slots, t: int) { SealedSlot(At(slots, t)) }

  ghost predicate ValidView(v: View) { ValidSlots(v.slots) && |v.slots| <= MINUTE_CAP + TRIM_SLACK }

  function Hold(slots: Slots, f: Bar): (r: Slots)
    requires ValidSlots(slots) && |slots| <= MINUTE_CAP + TRIM_SLACK
    ensures ValidSlots(r) && |r| <= MINUTE_CAP + TRIM_SLACK
  {
    PutMeans(slots, f.(src := Stream), Provisional);
    PutBook(slots, f.(src := Stream), Provisional).0
  }

  function Report(slots: Slots, b: Bar): (r: Slots)
    requires ValidSlots(slots) && |slots| <= MINUTE_CAP + TRIM_SLACK
    ensures ValidSlots(r) && |r| <= MINUTE_CAP + TRIM_SLACK
  {
    PutMeans(slots, b, Reported(b.src));
    PutBook(slots, b, Reported(b.src)).0
  }

  predicate Stale(f: Option<Bar>, b: Bar) { f.Some? && (b.t < f.value.t || (b.t == f.value.t && b.n < f.value.n)) }

  /** A tick frame: a report of a minute that may still grow. */
  function ApplyForming(v: View, b: Bar): View
    requires ValidView(v)
  {
    if Stale(v.forming, b) || SealedIn(v.slots, b.t) then v
    else if v.forming.Some? && b.t > v.forming.value.t then View(Hold(v.slots, v.forming.value), Some(b))
    else View(v.slots, Some(b))
  }

  /** A vol frame: the final report of its minute. */
  function SealMinute(v: View, b: Bar): View
    requires ValidView(v)
  {
    var put := Report(v.slots, b);
    if v.forming.Some? && v.forming.value.t <= b.t then
      View(if v.forming.value.t < b.t then Hold(put, v.forming.value) else put, None)
    else View(put, v.forming)
  }

  function PutAll(slots: Slots, bars: seq<Bar>): (r: Slots)
    requires ValidSlots(slots) && |slots| <= MINUTE_CAP + TRIM_SLACK
    ensures ValidSlots(r) && |r| <= MINUTE_CAP + TRIM_SLACK
  {
    if bars == [] then slots else Report(PutAll(slots, bars[..|bars| - 1]), bars[|bars| - 1])
  }

  function Times(bars: seq<Bar>): set<int> {
    if bars == [] then {} else Times(bars[..|bars| - 1]) + {bars[|bars| - 1].t}
  }

  function Least(bars: seq<Bar>): (r: int)
    requires bars != []
    ensures forall i | 0 <= i < |bars| :: r <= bars[i].t
    ensures exists i | 0 <= i < |bars| :: bars[i].t == r
  {
    if |bars| == 1 then bars[0].t
    else var m := Least(bars[..|bars| - 1]); if bars[|bars| - 1].t < m then bars[|bars| - 1].t else m
  }

  function Greatest(bars: seq<Bar>): (r: int)
    requires bars != []
    ensures forall i | 0 <= i < |bars| :: bars[i].t <= r
    ensures exists i | 0 <= i < |bars| :: bars[i].t == r
  {
    if |bars| == 1 then bars[0].t
    else var m := Greatest(bars[..|bars| - 1]); if bars[|bars| - 1].t > m then bars[|bars| - 1].t else m
  }

  /** Minute `t` once the bars are put and the provisional minutes they pass over are dropped. */
  function AfterMerge(v: View, bars: seq<Bar>, t: int): Option<Slot>
    requires ValidView(v)
  {
    var put := PutAll(v.slots, bars);
    if bars == [] then At(put, t) else Dropped(put, t, Least(bars), Greatest(bars), Times(bars))
  }

  /** `v'` is what merging the bars leaves: every minute is determined, and so is the forming one. */
  ghost predicate Merges(v: View, v': View, bars: seq<Bar>)
    requires ValidView(v)
  {
    && (forall t :: At(v'.slots, t) == AfterMerge(v, bars, t))
    && v'.forming == (if v.forming.Some? && SealedIn(v'.slots, v.forming.value.t) then None else v.forming)
  }

  /** The merge leaves one view, whatever order the drops are made in. */
  lemma MergeIsDetermined(v: View, a: View, b: View, bars: seq<Bar>)
    requires ValidView(v) && Merges(v, a, bars) && Merges(v, b, bars)
    ensures a == b
  {
    hide AfterMerge, ValidView;
    forall t
      ensures (t in a.slots <==> t in b.slots) && (t in a.slots ==> a.slots[t] == b.slots[t])
    {
      assert At(a.slots, t) == AfterMerge(v, bars, t) == At(b.slots, t);
    }
    assert a.slots == b.slots;
  }

  // ---------------------------------------------------------------- the class

  class MarketStore {
    const book: Book
    /** Counts the holes noticed, each a call for history. */
    var gen: nat

    function Abs(): View
      reads book
    {
      View(book.slots, book.forming)
    }

    constructor ()
      ensures fresh(book) && book.Valid() && Abs() == View(map[], None) && gen == 0
    {
      book := new Book();
      gen := 0;
    }

    method ApplyFormingFrame(b: Bar)
      requires book.Valid()
      modifies book
      ensures book.Valid() && ValidView(old(Abs())) && Abs() == ApplyForming(old(Abs()), b)
    {
      hide PutBook, ValidSlot, Shown, HoldsSealed;
      var cur := book.forming;
      if cur.Some? && (b.t < cur.value.t || (b.t == cur.value.t && b.n < cur.value.n)) {
        return;
      }
      if book.SealedAt(b.t) {
        return;
      }
      book.forming := Some(b);
      if cur.Some? && b.t > cur.value.t {
        var _ := book.HoldProvisionally(cur.value);
      }
    }

    method SealFrame(b: Bar)
      requires book.Valid()
      modifies book
      ensures book.Valid() && ValidView(old(Abs())) && Abs() == SealMinute(old(Abs()), b)
    {
      hide PutBook, ValidSlot, Shown;
      var _ := book.Put(b, Reported(b.src));
      var f := book.forming;
      if f.Some? && f.value.t <= b.t {
        if f.value.t < b.t {
          var _ := book.HoldProvisionally(f.value);
        }
        book.forming := None;
      }
    }

    method MergeMinutes(bars: seq<Bar>, snapshot: bool)
      requires book.Valid()
      modifies this`gen, book
      ensures book.Valid() && ValidView(old(Abs())) && Merges(old(Abs()), Abs(), bars)
      ensures gen == old(gen) + (if snapshot && bars != [] && Behind(old(book.slots), bars[0].t) then 1 else 0)
    {
      hide PutBook, ValidSlot, Shown, HoldsSealed, Dropped, Least, Greatest;
      var held := book.Sorted();
      LastIsNewest(book.slots);
      if snapshot && held != [] && bars != [] && bars[0].t > held[|held| - 1].t {
        gen := gen + 1;
      }
      ghost var slots := book.slots;
      for i := 0 to |bars|
        invariant book.Valid() && ValidSlots(slots) && |slots| <= MINUTE_CAP + TRIM_SLACK
        invariant book.slots == PutAll(slots, bars[..i]) && book.forming == old(book.forming)
        invariant gen == old(gen) + (if snapshot && bars != [] && Behind(slots, bars[0].t) then 1 else 0)
      {
        assert bars[..i + 1][..i] == bars[..i];
        var _ := book.Put(bars[i], Reported(bars[i].src));
      }
      assert bars[..|bars|] == bars;
      if bars != [] {
        var _ := book.DropUnsealed(Least(bars), Greatest(bars), Times(bars));
      }
      var f := book.forming;
      if f.Some? && book.SealedAt(f.value.t) {
        book.forming := None;
      }
    }
  }

  /** Every minute held is before `t`, and one is held. */
  ghost predicate Behind(slots: Slots, t: int) { slots != map[] && forall u | u in slots :: u < t }

  lemma LastIsNewest(slots: Slots)
    requires ValidSlots(slots)
    ensures Shown(slots) != [] <==> slots != map[]
    ensures forall t :: Shown(slots) != [] && t > Shown(slots)[|Shown(slots)| - 1].t <==> Behind(slots, t)
  {
    hide ValidSlot, Shown;
    ShownIsAscending(slots);
    var s := Shown(slots);
    assert |slots| == 0 <==> slots == map[];
    if s != [] {
      assert s[|s| - 1] in s;
      forall u | u in slots
        ensures u <= s[|s| - 1].t
      {
        MergedTime(u, slots[u]);
        assert slots[u].merged in s;
        var i :| 0 <= i < |s| && s[i] == slots[u].merged;
      }
    }
  }

  // ---------------------------------------------- what no frame can take away

  /** The forming minute is never one whose seal is held. */
  predicate FormingIsOpen(v: View) { v.forming.Some? ==> !SealedIn(v.slots, v.forming.value.t) }

  /** Our own stream's bar of a minute not sealed yet: forming, or held provisionally since it ended. */
  function Own(v: View, t: int): Option<Bar> {
    if v.forming.Some? && v.forming.value.t == t then v.forming else PartIn(At(v.slots, t), Provisional)
  }

  /** Minute `t` is one the cap dropped: everything kept is newer. */
  ghost predicate Capped(slots: Slots, t: int) { |slots| == MINUTE_CAP && forall u | u in slots :: t < u }

  /** One report: its minute is revised, every other kept or dropped by the cap, a seal never undone. */
  lemma BookStep(slots: Slots, b: Bar, kind: Kind, t: int)
    requires ValidSlots(slots) && |slots| <= MINUTE_CAP + TRIM_SLACK && Suits(kind, b)
    ensures var r := PutBook(slots, b, kind).0;
      && (t in r || (t !in slots && t != b.t) || Capped(r, t))
      && (t !in r || At(r, t) == if t == b.t then Some(PutSlot(At(slots, t), b, kind).0) else At(slots, t))
  {
    hide PutSlot, ValidSlot, Trim;
    PutMeans(slots, b, kind);
    var (slot, changed) := PutSlot(At(slots, b.t), b, kind);
    var next := slots[b.t := slot];
    TrimKeepsTheNewest(next);
    if changed && t in next && t !in Trim(next) {
      TrimDropsOnlyWhenFull(next, t);
    }
  }

  lemma TrimDropsOnlyWhenFull(slots: Slots, t: int)
    requires t !in Trim(slots) && t in slots
    ensures Capped(Trim(slots), t)
  {
    TrimKeepsTheNewest(slots);
  }

  lemma SealedStaysAcrossPut(slots: Slots, b: Bar, kind: Kind, t: int)
    requires ValidSlots(slots) && |slots| <= MINUTE_CAP + TRIM_SLACK && Suits(kind, b)
    ensures var r := PutBook(slots, b, kind).0;
      t in r ==> (SealedIn(r, t) <==> SealedIn(slots, t) || (t == b.t && IsSealed(kind)))
  {
    hide PutSlot, ValidSlot, PutBook, SealedSlot;
    BookStep(slots, b, kind, t);
    PutSlotMeans(At(slots, b.t), b, kind);
  }

  /** The forming minute stays open: a tick frame, a seal or a merge never leaves it on a sealed minute. */
  lemma FormingStaysOpen(v: View, b: Bar)
    requires ValidView(v) && FormingIsOpen(v)
    ensures FormingIsOpen(ApplyForming(v, b)) && FormingIsOpen(SealMinute(v, b))
    ensures forall v', bars :: Merges(v, v', bars) ==> FormingIsOpen(v')
  {
    hide PutBook, ValidSlot, SealedIn;
    NotThereNotSealed();
    if v.forming.Some? {
      var f := v.forming.value;
      SealedStaysAcrossPut(v.slots, f.(src := Stream), Provisional, b.t);
      SealedStaysAcrossPut(v.slots, b, Reported(b.src), f.t);
      SealedNeedsSlot(Report(v.slots, b), f.t);
      SealedNeedsSlot(Hold(v.slots, f), b.t);
    }
  }

  lemma NotThereNotSealed()
    ensures forall slots: Slots, t :: t !in slots ==> !SealedIn(slots, t)
  {}

  lemma SealedNeedsSlot(slots: Slots, t: int)
    ensures SealedIn(slots, t) ==> t in slots
  {}

  /** A minute once sealed stays sealed for as long as it is held. */
  lemma SealsAreKept(v: View, b: Bar, t: int)
    requires ValidView(v) && FormingIsOpen(v) && SealedIn(v.slots, t)
    ensures t in ApplyForming(v, b).slots ==> SealedIn(ApplyForming(v, b).slots, t)
    ensures t in SealMinute(v, b).slots ==> SealedIn(SealMinute(v, b).slots, t)
  {
    hide PutBook, ValidSlot, SealedIn;
    if v.forming.Some? {
      var f := v.forming.value.(src := Stream);
      SealedStaysAcrossPut(v.slots, f, Provisional, t);
      SealedStaysAcrossPut(Report(v.slots, b), f, Provisional, t);
      HeldBefore(Report(v.slots, b), f, Provisional, t);
    }
    SealedStaysAcrossPut(v.slots, b, Reported(b.src), t);
  }

  lemma HeldBefore(slots: Slots, b: Bar, kind: Kind, t: int)
    requires ValidSlots(slots) && |slots| <= MINUTE_CAP + TRIM_SLACK && Suits(kind, b)
    ensures t in PutBook(slots, b, kind).0 && t != b.t ==> t in slots
  {
    hide PutSlot, ValidSlot;
    BookStep(slots, b, kind, t);
    var r := PutBook(slots, b, kind).0;
    if t in r && t != b.t {
      assert At(r, t) == Some(r[t]);
      assert At(slots, t).Some?;
    }
  }

  /** What a report leaves of a minute's provisional bar. */
  lemma ProvisionalAcrossPut(slots: Slots, b: Bar, kind: Kind, t: int)
    requires ValidSlots(slots) && |slots| <= MINUTE_CAP + TRIM_SLACK && Suits(kind, b)
    ensures var r := PutBook(slots, b, kind).0;
      t !in r || PartIn(At(r, t), Provisional) == (
        if t == b.t && kind.Provisional? && !SealedIn(slots, t) then Some(b)
        else if t == b.t && IsSealed(kind) then None
        else PartIn(At(slots, t), Provisional))
  {
    hide PutSlot, ValidSlot, PutBook, SealedSlot, PartIn;
    BookStep(slots, b, kind, t);
    PutSlotMeans(At(slots, b.t), b, kind);
  }

  lemma NothingHeldThere(slots: Slots, t: int)
    requires t !in slots
    ensures PartIn(At(slots, t), Provisional) == None
  {}

  ghost predicate Keeps(before: Option<Bar>, after: Option<Bar>) {
    before.Some? ==> after.Some? && Covers(after.value, before.value)
  }

  /** Our own bar is one already held, or the frame just applied. */
  predicate ComesFrom(before: Option<Bar>, after: Option<Bar>, b: Option<Bar>) {
    after.Some? ==> after == b || (before.Some? && after.value.(src := Stream) == before.value.(src := Stream))
  }

  /** Across a tick frame that covers what is held of its minute, no minute's own bar narrows, unless the cap drops it. */
  lemma TickStep(v: View, b: Bar, t: int)
    requires ValidView(v) && FormingIsOpen(v)
    requires t == b.t && Own(v, t).Some? ==> Covers(b, Own(v, t).value)
    ensures Keeps(Own(v, t), Own(ApplyForming(v, b), t)) || Capped(ApplyForming(v, b).slots, t)
    ensures ComesFrom(Own(v, t), Own(ApplyForming(v, b), t), if b.t == t then Some(b) else None)
  {
    hide PutBook, ValidSlot, SealedIn, PartIn, ValidSlots;
    var v' := ApplyForming(v, b);
    if !Stale(v.forming, b) && !SealedIn(v.slots, b.t) && v.forming.Some? && b.t > v.forming.value.t {
      var f := v.forming.value.(src := Stream);
      ProvisionalAcrossPut(v.slots, f, Provisional, t);
      BookStepKeys(v.slots, f, Provisional, t);
      if t !in v'.slots {
        NothingHeldThere(v'.slots, t);
        if t !in v.slots {
          NothingHeldThere(v.slots, t);
        }
      }
    }
  }

  lemma BookStepKeys(slots: Slots, b: Bar, kind: Kind, t: int)
    requires ValidSlots(slots) && |slots| <= MINUTE_CAP + TRIM_SLACK && Suits(kind, b)
    ensures t in PutBook(slots, b, kind).0 || (t !in slots && t != b.t) || Capped(PutBook(slots, b, kind).0, t)
  {
    hide PutSlot, ValidSlot, PutBook;
    BookStep(slots, b, kind, t);
  }

  /** Dropped by the cap, at either of the two reports a vol frame can bring. */
  ghost predicate CappedBySeal(v: View, b: Bar, t: int)
    requires ValidView(v)
  {
    Capped(Report(v.slots, b), t) || Capped(SealMinute(v, b).slots, t)
  }

  /** Across a vol frame, every other minute's own bar is kept; the frame's own minute is sealed. */
  lemma SealStep(v: View, b: Bar, t: int)
    requires ValidView(v) && FormingIsOpen(v) && IsSealed(Reported(b.src))
    ensures Keeps(Own(v, t), Own(SealMinute(v, b), t)) || SealedIn(SealMinute(v, b).slots, t) || CappedBySeal(v, b, t)
    ensures ComesFrom(Own(v, t), Own(SealMinute(v, b), t), None)
  {
    hide PutBook, ValidSlot, SealedIn, PartIn, ValidSlots;
    var put := Report(v.slots, b);
    ProvisionalAcrossPut(v.slots, b, Reported(b.src), t);
    SealedStaysAcrossPut(v.slots, b, Reported(b.src), t);
    BookStepKeys(v.slots, b, Reported(b.src), t);
    if t !in put { NothingHeldThere(put, t); }
    if t !in v.slots { NothingHeldThere(v.slots, t); }
    if v.forming.Some? && v.forming.value.t < b.t {
      var f := v.forming.value.(src := Stream);
      SealedStaysAcrossPut(v.slots, b, Reported(b.src), f.t);
      SealedNeedsSlot(put, f.t);
      ProvisionalAcrossPut(put, f, Provisional, t);
      SealedStaysAcrossPut(put, f, Provisional, t);
      BookStepKeys(put, f, Provisional, t);
      var r := Hold(put, v.forming.value);
      if t !in r { NothingHeldThere(r, t); }
    }
  }

  /** Dropped by the cap while the bars of a merge are put. */
  ghost predicate CappedByMerge(slots: Slots, bars: seq<Bar>, t: int)
    requires ValidSlots(slots) && |slots| <= MINUTE_CAP + TRIM_SLACK
  {
    exists k | 0 <= k <= |bars| :: Capped(PutAll(slots, bars[..k]), t)
  }

  lemma {:induction false} PutAllStep(slots: Slots, bars: seq<Bar>, t: int)
    requires ValidSlots(slots) && |slots| <= MINUTE_CAP + TRIM_SLACK
    ensures var r := PutAll(slots, bars);
      && (PartIn(At(r, t), Provisional) == PartIn(At(slots, t), Provisional) || SealedIn(r, t) || CappedByMerge(slots, bars, t))
      && (PartIn(At(r, t), Provisional).Some? ==> PartIn(At(r, t), Provisional) == PartIn(At(slots, t), Provisional))
  {
    hide PutBook, ValidSlot, SealedIn, PartIn, ValidSlots;
    if bars != [] {
      var front, b := bars[..|bars| - 1], bars[|bars| - 1];
      PutAllStep(slots, front, t);
      var put := PutAll(slots, front);
      var r := PutAll(slots, bars);
      ProvisionalAcrossPut(put, b, Reported(b.src), t);
      SealedStaysAcrossPut(put, b, Reported(b.src), t);
      BookStepKeys(put, b, Reported(b.src), t);
      if t !in r { NothingHeldThere(r, t); }
      if t !in put { NothingHeldThere(put, t); }
      if k :| 0 <= k <= |front| && Capped(PutAll(slots, front[..k]), t) {
        assert bars[..k] == front[..k];
        assert CappedByMerge(slots, bars, t);
      }
      assert bars[..|bars|] == bars;
      SealedNeedsSlot(put, t);
    }
  }

  /** The last of the bars with this minute and source. */
  function LastReport(bars: seq<Bar>, t: int, src: Source): Option<Bar> {
    if bars == [] then None
    else if bars[|bars| - 1].t == t && bars[|bars| - 1].src == src then Some(bars[|bars| - 1])
    else LastReport(bars[..|bars| - 1], t, src)
  }

  /** After a merge a minute holds of each source the last report among the bars, or else the one from before, unless the cap drops it. */
  lemma {:induction false} MergeTakesTheLast(slots: Slots, bars: seq<Bar>, t: int, src: Source)
    requires ValidSlots(slots) && |slots| <= MINUTE_CAP + TRIM_SLACK
    ensures var r, last := PutAll(slots, bars), LastReport(bars, t, src);
      CappedByMerge(slots, bars, t) ||
        (PartIn(At(r, t), Reported(src)) == (if last.Some? then last else PartIn(At(slots, t), Reported(src))) &&
         (t !in r ==> t !in slots && last.None?))
  {
    hide PutBook, ValidSlot, PartIn, ValidSlots, PutSlot, SealedSlot, Capped;
    if bars != [] {
      var front, b := bars[..|bars| - 1], bars[|bars| - 1];
      MergeTakesTheLast(slots, front, t, src);
      var put := PutAll(slots, front);
      BookStep(put, b, Reported(b.src), t);
      ValidAt(put, b.t);
      PutSlotMeans(At(put, b.t), b, Reported(b.src));
      assert bars[..|bars|] == bars;
      if k :| 0 <= k <= |front| && Capped(PutAll(slots, front[..k]), t) {
        assert bars[..k] == front[..k];
        assert CappedByMerge(slots, bars, t);
      }
    } else {
      assert bars[..0] == bars;
    }
  }

  /** Minute `t` lies in the span of the bars, which do not hold it. */
  predicate PassedOver(bars: seq<Bar>, t: int) { bars != [] && Least(bars) <= t <= Greatest(bars) && t !in Times(bars) }

  /** Across a merge, a minute's own bar is kept, unless the bars seal it or pass it over, or the cap drops it. */
  lemma MergeStep(v: View, v': View, bars: seq<Bar>, t: int)
    requires ValidView(v) && FormingIsOpen(v) && Merges(v, v', bars)
    ensures Keeps(Own(v, t), Own(v', t)) || SealedIn(v'.slots, t) || CappedByMerge(v.slots, bars, t) || PassedOver(bars, t)
    ensures ComesFrom(Own(v, t), Own(v', t), None)
  {
    hide ValidSlot, PutAll, ValidSlots, Least, Greatest, Times;
    PutAllStep(v.slots, bars, t);
    var put := PutAll(v.slots, bars);
    assert At(v'.slots, t) == AfterMerge(v, bars, t);
    DropSlotMeans(put, t);
    SealedNeedsSlot(put, t);
  }

  lemma DropSlotMeans(slots: Slots, t: int)
    requires ValidSlots(slots)
    ensures SealedIn(slots, t) ==> DropSlot(At(slots, t)) == At(slots, t)
    ensures PartIn(DropSlot(At(slots, t)), Provisional) == None
  {
    hide Join, HoldsSealed, DropProvisional;
    if t in slots {
      HeldPartsSuit(t, slots[t]);
      DropMeans(t, slots[t].kinds, slots[t].parts);
    }
  }

  // ------------------------------------------------------------------ whole runs

  datatype Frame = Tick(bar: Bar) | Vol(bar: Bar) | Load(bars: seq<Bar>, left: View)

  ghost predicate Possible(v: View, e: Frame) {
    && ValidView(v)
    && (e.Vol? ==> IsSealed(Reported(e.bar.src)))
    && (e.Load? ==> Merges(v, e.left, e.bars) && ValidView(e.left))
  }

  ghost function Step(v: View, e: Frame): View
    requires Possible(v, e)
  {
    match e
    case Tick(b) => ApplyForming(v, b)
    case Vol(b) => SealMinute(v, b)
    case Load(bars, left) => left
  }

  ghost predicate Legal(v: View, es: seq<Frame>)
    decreases |es|
  {
    es == [] || (Possible(v, es[0]) && Legal(Step(v, es[0]), es[1..]))
  }

  ghost function Run(v: View, es: seq<Frame>): View
    requires Legal(v, es)
    decreases |es|
  {
    if es == [] then v else Run(Step(v, es[0]), es[1..])
  }

  /** A later frame of a minute covers every earlier one of that minute; some may be missing. */
  ghost predicate Cumulative(es: seq<Frame>) {
    forall i, j | 0 <= i < j < |es| && es[i].Tick? && es[j].Tick? && es[i].bar.t == es[j].bar.t :: Covers(es[j].bar, es[i].bar)
  }

  /** The frames to come cover what is held. */
  ghost predicate Ahead(v: View, es: seq<Frame>) {
    forall i | 0 <= i < |es| && es[i].Tick? && Own(v, es[i].bar.t).Some? :: Covers(es[i].bar, Own(v, es[i].bar.t).value)
  }

  /** The minute is sealed, passed over by a merge, or dropped by the cap, at this frame. */
  ghost predicate Excuses(v: View, e: Frame, t: int)
    requires Possible(v, e)
  {
    || SealedIn(Step(v, e).slots, t)
    || (e.Tick? && Capped(Step(v, e).slots, t))
    || (e.Vol? && CappedBySeal(v, e.bar, t))
    || (e.Load? && (CappedByMerge(v.slots, e.bars, t) || PassedOver(e.bars, t)))
  }

  ghost predicate Excused(v: View, es: seq<Frame>, t: int)
    requires Legal(v, es)
    decreases |es|
  {
    es != [] && (Excuses(v, es[0], t) || Excused(Step(v, es[0]), es[1..], t))
  }

  lemma FrameStep(v: View, e: Frame, t: int)
    requires Possible(v, e) && FormingIsOpen(v)
    requires e.Tick? && Own(v, e.bar.t).Some? ==> Covers(e.bar, Own(v, e.bar.t).value)
    ensures FormingIsOpen(Step(v, e))
    ensures Keeps(Own(v, t), Own(Step(v, e), t)) || Excuses(v, e, t)
    ensures ComesFrom(Own(v, t), Own(Step(v, e), t), if e.Tick? && e.bar.t == t then Some(e.bar) else None)
  {
    hide ValidSlots, Own, SealedIn, ApplyForming, SealMinute, Capped, CappedByMerge, Keeps, ComesFrom, PassedOver;
    match e
    case Tick(b) =>
      FormingStaysOpen(v, b);
      TickStep(v, b, t);
    case Vol(b) =>
      FormingStaysOpen(v, b);
      SealStep(v, b, t);
    case Load(bars, left) =>
      FormingStaysOpen(v, Bar(0, 0.0, 0.0, 0.0, 0.0, 0, Stream));
      MergeStep(v, left, bars, t);
  }

  lemma AheadStays(v: View, es: seq<Frame>)
    requires Legal(v, es) && es != [] && FormingIsOpen(v) && Cumulative(es) && Ahead(v, es)
    ensures Ahead(Step(v, es[0]), es[1..]) && Cumulative(es[1..])
  {
    hide Own, Step, ValidView, Possible;
    var v' := Step(v, es[0]);
    forall i | 0 <= i < |es[1..]| && es[1..][i].Tick? && Own(v', es[1..][i].bar.t).Some?
      ensures Covers(es[1..][i].bar, Own(v', es[1..][i].bar.t).value)
    {
      assert es[1..][i] == es[i + 1];
      FrameStep(v, es[0], es[i + 1].bar.t);
    }
    assert forall i | 0 <= i < |es[1..]| :: es[1..][i] == es[i + 1];
  }

  /**
    However many tick frames are lost, and whatever is sealed or merged in between:
    the forming minute is never one held sealed, and a minute's own bar never narrows
    until it is sealed, passed over by a merge as never sealed, or dropped by the cap.
   */
  lemma RangeNeverNarrows(v: View, es: seq<Frame>, t: int)
    requires Legal(v, es) && FormingIsOpen(v) && Cumulative(es) && Ahead(v, es)
    ensures FormingIsOpen(Run(v, es))
    ensures Keeps(Own(v, t), Own(Run(v, es), t)) || Excused(v, es, t)
    decreases |es|
  {
    hide Own, Step, ValidView, Ahead, FormingIsOpen, Excuses, Cumulative;
    if es != [] {
      AheadStays(v, es);
      AheadNow(v, es);
      FrameStep(v, es[0], t);
      RangeNeverNarrows(Step(v, es[0]), es[1..], t);
    }
  }

  lemma AheadNow(v: View, es: seq<Frame>)
    requires Ahead(v, es) && es != []
    ensures es[0].Tick? && Own(v, es[0].bar.t).Some? ==> Covers(es[0].bar, Own(v, es[0].bar.t).value)
  {}

  // ------------------------------------------------------------- the sealed minute

  function IfAny(b: Option<Bar>): seq<Bar> { if b.Some? then [b.value] else [] }

  /** What a sealed minute should show: its bar, with whatever the provider or a joined bar reported. */
  function SealedWith(slots: Slots, b: Bar): (r: seq<Bar>)
    ensures r != []
  {
    IfAny(PartIn(At(slots, b.t), Reported(Backfill))) + IfAny(PartIn(At(slots, b.t), Reported(Mixed))) + [b]
  }

  /** Once a minute's sealed frame lands, the minute shown is that bar joined with any provider bar: no forming frame is left in it. */
  lemma SealLands(v: View, b: Bar)
    requires ValidView(v) && b.src == Stream && b.t in SealMinute(v, b).slots
    requires b.t in v.slots ==> forall k | k in v.slots[b.t].kinds :: Usual(k)
    ensures SealMinute(v, b).slots[b.t].merged == Join(SealedWith(v.slots, b))
    ensures SealedIn(SealMinute(v, b).slots, b.t) && Own(SealMinute(v, b), b.t) == None
  {
    hide PutBook, ValidSlot, PartIn, ValidSlots, Join, SealedSlot;
    var put := Report(v.slots, b);
    var v' := SealMinute(v, b);
    if v.forming.Some? && v.forming.value.t < b.t {
      var f := v.forming.value.(src := Stream);
      HeldBefore(put, f, Provisional, b.t);
      BookStep(put, f, Provisional, b.t);
      assert At(v'.slots, b.t) == At(put, b.t);
    }
    assert b.t in put;
    ValidAt(v.slots, b.t);
    BookStep(v.slots, b, Reported(Stream), b.t);
    PutSlotMeans(At(v.slots, b.t), b, Reported(Stream));
    var slot := PutSlot(At(v.slots, b.t), b, Reported(Stream)).0;
    assert At(v'.slots, b.t) == Some(slot);
    UsualParts(v.slots, b.t);
    SlotJoins(b.t, slot, PartIn(At(v.slots, b.t), Reported(Backfill)), PartIn(At(v.slots, b.t), Reported(Mixed)), b);
  }

  lemma UsualParts(slots: Slots, t: int)
    requires t in slots ==> forall k | k in slots[t].kinds :: Usual(k)
    ensures forall k | PartIn(At(slots, t), k).Some? :: Usual(k)
  {}

  lemma ValidAt(slots: Slots, t: int)
    requires ValidSlots(slots)
    ensures t in slots ==> ValidSlot(t, slots[t])
  {}

  /** A slot that holds a sealed bar and at most provider and joined reports shows their join. */
  lemma SlotJoins(t: int, s: Slot, provider: Option<Bar>, joined: Option<Bar>, b: Bar)
    requires ValidSlot(t, s)
    requires PartIn(Some(s), Reported(Stream)) == Some(b) && PartIn(Some(s), Provisional) == None
    requires PartIn(Some(s), Reported(Backfill)) == provider && PartIn(Some(s), Reported(Mixed)) == joined
    requires forall k | PartIn(Some(s), k).Some? :: Usual(k)
    ensures s.merged == Join(IfAny(provider) + IfAny(joined) + [b])
  {
    hide Join, IndexOf, Rank;
    var list := IfAny(provider) + IfAny(joined) + [b];
    ValidSlotShape(t, s);
    forall i | 0 <= i < |s.kinds|
      ensures PartIn(Some(s), s.kinds[i]) == Some(s.parts[i]) && Suits(s.kinds[i], s.parts[i]) && s.parts[i] in list
    {
      IndexIs(s.kinds, i);
      HeldPartsSuit(t, s);
    }
    forall x | x in list
      ensures x in s.parts
    {
      assert Some(x) == provider || Some(x) == joined || x == b;
    }
    assert forall k | k in s.kinds :: PartIn(Some(s), k).Some?;
    SlotRanksDiffer(t, s);
    PartSuits(t, s, Reported(Backfill));
    PartSuits(t, s, Reported(Mixed));
    PartSuits(t, s, Reported(Stream));
    SourcesRanked(provider, joined, b);
    JoinIgnoresOrder(s.parts, list);
  }

  lemma PartSuits(t: int, s: Slot, k: Kind)
    requires ValidSlot(t, s)
    ensures PartIn(Some(s), k).Some? ==> Suits(k, PartIn(Some(s), k).value)
  {
    HeldPartsSuit(t, s);
  }

  lemma SourcesRanked(provider: Option<Bar>, joined: Option<Bar>, b: Bar)
    requires (provider.Some? ==> provider.value.src == Backfill) && (joined.Some? ==> joined.value.src == Mixed) && b.src == Stream
    ensures DistinctRanks(IfAny(provider) + IfAny(joined) + [b])
  {}

  /** Of a minute the bars of a merge pass over, the provisional report goes and the rest stay; of any other, everything put stays. */
  lemma MergeDropsOnlyProvisional(v: View, v': View, bars: seq<Bar>, t: int, k: Kind)
    requires ValidView(v) && Merges(v, v', bars)
    ensures PartIn(At(v'.slots, t), k) ==
      if PassedOver(bars, t) && k == Provisional then None else PartIn(At(PutAll(v.slots, bars), t), k)
  {
    hide ValidSlot, PutAll, ValidSlots, Least, Greatest, Times, PartIn;
    var put := PutAll(v.slots, bars);
    assert At(v'.slots, t) == AfterMerge(v, bars, t);
    DropLeavesTheRest(put, t, k);
  }

  lemma DropLeavesTheRest(slots: Slots, t: int, k: Kind)
    requires ValidSlots(slots)
    ensures PartIn(DropSlot(At(slots, t)), k) == if k == Provisional then None else PartIn(At(slots, t), k)
  {
    hide Join, DropProvisional, IndexOf;
    if t in slots {
      ValidAt(slots, t);
      var s := slots[t];
      ValidSlotShape(t, s);
      DropMeans(t, s.kinds, s.parts);
    }
  }
}
