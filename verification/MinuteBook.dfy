/**
  One pair's minutes in the browser: every source's latest report of each minute,
  the join of them, and a sorted list rebuilt only when something shown changed.
 */
module MinuteBook {
  import opened Candles
  import opened OrderedKeys
  import opened Wrappers

  /** Two days of minutes; the oldest go first, in batches. */
  const MINUTE_CAP := 2_880
  const TRIM_SLACK := 60

  /** Who a report is from, and whether a seal may still supersede it. */
  datatype Kind = Reported(src: Source) | Provisional

  datatype Slot = Slot(kinds: seq<Kind>, parts: seq<Bar>, merged: Bar)

  type Slots = map<int, Slot>

  predicate SameBar(a: Bar, b: Bar) { a == b.(t := a.t) }

  /** A sealed report of our own stream supersedes a provisional minute. */
  predicate IsSealed(k: Kind) { k != Reported(Backfill) && k != Provisional }

  predicate Suits(k: Kind, b: Bar) { b.src == if k.Provisional? then Stream else k.src }

  predicate HoldsSealed(kinds: seq<Kind>) { exists i | 0 <= i < |kinds| :: IsSealed(kinds[i]) }

  function IndexOf(kinds: seq<Kind>, k: Kind): (r: int)
    ensures -1 <= r < |kinds| && (r >= 0 ==> kinds[r] == k) && (r < 0 ==> k !in kinds)
  {
    if kinds == [] then -1
    else if kinds[|kinds| - 1] == k then |kinds| - 1
    else IndexOf(kinds[..|kinds| - 1], k)
  }

  function RemoveAt<T>(s: seq<T>, i: int): (r: seq<T>)
    requires 0 <= i < |s|
    ensures |r| == |s| - 1
  {
    s[..i] + s[i + 1..]
  }

  // ------------------------------------------------------------- one minute

  /** A report takes the place of the earlier one of its kind, or is added. */
  function Place(kinds: seq<Kind>, parts: seq<Bar>, bar: Bar, kind: Kind): (r: (seq<Kind>, seq<Bar>))
    requires |kinds| == |parts|
    ensures |r.0| == |r.1|
  {
    var at := IndexOf(kinds, kind);
    if at >= 0 then (kinds, parts[at := bar]) else (kinds + [kind], parts + [bar])
  }

  function DropProvisional(kinds: seq<Kind>, parts: seq<Bar>): (r: (seq<Kind>, seq<Bar>))
    requires |kinds| == |parts|
    ensures |r.0| == |r.1|
  {
    var p := IndexOf(kinds, Provisional);
    if p >= 0 then (RemoveAt(kinds, p), RemoveAt(parts, p)) else (kinds, parts)
  }

  /** The reports of one minute after one more: kinds and parts side by side. */
  function Revise(s: Slot, bar: Bar, kind: Kind): (r: (seq<Kind>, seq<Bar>))
    requires |s.kinds| == |s.parts|
    ensures |r.0| == |r.1|
  {
    var (kinds, parts) := Place(s.kinds, s.parts, bar, kind);
    if IsSealed(kind) then DropProvisional(kinds, parts) else (kinds, parts)
  }

  /** A minute's slot after one more report; the flag says if the join it shows is another. */
  function PutSlot(slot: Option<Slot>, bar: Bar, kind: Kind): (Slot, bool)
    requires slot.Some? ==> ValidSlot(bar.t, slot.value)
  {
    if slot.None? then (Slot([kind], [bar], bar), true)
    else
      var s := slot.value;
      var at := IndexOf(s.kinds, kind);
      if kind.Provisional? && HoldsSealed(s.kinds) then (s, false)
      else if at >= 0 && SameBar(s.parts[at], bar) then (s, false)
      else
        var (kinds, parts) := Revise(s, bar, kind);
        if parts == [] || SameBar(Join(parts), s.merged) then (Slot(kinds, parts, s.merged), false)
        else (Slot(kinds, parts, Join(parts)), true)
  }

  /** One report per kind, each of minute `t` and of its kind. */
  ghost predicate Paired(t: int, kinds: seq<Kind>, parts: seq<Bar>) {
    && |kinds| == |parts|
    && (forall i, j | 0 <= i < j < |kinds| :: kinds[i] != kinds[j])
    && (forall i | 0 <= i < |kinds| :: Suits(kinds[i], parts[i]) && parts[i].t == t)
  }

  /** The reports are of minute `t`, one per kind, and the minute shown is their join. */
  ghost predicate ValidSlot(t: int, s: Slot) {
    && Paired(t, s.kinds, s.parts) && |s.parts| > 0
    && (Provisional in s.kinds ==> !HoldsSealed(s.kinds))
    && s.merged == Join(s.parts)
  }

  function PartOf(kinds: seq<Kind>, parts: seq<Bar>, k: Kind): Option<Bar>
    requires |kinds| == |parts|
  {
    var i := IndexOf(kinds, k);
    if i < 0 then None else Some(parts[i])
  }

  lemma PlaceMeans(t: int, kinds: seq<Kind>, parts: seq<Bar>, bar: Bar, kind: Kind)
    requires Paired(t, kinds, parts) && Suits(kind, bar) && bar.t == t
    ensures var (ks, ps) := Place(kinds, parts, bar, kind);
      && Paired(t, ks, ps)
      && (forall k :: k in ks <==> k in kinds || k == kind)
      && (forall k :: PartOf(ks, ps, k) == if k == kind then Some(bar) else PartOf(kinds, parts, k))
  {
    var (ks, ps) := Place(kinds, parts, bar, kind);
    var at := IndexOf(kinds, kind);
    if at < 0 {
      assert ks[..|ks| - 1] == kinds;
    }
  }

  lemma IndexIs(kinds: seq<Kind>, i: int)
    requires 0 <= i < |kinds| && forall i, j | 0 <= i < j < |kinds| :: kinds[i] != kinds[j]
    ensures IndexOf(kinds, kinds[i]) == i
  {}

  lemma RemoveAtMeans<T>(s: seq<T>, p: int)
    requires 0 <= p < |s|
    ensures forall i | 0 <= i < |s| - 1 :: RemoveAt(s, p)[i] == s[if i < p then i else i + 1]
    ensures forall i | 0 <= i < |s| && i != p :: s[i] == RemoveAt(s, p)[if i < p then i else i - 1]
  {}

  lemma DropMeans(t: int, kinds: seq<Kind>, parts: seq<Bar>)
    requires Paired(t, kinds, parts)
    ensures var (ks, ps) := DropProvisional(kinds, parts);
      && Paired(t, ks, ps)
      && (forall k :: k in ks <==> k in kinds && k != Provisional)
      && (forall k :: PartOf(ks, ps, k) == if k == Provisional then None else PartOf(kinds, parts, k))
  {
    hide IndexOf, RemoveAt, Suits;
    var (ks, ps) := DropProvisional(kinds, parts);
    var p := IndexOf(kinds, Provisional);
    if p >= 0 {
      RemoveAtMeans(kinds, p);
      RemoveAtMeans(parts, p);
      forall k
        ensures PartOf(ks, ps, k) == if k == Provisional then None else PartOf(kinds, parts, k)
      {
        var i := IndexOf(ks, k);
        if i >= 0 {
          IndexIs(kinds, if i < p then i else i + 1);
        }
      }
    }
  }

  lemma HoldsSealedMeans(kinds: seq<Kind>)
    ensures HoldsSealed(kinds) <==> exists k :: k in kinds && IsSealed(k)
  {
    if k :| k in kinds && IsSealed(k) {
      var i :| 0 <= i < |kinds| && kinds[i] == k;
    }
  }

  lemma JoinKeepsTime(parts: seq<Bar>, t: int)
    requires parts != [] && forall p | p in parts :: p.t == t
    ensures Join(parts).t == t
  {
    var s := SortByRank(parts);
    SortHoldsTheSame(parts);
    EnvelopeSummarises(s);
    assert s[0] in s;
  }

  /** Each kind's part is the old one, but for the reported kind and a superseded provisional. */
  lemma ReviseMeans(t: int, s: Slot, bar: Bar, kind: Kind)
    requires ValidSlot(t, s) && Suits(kind, bar) && bar.t == t
    requires !(kind.Provisional? && HoldsSealed(s.kinds))
    ensures var (kinds, parts) := Revise(s, bar, kind);
      && Paired(t, kinds, parts) && |kinds| > 0
      && (Provisional in kinds ==> !HoldsSealed(kinds))
      && (HoldsSealed(kinds) <==> HoldsSealed(s.kinds) || IsSealed(kind))
      && (forall k :: PartOf(kinds, parts, k) ==
            if k == kind then Some(bar) else if k.Provisional? && IsSealed(kind) then None else PartOf(s.kinds, s.parts, k))
  {
    hide Join, Place, DropProvisional, HoldsSealed, PartOf;
    PlaceMeans(t, s.kinds, s.parts, bar, kind);
    var (ks, ps) := Place(s.kinds, s.parts, bar, kind);
    DropMeans(t, ks, ps);
    var kinds := Revise(s, bar, kind).0;
    assert kind in kinds;
    HoldsSealedMeans(kinds);
    HoldsSealedMeans(s.kinds);
  }

  lemma PutSlotValid(slot: Option<Slot>, bar: Bar, kind: Kind)
    requires (slot.Some? ==> ValidSlot(bar.t, slot.value)) && Suits(kind, bar)
    ensures ValidSlot(bar.t, PutSlot(slot, bar, kind).0)
    ensures !PutSlot(slot, bar, kind).1 ==> slot.Some? && PutSlot(slot, bar, kind).0.merged == slot.value.merged
  {
    hide Join, Revise;
    if slot.None? {
      JoinOfOne(bar);
    } else if !(kind.Provisional? && HoldsSealed(slot.value.kinds)) {
      ReviseMeans(bar.t, slot.value, bar, kind);
      var parts := Revise(slot.value, bar, kind).1;
      JoinKeepsTime(parts, bar.t);
      JoinKeepsTime(slot.value.parts, bar.t);
    }
  }

  lemma JoinOfOne(b: Bar)
    ensures Join([b]) == b
  {
    assert SortByRank([b]) == [b];
  }

  // -------------------------------------------------------- reports of one minute

  datatype Report = Report(bar: Bar, kind: Kind)

  ghost predicate OfMinute(t: int, rs: seq<Report>) { forall r | r in rs :: r.bar.t == t && Suits(r.kind, r.bar) }

  /** The latest report of one kind. */
  function Latest(rs: seq<Report>, k: Kind): Option<Bar> {
    if rs == [] then None
    else if rs[|rs| - 1].kind == k then Some(rs[|rs| - 1].bar)
    else Latest(rs[..|rs| - 1], k)
  }

  /** Some report is neither provisional nor the provider's history. */
  predicate Seals(rs: seq<Report>) { exists r | r in rs :: r.kind != Provisional && r.kind != Reported(Backfill) }

  function SlotAfter(t: int, rs: seq<Report>): (r: Option<Slot>)
    requires OfMinute(t, rs)
    ensures r.Some? <==> rs != []
    ensures r.Some? ==> ValidSlot(t, r.value)
  {
    if rs == [] then None
    else
      var last := rs[|rs| - 1];
      assert last in rs;
      PutSlotValid(SlotAfter(t, rs[..|rs| - 1]), last.bar, last.kind);
      Some(PutSlot(SlotAfter(t, rs[..|rs| - 1]), last.bar, last.kind).0)
  }

  /** What the slot should hold of a kind: its latest report; a provisional one only while nothing sealed came. */
  function Due(rs: seq<Report>, k: Kind): Option<Bar> {
    if k.Provisional? && Seals(rs) then None else Latest(rs, k)
  }

  function PartIn(slot: Option<Slot>, k: Kind): Option<Bar> {
    if slot.None? || |slot.value.kinds| != |slot.value.parts| then None else PartOf(slot.value.kinds, slot.value.parts, k)
  }

  predicate SealedSlot(slot: Option<Slot>) { slot.Some? && HoldsSealed(slot.value.kinds) }

  /**
    What one report does to the reports held: it takes its kind's place, a sealed one
    drops the provisional, and a provisional one is refused once something is sealed.
   */
  lemma PutSlotMeans(slot: Option<Slot>, bar: Bar, kind: Kind)
    requires (slot.Some? ==> ValidSlot(bar.t, slot.value)) && Suits(kind, bar)
    ensures var s := Some(PutSlot(slot, bar, kind).0);
      && ValidSlot(bar.t, s.value)
      && (SealedSlot(s) <==> SealedSlot(slot) || IsSealed(kind))
      && (forall k :: PartIn(s, k) ==
            if kind.Provisional? && SealedSlot(slot) then PartIn(slot, k)
            else if k == kind then Some(bar)
            else if k.Provisional? && IsSealed(kind) then None
            else PartIn(slot, k))
  {
    hide Join, Revise, HoldsSealed, PartOf, ValidSlot;
    PutSlotValid(slot, bar, kind);
    if slot.None? {
      FirstReport(Report(bar, kind));
    } else {
      ValidSlotShape(bar.t, slot.value);
      if !(kind.Provisional? && HoldsSealed(slot.value.kinds)) {
        ReviseMeans(bar.t, slot.value, bar, kind);
        PartIsAt(slot.value, kind);
        HeldPartsSuit(bar.t, slot.value);
        HoldsSealedMeans(slot.value.kinds);
      }
    }
  }

  lemma HeldPartsSuit(t: int, s: Slot)
    requires ValidSlot(t, s)
    ensures |s.kinds| == |s.parts|
    ensures forall i | 0 <= i < |s.kinds| :: Suits(s.kinds[i], s.parts[i]) && s.parts[i].t == t
    ensures HoldsSealed(s.kinds) ==> PartOf(s.kinds, s.parts, Provisional) == None
  {
    hide HoldsSealed, Join;
  }

  lemma ValidSlotShape(t: int, s: Slot)
    requires ValidSlot(t, s)
    ensures |s.kinds| == |s.parts| > 0
  {}

  /**
    The slot holds exactly the latest report of each kind, however they were
    interleaved and whatever came before: so the minute shown is their join.
   */
  lemma {:induction false} SlotHoldsLatest(t: int, rs: seq<Report>)
    requires OfMinute(t, rs) && rs != []
    ensures forall k :: PartIn(SlotAfter(t, rs), k) == Due(rs, k)
    ensures SealedSlot(SlotAfter(t, rs)) <==> Seals(rs)
  {
    hide PutSlot, ValidSlot, PartIn, SealedSlot;
    var front, r := rs[..|rs| - 1], rs[|rs| - 1];
    assert r in rs && rs == front + [r];
    assert Seals(rs) <==> Seals(front) || IsSealed(r.kind);
    if front != [] {
      SlotHoldsLatest(t, front);
    } else {
      NothingHeld();
      assert forall k :: Latest(front, k) == None;
    }
    PutSlotMeans(SlotAfter(t, front), r.bar, r.kind);
    assert forall k :: Latest(rs, k) == if k == r.kind then Some(r.bar) else Latest(front, k);
  }

  lemma NothingHeld()
    ensures !SealedSlot(None) && forall k :: PartIn(None, k) == None
  {}

  lemma PartIsAt(s: Slot, k: Kind)
    requires |s.kinds| == |s.parts|
    ensures PartOf(s.kinds, s.parts, k) == if IndexOf(s.kinds, k) < 0 then None else Some(s.parts[IndexOf(s.kinds, k)])
  {}

  lemma FirstReport(r: Report)
    ensures forall k :: PartOf([r.kind], [r.bar], k) == if k == r.kind then Some(r.bar) else None
    ensures HoldsSealed([r.kind]) <==> IsSealed(r.kind)
  {
    if IsSealed(r.kind) {
      assert IsSealed([r.kind][0]);
    }
  }

  /** The reports the browser is sent: provider history, an already joined bar, our stream, or a forming bar held over. */
  predicate Usual(k: Kind) { k == Provisional || k == Reported(Backfill) || k == Reported(Mixed) || k == Reported(Stream) }

  lemma {:induction false} LatestIsThere(rs: seq<Report>, k: Kind)
    ensures Latest(rs, k).Some? <==> exists r :: r in rs && r.kind == k
  {
    if rs != [] {
      var front, last := rs[..|rs| - 1], rs[|rs| - 1];
      assert rs == front + [last];
      LatestIsThere(front, k);
      assert last in rs;
      if last.kind != k && Latest(front, k).Some? {
        var r :| r in front && r.kind == k;
        assert r in rs;
      }
    }
  }

  /** No two reports a slot holds are of one rank. */
  lemma SlotRanksDiffer(t: int, s: Slot)
    requires ValidSlot(t, s) && forall k | k in s.kinds :: Usual(k)
    ensures DistinctRanks(s.parts)
  {
    hide Join;
    forall i, j | 0 <= i < j < |s.parts|
      ensures Rank(s.parts[i].src) != Rank(s.parts[j].src)
    {
      assert s.kinds[i] in s.kinds && s.kinds[j] in s.kinds;
      assert s.kinds[i] != s.kinds[j] && Suits(s.kinds[i], s.parts[i]) && Suits(s.kinds[j], s.parts[j]);
    }
  }

  lemma SamePartsSameBars(t: int, a: Slot, b: Slot)
    requires ValidSlot(t, a) && ValidSlot(t, b)
    requires forall k :: PartOf(a.kinds, a.parts, k) == PartOf(b.kinds, b.parts, k)
    ensures forall x :: x in a.parts ==> x in b.parts
  {
    hide Join;
    forall i | 0 <= i < |a.parts|
      ensures a.parts[i] in b.parts
    {
      IndexIs(a.kinds, i);
      assert PartOf(b.kinds, b.parts, a.kinds[i]) == Some(a.parts[i]);
    }
  }

  /**
    Two histories of one minute that end in the same latest report of each kind show
    the same bar, whatever they repeated, replaced or interleaved on the way.
   */
  lemma LastReportsDecide(t: int, rs: seq<Report>, rs': seq<Report>)
    requires OfMinute(t, rs) && OfMinute(t, rs') && rs != [] && rs' != []
    requires forall r | r in rs :: Usual(r.kind)
    requires forall k :: Latest(rs, k) == Latest(rs', k)
    ensures SlotAfter(t, rs).value.merged == SlotAfter(t, rs').value.merged
  {
    hide Join, PartOf, Latest;
    var a, b := SlotAfter(t, rs).value, SlotAfter(t, rs').value;
    SlotHoldsLatest(t, rs);
    SlotHoldsLatest(t, rs');
    forall k
      ensures Due(rs, k) == Due(rs', k) && (Latest(rs, k).Some? ==> Usual(k))
    {
      LatestIsThere(rs, k);
      SealsByLatest(rs);
      SealsByLatest(rs');
    }
    SlotKindsAreUsual(t, rs);
    SlotKindsAreUsual(t, rs');
    SlotRanksDiffer(t, a);
    SlotRanksDiffer(t, b);
    forall k
      ensures PartOf(a.kinds, a.parts, k) == PartOf(b.kinds, b.parts, k)
    {
      assert PartIn(Some(a), k) == Due(rs, k) == Due(rs', k) == PartIn(Some(b), k);
    }
    SamePartsSameBars(t, a, b);
    SamePartsSameBars(t, b, a);
    JoinIgnoresOrder(a.parts, b.parts);
  }

  lemma SealsByLatest(rs: seq<Report>)
    ensures Seals(rs) <==> exists k :: IsSealed(k) && Latest(rs, k).Some?
  {
    if Seals(rs) {
      var r :| r in rs && IsSealed(r.kind);
      LatestIsThere(rs, r.kind);
    }
    if k :| IsSealed(k) && Latest(rs, k).Some? {
      LatestIsThere(rs, k);
    }
  }

  lemma SlotKindsAreUsual(t: int, rs: seq<Report>)
    requires OfMinute(t, rs) && rs != []
    requires forall k :: Latest(rs, k).Some? ==> Usual(k)
    ensures forall k | k in SlotAfter(t, rs).value.kinds :: Usual(k)
  {
    hide Join, Latest;
    var s := SlotAfter(t, rs).value;
    SlotHoldsLatest(t, rs);
    forall i | 0 <= i < |s.kinds|
      ensures Usual(s.kinds[i])
    {
      IndexIs(s.kinds, i);
      assert PartIn(Some(s), s.kinds[i]).Some?;
    }
  }

  // ------------------------------------------------------------------- the book

  function At(slots: Slots, t: int): Option<Slot> { if t in slots then Some(slots[t]) else None }

  predicate AllIn(slots: Slots, ts: seq<int>) { forall i | 0 <= i < |ts| :: ts[i] in slots }

  function MergedOf(slots: Slots, ts: seq<int>): (r: seq<Bar>)
    requires AllIn(slots, ts)
    ensures |r| == |ts| && forall i | 0 <= i < |ts| :: r[i] == slots[ts[i]].merged
  {
    if ts == [] then [] else MergedOf(slots, ts[..|ts| - 1]) + [slots[ts[|ts| - 1]].merged]
  }

  /** The joins of a book as a list, by ascending minute. */
  function Shown(slots: Slots): seq<Bar> { MergedOf(slots, Ascend(slots.Keys)) }

  function Drop(slots: Slots, t: int): Slots { slots - {t} }

  lemma DropOne(slots: Slots, t: int)
    ensures forall u :: At(Drop(slots, t), u) == if u == t then None else At(slots, u)
    ensures |Drop(slots, t)| == if t in slots then |slots| - 1 else |slots|
  {
    var r := slots - {t};
    assert r.Keys == slots.Keys - {t};
    assert |r| == |r.Keys| && |slots| == |slots.Keys|;
  }

  function Without(slots: Slots, ts: seq<int>): Slots {
    if ts == [] then slots else Drop(Without(slots, ts[..|ts| - 1]), ts[|ts| - 1])
  }

  /** Past the slack, down to the newest minutes of the cap. */
  function Trim(slots: Slots): Slots {
    if |slots| <= MINUTE_CAP + TRIM_SLACK then slots else Without(slots, Ascend(slots.Keys)[..|slots| - MINUTE_CAP])
  }

  ghost predicate ValidSlots(slots: Slots) { forall t | t in slots :: ValidSlot(t, slots[t]) }

  function PutBook(slots: Slots, bar: Bar, kind: Kind): (Slots, bool)
    requires bar.t in slots ==> ValidSlot(bar.t, slots[bar.t])
  {
    var (slot, changed) := PutSlot(At(slots, bar.t), bar, kind);
    (if changed then Trim(slots[bar.t := slot]) else slots[bar.t := slot], changed)
  }

  /** Dropping the first `k` of ascending keys. */
  lemma {:induction false} WithoutMeans(slots: Slots, ts: seq<int>, k: nat)
    requires Rising(ts) && AllIn(slots, ts) && k <= |ts|
    ensures |Without(slots, ts[..k])| == |slots| - k
    ensures forall i | 0 <= i < k :: ts[i] !in Without(slots, ts[..k])
    ensures forall i | k <= i < |ts| :: At(Without(slots, ts[..k]), ts[i]) == At(slots, ts[i])
    ensures forall t | t in Without(slots, ts[..k]) :: At(Without(slots, ts[..k]), t) == At(slots, t)
  {
    hide Drop;
    if k > 0 {
      WithoutMeans(slots, ts, k - 1);
      assert ts[..k][..k - 1] == ts[..k - 1];
      var r := Without(slots, ts[..k - 1]);
      assert At(r, ts[k - 1]) == At(slots, ts[k - 1]);
      DropOne(r, ts[k - 1]);
      forall i | 0 <= i < k
        ensures ts[i] !in Drop(r, ts[k - 1])
      {
        assert At(Drop(r, ts[k - 1]), ts[i]).None?;
      }
      forall t | t in Drop(r, ts[k - 1])
        ensures At(Drop(r, ts[k - 1]), t) == At(slots, t)
      {
        assert At(Drop(r, ts[k - 1]), t).Some?;
        assert t in r;
      }
    }
  }

  /** Nothing of `slots` missing from `kept` is as new as anything kept, and nothing kept is changed. */
  ghost predicate Newest(kept: Slots, slots: Slots) {
    && (forall t | t in kept :: At(kept, t) == At(slots, t))
    && (forall t, d | t in kept && d in slots && d !in kept :: d < t)
  }

  lemma NewestOfAll(slots: Slots)
    ensures Newest(slots, slots)
  {}

  /** Trimming keeps the newest. */
  lemma TrimKeepsTheNewest(slots: Slots)
    ensures |Trim(slots)| == if |slots| <= MINUTE_CAP + TRIM_SLACK then |slots| else MINUTE_CAP
    ensures Newest(Trim(slots), slots)
  {
    if |slots| <= MINUTE_CAP + TRIM_SLACK {
      NewestOfAll(slots);
    } else {
      TrimmedKeepsTheNewest(slots);
    }
  }

  lemma TrimmedKeepsTheNewest(slots: Slots)
    requires |slots| > MINUTE_CAP + TRIM_SLACK
    ensures |Trim(slots)| == MINUTE_CAP && Newest(Trim(slots), slots)
  {
    hide Newest, Without, Ascend, Rising, Lists, At;
    assert |slots| == |slots.Keys|;
    var ts, k := Ascend(slots.Keys), |slots| - MINUTE_CAP;
    WithoutKeepsTheNewest(slots, ts, k);
    assert Trim(slots) == Without(slots, ts[..k]);
  }

  lemma WithoutKeepsTheNewest(slots: Slots, ts: seq<int>, k: nat)
    requires Rising(ts) && Lists(ts, slots.Keys) && k <= |ts|
    ensures |Without(slots, ts[..k])| == |slots| - k && Newest(Without(slots, ts[..k]), slots)
  {
    hide Without;
    WithoutMeans(slots, ts, k);
    var r := Without(slots, ts[..k]);
    forall t, d | t in r && d in slots && d !in r
      ensures d < t
    {
      KeptIsNewer(slots, ts, k, t, d);
    }
  }

  lemma WithoutNone(slots: Slots, ts: seq<int>)
    ensures Without(slots, ts[..0]) == slots
  {}

  lemma WithoutNext(slots: Slots, ts: seq<int>, i: nat)
    requires i < |ts|
    ensures Without(slots, ts[..i + 1]) == Without(slots, ts[..i]) - {ts[i]}
  {
    assert ts[..i + 1][..i] == ts[..i];
  }

  lemma KeptIsNewer(slots: Slots, ts: seq<int>, k: nat, t: int, d: int)
    requires Rising(ts) && Lists(ts, slots.Keys) && k <= |ts|
    requires t in Without(slots, ts[..k]) && d in slots && d !in Without(slots, ts[..k])
    ensures d < t
  {
    hide Without;
    WithoutMeans(slots, ts, k);
    var r := Without(slots, ts[..k]);
    var i := PositionOf(ts, d);
    assert At(r, t).Some?;
    var j := PositionOf(ts, t);
    assert At(r, ts[i]).None? && At(slots, ts[i]).Some?;
  }

  /** The shown list, in order, is one bar per minute: the join of what that minute holds. */
  lemma ShownIsAscending(slots: Slots)
    requires ValidSlots(slots)
    ensures Ascending(Shown(slots)) && |Shown(slots)| == |slots|
    ensures forall b :: b in Shown(slots) <==> b.t in slots && b == slots[b.t].merged
  {
    hide ValidSlot, Ascend;
    assert |slots| == |slots.Keys|;
    MergedAreAscending(slots, Ascend(slots.Keys));
  }

  lemma MergedAreAscending(slots: Slots, ts: seq<int>)
    requires ValidSlots(slots) && Rising(ts) && Lists(ts, slots.Keys) && AllIn(slots, ts)
    ensures Ascending(MergedOf(slots, ts))
    ensures forall b :: b in MergedOf(slots, ts) <==> b.t in slots && b == slots[b.t].merged
  {
    hide ValidSlot, MergedOf;
    var shown := MergedOf(slots, ts);
    forall i | 0 <= i < |ts|
      ensures ts[i] in slots && shown[i] == slots[ts[i]].merged && shown[i].t == ts[i]
    {
      MergedTime(ts[i], slots[ts[i]]);
    }
    forall b: Bar | b.t in slots && b == slots[b.t].merged
      ensures b in shown
    {
      var i := PositionOf(ts, b.t);
      assert shown[i] == b;
    }
  }

  lemma MergedTime(t: int, s: Slot)
    requires ValidSlot(t, s)
    ensures s.merged.t == t && s.parts != [] && s.merged == Join(s.parts)
  {
    JoinKeepsTime(s.parts, t);
  }

  /** What one report changes of the book: its own minute, and what the cap drops. */
  lemma PutMeans(slots: Slots, bar: Bar, kind: Kind)
    requires ValidSlots(slots) && Suits(kind, bar) && |slots| <= MINUTE_CAP + TRIM_SLACK
    ensures var (slots', changed) := PutBook(slots, bar, kind);
      && ValidSlots(slots') && |slots'| <= MINUTE_CAP + TRIM_SLACK
      && (!changed ==> Shown(slots') == Shown(slots))
      && (forall t | t in slots' :: At(slots', t) == if t == bar.t then Some(PutSlot(At(slots, t), bar, kind).0) else At(slots, t))
  {
    hide Join, PutSlot, ValidSlot, Trim;
    PutSlotValid(At(slots, bar.t), bar, kind);
    var (slot, changed) := PutSlot(At(slots, bar.t), bar, kind);
    var next := slots[bar.t := slot];
    TrimKeepsTheNewest(next);
    if !changed {
      assert next.Keys == slots.Keys;
      assert Shown(next) == Shown(slots);
    }
  }

  // ------------------------------------------------------------------ the class

  class Book {
    var slots: Slots
    var sortedBars: seq<Bar>
    var stale: bool
    /** The open minute's latest report, kept outside the slots. */
    var forming: Option<Bar>

    /** Each minute is the join of its reports, the list is current unless stale, and the size is bounded. */
    ghost predicate Valid()
      reads this
    {
      && ValidSlots(slots) && |slots| <= MINUTE_CAP + TRIM_SLACK
      && (!stale ==> sortedBars == Shown(slots))
    }

    constructor ()
      ensures Valid() && slots == map[] && forming == None
    {
      slots, sortedBars, stale, forming := map[], [], false, None;
    }

    method Changed()
      modifies this`slots, this`stale
      ensures slots == Trim(old(slots)) && stale
    {
      hide Ascend, Without;
      stale := true;
      if |slots| <= MINUTE_CAP + TRIM_SLACK {
        return;
      }
      var oldest := Ascend(slots.Keys);
      var k := |oldest| - MINUTE_CAP;
      assert |slots| == |slots.Keys|;
      WithoutNone(slots, oldest);
      for i := 0 to k
        invariant slots == Without(old(slots), oldest[..i]) && stale
      {
        WithoutNext(old(slots), oldest, i);
        slots := slots - {oldest[i]};
      }
      assert oldest[..k] == Ascend(old(slots).Keys)[..|old(slots)| - MINUTE_CAP];
    }

    /** Only the slot of `bar.time` moves, to `PutSlot`; past the slack the book is trimmed. The flag is that of `PutSlot`. */
    method Put(bar: Bar, kind: Kind) returns (changed: bool)
      requires Valid() && Suits(kind, bar)
      modifies this`slots, this`stale
      ensures Valid() && (slots, changed) == PutBook(old(slots), bar, kind)
      ensures stale == (changed || old(stale))
    {
      hide Join, Trim, ValidSlot, HoldsSealed, RemoveAt, Shown;
      PutMeans(slots, bar, kind);
      if bar.t !in slots {
        slots := slots[bar.t := Slot([kind], [bar], bar)];
        Changed();
        return true;
      }
      var slot := slots[bar.t];
      ValidSlotShape(bar.t, slot);
      if kind == Provisional && HoldsSealed(slot.kinds) {
        assert slots[bar.t := slot] == slots;
        return false;
      }
      ReviseMeans(bar.t, slot, bar, kind);
      var at := IndexOf(slot.kinds, kind);
      if at >= 0 && SameBar(slot.parts[at], bar) {
        assert slots[bar.t := slot] == slots;
        return false;
      }
      var kinds, parts := slot.kinds, slot.parts;
      if at >= 0 {
        parts := parts[at := bar];
      } else {
        kinds, parts := kinds + [kind], parts + [bar];
      }
      if IsSealed(kind) {
        var p := IndexOf(kinds, Provisional);
        if p >= 0 {
          kinds, parts := RemoveAt(kinds, p), RemoveAt(parts, p);
        }
      }
      assert (kinds, parts) == Revise(slot, bar, kind);
      var merged := JoinReports(parts);
      if SameBar(merged, slot.merged) {
        slots := slots[bar.t := Slot(kinds, parts, slot.merged)];
        return false;
      }
      slots := slots[bar.t := Slot(kinds, parts, merged)];
      Changed();
      return true;
    }

    /** A provisional report of our own stream: the same slot, and the same flag, as any other report put. */
    method HoldProvisionally(bar: Bar) returns (changed: bool)
      requires Valid()
      modifies this`slots, this`stale
      ensures Valid() && (slots, changed) == PutBook(old(slots), bar.(src := Stream), Provisional)
      ensures stale == (changed || old(stale))
    {
      changed := Put(bar.(src := Stream), Provisional);
    }

    /** Whether the slot of `t` has a sealed report of our own. */
    predicate SealedAt(t: int)
      reads this
    {
      t in slots && HoldsSealed(slots[t].kinds)
    }

    /** `Shown` of the slots, from the list kept since the last change if there was none. */
    method Sorted() returns (r: seq<Bar>)
      requires Valid()
      modifies this`sortedBars, this`stale
      ensures Valid() && !stale && r == Shown(slots) && Ascending(r)
    {
      if stale {
        sortedBars := MergedOf(slots, Ascend(slots.Keys));
        stale := false;
      }
      r := sortedBars;
      ShownIsAscending(slots);
    }

    method Clear()
      modifies this
      ensures Valid() && slots == map[] && forming == None
    {
      slots, sortedBars, stale, forming := map[], [], false, None;
    }

    /** Each slot of the span that `present` lacks loses its provisional report, and goes if it held no other; the rest stay. */
    method DropUnsealed(from: int, to: int, present: set<int>) returns (dropped: bool)
      requires Valid()
      modifies this`slots, this`stale
      ensures Valid()
      ensures forall t :: At(slots, t) == Dropped(old(slots), t, from, to, present)
      ensures stale == (dropped || old(stale))
    {
      hide Join, ValidSlot, DropSlot, Drop, Ascend, Shown;
      dropped := false;
      var ts := Ascend(slots.Keys);
      for i := 0 to |ts|
        invariant ValidSlots(slots) && |slots| <= MINUTE_CAP + TRIM_SLACK
        invariant forall j | i <= j < |ts| :: At(slots, ts[j]) == At(old(slots), ts[j])
        invariant forall j | 0 <= j < i :: At(slots, ts[j]) == Dropped(old(slots), ts[j], from, to, present)
        invariant forall t | t !in old(slots) :: At(slots, t).None?
        invariant !dropped ==> slots == old(slots)
        invariant stale == old(stale) && sortedBars == old(sortedBars)
      {
        var t := ts[i];
        assert At(slots, t) == At(old(slots), t) && t in old(slots);
        var slot := slots[t];
        ValidSlotShape(t, slot);
        NothingToDrop(slot);
        if from <= t <= to && t !in present && IndexOf(slot.kinds, Provisional) >= 0 {
          DropSlotValid(t, slot);
          var rest := WithoutProvisional(t, slot);
          if rest.None? {
            DropOne(slots, t);
            DropKeepsValid(slots, t);
            slots := Drop(slots, t);
          } else {
            SameKeys(slots, t, rest.value);
            slots := slots[t := rest.value];
          }
          dropped := true;
        }
      }
      forall t
        ensures At(slots, t) == Dropped(old(slots), t, from, to, present)
      {
        if t in old(slots) {
          var j := PositionOf(ts, t);
          assert At(slots, ts[j]) == Dropped(old(slots), ts[j], from, to, present);
        } else {
          NothingThere();
        }
      }
      if dropped {
        stale := true;
      }
    }
  }

  lemma NothingThere()
    ensures DropSlot(None) == None
  {}

  lemma NothingToDrop(s: Slot)
    ensures IndexOf(s.kinds, Provisional) < 0 ==> DropSlot(Some(s)) == Some(s)
  {}

  method WithoutProvisional(t: int, slot: Slot) returns (r: Option<Slot>)
    requires ValidSlot(t, slot) && IndexOf(slot.kinds, Provisional) >= 0
    ensures r == DropSlot(Some(slot))
  {
    ValidSlotShape(t, slot);
    hide Join, ValidSlot, IndexOf;
    var p := IndexOf(slot.kinds, Provisional);
    var kinds, parts := RemoveAt(slot.kinds, p), RemoveAt(slot.parts, p);
    if |parts| == 0 {
      return None;
    }
    var merged := JoinReports(parts);
    r := Some(Slot(kinds, parts, merged));
  }

  function Dropped(slots: Slots, t: int, from: int, to: int, present: set<int>): Option<Slot> {
    if from <= t <= to && t !in present then DropSlot(At(slots, t)) else At(slots, t)
  }

  lemma DropKeepsValid(slots: Slots, t: int)
    requires ValidSlots(slots)
    ensures ValidSlots(Drop(slots, t))
  {
    hide ValidSlot;
    assert forall u | u in Drop(slots, t) :: u in slots && Drop(slots, t)[u] == slots[u];
  }

  lemma SameKeys(slots: Slots, t: int, s: Slot)
    requires t in slots
    ensures |slots[t := s]| == |slots| && slots[t := s].Keys == slots.Keys
  {
    assert slots[t := s].Keys == slots.Keys;
    assert |slots[t := s]| == |slots[t := s].Keys|;
  }

  /** A slot without its provisional report; nothing, if that was all it held. */
  function DropSlot(slot: Option<Slot>): Option<Slot> {
    if slot.None? || |slot.value.kinds| != |slot.value.parts| || IndexOf(slot.value.kinds, Provisional) < 0 then slot
    else
      var (kinds, parts) := DropProvisional(slot.value.kinds, slot.value.parts);
      if parts == [] then None else Some(Slot(kinds, parts, Join(parts)))
  }

  lemma DropSlotValid(t: int, s: Slot)
    requires ValidSlot(t, s)
    ensures DropSlot(Some(s)).Some? ==> ValidSlot(t, DropSlot(Some(s)).value)
  {
    hide Join, DropProvisional;
    DropMeans(t, s.kinds, s.parts);
  }
}
