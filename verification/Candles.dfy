/**
  Candles from minutes: the report join, the browser's fold, and the fold the
  server serves. Times are seconds; bars carry every field.
 */
module Candles {
  import opened Floors
  import opened Wrappers

  const MINUTE_S := 60

  /** Where a bar's ticks came from; any other label is `Other`. */
  datatype Source = Backfill | Mixed | Stream | Other(name: string)

  datatype Bar = Bar(t: int, o: real, h: real, l: real, c: real, n: nat, src: Source)

  function Max(a: real, b: real): real { if b > a then b else a }

  function Min(a: real, b: real): real { if b < a then b else a }

  function MaxCount(a: nat, b: nat): nat { if b > a then b else a }

  /** One label for two: theirs if they agree. */
  function Blend(a: Source, b: Source): Source { if a == b then a else Mixed }

  // ----------------------------------------------------- one minute, many reports

  /** The place of a report in a join: the lowest rank opens the minute, the highest closes it. */
  function Rank(s: Source): nat {
    match s
    case Backfill => 0
    case Mixed => 1
    case Other(_) => 2
    case Stream => 3
  }

  /** A stable insertion by rank. */
  function Insert(ps: seq<Bar>, p: Bar): (r: seq<Bar>)
    ensures |r| == |ps| + 1 && multiset(r) == multiset(ps) + multiset{p}
  {
    if ps == [] || Rank(ps[|ps| - 1].src) <= Rank(p.src) then ps + [p]
    else
      var r := Insert(ps[..|ps| - 1], p) + [ps[|ps| - 1]];
      assert ps == ps[..|ps| - 1] + [ps[|ps| - 1]];
      r
  }

  function SortByRank(ps: seq<Bar>): (r: seq<Bar>)
    ensures |r| == |ps| && multiset(r) == multiset(ps)
  {
    if ps == [] then []
    else
      assert ps == ps[..|ps| - 1] + [ps[|ps| - 1]];
      Insert(SortByRank(ps[..|ps| - 1]), ps[|ps| - 1])
  }

  predicate Ranked(ps: seq<Bar>) { forall i, j | 0 <= i < j < |ps| :: Rank(ps[i].src) <= Rank(ps[j].src) }

  /** The extremes, the largest count and the blended source of reports already in order. */
  function Envelope(ps: seq<Bar>): Bar
    requires ps != []
  {
    if |ps| == 1 then ps[0]
    else
      var e, p := Envelope(ps[..|ps| - 1]), ps[|ps| - 1];
      Bar(e.t, e.o, Max(e.h, p.h), Min(e.l, p.l), p.c, MaxCount(e.n, p.n), Blend(e.src, p.src))
  }

  function Join(parts: seq<Bar>): Bar
    requires parts != []
  {
    Envelope(SortByRank(parts))
  }

  /** Several reports of one minute as one bar. */
  method JoinReports(parts: seq<Bar>) returns (r: Bar)
    requires parts != []
    ensures r == Join(parts)
  {
    if |parts| == 1 {
      return parts[0];
    }
    var sorted := SortByRank(parts);
    var first, last := sorted[0], sorted[|sorted| - 1];
    var h, l, n, src := first.h, first.l, first.n, first.src;
    var i := 0;
    assert Envelope(sorted[..1]) == first;
    while i < |sorted|
      invariant 0 <= i <= |sorted|
      invariant var k := if i == 0 then 1 else i;
        Envelope(sorted[..k]) == Bar(first.t, first.o, h, l, sorted[k - 1].c, n, src)
    {
      var p := sorted[i];
      if p.h > h { h := p.h; }
      if p.l < l { l := p.l; }
      if p.n > n { n := p.n; }
      if p.src != src { src := Mixed; }
      assert sorted[..i + 1][..i] == sorted[..i];
      i := i + 1;
    }
    assert sorted[..|sorted|] == sorted;
    r := Bar(first.t, first.o, h, l, last.c, n, src);
  }

  lemma {:induction false} InsertKeepsRanked(ps: seq<Bar>, p: Bar)
    requires Ranked(ps)
    ensures Ranked(Insert(ps, p))
  {
    if ps != [] && Rank(ps[|ps| - 1].src) > Rank(p.src) {
      var front, last := ps[..|ps| - 1], ps[|ps| - 1];
      InsertKeepsRanked(front, p);
      forall x | x in Insert(front, p)
        ensures Rank(x.src) <= Rank(last.src)
      {
        assert x in multiset(front) + multiset{p};
        if x != p {
          var i :| 0 <= i < |front| && front[i] == x;
        }
      }
    }
  }

  lemma {:induction false} SortIsRanked(ps: seq<Bar>)
    ensures Ranked(SortByRank(ps))
  {
    if ps != [] {
      SortIsRanked(ps[..|ps| - 1]);
      InsertKeepsRanked(SortByRank(ps[..|ps| - 1]), ps[|ps| - 1]);
    }
  }

  predicate Covers(outer: Bar, inner: Bar) { outer.h >= inner.h && outer.l <= inner.l }

  /** The highest high and lowest low anyone reported, the largest count, and the source all share or else "mixed". */
  ghost predicate Summarises(r: Bar, parts: seq<Bar>) {
    && (forall p | p in parts :: Covers(r, p) && r.n >= p.n)
    && (exists p | p in parts :: p.h == r.h)
    && (exists p | p in parts :: p.l == r.l)
    && (exists p | p in parts :: p.n == r.n)
    && (forall p, q | p in parts && q in parts :: p.src != q.src ==> r.src == Mixed)
    && (r.src != Mixed ==> forall p | p in parts :: p.src == r.src)
  }

  lemma {:induction false} EnvelopeSummarises(ps: seq<Bar>)
    requires ps != []
    ensures var e := Envelope(ps);
      Summarises(e, ps) && e.o == ps[0].o && e.t == ps[0].t && e.c == ps[|ps| - 1].c
  {
    if |ps| > 1 {
      var front, last := ps[..|ps| - 1], ps[|ps| - 1];
      EnvelopeSummarises(front);
      assert ps == front + [last];
      assert forall p :: p in ps <==> p in front || p == last;
    } else {
      assert ps[0] in ps;
    }
  }

  lemma SortHoldsTheSame(parts: seq<Bar>)
    ensures forall p :: p in parts <==> p in SortByRank(parts)
  {
    var s := SortByRank(parts);
    assert forall p :: p in parts <==> p in multiset(parts);
    assert forall p :: p in s <==> p in multiset(s);
  }

  lemma SummarisesTheSame(r: Bar, a: seq<Bar>, b: seq<Bar>)
    requires Summarises(r, a) && forall p :: p in a <==> p in b
    ensures Summarises(r, b)
  {}

  ghost predicate Foremost(parts: seq<Bar>, p: Bar) { p in parts && forall q | q in parts :: Rank(p.src) <= Rank(q.src) }

  ghost predicate Hindmost(parts: seq<Bar>, p: Bar) { p in parts && forall q | q in parts :: Rank(q.src) <= Rank(p.src) }

  /** A joined minute summarises its reports, opens as a best-ranked one and closes as a worst-ranked one. */
  lemma JoinMeans(parts: seq<Bar>)
    requires parts != []
    ensures Summarises(Join(parts), parts)
    ensures exists p :: Foremost(parts, p) && p.o == Join(parts).o
    ensures exists p :: Hindmost(parts, p) && p.c == Join(parts).c
  {
    hide SortByRank, Envelope, Rank, Summarises;
    var s := SortByRank(parts);
    SortIsRanked(parts);
    EnvelopeSummarises(s);
    SortHoldsTheSame(parts);
    SummarisesTheSame(Envelope(s), s, parts);
    assert forall q | q in s :: Rank(s[0].src) <= Rank(q.src) <= Rank(s[|s| - 1].src);
    assert Foremost(parts, s[0]) && Hindmost(parts, s[|s| - 1]);
  }

  // ------------------------------------------------- order of reports is no matter

  predicate StrictlyRanked(ps: seq<Bar>) { forall i, j | 0 <= i < j < |ps| :: Rank(ps[i].src) < Rank(ps[j].src) }

  /** No two reports of one rank. */
  predicate DistinctRanks(ps: seq<Bar>) {
    forall i, j | 0 <= i < j < |ps| :: Rank(ps[i].src) != Rank(ps[j].src)
  }

  /** A strictly ranked list is decided by what it holds. */
  lemma {:induction false} StrictOrderIsUnique(a: seq<Bar>, b: seq<Bar>)
    requires StrictlyRanked(a) && StrictlyRanked(b) && forall x :: x in a <==> x in b
    ensures a == b
    decreases |a|
  {
    hide Rank;
    if b != [] {
      HoldsItsFirst(b);
    }
    if a != [] {
      assert a[0] in a;
      var i :| 0 <= i < |b| && b[i] == a[0];
      assert b[0] in b;
      var j :| 0 <= j < |a| && a[j] == b[0];
      assert i == 0;
      TailHolds(a);
      TailHolds(b);
      StrictOrderIsUnique(a[1..], b[1..]);
      assert a == [a[0]] + a[1..] && b == [b[0]] + b[1..];
    }
  }

  lemma HoldsItsFirst(a: seq<Bar>)
    requires a != []
    ensures a[0] in a
  {}

  lemma TailHolds(a: seq<Bar>)
    requires StrictlyRanked(a) && a != []
    ensures StrictlyRanked(a[1..]) && forall x :: x in a[1..] <==> x in a && x != a[0]
  {
    hide Rank;
  }

  /** Inserting into a strictly ranked list a report of another rank. */
  lemma {:induction false} InsertKeepsStrict(ps: seq<Bar>, p: Bar)
    requires StrictlyRanked(ps) && forall q | q in ps :: Rank(q.src) != Rank(p.src)
    ensures StrictlyRanked(Insert(ps, p))
    ensures forall x :: x in Insert(ps, p) <==> x in ps || x == p
  {
    hide Rank;
    if ps != [] && Rank(ps[|ps| - 1].src) > Rank(p.src) {
      var front, last := ps[..|ps| - 1], ps[|ps| - 1];
      assert ps == front + [last];
      InsertKeepsStrict(front, p);
      assert forall x | x in front :: Rank(x.src) < Rank(last.src);
    } else if ps != [] {
      assert ps[|ps| - 1] in ps;
    }
  }

  lemma {:induction false} DistinctSurvivesSort(ps: seq<Bar>)
    requires DistinctRanks(ps)
    ensures StrictlyRanked(SortByRank(ps)) && forall x :: x in SortByRank(ps) <==> x in ps
  {
    hide Rank, Insert;
    if ps != [] {
      var front := ps[..|ps| - 1];
      assert ps == front + [ps[|ps| - 1]];
      DistinctSurvivesSort(front);
      InsertKeepsStrict(SortByRank(front), ps[|ps| - 1]);
    }
  }

  /** Reports of different ranks join alike in whatever order they came. */
  lemma JoinIgnoresOrder(a: seq<Bar>, b: seq<Bar>)
    requires a != [] && b != [] && DistinctRanks(a) && DistinctRanks(b) && forall x :: x in a <==> x in b
    ensures Join(a) == Join(b)
  {
    hide Rank, SortByRank, Envelope;
    DistinctSurvivesSort(a);
    DistinctSurvivesSort(b);
    StrictOrderIsUnique(SortByRank(a), SortByRank(b));
  }

  // ------------------------------------------------------------------- the fold

  /** The candle so far, after one more minute of its span. */
  function Absorb(cur: Bar, m: Bar): Bar {
    Bar(cur.t, cur.o, Max(cur.h, m.h), Min(cur.l, m.l), m.c, cur.n + m.n, Blend(cur.src, m.src))
  }

  function AddMinute(out: seq<Bar>, m: Bar, seconds: int): (r: seq<Bar>)
    requires seconds > 0
    ensures r != [] && r[|r| - 1].t == FloorTo(m.t, seconds)
  {
    var start := FloorTo(m.t, seconds);
    if out != [] && out[|out| - 1].t == start then out[..|out| - 1] + [Absorb(out[|out| - 1], m)]
    else out + [m.(t := start)]
  }

  function Fold(ms: seq<Bar>, seconds: int): (r: seq<Bar>)
    requires seconds > 0
    ensures r == [] <==> ms == []
    ensures ms != [] ==> r[|r| - 1].t == FloorTo(ms[|ms| - 1].t, seconds)
  {
    if ms == [] then [] else AddMinute(Fold(ms[..|ms| - 1], seconds), ms[|ms| - 1], seconds)
  }

  /** The browser's fold: one-minute candles are the minutes themselves. */
  function FoldMinutes(ms: seq<Bar>, seconds: int): seq<Bar>
    requires seconds > 0
  {
    if seconds == MINUTE_S then ms else Fold(ms, seconds)
  }

  lemma FoldOfNone(ms: seq<Bar>, seconds: int)
    requires seconds > 0
    ensures Fold(ms[..0], seconds) == []
  {}

  function Listed(out: seq<Bar>, cur: Option<Bar>): seq<Bar> { if cur.Some? then out + [cur.value] else out }

  lemma ListedIs(out: seq<Bar>, cur: Option<Bar>)
    ensures Listed(out, cur) == if cur.Some? then out + [cur.value] else out
  {}

  /** A minute of the open candle's span is absorbed; any other closes it and opens its own. */
  lemma AddToOpen(out: seq<Bar>, cur: Option<Bar>, m: Bar, seconds: int)
    requires seconds > 0 && (cur.None? ==> out == [])
    ensures cur.Some? && cur.value.t == FloorTo(m.t, seconds) ==>
      AddMinute(Listed(out, cur), m, seconds) == Listed(out, Some(Absorb(cur.value, m)))
    ensures !(cur.Some? && cur.value.t == FloorTo(m.t, seconds)) ==>
      AddMinute(Listed(out, cur), m, seconds) == Listed(Listed(out, cur), Some(m.(t := FloorTo(m.t, seconds))))
  {
    if cur.Some? {
      assert (out + [cur.value])[..|out|] == out;
    }
  }

  lemma FoldSnoc(ms: seq<Bar>, m: Bar, seconds: int)
    requires seconds > 0
    ensures Fold(ms + [m], seconds) == AddMinute(Fold(ms, seconds), m, seconds)
  {
    assert (ms + [m])[..|ms|] == ms;
  }

  /** Minutes into candles, the one being built held aside until its span ends. */
  method FoldMinutesLoop(ms: seq<Bar>, seconds: int) returns (r: seq<Bar>)
    requires seconds > 0
    ensures r == FoldMinutes(ms, seconds)
  {
    if seconds == MINUTE_S {
      return ms;
    }
    hide Fold, AddMinute, FloorTo, Listed;
    FoldOfNone(ms, seconds);
    var out: seq<Bar>, cur: Option<Bar> := [], None;
    ListedIs(out, cur);
    for i := 0 to |ms|
      invariant Fold(ms[..i], seconds) == Listed(out, cur)
      invariant cur.None? ==> out == []
    {
      var m := ms[i];
      var start := FloorTo(m.t, seconds);
      assert ms[..i + 1] == ms[..i] + [m];
      FoldSnoc(ms[..i], m, seconds);
      AddToOpen(out, cur, m, seconds);
      if cur.Some? && cur.value.t == start {
        var b := cur.value;
        var h := if m.h > b.h then m.h else b.h;
        var l := if m.l < b.l then m.l else b.l;
        var src := if b.src != m.src then Mixed else b.src;
        cur := Some(Bar(b.t, b.o, h, l, m.c, b.n + m.n, src));
        assert cur.value == Absorb(b, m);
      } else {
        ListedIs(out, cur);
        if cur.Some? {
          out := out + [cur.value];
        }
        cur := Some(m.(t := start));
      }
    }
    assert ms[..|ms|] == ms;
    ListedIs(out, cur);
    if cur.Some? {
      out := out + [cur.value];
    }
    r := out;
  }

  /** Coarse buckets are made of whole fine ones. */
  lemma CoarseOfFine(t: int, fine: int, coarse: int)
    requires fine > 0 && coarse > 0 && coarse % fine == 0
    ensures FloorTo(FloorTo(t, fine), coarse) == FloorTo(t, coarse)
  {
    var b := FloorTo(t, coarse);
    FloorToIsMultiple(t, coarse);
    FloorToIsMultiple(t, fine);
    var p, q := b / coarse, coarse / fine;
    assert b == p * coarse && coarse == q * fine;
    assert b == (p * q) * fine by { Reassociate(p, q, fine); }
    MultipleHasNoRemainder(p * q, fine);
    FloorToMonotone(b, t, fine);
    assert FloorTo(b, fine) == b;
    FloorToIsUnique(FloorTo(t, fine), coarse, b);
  }

  lemma Reassociate(p: int, q: int, m: int)
    ensures p * (q * m) == (p * q) * m
  {}

  /** Taking in a built candle is taking in the minutes it was built from. */
  lemma AbsorbIsAssociative(out: seq<Bar>, y: Bar, m: Bar, seconds: int)
    requires seconds > 0 && FloorTo(y.t, seconds) == FloorTo(m.t, seconds)
    ensures AddMinute(AddMinute(out, y, seconds), m, seconds) == AddMinute(out, Absorb(y, m), seconds)
  {
    var p := AddMinute(out, y, seconds);
    assert p[..|p| - 1] + [Absorb(p[|p| - 1], m)] == AddMinute(out, Absorb(y, m), seconds);
  }

  lemma OnlyTheBucketMatters(out: seq<Bar>, m: Bar, t: int, seconds: int)
    requires seconds > 0 && FloorTo(t, seconds) == FloorTo(m.t, seconds)
    ensures AddMinute(out, m.(t := t), seconds) == AddMinute(out, m, seconds)
  {}

  /** Folding a fold: going through a finer timeframe changes nothing, in any field. */
  lemma {:induction false} RefoldIsFold(ms: seq<Bar>, fine: int, coarse: int)
    requires fine > 0 && coarse > 0 && coarse % fine == 0
    ensures Fold(Fold(ms, fine), coarse) == Fold(ms, coarse)
  {
    hide Absorb, FloorTo;
    if ms != [] {
      var front, m := ms[..|ms| - 1], ms[|ms| - 1];
      RefoldIsFold(front, fine, coarse);
      CoarseOfFine(m.t, fine, coarse);
      var out, start := Fold(front, fine), FloorTo(m.t, fine);
      if out != [] && out[|out| - 1].t == start {
        var older, y := out[..|out| - 1], out[|out| - 1];
        assert out == older + [y];
        FoldSnoc(older, y, coarse);
        FoldSnoc(older, Absorb(y, m), coarse);
        AbsorbIsAssociative(Fold(older, coarse), y, m, coarse);
      } else {
        FoldSnoc(out, m.(t := start), coarse);
        OnlyTheBucketMatters(Fold(out, coarse), m, start, coarse);
      }
    }
  }

  /** Every whole-minute timeframe of the browser, folded again to a multiple of it. */
  lemma TimeframesCompose(ms: seq<Bar>, fine: int, coarse: int)
    requires fine > 0 && coarse > 0 && fine % MINUTE_S == 0 && coarse % fine == 0
    ensures FoldMinutes(FoldMinutes(ms, fine), coarse) == FoldMinutes(ms, coarse)
  {
    if fine != MINUTE_S {
      if coarse == MINUTE_S {
        assert fine >= 2 * MINUTE_S;
        SmallMultiple(coarse, fine);
      }
      RefoldIsFold(ms, fine, coarse);
    }
  }

  // ------------------------------------------------------------ the live candle

  predicate Ascending(ms: seq<Bar>) { forall i, j | 0 <= i < j < |ms| :: ms[i].t < ms[j].t }

  /** How many minutes come before `at`. */
  predicate IsLowerBound(ms: seq<Bar>, at: int, k: int) {
    && 0 <= k <= |ms|
    && (forall i | 0 <= i < k :: ms[i].t < at)
    && (forall i | k <= i < |ms| :: at <= ms[i].t)
  }

  /** The number of minutes before `at`, found in an ascending list by halving. */
  method LowerBound(ms: seq<Bar>, at: int) returns (lo: nat)
    requires Ascending(ms)
    ensures IsLowerBound(ms, at, lo)
  {
    lo := 0;
    var hi := |ms|;
    while lo < hi
      invariant 0 <= lo <= hi <= |ms|
      invariant forall i | 0 <= i < lo :: ms[i].t < at
      invariant forall i | hi <= i < |ms| :: at <= ms[i].t
    {
      var mid := (lo + hi) / 2;
      if ms[mid].t < at { lo := mid + 1; } else { hi := mid; }
    }
  }

  /** The minutes of `[from, until)`. */
  function Within(ms: seq<Bar>, from: int, until: int): (r: seq<Bar>)
    ensures forall m | m in r :: m in ms && from <= m.t < until
  {
    if ms == [] then []
    else
      var front, m := Within(ms[..|ms| - 1], from, until), ms[|ms| - 1];
      if from <= m.t < until then front + [m] else front
  }

  lemma {:induction false} NothingWithin(ms: seq<Bar>, from: int, until: int)
    requires from >= until
    ensures Within(ms, from, until) == []
  {
    if ms != [] {
      NothingWithin(ms[..|ms| - 1], from, until);
    }
  }

  lemma LowerBoundsAscend(ms: seq<Bar>, a: int, b: int, i: int, j: int)
    requires Ascending(ms) && a <= b && IsLowerBound(ms, a, i) && IsLowerBound(ms, b, j)
    ensures i <= j
  {
    assert i == 0 || ms[i - 1].t < a;
  }

  lemma {:induction false} WithinIsSlice(ms: seq<Bar>, from: int, until: int, a: int, b: int)
    requires Ascending(ms) && IsLowerBound(ms, from, a) && IsLowerBound(ms, until, b) && from <= until
    ensures a <= b && Within(ms, from, until) == ms[a..b]
  {
    hide IsLowerBound, Ascending;
    LowerBoundsAscend(ms, from, until, a, b);
    LowerBoundFits(ms, from, a);
    LowerBoundFits(ms, until, b);
    if ms != [] {
      var k := |ms| - 1;
      var front := ms[..k];
      LowerBoundOfFront(ms, from, a);
      LowerBoundOfFront(ms, until, b);
      WithinIsSlice(front, from, until, if a <= k then a else k, if b <= k then b else k);
      if a <= k && b > k {
        assert ms[a..b] == front[a..k] + [ms[k]];
      } else if b <= k {
        assert ms[a..b] == front[a..b];
      } else {
        assert ms[a..b] == front[k..k];
      }
    }
  }

  lemma LowerBoundFits(ms: seq<Bar>, at: int, k: int)
    requires IsLowerBound(ms, at, k)
    ensures 0 <= k <= |ms| && (ms != [] ==> (k == |ms| <==> ms[|ms| - 1].t < at))
  {}

  lemma LowerBoundOfFront(ms: seq<Bar>, at: int, k: int)
    requires Ascending(ms) && IsLowerBound(ms, at, k) && ms != []
    ensures Ascending(ms[..|ms| - 1]) && IsLowerBound(ms[..|ms| - 1], at, if k < |ms| then k else |ms| - 1)
  {
    assert k < |ms| ==> at <= ms[|ms| - 1].t;
  }

  function Ceiling(start: int, seconds: int, before: Option<int>): int {
    if before.Some? && before.value < start + seconds then before.value else start + seconds
  }

  /** The candle of a span, folded from its minutes that begin before `before`; none if there are none. */
  function BucketOf(ms: seq<Bar>, start: int, seconds: int, before: Option<int>): Option<Bar>
    requires seconds > 0
  {
    var span := Within(ms, start, Ceiling(start, seconds, before));
    if span == [] then None else
      var candles := FoldMinutes(span, seconds);
      if candles == [] then None else Some(candles[0].(t := start))
  }

  method BucketOfLoop(ms: seq<Bar>, start: int, seconds: int, before: Option<int>) returns (r: Option<Bar>)
    requires seconds > 0 && Ascending(ms)
    ensures r == BucketOf(ms, start, seconds, before)
  {
    var end := Ceiling(start, seconds, before);
    var from := LowerBound(ms, start);
    var to := LowerBound(ms, end);
    if start <= end {
      WithinIsSlice(ms, start, end, from, to);
    } else {
      NothingWithin(ms, start, end);
      LowerBoundsAscend(ms, end, start, to, from);
    }
    if from >= to {
      return None;
    }
    var candles := FoldMinutesLoop(ms[from..to], seconds);
    r := if candles == [] then None else Some(candles[0].(t := start));
  }

  function Extend(base: Option<Bar>, f: Bar, start: int): Bar {
    if base.None? then f.(t := start, src := Stream)
    else Bar(start, base.value.o, Max(base.value.h, f.h), Min(base.value.l, f.l), f.c, base.value.n + f.n,
             if base.value.src == Stream then Stream else Mixed)
  }

  lemma {:induction false} FoldOfOneSpan(span: seq<Bar>, start: int, seconds: int)
    requires seconds > 0 && span != [] && forall m | m in span :: FloorTo(m.t, seconds) == start
    ensures |Fold(span, seconds)| == 1
  {
    if |span| > 1 {
      FoldOfOneSpan(span[..|span| - 1], start, seconds);
    }
  }

  lemma AddMinuteAfter(a: seq<Bar>, b: seq<Bar>, m: Bar, seconds: int)
    requires seconds > 0 && (b != [] || a == [] || a[|a| - 1].t != FloorTo(m.t, seconds))
    ensures AddMinute(a + b, m, seconds) == a + AddMinute(b, m, seconds)
  {
    if b == [] {
      assert a + b == a;
    } else {
      assert (a + b)[..|a + b| - 1] == a + b[..|b| - 1];
    }
  }

  /** Minutes of a later span fold as if nothing came before them. */
  lemma {:induction false} FoldSplits(earlier: seq<Bar>, span: seq<Bar>, start: int, seconds: int)
    requires seconds > 0
    requires forall m | m in earlier :: FloorTo(m.t, seconds) != start
    requires forall m | m in span :: FloorTo(m.t, seconds) == start
    ensures Fold(earlier + span, seconds) == Fold(earlier, seconds) + Fold(span, seconds)
  {
    hide AddMinute, FloorTo, Fold;
    if span == [] {
      assert earlier + span == earlier;
    } else {
      var front, m := span[..|span| - 1], span[|span| - 1];
      FoldSplits(earlier, front, start, seconds);
      assert earlier + span == (earlier + front) + [m];
      FoldSnoc(earlier + front, m, seconds);
      assert span == front + [m];
      FoldSnoc(front, m, seconds);
      if front == [] && earlier != [] {
        assert earlier[|earlier| - 1] in earlier && m in span;
      }
      AddMinuteAfter(Fold(earlier, seconds), Fold(front, seconds), m, seconds);
    }
  }

  /** The last candle once `f` is appended, by what `f`'s span already holds. */
  lemma LastCandle(earlier: seq<Bar>, span: seq<Bar>, f: Bar, seconds: int)
    requires seconds > 0
    requires forall m | m in earlier :: FloorTo(m.t, seconds) != FloorTo(f.t, seconds)
    requires forall m | m in span :: FloorTo(m.t, seconds) == FloorTo(f.t, seconds)
    ensures var r, start := Fold(earlier + span + [f], seconds), FloorTo(f.t, seconds);
      && r != []
      && (if span == [] then r[|r| - 1] == f.(t := start)
          else |Fold(span, seconds)| == 1 && Fold(span, seconds)[0].t == start && r[|r| - 1] == Absorb(Fold(span, seconds)[0], f))
  {
    hide Absorb, FloorTo;
    var start := FloorTo(f.t, seconds);
    assert earlier + span + [f] == earlier + (span + [f]);
    FoldSplits(earlier, span + [f], start, seconds);
    FoldSnoc(span, f, seconds);
    if span != [] {
      FoldOfOneSpan(span, start, seconds);
      assert span[|span| - 1] in span;
    }
  }

  /** When the forming minute's label agrees with the fold's. */
  predicate LabelAgrees(base: Option<Bar>, f: Bar) {
    if base.None? || base.value.src == Stream then f.src == Stream
    else f.src != base.value.src || base.value.src == Mixed
  }

  /** The minutes before `until`, split at `from`. */
  lemma {:induction false} WithinSplits(ms: seq<Bar>, from: int, until: int, k: int)
    requires Ascending(ms) && IsLowerBound(ms, until, k)
    ensures exists j :: 0 <= j <= k && IsLowerBound(ms[..k], from, j) && Within(ms, from, until) == ms[j..k]
  {
    if from <= until {
      var j := CountBefore(ms, from);
      WithinIsSlice(ms, from, until, j, k);
      assert IsLowerBound(ms[..k], from, j);
    } else {
      assert IsLowerBound(ms[..k], from, k);
      NothingWithin(ms, from, until);
      assert ms[k..k] == [];
    }
  }

  lemma {:induction false} CountBefore(ms: seq<Bar>, at: int) returns (k: int)
    requires Ascending(ms)
    ensures IsLowerBound(ms, at, k)
  {
    if ms == [] || ms[|ms| - 1].t < at {
      k := |ms|;
    } else {
      k := CountBefore(ms[..|ms| - 1], at);
    }
  }

  /**
    The candle drawn on every tick is the candle a redraw would draw: extending the
    bucket of the minutes before the forming one gives the last candle of folding
    those minutes with the forming one appended, in every field but the label, and
    in the label exactly when it agrees.
   */
  lemma LiveCandleIsRefold(ms: seq<Bar>, f: Bar, seconds: int, k: int)
    requires seconds > 0 && seconds % MINUTE_S == 0 && f.t % MINUTE_S == 0
    requires Ascending(ms) && IsLowerBound(ms, f.t, k)
    ensures var start := FloorTo(f.t, seconds);
      var base := BucketOf(ms, start, seconds, Some(f.t));
      var live, refold := Extend(base, f, start), FoldMinutes(ms[..k] + [f], seconds);
      && refold != []
      && live.(src := f.src) == refold[|refold| - 1].(src := f.src)
      && (live == refold[|refold| - 1] <==> LabelAgrees(base, f))
  {
    if seconds == MINUTE_S {
      LiveMinute(ms, f, k);
    } else {
      LiveCandle(ms, f, seconds, k);
    }
  }

  /** A one-minute candle holds nothing but the forming minute. */
  lemma LiveMinute(ms: seq<Bar>, f: Bar, k: int)
    requires f.t % MINUTE_S == 0 && 0 <= k <= |ms|
    ensures FloorTo(f.t, MINUTE_S) == f.t && BucketOf(ms, f.t, MINUTE_S, Some(f.t)) == None
    ensures var live, refold := Extend(None, f, f.t), FoldMinutes(ms[..k] + [f], MINUTE_S);
      && live.(src := f.src) == refold[|refold| - 1]
      && (live == refold[|refold| - 1] <==> f.src == Stream)
  {
    hide FloorTo, Within;
    FloorToIsUnique(f.t, MINUTE_S, f.t);
    NothingWithin(ms, f.t, f.t);
  }

  lemma LiveCandle(ms: seq<Bar>, f: Bar, seconds: int, k: int)
    requires seconds > 0 && seconds != MINUTE_S && Ascending(ms) && IsLowerBound(ms, f.t, k)
    ensures var start := FloorTo(f.t, seconds);
      var base := BucketOf(ms, start, seconds, Some(f.t));
      var live, refold := Extend(base, f, start), FoldMinutes(ms[..k] + [f], seconds);
      && refold != []
      && live.(src := f.src) == refold[|refold| - 1].(src := f.src)
      && (live == refold[|refold| - 1] <==> LabelAgrees(base, f))
  {
    var start := FloorTo(f.t, seconds);
    assert Ceiling(start, seconds, Some(f.t)) == f.t;
    hide Within, Fold, Ascending, IsLowerBound, FloorTo, Extend, Absorb, LabelAgrees, Ceiling;
    var earlier, span := SpanOf(ms, f, seconds, k);
    LastCandle(earlier, span, f, seconds);
    if span == [] {
      ExtendNothing(f, start);
    } else {
      ExtendIsAbsorb(Fold(span, seconds)[0], f);
    }
  }

  lemma ExtendNothing(f: Bar, start: int)
    ensures Extend(None, f, start).(src := f.src) == f.(t := start).(src := f.src)
    ensures Extend(None, f, start) == f.(t := start) <==> LabelAgrees(None, f)
  {}

  /** Extending a candle is absorbing the minute, but for the label. */
  lemma ExtendIsAbsorb(base: Bar, f: Bar)
    ensures Extend(Some(base), f, base.t).(src := f.src) == Absorb(base, f).(src := f.src)
    ensures Extend(Some(base), f, base.t) == Absorb(base, f) <==> LabelAgrees(Some(base), f)
  {}

  /** The minutes before `f`, cut where its candle starts. */
  lemma SpanOf(ms: seq<Bar>, f: Bar, seconds: int, k: int) returns (earlier: seq<Bar>, span: seq<Bar>)
    requires seconds > 0 && Ascending(ms) && IsLowerBound(ms, f.t, k)
    ensures ms[..k] == earlier + span && span == Within(ms, FloorTo(f.t, seconds), f.t)
    ensures forall m | m in earlier :: FloorTo(m.t, seconds) != FloorTo(f.t, seconds)
    ensures forall m | m in span :: FloorTo(m.t, seconds) == FloorTo(f.t, seconds)
  {
    var start := FloorTo(f.t, seconds);
    FloorToIsMultiple(f.t, seconds);
    WithinSplits(ms, start, f.t, k);
    var j :| 0 <= j <= k && IsLowerBound(ms[..k], start, j) && Within(ms, start, f.t) == ms[j..k];
    earlier, span := ms[..k][..j], ms[j..k];
    forall m | m in span
      ensures FloorTo(m.t, seconds) == start
    {
      assert m in Within(ms, start, f.t);
      FloorToIsUnique(m.t, seconds, start);
    }
  }

  // ------------------------------------------------------------ the server's fold

  function TieOrder(s: Source): nat { if s == Backfill then 0 else 1 }

  predicate Before(a: Bar, b: Bar) { a.t < b.t || (a.t == b.t && TieOrder(a.src) <= TieOrder(b.src)) }

  /** A stable insertion by time, provider history first within a minute. */
  function InsertBar(bars: seq<Bar>, b: Bar): (r: seq<Bar>)
    ensures |r| == |bars| + 1 && multiset(r) == multiset(bars) + multiset{b}
  {
    if bars == [] || Before(bars[|bars| - 1], b) then bars + [b]
    else
      var r := InsertBar(bars[..|bars| - 1], b) + [bars[|bars| - 1]];
      assert bars == bars[..|bars| - 1] + [bars[|bars| - 1]];
      r
  }

  function SortBars(bars: seq<Bar>): (r: seq<Bar>)
    ensures |r| == |bars| && multiset(r) == multiset(bars)
  {
    if bars == [] then []
    else
      assert bars == bars[..|bars| - 1] + [bars[|bars| - 1]];
      InsertBar(SortBars(bars[..|bars| - 1]), bars[|bars| - 1])
  }

  function ServerFold(bars: seq<Bar>, seconds: int): seq<Bar>
    requires seconds > 0
  {
    Fold(SortBars(bars), seconds)
  }

  /** The server's loop, which updates the newest candle of its output in place. */
  method ServerFoldLoop(bars: seq<Bar>, seconds: int) returns (out: seq<Bar>)
    requires seconds > 0
    ensures out == ServerFold(bars, seconds)
  {
    out := [];
    var sorted := SortBars(bars);
    hide Fold, SortBars, FloorTo;
    FoldOfNone(sorted, seconds);
    for i := 0 to |sorted|
      invariant out == Fold(sorted[..i], seconds)
    {
      var bar := sorted[i];
      var start := FloorTo(bar.t, seconds);
      assert sorted[..i + 1] == sorted[..i] + [bar];
      FoldSnoc(sorted[..i], bar, seconds);
      if out != [] && out[|out| - 1].t == start {
        var cur := out[|out| - 1];
        cur := cur.(h := Max(cur.h, bar.h), l := Min(cur.l, bar.l), c := bar.c, n := cur.n + bar.n);
        if cur.src != bar.src {
          cur := cur.(src := Mixed);
        }
        out := out[|out| - 1 := cur];
      } else {
        out := out + [Bar(start, bar.o, bar.h, bar.l, bar.c, bar.n, bar.src)];
      }
    }
    assert sorted[..|sorted|] == sorted;
  }
}
