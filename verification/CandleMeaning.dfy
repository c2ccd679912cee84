/**
  What a candle says of the minutes it is drawn from, and a joined minute of its
  reports, in the reports' own figures.
 */
module CandleMeaning {
  import opened Candles
  import opened Floors

  // ---------------------------------------------------------------- one minute

  predicate Has(parts: seq<Bar>, s: Source) { exists i | 0 <= i < |parts| :: parts[i].src == s }

  predicate OpensAs(parts: seq<Bar>, s: Source, o: real) { exists i | 0 <= i < |parts| :: parts[i].src == s && parts[i].o == o }

  predicate ClosesAs(parts: seq<Bar>, s: Source, c: real) { exists i | 0 <= i < |parts| :: parts[i].src == s && parts[i].c == c }

  /**
    A joined minute opens as the provider's history when there is any, then as an
    already joined bar, and as our own stream only if there is nothing else; it closes
    as our own stream when there is any, and as the provider's history only if there
    is nothing else, an already joined bar coming next to last.
   */
  lemma JoinOpensAndCloses(parts: seq<Bar>)
    requires parts != []
    ensures var r := Join(parts);
      && (Has(parts, Backfill) ==> OpensAs(parts, Backfill, r.o))
      && (!Has(parts, Backfill) && Has(parts, Mixed) ==> OpensAs(parts, Mixed, r.o))
      && ((exists i | 0 <= i < |parts| :: parts[i].src != Stream) ==> exists i | 0 <= i < |parts| :: parts[i].src != Stream && parts[i].o == r.o)
      && (Has(parts, Stream) ==> ClosesAs(parts, Stream, r.c))
      && ((exists i | 0 <= i < |parts| :: parts[i].src != Backfill) ==> exists i | 0 <= i < |parts| :: parts[i].src != Backfill && parts[i].c == r.c)
      && ((forall i | 0 <= i < |parts| :: parts[i].src == Backfill || parts[i].src == Mixed) && Has(parts, Mixed) ==> ClosesAs(parts, Mixed, r.c))
  {
    hide Join;
    JoinMeans(parts);
    var p :| Foremost(parts, p) && p.o == Join(parts).o;
    var q :| Hindmost(parts, q) && q.c == Join(parts).c;
    var i :| 0 <= i < |parts| && parts[i] == p;
    var j :| 0 <= j < |parts| && parts[j] == q;
    assert forall k | 0 <= k < |parts| :: Rank(p.src) <= Rank(parts[k].src) <= Rank(q.src);
  }

  // -------------------------------------------------------------------- a candle

  function TotalCount(ms: seq<Bar>): nat { if ms == [] then 0 else TotalCount(ms[..|ms| - 1]) + ms[|ms| - 1].n }

  predicate OneSource(ms: seq<Bar>, s: Source) { forall i | 0 <= i < |ms| :: ms[i].src == s }

  /** First open, last close, the extremes, the sum of the counts, and the source all share or else mixed. */
  ghost predicate Describes(c: Bar, ms: seq<Bar>) {
    && ms != [] && c.o == ms[0].o && c.c == ms[|ms| - 1].c && c.n == TotalCount(ms)
    && (forall i | 0 <= i < |ms| :: ms[i].h <= c.h && c.l <= ms[i].l)
    && (exists i | 0 <= i < |ms| :: ms[i].h == c.h)
    && (exists i | 0 <= i < |ms| :: ms[i].l == c.l)
    && (if OneSource(ms, ms[0].src) then c.src == ms[0].src else c.src == Mixed)
  }

  lemma OneMinuteDescribes(m: Bar, t: int)
    ensures Describes(m.(t := t), [m])
  {
    assert [m][..0] == [];
    assert [m][0].h == m.h && [m][0].l == m.l;
  }

  lemma AbsorbDescribes(c: Bar, ms: seq<Bar>, m: Bar)
    requires Describes(c, ms)
    ensures Describes(Absorb(c, m), ms + [m])
  {
    var all := ms + [m];
    assert all[..|ms|] == ms;
    assert forall i | 0 <= i < |ms| :: all[i] == ms[i];
    assert all[|ms|] == m;
    var i :| 0 <= i < |ms| && ms[i].h == c.h;
    var j :| 0 <= j < |ms| && ms[j].l == c.l;
    assert all[i].h == c.h && all[j].l == c.l;
  }

  predicate InTime(ms: seq<Bar>) { forall i, j | 0 <= i <= j < |ms| :: ms[i].t <= ms[j].t }

  predicate IsStart(t: int, seconds: int)
    requires seconds > 0
  {
    t % seconds == 0
  }

  /** The candle describes the minutes of its span, a whole one. */
  ghost predicate DrawnFrom(c: Bar, ms: seq<Bar>, seconds: int)
    requires seconds > 0
  {
    IsStart(c.t, seconds) && Describes(c, Within(ms, c.t, c.t + seconds))
  }

  predicate Apart(cs: seq<Bar>, seconds: int) { forall i, j | 0 <= i < j < |cs| :: cs[i].t + seconds <= cs[j].t }

  predicate Covered(cs: seq<Bar>, ms: seq<Bar>, seconds: int) {
    forall i | 0 <= i < |ms| :: exists k | 0 <= k < |cs| :: cs[k].t <= ms[i].t < cs[k].t + seconds
  }

  /** Each candle describes the minutes of its span, in order; the spans ascend, and take in every minute. */
  ghost predicate CandlesOf(cs: seq<Bar>, ms: seq<Bar>, seconds: int)
    requires seconds > 0
  {
    && (forall i | 0 <= i < |cs| :: DrawnFrom(cs[i], ms, seconds))
    && Apart(cs, seconds) && Covered(cs, ms, seconds)
  }

  lemma WithinSnoc(ms: seq<Bar>, m: Bar, from: int, until: int)
    ensures Within(ms + [m], from, until) == if from <= m.t < until then Within(ms, from, until) + [m] else Within(ms, from, until)
  {
    assert (ms + [m])[..|ms|] == ms;
  }

  lemma {:induction false} NoneWithin(ms: seq<Bar>, from: int, until: int)
    requires forall i | 0 <= i < |ms| :: ms[i].t < from
    ensures Within(ms, from, until) == []
  {
    if ms != [] {
      NoneWithin(ms[..|ms| - 1], from, until);
    }
  }

  lemma SpanStart(t: int, seconds: int)
    requires seconds > 0
    ensures FloorTo(t, seconds) <= t < FloorTo(t, seconds) + seconds && IsStart(FloorTo(t, seconds), seconds)
  {
    FloorToIsMultiple(t, seconds);
  }

  /** Whole spans that start in order do not overlap. */
  lemma SpansApart(a: int, b: int, seconds: int)
    requires seconds > 0 && IsStart(a, seconds) && IsStart(b, seconds) && a < b
    ensures a + seconds <= b
  {
    assert a == a / seconds * seconds && b == b / seconds * seconds;
    if b / seconds <= a / seconds {
      Times(b / seconds, a / seconds, seconds);
    } else {
      Times(a / seconds + 1, b / seconds, seconds);
    }
  }

  lemma Times(x: int, y: int, n: int)
    requires x <= y && n > 0
    ensures x * n <= y * n
  {}

  lemma EarlierCandleStays(c: Bar, ms: seq<Bar>, m: Bar, seconds: int)
    requires seconds > 0 && c.t + seconds <= m.t && DrawnFrom(c, ms, seconds)
    ensures DrawnFrom(c, ms + [m], seconds)
  {
    WithinSnoc(ms, m, c.t, c.t + seconds);
  }

  /** Ready for the next minute: candles of minutes in time order, the last candle that of the last minute. */
  ghost predicate Upto(cs: seq<Bar>, ms: seq<Bar>, seconds: int)
    requires seconds > 0
  {
    && CandlesOf(cs, ms, seconds) && InTime(ms) && (cs == [] <==> ms == [])
    && (ms != [] ==> cs[|cs| - 1].t == FloorTo(ms[|ms| - 1].t, seconds))
  }

  lemma LastMinuteIsLast(ms: seq<Bar>, m: Bar)
    requires InTime(ms + [m])
    ensures InTime(ms) && forall i | 0 <= i < |ms| :: ms[i].t <= m.t && ms[i].t <= ms[|ms| - 1].t
  {
    var all := ms + [m];
    assert forall i | 0 <= i < |ms| :: all[i] == ms[i];
    assert all[|ms|] == m;
    assert forall i | 0 <= i < |ms| :: all[i].t <= all[|ms|].t;
  }

  /** The span of the next minute is the last candle's, or a later one than every minute so far. */
  lemma NextSpan(cs: seq<Bar>, ms: seq<Bar>, m: Bar, seconds: int)
    requires seconds > 0 && Upto(cs, ms, seconds) && InTime(ms + [m])
    ensures var start := FloorTo(m.t, seconds);
      && start <= m.t < start + seconds && IsStart(start, seconds)
      && (cs != [] ==> cs[|cs| - 1].t == start || cs[|cs| - 1].t + seconds <= start)
      && (cs == [] || cs[|cs| - 1].t != start ==> forall i | 0 <= i < |ms| :: ms[i].t < start)
  {
    hide Describes, FloorTo, Within, Covered, Apart;
    SpanStart(m.t, seconds);
    LastMinuteIsLast(ms, m);
    if cs != [] {
      var last, start := FloorTo(ms[|ms| - 1].t, seconds), FloorTo(m.t, seconds);
      SpanStart(ms[|ms| - 1].t, seconds);
      FloorToMonotone(ms[|ms| - 1].t, m.t, seconds);
      if last < start {
        SpansApart(last, start, seconds);
      }
    }
  }

  lemma GrownCandle(c: Bar, ms: seq<Bar>, m: Bar, seconds: int)
    requires seconds > 0 && DrawnFrom(c, ms, seconds) && c.t <= m.t < c.t + seconds
    ensures DrawnFrom(Absorb(c, m), ms + [m], seconds)
  {
    hide Describes, Within, IsStart, Absorb;
    WithinSnoc(ms, m, c.t, c.t + seconds);
    AbsorbDescribes(c, Within(ms, c.t, c.t + seconds), m);
    AbsorbKeepsTime(c, m);
  }

  /** The first minute of a later span is all its candle describes. */
  lemma NewCandle(ms: seq<Bar>, m: Bar, start: int, seconds: int)
    requires seconds > 0 && start <= m.t < start + seconds && IsStart(start, seconds)
    requires forall i | 0 <= i < |ms| :: ms[i].t < start
    ensures DrawnFrom(m.(t := start), ms + [m], seconds)
  {
    hide Describes, Within, IsStart;
    NoneWithin(ms, start, start + seconds);
    WithinSnoc(ms, m, start, start + seconds);
    assert [] + [m] == [m];
    OneMinuteDescribes(m, start);
  }

  lemma AddMinuteShape(cs: seq<Bar>, m: Bar, seconds: int)
    requires seconds > 0
    ensures var r, start := AddMinute(cs, m, seconds), FloorTo(m.t, seconds);
      && r != [] && r[|r| - 1].t == start
      && (if cs != [] && cs[|cs| - 1].t == start then r == cs[..|cs| - 1] + [Absorb(cs[|cs| - 1], m)]
          else r == cs + [m.(t := start)])
  {}

  lemma CandlesSnoc(cs: seq<Bar>, c: Bar, ms: seq<Bar>, m: Bar, seconds: int)
    requires seconds > 0 && Apart(cs, seconds) && (cs != [] ==> cs[|cs| - 1].t + seconds <= c.t) && c.t <= m.t < c.t + seconds
    requires forall i | 0 <= i < |cs| :: DrawnFrom(cs[i], ms, seconds)
    requires DrawnFrom(c, ms + [m], seconds)
    requires forall i | 0 <= i < |ms| :: (c.t <= ms[i].t < c.t + seconds) || exists k | 0 <= k < |cs| :: cs[k].t <= ms[i].t < cs[k].t + seconds
    ensures CandlesOf(cs + [c], ms + [m], seconds)
  {
    hide DrawnFrom;
    var all, r := ms + [m], cs + [c];
    forall i | 0 <= i < |cs|
      ensures r[i] == cs[i] && cs[i].t + seconds <= c.t && DrawnFrom(r[i], all, seconds)
    {
      assert i < |cs| - 1 ==> cs[i].t + seconds <= cs[|cs| - 1].t;
      EarlierCandleStays(cs[i], ms, m, seconds);
    }
    assert r[|cs|] == c;
    forall i | 0 <= i < |all|
      ensures exists k | 0 <= k < |r| :: r[k].t <= all[i].t < r[k].t + seconds
    {
      if i == |ms| || c.t <= ms[i].t < c.t + seconds {
        assert r[|cs|].t <= all[i].t < r[|cs|].t + seconds;
      } else {
        var k :| 0 <= k < |cs| && cs[k].t <= ms[i].t < cs[k].t + seconds;
        assert r[k].t == cs[k].t;
      }
    }
  }

  lemma UptoMeans(cs: seq<Bar>, ms: seq<Bar>, seconds: int)
    requires seconds > 0 && Upto(cs, ms, seconds)
    ensures (forall i | 0 <= i < |cs| :: DrawnFrom(cs[i], ms, seconds)) && Apart(cs, seconds) && Covered(cs, ms, seconds)
  {}

  lemma MakesUpto(cs: seq<Bar>, ms: seq<Bar>, m: Bar, seconds: int)
    requires seconds > 0 && InTime(ms + [m]) && CandlesOf(cs, ms + [m], seconds)
    requires cs != [] && cs[|cs| - 1].t == FloorTo(m.t, seconds)
    ensures Upto(cs, ms + [m], seconds)
  {
    hide CandlesOf, InTime, FloorTo;
  }

  /** The last candle takes the minute in. */
  lemma LastGrows(front: seq<Bar>, last: Bar, ms: seq<Bar>, m: Bar, seconds: int)
    requires seconds > 0 && Upto(front + [last], ms, seconds) && last.t <= m.t < last.t + seconds
    ensures CandlesOf(front + [Absorb(last, m)], ms + [m], seconds)
  {
    var cs := front + [last];
    UptoMeans(cs, ms, seconds);
    hide DrawnFrom, Absorb, Upto, IsStart, Covered, Apart;
    assert forall i | 0 <= i < |front| :: front[i] == cs[i];
    assert cs[|front|] == last;
    GrownCandle(last, ms, m, seconds);
    AbsorbKeepsTime(last, m);
    FrontCovers(front, last, ms, seconds);
    CandlesSnoc(front, Absorb(last, m), ms, m, seconds);
  }

  /** A new candle for a minute after all the others. */
  lemma LastIsNew(cs: seq<Bar>, ms: seq<Bar>, m: Bar, start: int, seconds: int)
    requires seconds > 0 && Upto(cs, ms, seconds) && start <= m.t < start + seconds && IsStart(start, seconds)
    requires forall i | 0 <= i < |ms| :: ms[i].t < start
    requires cs != [] ==> cs[|cs| - 1].t + seconds <= start
    ensures CandlesOf(cs + [m.(t := start)], ms + [m], seconds)
  {
    UptoMeans(cs, ms, seconds);
    hide DrawnFrom, Upto, IsStart, Apart;
    NewCandle(ms, m, start, seconds);
    CandlesSnoc(cs, m.(t := start), ms, m, seconds);
  }

  lemma AddMinuteKeeps(cs: seq<Bar>, ms: seq<Bar>, m: Bar, seconds: int)
    requires seconds > 0 && Upto(cs, ms, seconds) && InTime(ms + [m])
    ensures Upto(AddMinute(cs, m, seconds), ms + [m], seconds)
  {
    hide *;
    var start := FloorTo(m.t, seconds);
    NextSpan(cs, ms, m, seconds);
    AddMinuteShape(cs, m, seconds);
    if cs != [] && cs[|cs| - 1].t == start {
      assert cs[..|cs| - 1] + [cs[|cs| - 1]] == cs;
      LastGrows(cs[..|cs| - 1], cs[|cs| - 1], ms, m, seconds);
    } else {
      LastIsNew(cs, ms, m, start, seconds);
    }
    MakesUpto(AddMinute(cs, m, seconds), ms, m, seconds);
  }

  lemma AbsorbKeepsTime(c: Bar, m: Bar)
    ensures Absorb(c, m).t == c.t
  {}

  lemma FrontCovers(front: seq<Bar>, last: Bar, ms: seq<Bar>, seconds: int)
    requires Covered(front + [last], ms, seconds) && Apart(front + [last], seconds)
    ensures Apart(front, seconds) && (front != [] ==> front[|front| - 1].t + seconds <= last.t)
    ensures forall i | 0 <= i < |ms| ::
      (last.t <= ms[i].t < last.t + seconds) || exists k | 0 <= k < |front| :: front[k].t <= ms[i].t < front[k].t + seconds
  {
    var cs := front + [last];
    assert forall i | 0 <= i < |front| :: cs[i] == front[i];
    assert cs[|front|] == last;
    forall i | 0 <= i < |ms|
      ensures (last.t <= ms[i].t < last.t + seconds) || exists k | 0 <= k < |front| :: front[k].t <= ms[i].t < front[k].t + seconds
    {
      var k :| 0 <= k < |cs| && cs[k].t <= ms[i].t < cs[k].t + seconds;
      if k < |front| {
        assert front[k] == cs[k];
      }
    }
  }

  /**
    For bars in time order, several of one minute included: the candles of a fold
    start at whole multiples of the timeframe, ascend, cover every bar, and each
    describes exactly the bars of its span.
   */
  lemma FoldDescribes(ms: seq<Bar>, seconds: int)
    requires seconds > 0 && InTime(ms)
    ensures CandlesOf(Fold(ms, seconds), ms, seconds)
  {
    FoldIsUpto(ms, seconds);
  }

  lemma {:induction false} FoldIsUpto(ms: seq<Bar>, seconds: int)
    requires seconds > 0 && InTime(ms)
    ensures Upto(Fold(ms, seconds), ms, seconds)
  {
    if ms != [] {
      hide AddMinute, Upto;
      var front, m := ms[..|ms| - 1], ms[|ms| - 1];
      assert front + [m] == ms;
      FoldIsUpto(front, seconds);
      AddMinuteKeeps(Fold(front, seconds), front, m, seconds);
    }
  }

  lemma {:induction false} InsertBarInTime(bars: seq<Bar>, b: Bar)
    requires InTime(bars)
    ensures InTime(InsertBar(bars, b))
    ensures bars != [] ==> var r := InsertBar(bars, b); r[|r| - 1] == b || r[|r| - 1] == bars[|bars| - 1]
  {
    if bars != [] && !Before(bars[|bars| - 1], b) {
      var front, last := bars[..|bars| - 1], bars[|bars| - 1];
      InsertBarInTime(front, b);
      var r := InsertBar(front, b);
      assert front != [] ==> front[|front| - 1] == bars[|bars| - 2];
    }
  }

  lemma {:induction false} SortBarsInTime(bars: seq<Bar>)
    ensures InTime(SortBars(bars))
  {
    if bars != [] {
      SortBarsInTime(bars[..|bars| - 1]);
      InsertBarInTime(SortBars(bars[..|bars| - 1]), bars[|bars| - 1]);
    }
  }

  /** The server's candles describe the same bars it was given, put in time order, each in its own span. */
  lemma ServerFoldDescribes(bars: seq<Bar>, seconds: int)
    requires seconds > 0
    ensures multiset(SortBars(bars)) == multiset(bars) && InTime(SortBars(bars))
    ensures CandlesOf(ServerFold(bars, seconds), SortBars(bars), seconds)
  {
    SortBarsInTime(bars);
    FoldDescribes(SortBars(bars), seconds);
  }
}
