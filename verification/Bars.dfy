/**
  Bars: the open/high/low/close/count record a minute's ticks fold into, the two
  additive return sums beside it, and the accumulator that builds both in place.

  Prices are reals and the natural logarithm is a parameter, so every statement
  holds whatever function the return of a tick is computed with.
 */
module Bars {
  import opened Floors
  import opened Wrappers

  function Max(a: real, b: real): real { if a < b then b else a }

  function Min(a: real, b: real): real { if b < a then b else a }

  // ------------------------------------------------------------------ prices

  datatype Ohlc = Ohlc(open: real, high: real, low: real, close: real, ticks: nat)

  /** The bar a bucket is opened with, before its first tick is counted. */
  function Start(price: real): Ohlc { Ohlc(price, price, price, price, 0) }

  function AddPrice(b: Ohlc, price: real): Ohlc {
    Ohlc(b.open, Max(b.high, price), Min(b.low, price), price, b.ticks + 1)
  }

  /** Two bars over consecutive stretches of one tick sequence. */
  function Merge(a: Ohlc, b: Ohlc): Ohlc {
    Ohlc(a.open, Max(a.high, b.high), Min(a.low, b.low), b.close, a.ticks + b.ticks)
  }

  function Highest(ps: seq<real>): (r: real)
    requires ps != []
    ensures r in ps && forall i | 0 <= i < |ps| :: ps[i] <= r
  {
    if |ps| == 1 then ps[0] else Max(Highest(ps[..|ps| - 1]), ps[|ps| - 1])
  }

  function Lowest(ps: seq<real>): (r: real)
    requires ps != []
    ensures r in ps && forall i | 0 <= i < |ps| :: r <= ps[i]
  {
    if |ps| == 1 then ps[0] else Min(Lowest(ps[..|ps| - 1]), ps[|ps| - 1])
  }

  /** What a bar says about the prices it covers, without folding them. */
  function Summary(ps: seq<real>): Ohlc
    requires ps != []
  {
    Ohlc(ps[0], Highest(ps), Lowest(ps), ps[|ps| - 1], |ps|)
  }

  lemma SummaryOfOne(p: real)
    ensures Summary([p]) == AddPrice(Start(p), p)
  {}

  lemma SummaryOfSnoc(ps: seq<real>, p: real)
    requires ps != []
    ensures Summary(ps + [p]) == AddPrice(Summary(ps), p)
  {
    assert (ps + [p])[..|ps|] == ps;
  }

  /** Cutting a tick sequence anywhere and merging the two bars loses nothing. */
  lemma MergeIsConcatenation(a: seq<real>, b: seq<real>)
    requires a != [] && b != []
    ensures Summary(a + b) == Merge(Summary(a), Summary(b))
  {
    var c := a + b;
    assert forall i | 0 <= i < |a| :: c[i] == a[i];
    assert forall i | 0 <= i < |b| :: c[|a| + i] == b[i];
    assert forall i | 0 <= i < |c| :: c[i] <= Max(Highest(a), Highest(b)) && Min(Lowest(a), Lowest(b)) <= c[i];
    var i, j, k, l := IndexOf(a, Highest(a)), IndexOf(b, Highest(b)), IndexOf(a, Lowest(a)), IndexOf(b, Lowest(b));
    assert c[i] == Highest(a) && c[|a| + j] == Highest(b) && c[k] == Lowest(a) && c[|a| + l] == Lowest(b);
    ExtremesAreUnique(c, Max(Highest(a), Highest(b)), Min(Lowest(a), Lowest(b)));
  }

  ghost function IndexOf(ps: seq<real>, p: real): (i: nat)
    requires p in ps
    ensures i < |ps| && ps[i] == p
  {
    var i: nat :| i < |ps| && ps[i] == p;
    i
  }

  lemma ExtremesAreUnique(ps: seq<real>, h: real, l: real)
    requires ps != [] && h in ps && l in ps
    requires forall i | 0 <= i < |ps| :: l <= ps[i] <= h
    ensures h == Highest(ps) && l == Lowest(ps)
  {
    var i, j := IndexOf(ps, h), IndexOf(ps, l);
    var k, m := IndexOf(ps, Highest(ps)), IndexOf(ps, Lowest(ps));
    assert ps[k] <= h && l <= ps[m] && ps[i] <= Highest(ps) && Lowest(ps) <= ps[j];
  }

  lemma MergeIsAssociative(a: Ohlc, b: Ohlc, c: Ohlc)
    ensures Merge(Merge(a, b), c) == Merge(a, Merge(b, c))
  {}

  /** A bar carried on by more prices, or opened by them. */
  function Grow(b: Option<Ohlc>, ps: seq<real>): (r: Ohlc)
    requires ps != []
    ensures r.ticks == (if b.Some? then b.value.ticks else 0) + |ps|
  {
    if b.Some? then Merge(b.value, Summary(ps)) else Summary(ps)
  }

  lemma GrowInTwoSteps(b: Option<Ohlc>, p: seq<real>, q: seq<real>)
    requires p != [] && q != []
    ensures Grow(Some(Grow(b, p)), q) == Grow(b, p + q)
  {
    MergeIsConcatenation(p, q);
    if b.Some? {
      MergeIsAssociative(b.value, Summary(p), Summary(q));
    }
  }

  // ----------------------------------------------------------------- returns

  /** One tick as the accumulator sees it: its price and the price before it, if any. */
  datatype Obs = Obs(price: real, prev: Option<real>)

  /** The log return of a tick, where there is a usable price before it. */
  function Return(ln: real -> real, o: Obs): Option<real> {
    if o.prev.Some? && o.prev.value > 0.0 && o.price > 0.0 then Some(ln(o.price / o.prev.value)) else None
  }

  function SumReturns(ln: real -> real, os: seq<Obs>): real {
    if os == [] then 0.0 else
      SumReturns(ln, os[..|os| - 1]) + (match Return(ln, os[|os| - 1]) case Some(r) => r case None => 0.0)
  }

  function SumSquares(ln: real -> real, os: seq<Obs>): real {
    if os == [] then 0.0 else
      SumSquares(ln, os[..|os| - 1]) + (match Return(ln, os[|os| - 1]) case Some(r) => r * r case None => 0.0)
  }

  lemma {:induction false} SumsAreAdditive(ln: real -> real, a: seq<Obs>, b: seq<Obs>)
    ensures SumReturns(ln, a + b) == SumReturns(ln, a) + SumReturns(ln, b)
    ensures SumSquares(ln, a + b) == SumSquares(ln, a) + SumSquares(ln, b)
  {
    if b == [] {
      assert a + b == a;
    } else {
      assert (a + b)[..|a + b| - 1] == a + b[..|b| - 1];
      SumsAreAdditive(ln, a, b[..|b| - 1]);
    }
  }

  // ------------------------------------------------------------ accumulators

  datatype Stats = Stats(px: Ohlc, sumRet: real, sumRetSq: real)

  function AddObs(ln: real -> real, s: Stats, o: Obs): Stats {
    match Return(ln, o)
    case Some(r) => Stats(AddPrice(s.px, o.price), s.sumRet + r, s.sumRetSq + r * r)
    case None => s.(px := AddPrice(s.px, o.price))
  }

  function StartStats(price: real): Stats { Stats(Start(price), 0.0, 0.0) }

  function MergeStats(a: Stats, b: Stats): Stats {
    Stats(Merge(a.px, b.px), a.sumRet + b.sumRet, a.sumRetSq + b.sumRetSq)
  }

  function Prices(os: seq<Obs>): seq<real> { seq(|os|, i requires 0 <= i < |os| => os[i].price) }

  /** The bar of a tick sequence, stated over the whole sequence at once. */
  function StatsOf(ln: real -> real, os: seq<Obs>): Stats
    requires os != []
  {
    Stats(Summary(Prices(os)), SumReturns(ln, os), SumSquares(ln, os))
  }

  lemma StatsOfOne(ln: real -> real, o: Obs)
    ensures StatsOf(ln, [o]) == AddObs(ln, StartStats(o.price), o)
  {
    assert Prices([o]) == [o.price];
    assert [o][..0] == [];
    assert SumReturns(ln, [o][..0]) == 0.0 && SumSquares(ln, [o][..0]) == 0.0;
  }

  lemma StatsOfSnoc(ln: real -> real, os: seq<Obs>, o: Obs)
    requires os != []
    ensures StatsOf(ln, os + [o]) == AddObs(ln, StatsOf(ln, os), o)
  {
    assert (os + [o])[..|os|] == os;
    assert Prices(os + [o]) == Prices(os) + [o.price];
    SummaryOfSnoc(Prices(os), o.price);
  }

  lemma StatsMergeIsConcatenation(ln: real -> real, a: seq<Obs>, b: seq<Obs>)
    requires a != [] && b != []
    ensures StatsOf(ln, a + b) == MergeStats(StatsOf(ln, a), StatsOf(ln, b))
  {
    assert Prices(a + b) == Prices(a) + Prices(b);
    MergeIsConcatenation(Prices(a), Prices(b));
    SumsAreAdditive(ln, a, b);
  }

  /** A bucket's bar once no more ticks can join it. */
  datatype Sealed = Sealed(bucket: int, stats: Stats)

  // ----------------------------------------------------------------- buckets

  /** Seconds of an instant given in microseconds, truncated toward zero as an int() cast does. */
  function EpochSeconds(us: int): (s: int)
    ensures us >= 0 ==> s * 1_000_000 <= us < (s + 1) * 1_000_000
    ensures us < 0 ==> (s - 1) * 1_000_000 < us <= s * 1_000_000
  {
    if us >= 0 then us / 1_000_000 else -(-us / 1_000_000)
  }

  /** The bucket boundary at or below an instant; the modulus is floored, as in the source language. */
  function FloorToBucket(us: int, width: int): (b: int)
    requires width > 0
    ensures b <= EpochSeconds(us) < b + width && b % width == 0
  {
    FloorToIsMultiple(EpochSeconds(us), width);
    FloorTo(EpochSeconds(us), width)
  }

  /** One bucket in progress, changed in place by every tick and sealed into a bar. */
  class BucketAccumulator {
    const bucket: int
    const open: real
    var high: real
    var low: real
    var close: real
    var tickCount: nat
    var sumRet: real
    var sumRetSq: real

    function Bar(): Stats
      reads this
    {
      Stats(Ohlc(open, high, low, close, tickCount), sumRet, sumRetSq)
    }

    constructor Start(us: int, price: real, width: int)
      requires width > 0
      ensures bucket == FloorToBucket(us, width) && Bar() == StartStats(price)
    {
      bucket := FloorToBucket(us, width);
      open := price;
      high, low, close := price, price, price;
      tickCount, sumRet, sumRetSq := 0, 0.0, 0.0;
    }

    /** Fold one tick in. */
    method Add(ln: real -> real, price: real, prev: Option<real>)
      modifies this
      ensures Bar() == AddObs(ln, old(Bar()), Obs(price, prev))
    {
      high := Max(high, price);
      low := Min(low, price);
      close := price;
      tickCount := tickCount + 1;
      if prev.Some? && prev.value > 0.0 && price > 0.0 {
        var r := ln(price / prev.value);
        sumRet := sumRet + r;
        sumRetSq := sumRetSq + r * r;
      }
    }
  }
}
