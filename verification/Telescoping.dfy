/**
  What a bar's return sums mean. With any function that obeys the law of the
  logarithm, the returns of ticks measured one from the other add up to the change
  of the logarithm from end to end: of a run of prices, of a minute, and from the
  close of one stored or sealed bar to the close of the next.
 */
module Telescoping {
  import opened Bars
  import opened BarsTable
  import opened FeedParity
  import opened TickLog
  import opened WorkerMemory
  import opened Wrappers

  ghost predicate LogLaw(ln: real -> real) { forall x, y | x > 0.0 && y > 0.0 :: ln(x * y) == ln(x) + ln(y) }

  lemma LogOfQuotient(ln: real -> real, x: real, y: real)
    requires LogLaw(ln) && x > 0.0 && y > 0.0
    ensures ln(x / y) == ln(x) - ln(y)
  {
    Quotient(x, y);
    assert ln(x / y * y) == ln(x / y) + ln(y);
  }

  lemma Quotient(x: real, y: real)
    requires x > 0.0 && y > 0.0
    ensures x / y > 0.0 && x / y * y == x
  {}

  lemma LogOfOne(ln: real -> real)
    requires LogLaw(ln)
    ensures ln(1.0) == 0.0
  {
    assert ln(1.0 * 1.0) == ln(1.0) + ln(1.0);
  }

  // ------------------------------------------------------------ a run of prices

  /** Ticks at positive prices, each but the first measured from the one before it. */
  predicate Chained(os: seq<Obs>) {
    && (forall i | 0 <= i < |os| :: os[i].price > 0.0)
    && (forall i | 0 < i < |os| :: os[i].prev == Some(os[i - 1].price))
  }

  /** The price the first tick is measured from; its own when there is none. */
  function From(os: seq<Obs>): real
    requires os != []
  {
    if os[0].prev.Some? then os[0].prev.value else os[0].price
  }

  /** The squared changes of the logarithm from each price to the next. */
  function SquaredSteps(ln: real -> real, ps: seq<real>): real {
    if |ps| < 2 then 0.0 else
      var d := ln(ps[|ps| - 1]) - ln(ps[|ps| - 2]);
      SquaredSteps(ln, ps[..|ps| - 1]) + d * d
  }

  lemma OneReturn(ln: real -> real, o: Obs)
    requires LogLaw(ln) && o.price > 0.0 && (o.prev.Some? ==> o.prev.value > 0.0)
    ensures Return(ln, o) == if o.prev.Some? then Some(ln(o.price) - ln(o.prev.value)) else None
  {
    if o.prev.Some? {
      LogOfQuotient(ln, o.price, o.prev.value);
    }
  }

  lemma ChainedFront(os: seq<Obs>)
    requires os != [] && Chained(os)
    ensures var front, o := os[..|os| - 1], os[|os| - 1];
      && o.price > 0.0 && Chained(front)
      && (if front == [] then o == os[0] else front[0] == os[0] && front[|front| - 1].price > 0.0 && o.prev == Some(front[|front| - 1].price))
  {
    assert |os| > 1 ==> os[|os| - 1].prev == Some(os[|os| - 2].price);
  }

  /** The returns of a run add up to the change of the logarithm over it, and their squares to those of its steps. */
  lemma {:induction false} SumsTelescope(ln: real -> real, os: seq<Obs>)
    requires LogLaw(ln) && os != [] && Chained(os) && From(os) > 0.0
    ensures SumReturns(ln, os) == ln(os[|os| - 1].price) - ln(From(os))
    ensures SumSquares(ln, os) == SquaredSteps(ln, [From(os)] + Prices(os))
  {
    hide LogLaw, Return, Chained;
    ChainedFront(os);
    var front, o := os[..|os| - 1], os[|os| - 1];
    OneReturn(ln, o);
    var ps := [From(os)] + Prices(os);
    assert ps[|ps| - 1] == o.price;
    if front == [] {
      assert ps == [From(os), o.price] && ps[..1] == [From(os)];
      assert SumReturns(ln, front) == 0.0 && SumSquares(ln, front) == 0.0;
    } else {
      SumsTelescope(ln, front);
      assert ps[..|ps| - 1] == [From(front)] + Prices(front);
      assert ps[|ps| - 2] == front[|front| - 1].price;
    }
  }

  /** A price repeated adds nothing to either sum. */
  lemma RepeatedPriceAddsNothing(ln: real -> real, os: seq<Obs>, p: real)
    requires LogLaw(ln) && p > 0.0
    ensures SumReturns(ln, os + [Obs(p, Some(p))]) == SumReturns(ln, os)
    ensures SumSquares(ln, os + [Obs(p, Some(p))]) == SumSquares(ln, os)
  {
    var os' := os + [Obs(p, Some(p))];
    assert os'[..|os|] == os;
    LogOfQuotient(ln, p, p);
  }

  function Times(c: real, x: real): real { c * x }

  function ScaledObs(o: Obs, c: real): Obs {
    match o.prev
    case None => Obs(Times(c, o.price), None)
    case Some(y) => Obs(Times(c, o.price), Some(Times(c, y)))
  }

  function Scaled(os: seq<Obs>, c: real): seq<Obs> {
    if os == [] then [] else Scaled(os[..|os| - 1], c) + [ScaledObs(os[|os| - 1], c)]
  }

  /** Quoted in another unit, every price so many times as large, the sums are the same: whatever the logarithm is. */
  lemma {:induction false} SumsHaveNoUnit(ln: real -> real, os: seq<Obs>, c: real)
    requires c > 0.0
    ensures SumReturns(ln, Scaled(os, c)) == SumReturns(ln, os) && SumSquares(ln, Scaled(os, c)) == SumSquares(ln, os)
  {
    if os != [] {
      var front, o := os[..|os| - 1], os[|os| - 1];
      SumsHaveNoUnit(ln, front, c);
      assert (Scaled(front, c) + [ScaledObs(o, c)])[..|Scaled(front, c)|] == Scaled(front, c);
      ScaledReturn(ln, o, c);
      hide Return, ScaledObs;
    }
  }

  lemma ScaledReturn(ln: real -> real, o: Obs, c: real)
    requires c > 0.0
    ensures Return(ln, ScaledObs(o, c)) == Return(ln, o)
  {
    hide Times, Return;
    match o.prev
    case None =>
      NoReturn(ln, o.price, Times(c, o.price));
    case Some(y) =>
      ScaledPair(ln, o.price, y, c);
  }

  lemma NoReturn(ln: real -> real, x: real, y: real)
    ensures Return(ln, Obs(x, None)) == Return(ln, Obs(y, None)) == None
  {}

  lemma ScaledPair(ln: real -> real, x: real, y: real, c: real)
    requires c > 0.0
    ensures Return(ln, Obs(Times(c, x), Some(Times(c, y)))) == Return(ln, Obs(x, Some(y)))
  {
    SignStays(c, x);
    SignStays(c, y);
    hide Times;
    if y > 0.0 {
      SameQuotient(c, x, y);
    }
  }

  lemma SignStays(c: real, x: real)
    requires c > 0.0
    ensures Times(c, x) > 0.0 <==> x > 0.0
  {}

  lemma DividesBack(n: real, d: real, q: real)
    requires d > 0.0 && q * d == n
    ensures n / d == q
  {}

  lemma SameQuotient(c: real, x: real, y: real)
    requires c > 0.0 && y > 0.0
    ensures Times(c, x) / Times(c, y) == x / y
  {
    var q, d := x / y, c * y;
    assert q * y == x;
    assert q * d == c * x by { assert q * d == c * (q * y); }
    SignStays(c, y);
    DividesBack(c * x, d, q);
  }

  // ------------------------------------------------------------------- a minute

  /** Every price of the symbol is positive. */
  ghost predicate PositivePrices(es: seq<Entry>, symbol: string) {
    forall i | 0 <= i < |es| && es[i].fields.Some? && es[i].fields.value.symbol == symbol :: Mid(es[i].fields.value) > 0.0
  }

  lemma {:induction false} LastIsObserved(cfg: Config, es: seq<Entry>, symbol: string)
    requires cfg.width > 0 && LastTick(es, symbol).Some?
    ensures var u := LastTick(es, symbol).value;
      var os := ObsAt(cfg, es, KeyOf(u, cfg.width));
      u.symbol == symbol && os != [] && os[|os| - 1].price == Mid(u)
  {
    hide KeyOf, Mid, PriceBefore;
    var front, e := es[..|es| - 1], es[|es| - 1];
    if e.fields.Some? && e.fields.value.symbol == symbol {
    } else {
      LastIsObserved(cfg, front, symbol);
      var k := KeyOf(LastTick(front, symbol).value, cfg.width);
      KeyHasSymbol(LastTick(front, symbol).value, cfg.width);
      NotHit(e, k, cfg.width);
      assert ObsAt(cfg, front, k) + [] == ObsAt(cfg, front, k);
    }
  }

  lemma KeyHasSymbol(t: Tick, width: int)
    requires width > 0
    ensures KeyOf(t, width).symbol == t.symbol
  {}

  lemma NotHit(e: Entry, k: Key, width: int)
    requires width > 0 && (e.fields.Some? ==> e.fields.value.symbol != k.symbol)
    ensures !Hits(e, k, width)
  {}

  /** The symbol's latest tick is not in a later minute than the next, nor in an earlier one than any so far. */
  lemma LastTickStands(cfg: Config, es: seq<Entry>, e: Entry, provider: string)
    requires cfg.width > 0 && InOrder(cfg, es + [e], provider) && e.fields.Some?
    ensures var symbol, b := e.fields.value.symbol, KeyOf(e.fields.value, cfg.width).bucket;
      var last := LastTick(es, symbol);
      && InOrder(cfg, es, provider)
      && (last.None? ==> forall x :: Minute(cfg, es, Key(symbol, x)).None?)
      && (last.Some? ==> KeyOf(last.value, cfg.width).bucket <= b && Minute(cfg, es, KeyOf(last.value, cfg.width)).Some?)
      && (forall x | Minute(cfg, es, Key(symbol, x)).Some? :: last.Some? && x <= KeyOf(last.value, cfg.width).bucket)
  {
    hide Minute, KeyOf;
    var all := es + [e];
    assert forall i | 0 <= i < |es| :: all[i] == es[i];
    assert all[|es|] == e;
    var symbol := e.fields.value.symbol;
    LastTickIsLatest(cfg, es, symbol, provider);
    if LastTick(es, symbol).Some? {
      LastTickOccurs(es, symbol);
    }
  }

  /**
    The ticks of a minute, in order: each is measured from the one before, and the
    first from the close of the symbol's minute before it, if there is one not too
    far back.
   */
  ghost predicate MinuteIsChained(cfg: Config, es: seq<Entry>, k: Key)
    requires cfg.width > 0
  {
    var os := ObsAt(cfg, es, k);
    && (forall i | 0 < i < |os| :: os[i].prev == Some(os[i - 1].price))
    && (os != [] ==>
          (forall x | Follows(cfg, es, k, x) ::
             os[0].prev == if k.bucket - x > cfg.width * GAP_BAR_MULTIPLE then None
                           else Some(Minute(cfg, es, Key(k.symbol, x)).value.px.close)))
    && (os != [] && (forall x | Minute(cfg, es, Key(k.symbol, x)).Some? :: x >= k.bucket) ==> os[0].prev == None)
  }

  /** Minute `x` is the symbol's last one with a tick before minute `k`. */
  ghost predicate Follows(cfg: Config, es: seq<Entry>, k: Key, x: int)
    requires cfg.width > 0
  {
    && x < k.bucket && Minute(cfg, es, Key(k.symbol, x)).Some?
    && forall y | x < y < k.bucket :: Minute(cfg, es, Key(k.symbol, y)).None?
  }

  lemma ObsSnoc(cfg: Config, es: seq<Entry>, e: Entry, k: Key)
    requires cfg.width > 0
    ensures ObsAt(cfg, es + [e], k) == if !Hits(e, k, cfg.width) then ObsAt(cfg, es, k) else
      ObsAt(cfg, es, k) + [Obs(Mid(e.fields.value), PriceBefore(cfg, es, e.fields.value))]
  {
    assert (es + [e])[..|es|] == es;
    assert ObsAt(cfg, es, k) + [] == ObsAt(cfg, es, k);
  }

  lemma MinuteIs(cfg: Config, es: seq<Entry>, k: Key)
    requires cfg.width > 0
    ensures Minute(cfg, es, k).None? <==> ObsAt(cfg, es, k) == []
    ensures var os := ObsAt(cfg, es, k); os != [] ==>
      var s := Minute(cfg, es, k).value;
      s.px.close == os[|os| - 1].price && s.px.open == os[0].price && s.sumRet == SumReturns(cfg.ln, os) && s.sumRetSq == SumSquares(cfg.ln, os)
  {}

  /** A tick leaves the minutes of its symbol before its own as they were, and every minute of any other symbol. */
  lemma EarlierMinutesStay(cfg: Config, es: seq<Entry>, e: Entry, symbol: string, x: int)
    requires cfg.width > 0 && !Hits(e, Key(symbol, x), cfg.width)
    ensures Minute(cfg, es + [e], Key(symbol, x)) == Minute(cfg, es, Key(symbol, x))
  {
    MinuteTakesOne(cfg, es, e, Key(symbol, x));
  }

  /** The minute is not the tick's: if it has ticks, the new one is of a later minute, or of another symbol. */
  lemma OtherTick(cfg: Config, es: seq<Entry>, e: Entry, k: Key, provider: string)
    requires cfg.width > 0 && InOrder(cfg, es + [e], provider) && !Hits(e, k, cfg.width) && MinuteIsChained(cfg, es, k)
    ensures MinuteIsChained(cfg, es + [e], k)
  {
    hide ObsAt, Minute, KeyOf;
    var es' := es + [e];
    ObsSnoc(cfg, es, e, k);
    MinuteIs(cfg, es, k);
    assert k == Key(k.symbol, k.bucket);
    if ObsAt(cfg, es, k) != [] {
      if e.fields.Some? && e.fields.value.symbol == k.symbol {
        LastTickStands(cfg, es, e, provider);
        KeyHasSymbol(e.fields.value, cfg.width);
      }
      forall x | x < k.bucket
        ensures Minute(cfg, es', Key(k.symbol, x)) == Minute(cfg, es, Key(k.symbol, x))
      {
        HitsMeans(e, Key(k.symbol, x), cfg.width);
        HitsMeans(e, k, cfg.width);
        EarlierMinutesStay(cfg, es, e, k.symbol, x);
      }
      SameFront(cfg, es, es', k);
    }
  }

  lemma HitsMeans(e: Entry, k: Key, width: int)
    requires width > 0
    ensures Hits(e, k, width) <==>
      e.fields.Some? && e.fields.value.symbol == k.symbol && KeyOf(e.fields.value, width).bucket == k.bucket
  {}

  /** With the same ticks in the minute and the same minutes before it, the minute is still chained. */
  lemma SameFront(cfg: Config, es: seq<Entry>, es': seq<Entry>, k: Key)
    requires cfg.width > 0 && MinuteIsChained(cfg, es, k)
    requires ObsAt(cfg, es, k) != [] && ObsAt(cfg, es', k) == ObsAt(cfg, es, k)
    requires forall x | x < k.bucket :: Minute(cfg, es', Key(k.symbol, x)) == Minute(cfg, es, Key(k.symbol, x))
    ensures MinuteIsChained(cfg, es', k)
  {
    hide ObsAt, Minute;
    var os := ObsAt(cfg, es, k);
    forall x | Follows(cfg, es', k, x)
      ensures os[0].prev == if k.bucket - x > cfg.width * GAP_BAR_MULTIPLE then None
                            else Some(Minute(cfg, es', Key(k.symbol, x)).value.px.close)
    {
      assert Follows(cfg, es, k, x);
    }
    if forall x | Minute(cfg, es', Key(k.symbol, x)).Some? :: x >= k.bucket {
      forall x | Minute(cfg, es, Key(k.symbol, x)).Some?
        ensures x >= k.bucket
      {}
    }
  }

  /** One more tick of a minute that has some: it is measured from the last of them. */
  lemma NextTick(cfg: Config, es: seq<Entry>, e: Entry, k: Key, provider: string)
    requires cfg.width > 0 && InOrder(cfg, es + [e], provider) && Hits(e, k, cfg.width) && MinuteIsChained(cfg, es, k)
    requires ObsAt(cfg, es, k) != []
    ensures MinuteIsChained(cfg, es + [e], k)
  {
    hide ObsAt, Minute, KeyOf, MinuteIsChained;
    var es', os := es + [e], ObsAt(cfg, es, k);
    HitsMeans(e, k, cfg.width);
    assert k == Key(k.symbol, k.bucket);
    ObsSnoc(cfg, es, e, k);
    MinuteIs(cfg, es, k);
    LastTickStands(cfg, es, e, provider);
    var last := LastTick(es, k.symbol);
    LastIsObserved(cfg, es, k.symbol);
    KeyHasSymbol(last.value, cfg.width);
    assert KeyOf(last.value, cfg.width) == k;
    assert PriceBefore(cfg, es, e.fields.value) == Some(os[|os| - 1].price);
    forall x | x < k.bucket
      ensures Minute(cfg, es', Key(k.symbol, x)) == Minute(cfg, es, Key(k.symbol, x))
    {
      HitsMeans(e, Key(k.symbol, x), cfg.width);
      EarlierMinutesStay(cfg, es, e, k.symbol, x);
    }
    GrownFront(cfg, es, es', k);
  }

  lemma GrownFront(cfg: Config, es: seq<Entry>, es': seq<Entry>, k: Key)
    requires cfg.width > 0 && MinuteIsChained(cfg, es, k)
    requires var os, os' := ObsAt(cfg, es, k), ObsAt(cfg, es', k);
      os != [] && |os'| == |os| + 1 && os'[..|os|] == os && os'[|os|].prev == Some(os[|os| - 1].price)
    requires forall x | x < k.bucket :: Minute(cfg, es', Key(k.symbol, x)) == Minute(cfg, es, Key(k.symbol, x))
    ensures MinuteIsChained(cfg, es', k)
  {
    hide ObsAt, Minute;
    var os, os' := ObsAt(cfg, es, k), ObsAt(cfg, es', k);
    assert forall i | 0 <= i < |os| :: os'[i] == os'[..|os|][i] == os[i];
    forall x | Follows(cfg, es', k, x)
      ensures os'[0].prev == if k.bucket - x > cfg.width * GAP_BAR_MULTIPLE then None
                             else Some(Minute(cfg, es', Key(k.symbol, x)).value.px.close)
    {
      assert Follows(cfg, es, k, x);
    }
    if forall x | Minute(cfg, es', Key(k.symbol, x)).Some? :: x >= k.bucket {
      forall x | Minute(cfg, es, Key(k.symbol, x)).Some?
        ensures x >= k.bucket
      {}
    }
  }

  /** The first tick of a minute: it is measured from the close of the symbol's minute before. */
  lemma FirstTick(cfg: Config, es: seq<Entry>, e: Entry, k: Key, provider: string)
    requires cfg.width > 0 && InOrder(cfg, es + [e], provider) && Hits(e, k, cfg.width) && ObsAt(cfg, es, k) == []
    ensures MinuteIsChained(cfg, es + [e], k)
  {
    hide ObsAt, Minute, KeyOf, Hits, InOrder, LastTick, Mid;
    var es' := es + [e];
    HitsMeans(e, k, cfg.width);
    assert k == Key(k.symbol, k.bucket);
    ObsSnoc(cfg, es, e, k);
    MinuteIs(cfg, es, k);
    LastTickStands(cfg, es, e, provider);
    var last := LastTick(es, k.symbol);
    forall x | x < k.bucket
      ensures Minute(cfg, es', Key(k.symbol, x)) == Minute(cfg, es, Key(k.symbol, x))
    {
      HitsMeans(e, Key(k.symbol, x), cfg.width);
      EarlierMinutesStay(cfg, es, e, k.symbol, x);
    }
    if last.Some? {
      LastIsObserved(cfg, es, k.symbol);
      KeyHasSymbol(last.value, cfg.width);
      MinuteIs(cfg, es, KeyOf(last.value, cfg.width));
      assert KeyOf(last.value, cfg.width) == Key(k.symbol, KeyOf(last.value, cfg.width).bucket);
    }
  }

  lemma {:induction false} MinutesAreChained(cfg: Config, es: seq<Entry>, k: Key, provider: string)
    requires cfg.width > 0 && InOrder(cfg, es, provider)
    ensures MinuteIsChained(cfg, es, k)
  {
    if es != [] {
      hide ObsAt, Minute, KeyOf, MinuteIsChained;
      var front, e := es[..|es| - 1], es[|es| - 1];
      assert front + [e] == es;
      assert InOrder(cfg, front, provider);
      MinutesAreChained(cfg, front, k, provider);
      if !Hits(e, k, cfg.width) {
        OtherTick(cfg, front, e, k, provider);
      } else if ObsAt(cfg, front, k) != [] {
        NextTick(cfg, front, e, k, provider);
      } else {
        FirstTick(cfg, front, e, k, provider);
      }
    }
  }

  lemma {:induction false} ObservedPricesArePositive(cfg: Config, es: seq<Entry>, k: Key)
    requires cfg.width > 0 && PositivePrices(es, k.symbol)
    ensures forall i | 0 <= i < |ObsAt(cfg, es, k)| :: ObsAt(cfg, es, k)[i].price > 0.0
  {
    if es != [] {
      hide KeyOf, PriceBefore, Mid;
      var front, e := es[..|es| - 1], es[|es| - 1];
      assert forall i | 0 <= i < |front| :: front[i] == es[i];
      ObservedPricesArePositive(cfg, front, k);
      HitsMeans(e, k, cfg.width);
      ObsSnoc(cfg, front, e, k);
      assert front + [e] == es;
    }
  }

  /** Minute `x` comes just before `k`, without a gap between, and closes at `p`. */
  ghost predicate IsCloseBefore(cfg: Config, es: seq<Entry>, k: Key, x: int, p: real)
    requires cfg.width > 0
  {
    Follows(cfg, es, k, x) && k.bucket - x <= cfg.width * GAP_BAR_MULTIPLE && p == Minute(cfg, es, Key(k.symbol, x)).value.px.close
  }

  /** Where a minute's returns are measured from: the close of the minute before it, or its own open after a gap and at first. */
  ghost predicate MeasuredFrom(cfg: Config, es: seq<Entry>, k: Key, p: real)
    requires cfg.width > 0 && Minute(cfg, es, k).Some?
  {
    || (exists x :: IsCloseBefore(cfg, es, k, x, p))
    || (p == Minute(cfg, es, k).value.px.open &&
          ((exists x :: Follows(cfg, es, k, x) && k.bucket - x > cfg.width * GAP_BAR_MULTIPLE) ||
           forall x | Minute(cfg, es, Key(k.symbol, x)).Some? :: x >= k.bucket))
  }

  /** The returns of a minute add up to the change of the logarithm from where they are measured to its close. */
  lemma MinuteTelescopes(cfg: Config, es: seq<Entry>, k: Key, provider: string, p: real)
    requires cfg.width > 0 && LogLaw(cfg.ln) && InOrder(cfg, es, provider) && PositivePrices(es, k.symbol)
    requires Minute(cfg, es, k).Some? && MeasuredFrom(cfg, es, k, p)
    ensures var s := Minute(cfg, es, k).value; s.sumRet == cfg.ln(s.px.close) - cfg.ln(p)
  {
    hide ObsAt, Minute, LogLaw, PositivePrices, InOrder, Follows;
    var os := ObsAt(cfg, es, k);
    MinuteIs(cfg, es, k);
    MinutesAreChained(cfg, es, k, provider);
    ObservedPricesArePositive(cfg, es, k);
    if x :| IsCloseBefore(cfg, es, k, x, p) {
      FollowsIsSome(cfg, es, k, x);
      MinuteIs(cfg, es, Key(k.symbol, x));
      ObservedPricesArePositive(cfg, es, Key(k.symbol, x));
      assert From(os) == p;
    } else {
      assert os[0].prev == None;
      assert From(os) == p;
    }
    SumsTelescope(cfg.ln, os);
  }

  lemma FollowsIsSome(cfg: Config, es: seq<Entry>, k: Key, x: int)
    requires cfg.width > 0 && Follows(cfg, es, k, x)
    ensures Minute(cfg, es, Key(k.symbol, x)).Some?
  {}

  /** Row `x` is the symbol's last one before row `k`. */
  ghost predicate RowBefore(rows: map<Key, Row>, k: Key, x: int) {
    x < k.bucket && Key(k.symbol, x) in rows && forall y | x < y < k.bucket :: Key(k.symbol, y) !in rows
  }

  /**
    Of stored rows: however the worker cut its flushes, the return sum of a row is the
    change of the logarithm from the close of the symbol's row before it to its own
    close; after a gap, from its open.
   */
  lemma StoredReturnsTelescope(cfg: Config, ops: seq<Op>, provider: string, k: Key, x: int)
    requires cfg.width > 0 && Ordered(Taken(ops)) && InOrder(cfg, Taken(ops), provider)
    requires LogLaw(cfg.ln) && PositivePrices(Taken(ops), k.symbol)
    requires k in Work(cfg, ops + [Flush]).rows && RowBefore(Work(cfg, ops + [Flush]).rows, k, x)
    ensures var rows := Work(cfg, ops + [Flush]).rows;
      var s, before := rows[k].stats, rows[Key(k.symbol, x)].stats;
      s.sumRet == cfg.ln(s.px.close) -
        cfg.ln(if k.bucket - x <= cfg.width * GAP_BAR_MULTIPLE then before.px.close else s.px.open)
  {
    hide Work, Taken, Minute, LogLaw, PositivePrices, InOrder, Ordered;
    var es, rows := Taken(ops), Work(cfg, ops + [Flush]).rows;
    FlushedRowsAreMinutes(cfg, ops, provider);
    assert Lookup(rows, k).Some? && Lookup(rows, Key(k.symbol, x)).Some?;
    forall y | x < y < k.bucket ensures Minute(cfg, es, Key(k.symbol, y)).None? {
      assert Lookup(rows, Key(k.symbol, y)).None?;
    }
    assert Follows(cfg, es, k, x);
    var p := if k.bucket - x <= cfg.width * GAP_BAR_MULTIPLE then rows[Key(k.symbol, x)].stats.px.close else rows[k].stats.px.open;
    assert Follows(cfg, es, k, x) && k.bucket - x <= cfg.width * GAP_BAR_MULTIPLE ==> IsCloseBefore(cfg, es, k, x, p);
    MinuteIs(cfg, es, k);
    assert MeasuredFrom(cfg, es, k, p);
    MinuteTelescopes(cfg, es, k, provider, p);
  }

  /** Of sealed bars, one after the other: the same. */
  lemma SealedReturnsTelescope(cfg: Config, symbol: string, es: seq<Entry>, provider: string, i: nat)
    requires cfg.width > 0 && InOrder(cfg, es, provider) && LogLaw(cfg.ln) && PositivePrices(es, symbol)
    requires 0 < i < |Ingestor(cfg, symbol, es).1|
    ensures var bars := Ingestor(cfg, symbol, es).1;
      var s, before := bars[i].stats, bars[i - 1].stats;
      s.sumRet == cfg.ln(s.px.close) -
        cfg.ln(if bars[i].bucket - bars[i - 1].bucket <= cfg.width * GAP_BAR_MULTIPLE then before.px.close else s.px.open)
  {
    hide Minute, LogLaw, PositivePrices, InOrder, Ingestor;
    IngestorFollows(cfg, symbol, es, provider);
    var bars := Ingestor(cfg, symbol, es).1;
    var k, x := Key(symbol, bars[i].bucket), bars[i - 1].bucket;
    forall y | x < y < k.bucket ensures Minute(cfg, es, Key(symbol, y)).None? {
      if Minute(cfg, es, Key(symbol, y)).Some? {
        var j :| 0 <= j < |bars| && bars[j].bucket == y;
        assert false;
      }
    }
    assert Follows(cfg, es, k, x);
    var p := if k.bucket - x <= cfg.width * GAP_BAR_MULTIPLE then bars[i - 1].stats.px.close else bars[i].stats.px.open;
    assert Follows(cfg, es, k, x) && k.bucket - x <= cfg.width * GAP_BAR_MULTIPLE ==> IsCloseBefore(cfg, es, k, x, p);
    MinuteIs(cfg, es, k);
    assert MeasuredFrom(cfg, es, k, p);
    MinuteTelescopes(cfg, es, k, provider, p);
  }

  // ------------------------------------------------------------ feeds and gaps

  /** The worker remembers each symbol's last tick, whichever feed it came from. */
  ghost predicate RemembersLast(cfg: Config, m: Memory, es: seq<Entry>, s: string)
    requires cfg.width > 0
  {
    var last := LastTick(es, s);
    FeedParity.Remembers(cfg, m, s, last, if last.Some? then last.value.provider else "")
  }

  lemma {:induction false} WorkRemembers(cfg: Config, ops: seq<Op>, s: string)
    requires cfg.width > 0
    ensures RemembersLast(cfg, Work(cfg, ops).mem, Taken(ops), s)
  {
    if ops != [] {
      hide KeyOf, Mid, AddObs, Upsert;
      WorkRemembers(cfg, ops[..|ops| - 1], s);
      if ops[|ops| - 1].Take? {
        var es, e := Taken(ops[..|ops| - 1]), ops[|ops| - 1].entry;
        assert (es + [e])[..|es|] == es;
      } else {
        assert Taken(ops[..|ops| - 1]) + [] == Taken(ops[..|ops| - 1]);
      }
    }
  }

  /**
    Whatever feeds the ticks come from, in whatever order, and however they are cut
    into flushes: a tick is measured from the symbol's last one, if that came from the
    same feed and from no more than three minutes back; otherwise from nothing.
   */
  lemma ReturnsStayWithinAFeed(cfg: Config, ops: seq<Op>, t: Tick)
    requires cfg.width > 0
    ensures var last := LastTick(Taken(ops), t.symbol);
      PreviousPrice(cfg, Work(cfg, ops).mem, t) ==
        if last.Some? && last.value.provider == t.provider &&
           KeyOf(t, cfg.width).bucket - KeyOf(last.value, cfg.width).bucket <= 3 * cfg.width
        then Some(Mid(last.value)) else None
  {
    hide Work, Taken, KeyOf, Mid;
    WorkRemembers(cfg, ops, t.symbol);
  }

  /** A restart forgets every price: the first tick of a symbol after it is measured from nothing, whatever was in memory. */
  lemma NothingMeasuredAcrossARestart(cfg: Config, m: Memory, t: Tick)
    requires cfg.width > 0
    ensures PreviousPrice(cfg, Restarted(m), t) == None
    ensures PreviousPrice(cfg, Flushed(m), t) == PreviousPrice(cfg, m, t)
  {}
}
