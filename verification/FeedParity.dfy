/**
  Two routes to one minute: the ingestor seals a bar when the next minute's first
  tick arrives, the worker rebuilds it from the log across any number of flushes.
  For in-order ticks of one feed with no restart, both come to the same bar in
  every field, the two return sums included.
 */
module FeedParity {
  import opened Bars
  import opened BarsTable
  import opened TickLog
  import opened WorkerMemory
  import opened Wrappers

  // ------------------------------------------------------------ the ingestor

  /** One symbol's bar in progress and the price its next return is measured from. */
  datatype Feed = Feed(bar: Option<Sealed>, lastPrice: Option<real>)

  const COLD := Feed(None, None)

  function HandleTick(cfg: Config, f: Feed, t: Tick): (Feed, Option<Sealed>)
    requires cfg.width > 0
  {
    var b, mid := KeyOf(t, cfg.width).bucket, Mid(t);
    if f.bar.None? then
      (Feed(Some(Sealed(b, AddObs(cfg.ln, StartStats(mid), Obs(mid, f.lastPrice)))), Some(mid)), None)
    else if b > f.bar.value.bucket then
      var prev := if b - f.bar.value.bucket > cfg.width * GAP_BAR_MULTIPLE then None else f.lastPrice;
      (Feed(Some(Sealed(b, AddObs(cfg.ln, StartStats(mid), Obs(mid, prev)))), Some(mid)), f.bar)
    else
      (Feed(Some(f.bar.value.(stats := AddObs(cfg.ln, f.bar.value.stats, Obs(mid, f.lastPrice)))), Some(mid)), None)
  }

  /** The ingestor's per-symbol state, its accumulator replaced at every minute boundary. */
  class SymbolState {
    const cfg: Config
    var bucket: BucketAccumulator?
    var lastPrice: Option<real>

    constructor (cfg: Config)
      ensures this.cfg == cfg && State() == COLD
    {
      this.cfg, bucket, lastPrice := cfg, null, None;
    }

    function State(): Feed
      reads this, bucket
    {
      Feed(if bucket == null then None else Some(Sealed(bucket.bucket, bucket.Bar())), lastPrice)
    }

    /** One tick: seal the bar it closes, open the one it starts, fold it in. */
    method Handle(t: Tick) returns (closed: Option<Sealed>)
      requires cfg.width > 0
      modifies this, bucket
      ensures (State(), closed) == HandleTick(cfg, old(State()), t)
      ensures bucket != null && (bucket == old(bucket) || fresh(bucket))
    {
      var mid, start := Mid(t), FloorToBucket(t.us, cfg.width);
      closed := None;
      if bucket == null {
        bucket := new BucketAccumulator.Start(t.us, mid, cfg.width);
      } else if start > bucket.bucket {
        closed := Some(Sealed(bucket.bucket, bucket.Bar()));
        if start - bucket.bucket > cfg.width * GAP_BAR_MULTIPLE {
          lastPrice := None;
        }
        bucket := new BucketAccumulator.Start(t.us, mid, cfg.width);
      }
      bucket.Add(cfg.ln, mid, lastPrice);
      lastPrice := Some(mid);
    }
  }

  /** Every tick of one symbol in a log, and the bars sealed on the way. */
  function Ingestor(cfg: Config, symbol: string, es: seq<Entry>): (Feed, seq<Sealed>)
    requires cfg.width > 0
  {
    if es == [] then (COLD, []) else
      var (f, bars) := Ingestor(cfg, symbol, es[..|es| - 1]);
      var e := es[|es| - 1];
      if e.fields.None? || e.fields.value.symbol != symbol then (f, bars) else
        var (f', closed) := HandleTick(cfg, f, e.fields.value);
        (f', if closed.Some? then bars + [closed.value] else bars)
  }

  // --------------------------------------------------------------- reference

  /** The latest tick of a symbol. */
  function LastTick(es: seq<Entry>, symbol: string): Option<Tick> {
    if es == [] then None
    else if es[|es| - 1].fields.Some? && es[|es| - 1].fields.value.symbol == symbol then es[|es| - 1].fields
    else LastTick(es[..|es| - 1], symbol)
  }

  /** The price a tick's return is measured from: the symbol's previous tick, unless a gap lies between. */
  function PriceBefore(cfg: Config, es: seq<Entry>, t: Tick): Option<real>
    requires cfg.width > 0
  {
    match LastTick(es, t.symbol)
    case None => None
    case Some(u) =>
      if KeyOf(t, cfg.width).bucket - KeyOf(u, cfg.width).bucket > cfg.width * GAP_BAR_MULTIPLE then None
      else Some(Mid(u))
  }

  /** What one minute observed, each tick beside the price before it. */
  function ObsAt(cfg: Config, es: seq<Entry>, k: Key): seq<Obs>
    requires cfg.width > 0
  {
    if es == [] then [] else
      var init, e := es[..|es| - 1], es[|es| - 1];
      ObsAt(cfg, init, k) +
        (if Hits(e, k, cfg.width) then [Obs(Mid(e.fields.value), PriceBefore(cfg, init, e.fields.value))] else [])
  }

  /** The bar of one minute, if it had a tick. */
  function Minute(cfg: Config, es: seq<Entry>, k: Key): Option<Stats>
    requires cfg.width > 0
  {
    if ObsAt(cfg, es, k) == [] then None else Some(StatsOf(cfg.ln, ObsAt(cfg, es, k)))
  }

  /** One more entry changes at most its own minute, by one tick. */
  lemma MinuteTakesOne(cfg: Config, es: seq<Entry>, e: Entry, k: Key)
    requires cfg.width > 0
    ensures Minute(cfg, es + [e], k) ==
      if !Hits(e, k, cfg.width) then Minute(cfg, es, k) else
        var o := Obs(Mid(e.fields.value), PriceBefore(cfg, es, e.fields.value));
        Some(AddObs(cfg.ln, if Minute(cfg, es, k).Some? then Minute(cfg, es, k).value else StartStats(o.price), o))
  {
    var es', os := es + [e], ObsAt(cfg, es, k);
    assert es'[..|es'| - 1] == es && es'[|es'| - 1] == e;
    if Hits(e, k, cfg.width) {
      var o := Obs(Mid(e.fields.value), PriceBefore(cfg, es, e.fields.value));
      if os == [] {
        assert os + [o] == [o];
        StatsOfOne(cfg.ln, o);
      } else {
        StatsOfSnoc(cfg.ln, os, o);
      }
    } else {
      assert os + [] == os;
    }
  }

  /** One feed, in order: each symbol's buckets never go back. */
  ghost predicate InOrder(cfg: Config, es: seq<Entry>, provider: string)
    requires cfg.width > 0
  {
    && (forall i | 0 <= i < |es| && es[i].fields.Some? :: es[i].fields.value.provider == provider)
    && forall i, j | 0 <= i < j < |es| && es[i].fields.Some? && es[j].fields.Some? &&
         es[i].fields.value.symbol == es[j].fields.value.symbol ::
         KeyOf(es[i].fields.value, cfg.width).bucket <= KeyOf(es[j].fields.value, cfg.width).bucket
  }

  lemma {:induction false} LastTickIsLatest(cfg: Config, es: seq<Entry>, symbol: string, provider: string)
    requires cfg.width > 0 && InOrder(cfg, es, provider)
    ensures var last := LastTick(es, symbol);
      if last.None? then forall x :: Minute(cfg, es, Key(symbol, x)).None?
      else
        && last.value.symbol == symbol && last.value.provider == provider
        && Minute(cfg, es, KeyOf(last.value, cfg.width)).Some?
        && forall x | Minute(cfg, es, Key(symbol, x)).Some? :: x <= KeyOf(last.value, cfg.width).bucket
  {
    hide ObsAt, StatsOf, PriceBefore, AddObs;
    if es == [] {
      forall x ensures Minute(cfg, es, Key(symbol, x)).None? { NoMinutesAtFirst(cfg, Key(symbol, x)); }
    } else {
      var init, e := es[..|es| - 1], es[|es| - 1];
      assert init + [e] == es;
      assert InOrder(cfg, init, provider);
      LastTickIsLatest(cfg, init, symbol, provider);
      forall k { MinuteTakesOne(cfg, init, e, k); }
      if e.fields.Some? && e.fields.value.symbol == symbol && LastTick(init, symbol).Some? {
        LastTickOccurs(init, symbol);
      }
    }
  }

  lemma NoMinutesAtFirst(cfg: Config, k: Key)
    requires cfg.width > 0
    ensures Minute(cfg, [], k).None?
  {}

  lemma {:induction false} LastTickOccurs(es: seq<Entry>, symbol: string)
    requires LastTick(es, symbol).Some?
    ensures exists i | 0 <= i < |es| :: es[i].fields == LastTick(es, symbol)
  {
    if es[|es| - 1].fields.Some? && es[|es| - 1].fields.value.symbol == symbol {
      assert es[|es| - 1].fields == LastTick(es, symbol);
    } else {
      var init := es[..|es| - 1];
      LastTickOccurs(init, symbol);
      var i :| 0 <= i < |init| && init[i].fields == LastTick(init, symbol);
      assert es[i].fields == LastTick(es, symbol);
    }
  }

  // -------------------------------------------------- the ingestor's bars

  /** What the ingestor holds and has sealed after a log. */
  ghost predicate IngestorIs(cfg: Config, symbol: string, es: seq<Entry>, f: Feed, bars: seq<Sealed>)
    requires cfg.width > 0
  {
    var last := LastTick(es, symbol);
    if last.None? then f == COLD && bars == []
    else
      var b := KeyOf(last.value, cfg.width).bucket;
      && f.bar.Some? && f.bar.value.bucket == b && f.lastPrice == Some(Mid(last.value))
      && Some(f.bar.value.stats) == Minute(cfg, es, Key(symbol, b))
      && AllSealed(cfg, symbol, es, b, bars)
  }

  /** The bars are the symbol's minutes before `b`, all of them, in ascending order. */
  ghost predicate AllSealed(cfg: Config, symbol: string, es: seq<Entry>, b: int, bars: seq<Sealed>)
    requires cfg.width > 0
  {
    && (forall i | 0 <= i < |bars| :: bars[i].bucket < b && Minute(cfg, es, Key(symbol, bars[i].bucket)) == Some(bars[i].stats))
    && (forall i, j | 0 <= i < j < |bars| :: bars[i].bucket < bars[j].bucket)
    && (forall x | x < b && Minute(cfg, es, Key(symbol, x)).Some? :: exists i | 0 <= i < |bars| :: bars[i].bucket == x)
  }

  /** The bar in progress joins the sealed ones when a later minute starts. */
  lemma SealOne(cfg: Config, symbol: string, es: seq<Entry>, es': seq<Entry>, b: int, bars: seq<Sealed>, bar: Sealed, b': int)
    requires cfg.width > 0 && AllSealed(cfg, symbol, es, b, bars)
    requires bar.bucket == b < b' && Minute(cfg, es, Key(symbol, b)) == Some(bar.stats)
    requires forall x | x < b' :: Minute(cfg, es', Key(symbol, x)) == Minute(cfg, es, Key(symbol, x))
    requires forall x | b < x :: Minute(cfg, es, Key(symbol, x)).None?
    ensures AllSealed(cfg, symbol, es', b', bars + [bar])
  {
    hide Minute;
    var bars' := bars + [bar];
    forall x | x < b' && Minute(cfg, es', Key(symbol, x)).Some? ensures exists i | 0 <= i < |bars'| :: bars'[i].bucket == x {
      if x < b {
        var i :| 0 <= i < |bars| && bars[i].bucket == x;
        assert bars'[i].bucket == x;
      } else {
        assert bars'[|bars|].bucket == x;
      }
    }
  }

  lemma StillSealed(cfg: Config, symbol: string, es: seq<Entry>, es': seq<Entry>, b: int, bars: seq<Sealed>)
    requires cfg.width > 0 && AllSealed(cfg, symbol, es, b, bars)
    requires forall x | x < b :: Minute(cfg, es', Key(symbol, x)) == Minute(cfg, es, Key(symbol, x))
    ensures AllSealed(cfg, symbol, es', b, bars)
  {
    hide Minute;
  }

  /** One more tick of the symbol, in order. */
  lemma IngestorTakesTick(cfg: Config, symbol: string, es: seq<Entry>, e: Entry, f: Feed, bars: seq<Sealed>, provider: string)
    requires cfg.width > 0 && InOrder(cfg, es + [e], provider) && IngestorIs(cfg, symbol, es, f, bars)
    requires e.fields.Some? && e.fields.value.symbol == symbol
    ensures var (f', closed) := HandleTick(cfg, f, e.fields.value);
      IngestorIs(cfg, symbol, es + [e], f', if closed.Some? then bars + [closed.value] else bars)
  {
    hide Minute, AddObs, AllSealed, FloorToBucket, StartStats;
    var es', t := es + [e], e.fields.value;
    var k := KeyOf(t, cfg.width);
    assert es'[..|es'| - 1] == es && es'[|es|] == e;
    assert InOrder(cfg, es, provider) by {
      assert forall i | 0 <= i < |es| :: es[i] == es'[i];
    }
    LastTickIsLatest(cfg, es, symbol, provider);
    forall x { MinuteTakesOne(cfg, es, e, Key(symbol, x)); }
    if f.bar.None? {
      NothingSealed(cfg, symbol, es', k.bucket);
    } else {
      LastTickOccurs(es, symbol);
      var b := f.bar.value.bucket;
      if b < k.bucket {
        SealOne(cfg, symbol, es, es', b, bars, f.bar.value, k.bucket);
      } else {
        StillSealed(cfg, symbol, es, es', b, bars);
      }
    }
  }

  lemma NothingSealed(cfg: Config, symbol: string, es: seq<Entry>, b: int)
    requires cfg.width > 0 && forall x | x != b :: Minute(cfg, es, Key(symbol, x)).None?
    ensures AllSealed(cfg, symbol, es, b, [])
  {
    hide Minute;
  }

  lemma {:induction false} IngestorFollows(cfg: Config, symbol: string, es: seq<Entry>, provider: string)
    requires cfg.width > 0 && InOrder(cfg, es, provider)
    ensures var (f, bars) := Ingestor(cfg, symbol, es); IngestorIs(cfg, symbol, es, f, bars)
  {
    hide Minute, AllSealed, HandleTick;
    if es != [] {
      var init, e := es[..|es| - 1], es[|es| - 1];
      assert InOrder(cfg, init, provider);
      IngestorFollows(cfg, symbol, init, provider);
      var (f, bars) := Ingestor(cfg, symbol, init);
      assert init + [e] == es;
      if e.fields.Some? && e.fields.value.symbol == symbol {
        IngestorTakesTick(cfg, symbol, init, e, f, bars, provider);
      } else {
        forall x { MinuteTakesOne(cfg, init, e, Key(symbol, x)); }
        if f.bar.Some? {
          StillSealed(cfg, symbol, init, es, f.bar.value.bucket, bars);
        }
      }
    }
  }

  // ------------------------------------------------------- the worker's rows

  datatype Op = Take(entry: Entry) | Flush

  datatype Life = Life(rows: map<Key, Row>, mem: Memory)

  /** One life of the worker: entries in log order, flushed whenever it likes. */
  ghost function Work(cfg: Config, ops: seq<Op>): Life
    requires cfg.width > 0
  {
    if ops == [] then Life(map[], EMPTY) else
      var l := Work(cfg, ops[..|ops| - 1]);
      match ops[|ops| - 1]
      case Take(e) => l.(mem := Ingest(cfg, l.mem, e))
      case Flush => Life(Upsert(l.rows, Batch(l.mem)), Flushed(l.mem))
  }

  function Taken(ops: seq<Op>): seq<Entry> {
    if ops == [] then [] else
      Taken(ops[..|ops| - 1]) + (match ops[|ops| - 1] case Take(e) => [e] case Flush => [])
  }

  /** A row and what is still accumulated for it, as one bar. */
  function Together(l: Life, k: Key): Option<Stats> {
    if k in l.rows then Some(if k in l.mem.accs then MergeStats(l.rows[k].stats, l.mem.accs[k]) else l.rows[k].stats)
    else Lookup(l.mem.accs, k)
  }

  ghost predicate AllBefore(m: map<Key, Id>, id: Id) { forall k | k in m :: Before(m[k], id) }

  /** Per symbol, the worker remembers the last tick's price, minute and feed, or nothing. */
  predicate Remembers(cfg: Config, m: Memory, s: string, last: Option<Tick>, provider: string)
    requires cfg.width > 0
  {
    if last.None? then s !in m.lastPrice && s !in m.lastBucket && s !in m.provider
    else
      && Lookup(m.lastPrice, s) == Some(Mid(last.value))
      && Lookup(m.lastBucket, s) == Some(KeyOf(last.value, cfg.width).bucket)
      && Lookup(m.provider, s) == Some(provider)
  }

  /** The worker's state after the entries `es` of one feed. */
  ghost predicate WorkerIs(cfg: Config, es: seq<Entry>, l: Life, provider: string)
    requires cfg.width > 0
  {
    && l.mem.maxId.Keys == l.mem.accs.Keys
    && (forall k | k in l.rows && k in l.mem.maxId :: Before(l.rows[k].last, l.mem.maxId[k]))
    && (forall s :: Remembers(cfg, l.mem, s, LastTick(es, s), provider))
    && forall k :: Together(l, k) == Minute(cfg, es, k)
  }

  /** Every id the worker holds is older than the entry to come. */
  ghost predicate Older(l: Life, id: Id) {
    AllBefore(l.mem.maxId, id) && forall k | k in l.rows :: Before(l.rows[k].last, id)
  }

  lemma MergeThenAdd(ln: real -> real, a: Stats, b: Stats, o: Obs)
    ensures MergeStats(a, AddObs(ln, b, o)) == AddObs(ln, MergeStats(a, b), o)
    ensures MergeStats(a, AddObs(ln, StartStats(o.price), o)) == AddObs(ln, a, o)
  {}

  lemma WorkerTakesOne(cfg: Config, es: seq<Entry>, e: Entry, l: Life, provider: string)
    requires cfg.width > 0 && InOrder(cfg, es + [e], provider)
    requires WorkerIs(cfg, es, l, provider) && Older(l, e.id)
    ensures WorkerIs(cfg, es + [e], l.(mem := Ingest(cfg, l.mem, e)), provider)
  {
    var es', l' := es + [e], l.(mem := Ingest(cfg, l.mem, e));
    assert es'[..|es'| - 1] == es && es'[|es'| - 1] == e;
    if e.fields.Some? {
      var t := e.fields.value;
      var o := Obs(Mid(t), PriceBefore(cfg, es, t));
      assert es'[|es|].fields.value.provider == provider;
      assert PreviousPrice(cfg, l.mem, t) == o.prev;
      forall k ensures Together(l', k) == Minute(cfg, es', k) {
        assert Together(l, k) == Minute(cfg, es, k);
        MinuteTakesOne(cfg, es, e, k);
        if Hits(e, k, cfg.width) && k in l.rows {
          MergeThenAdd(cfg.ln, l.rows[k].stats, if k in l.mem.accs then l.mem.accs[k] else l.rows[k].stats, o);
        }
      }
    } else {
      forall k ensures Together(l', k) == Minute(cfg, es', k) {
        assert Together(l, k) == Minute(cfg, es, k);
        MinuteTakesOne(cfg, es, e, k);
      }
    }
  }

  lemma WorkerFlushes(cfg: Config, es: seq<Entry>, l: Life, provider: string)
    requires cfg.width > 0 && WorkerIs(cfg, es, l, provider)
    ensures var l' := Life(Upsert(l.rows, Batch(l.mem)), Flushed(l.mem));
      WorkerIs(cfg, es, l', provider) && forall id | Older(l, id) :: Older(l', id)
  {
    var l' := Life(Upsert(l.rows, Batch(l.mem)), Flushed(l.mem));
    forall k ensures Together(l', k) == Minute(cfg, es, k) {
      assert Together(l, k) == Minute(cfg, es, k);
    }
  }

  lemma EarlierEntries(cfg: Config, es: seq<Entry>, e: Entry, provider: string)
    requires cfg.width > 0 && Ordered(es + [e]) && InOrder(cfg, es + [e], provider)
    ensures Ordered(es) && InOrder(cfg, es, provider) && forall x | x in es :: Before(x.id, e.id)
  {
    var all := es + [e];
    assert forall i | 0 <= i < |es| :: all[i] == es[i];
    assert all[|es|] == e;
    forall x | x in es ensures Before(x.id, e.id) {
      var i :| 0 <= i < |es| && es[i] == x;
      assert all[i] == x;
    }
  }

  /** What was older than every entry to come still is, once the entry is in. */
  lemma OlderStill(cfg: Config, es: seq<Entry>, e: Entry, l: Life)
    requires cfg.width > 0 && forall id | (forall x | x in es :: Before(x.id, id)) :: Older(l, id)
    ensures forall id | (forall x | x in es + [e] :: Before(x.id, id)) :: Older(l.(mem := Ingest(cfg, l.mem, e)), id)
  {
    var l' := l.(mem := Ingest(cfg, l.mem, e));
    forall id | forall x | x in es + [e] :: Before(x.id, id)
      ensures Older(l', id)
    {
      assert forall x | x in es :: x in es + [e];
      assert e in es + [e];
      assert Older(l, id);
      assert forall k | k in l'.mem.maxId :: l'.mem.maxId[k] == e.id || (k in l.mem.maxId && l'.mem.maxId[k] == l.mem.maxId[k]);
    }
  }

  lemma {:induction false} WorkerFollows(cfg: Config, ops: seq<Op>, provider: string)
    requires cfg.width > 0 && Ordered(Taken(ops)) && InOrder(cfg, Taken(ops), provider)
    ensures WorkerIs(cfg, Taken(ops), Work(cfg, ops), provider)
    ensures forall id | (forall e | e in Taken(ops) :: Before(e.id, id)) :: Older(Work(cfg, ops), id)
  {
    if ops == [] {
      forall k ensures Together(Work(cfg, ops), k) == Minute(cfg, [], k) {}
    } else {
      var init := ops[..|ops| - 1];
      var es, l := Taken(init), Work(cfg, init);
      match ops[|ops| - 1]
      case Take(e) =>
        assert Taken(ops) == es + [e];
        EarlierEntries(cfg, es, e, provider);
        WorkerFollows(cfg, init, provider);
        WorkerTakesOne(cfg, es, e, l, provider);
        var l' := l.(mem := Ingest(cfg, l.mem, e));
        assert Work(cfg, ops) == l';
        hide WorkerIs, InOrder, Ordered, Taken, Work;
        OlderStill(cfg, es, e, l);
      case Flush =>
        assert Taken(ops) == es by { assert es + [] == es; }
        WorkerFollows(cfg, init, provider);
        WorkerFlushes(cfg, es, l, provider);
    }
  }

  /**
    However the worker cuts its entries into flushes and wherever gaps reset the
    previous price, once it has flushed, each bar the ingestor sealed is the stored
    row of its minute, field for field, and the sealed minutes are exactly the
    stored ones older than the bar in progress, in ascending order.
   */
  lemma SealedBarIsStoredRow(cfg: Config, ops: seq<Op>, provider: string, symbol: string)
    requires cfg.width > 0 && Ordered(Taken(ops)) && InOrder(cfg, Taken(ops), provider)
    ensures var rows := Work(cfg, ops + [Flush]).rows;
      var (f, bars) := Ingestor(cfg, symbol, Taken(ops));
      && (forall i | 0 <= i < |bars| :: Key(symbol, bars[i].bucket) in rows &&
           rows[Key(symbol, bars[i].bucket)].stats == bars[i].stats)
      && (forall i, j | 0 <= i < j < |bars| :: bars[i].bucket < bars[j].bucket)
      && (forall k | k in rows && k.symbol == symbol :: f.bar.Some? && k.bucket <= f.bar.value.bucket &&
           (k.bucket < f.bar.value.bucket ==> exists i | 0 <= i < |bars| :: bars[i].bucket == k.bucket))
  {
    hide Minute, Upsert, Work, Taken, Ingestor, KeyOf;
    var es := Taken(ops);
    FlushedRowsAreMinutes(cfg, ops, provider);
    IngestorFollows(cfg, symbol, es, provider);
    LastTickIsLatest(cfg, es, symbol, provider);
    var rows := Work(cfg, ops + [Flush]).rows;
    var (f, bars) := Ingestor(cfg, symbol, es);
    forall i | 0 <= i < |bars| ensures Key(symbol, bars[i].bucket) in rows && rows[Key(symbol, bars[i].bucket)].stats == bars[i].stats {
      assert Lookup(rows, Key(symbol, bars[i].bucket)).Some?;
    }
    forall k | k in rows && k.symbol == symbol ensures f.bar.Some? && k.bucket <= f.bar.value.bucket &&
           (k.bucket < f.bar.value.bucket ==> exists i | 0 <= i < |bars| :: bars[i].bucket == k.bucket) {
      assert Lookup(rows, k).Some? && k == Key(symbol, k.bucket);
    }
  }

  /** Once flushed, the stored rows are the minutes of what was taken. */
  lemma FlushedRowsAreMinutes(cfg: Config, ops: seq<Op>, provider: string)
    requires cfg.width > 0 && Ordered(Taken(ops)) && InOrder(cfg, Taken(ops), provider)
    ensures var rows := Work(cfg, ops + [Flush]).rows;
      forall k :: (Lookup(rows, k).Some? <==> Minute(cfg, Taken(ops), k).Some?) &&
        (k in rows ==> Some(rows[k].stats) == Minute(cfg, Taken(ops), k))
  {
    var ops', es := ops + [Flush], Taken(ops);
    assert ops'[..|ops'| - 1] == ops;
    assert Taken(ops') == es + [] == es;
    WorkerFollows(cfg, ops', provider);
    hide Minute, Upsert, Taken;
    var l := Work(cfg, ops');
    forall k
      ensures (Lookup(l.rows, k).Some? <==> Minute(cfg, es, k).Some?) && (k in l.rows ==> Some(l.rows[k].stats) == Minute(cfg, es, k))
    {
      assert Together(l, k) == Minute(cfg, es, k);
    }
  }

  // ------------------------------------------------------- ticks in any order

  function TicksIn(bars: seq<Sealed>): nat {
    if bars == [] then 0 else TicksIn(bars[..|bars| - 1]) + bars[|bars| - 1].stats.px.ticks
  }

  function TicksOf(es: seq<Entry>, symbol: string): nat {
    if es == [] then 0
    else TicksOf(es[..|es| - 1], symbol) + if es[|es| - 1].fields.Some? && es[|es| - 1].fields.value.symbol == symbol then 1 else 0
  }

  /**
    Whatever order the ticks come in, a late one joins the bar in progress: each of
    the symbol's ticks is in exactly one bar, the sealed bars ascend, and the bar in
    progress is the latest.
   */
  lemma {:induction false} BarsOnlyMoveForward(cfg: Config, symbol: string, es: seq<Entry>)
    requires cfg.width > 0
    ensures var (f, bars) := Ingestor(cfg, symbol, es);
      && (forall i, j | 0 <= i < j < |bars| :: bars[i].bucket < bars[j].bucket)
      && (f.bar.Some? ==> forall i | 0 <= i < |bars| :: bars[i].bucket < f.bar.value.bucket)
      && (f.bar.None? ==> bars == [])
      && TicksIn(bars) + (if f.bar.Some? then f.bar.value.stats.px.ticks else 0) == TicksOf(es, symbol)
  {
    if es != [] {
      hide KeyOf, Mid, Return, AddPrice;
      var front, e := es[..|es| - 1], es[|es| - 1];
      BarsOnlyMoveForward(cfg, symbol, front);
      var (f, bars) := Ingestor(cfg, symbol, front);
      if e.fields.Some? && e.fields.value.symbol == symbol {
        OneMoreTick(cfg, f, e.fields.value);
        if f.bar.Some? {
          assert (bars + [f.bar.value])[..|bars|] == bars;
        }
      }
    }
  }

  lemma OneMoreTick(cfg: Config, f: Feed, t: Tick)
    requires cfg.width > 0
    ensures var (f', closed) := HandleTick(cfg, f, t);
      && f'.bar.Some?
      && (if closed.Some? then closed == f.bar && f.bar.value.bucket < f'.bar.value.bucket && f'.bar.value.stats.px.ticks == 1
          else if f.bar.Some? then f'.bar.value.bucket == f.bar.value.bucket && f'.bar.value.stats.px.ticks == f.bar.value.stats.px.ticks + 1
          else f'.bar.value.stats.px.ticks == 1)
      && (closed.Some? <==> f.bar.Some? && KeyOf(t, cfg.width).bucket > f.bar.value.bucket)
  {
    hide KeyOf, Mid, Return;
  }
}
