/** What the worker holds between flushes, and how one log entry changes it. */
module WorkerMemory {
  import opened Bars
  import opened BarsTable
  import opened TickLog
  import opened Wrappers

  /** A bucket this many widths after the previous one spans an outage, so its price step is no return. */
  const GAP_BAR_MULTIPLE := 3

  /** The bucket width and the logarithm every return is taken with. */
  datatype Config = Config(width: int, ln: real -> real, pageSize: nat)

  ghost predicate ValidConfig(cfg: Config) { cfg.width > 0 && cfg.pageSize > 0 }

  datatype Memory = Memory(
    accs: map<Key, Stats>,
    maxId: map<Key, Id>,
    lastPrice: map<string, real>,
    lastBucket: map<string, int>,
    provider: map<string, string>)

  const EMPTY := Memory(map[], map[], map[], map[], map[])

  function Drop<V>(m: map<string, V>, k: string): map<string, V> { m - {k} }

  /** The previous price a tick's return is measured from, unless a new feed or a gap cut it off. */
  function PreviousPrice(cfg: Config, m: Memory, t: Tick): Option<real>
    requires cfg.width > 0
  {
    if t.symbol in m.provider && m.provider[t.symbol] != t.provider then None
    else if t.symbol in m.lastBucket &&
            KeyOf(t, cfg.width).bucket - m.lastBucket[t.symbol] > cfg.width * GAP_BAR_MULTIPLE then None
    else Lookup(m.lastPrice, t.symbol)
  }

  function Ingest(cfg: Config, m: Memory, e: Entry): Memory
    requires cfg.width > 0
  {
    match e.fields
    case None => m
    case Some(t) =>
      var k := KeyOf(t, cfg.width);
      var held := if k in m.accs then m.accs[k] else StartStats(Mid(t));
      Memory(
        m.accs[k := AddObs(cfg.ln, held, Obs(Mid(t), PreviousPrice(cfg, m, t)))],
        if k in m.maxId && !Before(m.maxId[k], e.id) then m.maxId else m.maxId[k := e.id],
        m.lastPrice[t.symbol := Mid(t)],
        m.lastBucket[t.symbol := k.bucket],
        m.provider[t.symbol := t.provider])
  }

  function IngestAll(cfg: Config, m: Memory, es: seq<Entry>): Memory
    requires cfg.width > 0
  {
    if es == [] then m else Ingest(cfg, IngestAll(cfg, m, es[..|es| - 1]), es[|es| - 1])
  }

  /** The accumulators and their ids, as the columns of the next upsert. */
  function Batch(m: Memory): Columns { Columns(m.accs, m.maxId) }

  /** After a commit is acknowledged, and before a replay: nothing is held. */
  function Flushed(m: Memory): Memory { m.(accs := map[], maxId := map[]) }

  function Restarted(m: Memory): Memory { m.(accs := map[], maxId := map[], lastPrice := map[]) }

  /** The memory holds exactly these entries. */
  ghost predicate HoldsExactly(cfg: Config, m: Memory, es: seq<Entry>)
    requires cfg.width > 0
  {
    m.maxId.Keys == m.accs.Keys && BatchOf(Batch(m), es, cfg.width)
  }

  lemma HoldsNothing(cfg: Config, m: Memory)
    requires cfg.width > 0 && m.accs == map[] && m.maxId == map[]
    ensures HoldsExactly(cfg, m, [])
  {
    forall k ensures Carries(Batch(m), [], k, cfg.width) {}
  }

  /** A price added to what a key already carries. */
  lemma CarriesOneMore(es: seq<Entry>, e: Entry, k: Key, width: int, held: Option<Ohlc>, last: Option<Id>)
    requires width > 0 && Ordered(es + [e]) && Hits(e, k, width)
    requires if held.None? then PricesAt(es, k, width) == []
      else PricesAt(es, k, width) != [] && held.value == Summary(PricesAt(es, k, width))
    requires last == LastId(es, k, width)
    ensures PricesAt(es + [e], k, width) != []
    ensures var p := Mid(e.fields.value);
      Summary(PricesAt(es + [e], k, width)) == AddPrice(if held.None? then Start(p) else held.value, p)
    ensures LastId(es + [e], k, width) == Some(e.id) && (last.Some? ==> Before(last.value, e.id))
  {
    assert (es + [e])[..|es + [e]| - 1] == es;
    var ps, p := PricesAt(es, k, width), Mid(e.fields.value);
    if ps == [] {
      SummaryOfOne(p);
    } else {
      SummaryOfSnoc(ps, p);
    }
    if last.Some? {
      assert LastId([e], k, width) == Some(e.id);
      LastIdsAreOrdered(es, [e], k, width);
    }
  }

  lemma IngestOne(cfg: Config, m: Memory, es: seq<Entry>, e: Entry)
    requires cfg.width > 0 && Ordered(es + [e]) && HoldsExactly(cfg, m, es)
    ensures HoldsExactly(cfg, Ingest(cfg, m, e), es + [e])
  {
    var m' := Ingest(cfg, m, e);
    assert (es + [e])[..|es + [e]| - 1] == es;
    forall k ensures Carries(Batch(m'), es + [e], k, cfg.width) {
      assert Carries(Batch(m), es, k, cfg.width);
      if Hits(e, k, cfg.width) {
        PricesHaveALastId(es, k, cfg.width);
        CarriesOneMore(es, e, k, cfg.width, if k in m.accs then Some(m.accs[k].px) else None, Lookup(m.maxId, k));
      } else {
        assert PricesAt(es, k, cfg.width) + [] == PricesAt(es, k, cfg.width);
      }
    }
  }

  lemma {:induction false} IngestExtends(cfg: Config, m: Memory, es: seq<Entry>, more: seq<Entry>)
    requires cfg.width > 0 && Ordered(es + more) && HoldsExactly(cfg, m, es)
    ensures HoldsExactly(cfg, IngestAll(cfg, m, more), es + more)
  {
    if more == [] {
      assert es + more == es;
    } else {
      var init := more[..|more| - 1];
      assert es + more == (es + init) + [more[|more| - 1]];
      assert Ordered(es + init) by {
        assert forall i | 0 <= i < |es + init| :: (es + init)[i] == (es + more)[i];
      }
      IngestExtends(cfg, m, es, init);
      IngestOne(cfg, IngestAll(cfg, m, init), es + init, more[|more| - 1]);
    }
  }

  lemma {:induction false} UnparseableIsIgnored(cfg: Config, m: Memory, es: seq<Entry>)
    requires cfg.width > 0 && forall e | e in es :: e.fields.None?
    ensures IngestAll(cfg, m, es) == m
  {
    if es != [] {
      UnparseableIsIgnored(cfg, m, es[..|es| - 1]);
    }
  }

  /** Nothing is accumulated exactly when nothing in the stretch parses. */
  lemma HoldsNothingIff(cfg: Config, m: Memory, es: seq<Entry>)
    requires cfg.width > 0 && HoldsExactly(cfg, m, es)
    ensures m.accs == map[] <==> forall e | e in es :: e.fields.None?
  {
    if m.accs == map[] {
      forall i | 0 <= i < |es| ensures es[i].fields.None? {
        if es[i].fields.Some? {
          var k := KeyOf(es[i].fields.value, cfg.width);
          assert Hits(es[i], k, cfg.width) && Carries(Batch(m), es, k, cfg.width);
          PricesHaveALastId(es, k, cfg.width);
        }
      }
    } else {
      var k :| k in m.accs;
      assert Carries(Batch(m), es, k, cfg.width);
      PricesHaveALastId(es, k, cfg.width);
    }
  }
}
