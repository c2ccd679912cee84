/** The tick write-ahead log: entries under strictly increasing stream ids, and what one row of it sums up. */
module TickLog {
  import opened Bars
  import opened Wrappers

  /** A stream id <ms>-<seq>, compared as two numbers: as text 5-10 would sort before 5-9. */
  datatype Id = Id(ms: nat, seqNo: nat)

  predicate Before(a: Id, b: Id) { a.ms < b.ms || (a.ms == b.ms && a.seqNo < b.seqNo) }

  datatype Tick = Tick(symbol: string, bid: real, ask: real, us: int, provider: string)

  /** An entry whose fields do not parse keeps its id and carries nothing. */
  datatype Entry = Entry(id: Id, fields: Option<Tick>)

  datatype Key = Key(symbol: string, bucket: int)

  function Mid(t: Tick): real { (t.bid + t.ask) / 2.0 }

  function KeyOf(t: Tick, width: int): Key
    requires width > 0
  {
    Key(t.symbol, FloorToBucket(t.us, width))
  }

  predicate Hits(e: Entry, k: Key, width: int)
    requires width > 0
  {
    e.fields.Some? && KeyOf(e.fields.value, width) == k
  }

  /** The log's ids rise: by their time, and within one by their number. */
  ghost predicate Ordered(es: seq<Entry>) {
    forall i, j | 0 <= i < j < |es| ::
      es[i].id.ms < es[j].id.ms || (es[i].id.ms == es[j].id.ms && es[i].id.seqNo < es[j].id.seqNo)
  }

  /** The mid prices of one symbol and minute, in log order. */
  function PricesAt(es: seq<Entry>, k: Key, width: int): seq<real>
    requires width > 0
  {
    if es == [] then [] else
      PricesAt(es[..|es| - 1], k, width) +
      (if Hits(es[|es| - 1], k, width) then [Mid(es[|es| - 1].fields.value)] else [])
  }

  /** The prices are those of the symbol's ticks, each halfway between its bid and its ask, in the minute that starts at the bucket. */
  lemma {:induction false} PricesAreMidpoints(es: seq<Entry>, k: Key, width: int, n: nat)
    requires width > 0 && n < |PricesAt(es, k, width)|
    ensures k.bucket % width == 0
    ensures exists i | 0 <= i < |es| && es[i].fields.Some? :: IsPriceOf(es[i].fields.value, k, width, PricesAt(es, k, width)[n])
  {
    var init := es[..|es| - 1];
    if n < |PricesAt(init, k, width)| {
      PricesAreMidpoints(init, k, width, n);
      var i :| 0 <= i < |init| && init[i].fields.Some? && IsPriceOf(init[i].fields.value, k, width, PricesAt(init, k, width)[n]);
      assert es[i] == init[i];
    } else {
      assert IsPriceOf(es[|es| - 1].fields.value, k, width, PricesAt(es, k, width)[n]);
    }
  }

  predicate IsPriceOf(t: Tick, k: Key, width: int, p: real) {
    && t.symbol == k.symbol && k.bucket <= EpochSeconds(t.us) < k.bucket + width
    && p - t.bid == t.ask - p
  }

  /** The id of the last entry that belongs to `k`. */
  function LastId(es: seq<Entry>, k: Key, width: int): (r: Option<Id>)
    requires width > 0
  {
    if es == [] then None
    else if Hits(es[|es| - 1], k, width) then Some(es[|es| - 1].id)
    else LastId(es[..|es| - 1], k, width)
  }

  lemma {:induction false} PricesAreAdditive(a: seq<Entry>, b: seq<Entry>, k: Key, width: int)
    requires width > 0
    ensures PricesAt(a + b, k, width) == PricesAt(a, k, width) + PricesAt(b, k, width)
    ensures LastId(a + b, k, width) == if LastId(b, k, width).Some? then LastId(b, k, width) else LastId(a, k, width)
  {
    if b == [] {
      assert a + b == a;
    } else {
      assert (a + b)[..|a + b| - 1] == a + b[..|b| - 1];
      PricesAreAdditive(a, b[..|b| - 1], k, width);
    }
  }

  lemma {:induction false} PricesHaveALastId(es: seq<Entry>, k: Key, width: int)
    requires width > 0
    ensures PricesAt(es, k, width) != [] <==> LastId(es, k, width).Some?
    ensures LastId(es, k, width).Some? ==> exists p | 0 <= p < |es| :: Hits(es[p], k, width) && es[p].id == LastId(es, k, width).value
    ensures LastId(es, k, width).None? ==> forall p | 0 <= p < |es| :: !Hits(es[p], k, width)
  {
    if es != [] {
      var init := es[..|es| - 1];
      PricesHaveALastId(init, k, width);
      assert forall p | 0 <= p < |init| :: init[p] == es[p];
    }
  }

  /** A key's later entries carry later ids, wherever the log is cut. */
  lemma LastIdsAreOrdered(a: seq<Entry>, b: seq<Entry>, k: Key, width: int)
    requires width > 0 && Ordered(a + b)
    requires LastId(a, k, width).Some? && LastId(b, k, width).Some?
    ensures Before(LastId(a, k, width).value, LastId(b, k, width).value)
  {
    PricesHaveALastId(a, k, width);
    PricesHaveALastId(b, k, width);
    var p :| 0 <= p < |a| && a[p].id == LastId(a, k, width).value;
    var q :| 0 <= q < |b| && b[q].id == LastId(b, k, width).value;
    assert (a + b)[p] == a[p] && (a + b)[|a| + q] == b[q];
  }

  lemma UnparseableHasNoPrices(es: seq<Entry>, k: Key, width: int)
    requires width > 0 && forall e | e in es :: e.fields.None?
    ensures PricesAt(es, k, width) == [] && LastId(es, k, width).None?
  {}
}
