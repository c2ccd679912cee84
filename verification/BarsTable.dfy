/** The bars_1m table: the merge on conflict, its watermark guard, and the fold of the log it should hold. */
module BarsTable {
  import opened Bars
  import opened TickLog
  import opened Wrappers

  datatype Source = Stream | Backfill

  datatype Row = Row(stats: Stats, last: Id, source: Source)

  /** One row of the statement: a sealed bar and the highest stream id that fed it. */
  datatype Incoming = Incoming(stats: Stats, last: Id)

  /** The columns of the statement, by row key. */
  datatype Columns = Columns(stats: map<Key, Stats>, last: map<Key, Id>)

  function At(x: Columns, k: Key): Incoming
    requires k in x.stats
  {
    Incoming(x.stats[k], if k in x.last then x.last[k] else Id(0, 0))
  }

  function Lookup<K, V>(m: map<K, V>, k: K): Option<V> { if k in m then Some(m[k]) else None }

  /** One row: insert, merge past the watermark, or leave alone. */
  function UpsertRow(held: Option<Row>, x: Incoming): Row {
    match held
    case None => Row(x.stats, x.last, Stream)
    case Some(r) =>
      if Before(r.last, x.last) then
        Row(MergeStats(r.stats, x.stats), x.last, if r.source == Stream then r.source else Stream)
      else r
  }

  /** The whole statement, one transaction: every key of the columns is upserted, no other row changes. */
  ghost predicate IsUpsert(rows': map<Key, Row>, rows: map<Key, Row>, x: Columns)
  {
    && rows'.Keys == rows.Keys + x.stats.Keys
    && forall k | k in rows' ::
         rows'[k] == if k in x.stats then UpsertRow(Lookup(rows, k), At(x, k)) else rows[k]
  }

  ghost function Upsert(rows: map<Key, Row>, x: Columns): (rows': map<Key, Row>)
    ensures IsUpsert(rows', rows, x)
  {
    UpsertExists(rows, x);
    var r :| IsUpsert(r, rows, x);
    r
  }

  /** The statement half run: every key outside `left` is done. */
  ghost predicate PartlyUpserted(table: map<Key, Row>, rows: map<Key, Row>, x: Columns, left: set<Key>) {
    && left <= x.stats.Keys
    && table.Keys == rows.Keys + (x.stats.Keys - left)
    && forall k | k in table ::
         table[k] == if k in x.stats && k !in left then UpsertRow(Lookup(rows, k), At(x, k)) else rows[k]
  }

  lemma UpsertOneMore(table: map<Key, Row>, rows: map<Key, Row>, x: Columns, left: set<Key>, k: Key)
    requires PartlyUpserted(table, rows, x, left) && k in left
    ensures PartlyUpserted(table[k := UpsertRow(Lookup(table, k), At(x, k))], rows, x, left - {k})
  {
    hide UpsertRow, At;
    assert Lookup(table, k) == Lookup(rows, k);
  }

  lemma UpsertExists(rows: map<Key, Row>, x: Columns)
    ensures exists r :: IsUpsert(r, rows, x)
  {
    var r, left := rows, x.stats.Keys;
    while left != {}
      invariant PartlyUpserted(r, rows, x, left)
      decreases left
    {
      var k :| k in left;
      UpsertOneMore(r, rows, x, left, k);
      r := r[k := UpsertRow(Lookup(r, k), At(x, k))];
      left := left - {k};
    }
    assert IsUpsert(r, rows, x);
  }

  lemma PartlyUpsertedAtLast(table: map<Key, Row>, rows: map<Key, Row>, x: Columns)
    requires PartlyUpserted(table, rows, x, {})
    ensures table == Upsert(rows, x)
  {
    hide UpsertRow, At;
  }

  // ------------------------------------------------------- what a row means

  /** A row without its return sums. */
  datatype Content = Content(px: Ohlc, last: Id, source: Source)

  function View(rows: map<Key, Row>, k: Key): Option<Content> {
    if k in rows then Some(Content(rows[k].stats.px, rows[k].last, rows[k].source)) else None
  }

  /** A row carried on by the prices `ps`, the last of them under `id`. */
  function Fold(v: Option<Content>, ps: seq<real>, id: Option<Id>): Option<Content> {
    if ps == [] || id.None? then v
    else Some(Content(Grow(if v.Some? then Some(v.value.px) else None, ps), id.value, Stream))
  }

  /** The row `k` should have once exactly the entries `es` have been counted on top of `base`. */
  function Expected(base: map<Key, Row>, es: seq<Entry>, k: Key, width: int): Option<Content>
    requires width > 0
  {
    Fold(View(base, k), PricesAt(es, k, width), LastId(es, k, width))
  }

  /** Every row is the fold of exactly these entries: none missing, none counted twice. */
  ghost predicate Counts(rows: map<Key, Row>, base: map<Key, Row>, es: seq<Entry>, width: int)
    requires width > 0
  {
    forall k :: View(rows, k) == Expected(base, es, k, width)
  }

  /** Rows that predate the log carry watermarks below every id in it. */
  ghost predicate Predates(base: map<Key, Row>, es: seq<Entry>) {
    forall k, i | k in base && 0 <= i < |es| :: Before(base[k].last, es[i].id)
  }

  /** What the batch carries for one key: the fold of its entries under their highest id. */
  ghost predicate Carries(batch: Columns, es: seq<Entry>, k: Key, width: int)
    requires width > 0
  {
    var ps, id := PricesAt(es, k, width), LastId(es, k, width);
    (k in batch.stats <==> ps != []) &&
    (k in batch.stats ==> k in batch.last && batch.stats[k].px == Summary(ps) && id == Some(batch.last[k]))
  }

  /** The batch holds the fold of exactly these entries. */
  ghost predicate BatchOf(batch: Columns, es: seq<Entry>, width: int)
    requires width > 0
  {
    forall k :: Carries(batch, es, k, width)
  }

  // ------------------------------------------------ one commit, row by row

  /** A batch either folds its entries into the row or, at or below the watermark, does nothing. */
  lemma UpsertFoldsOrSkips(rows: map<Key, Row>, batch: Columns, b: seq<Entry>, k: Key, width: int)
    requires width > 0 && Carries(batch, b, k, width)
    ensures View(Upsert(rows, batch), k) ==
      if k in rows && k in batch.stats && !Before(rows[k].last, At(batch, k).last) then View(rows, k)
      else Fold(View(rows, k), PricesAt(b, k, width), LastId(b, k, width))
  {
    PricesHaveALastId(b, k, width);
  }

  lemma FoldInTwoSteps(v: Option<Content>, p: seq<real>, i: Option<Id>, q: seq<real>, j: Option<Id>)
    requires (p == [] <==> i.None?) && (q == [] <==> j.None?)
    ensures Fold(Fold(v, p, i), q, j) == Fold(v, p + q, if j.Some? then j else i)
  {
    if q == [] {
      assert p + q == p;
    } else if p == [] {
      assert p + q == q;
    } else {
      GrowInTwoSteps(if v.Some? then Some(v.value.px) else None, p, q);
    }
  }

  lemma ExpectedInTwoSteps(base: map<Key, Row>, a: seq<Entry>, b: seq<Entry>, k: Key, width: int)
    requires width > 0
    ensures Expected(base, a + b, k, width) == Fold(Expected(base, a, k, width), PricesAt(b, k, width), LastId(b, k, width))
  {
    PricesAreAdditive(a, b, k, width);
    PricesHaveALastId(a, k, width);
    PricesHaveALastId(b, k, width);
    FoldInTwoSteps(View(base, k), PricesAt(a, k, width), LastId(a, k, width), PricesAt(b, k, width), LastId(b, k, width));
  }

  /** The watermark of a row is below every later entry of its key. */
  lemma WatermarkIsBelow(base: map<Key, Row>, a: seq<Entry>, b: seq<Entry>, k: Key, width: int)
    requires width > 0 && Ordered(a + b) && Predates(base, b)
    requires PricesAt(b, k, width) != [] && Expected(base, a, k, width).Some?
    ensures LastId(b, k, width).Some? && Before(Expected(base, a, k, width).value.last, LastId(b, k, width).value)
  {
    PricesHaveALastId(a, k, width);
    PricesHaveALastId(b, k, width);
    if PricesAt(a, k, width) != [] {
      LastIdsAreOrdered(a, b, k, width);
    }
  }

  lemma TicksOfFold(v: Option<Content>, ps: seq<real>, i: Option<Id>)
    requires ps != [] && i.Some?
    ensures Fold(v, ps, i).Some? && Fold(v, ps, i).value.px.ticks == (if v.Some? then v.value.px.ticks else 0) + |ps|
  {}

  lemma RowOfNewBatch(base: map<Key, Row>, a: seq<Entry>, b: seq<Entry>, rows: map<Key, Row>,
                      batch: Columns, k: Key, width: int)
    requires width > 0 && Ordered(a + b) && Predates(base, b)
    requires View(rows, k) == Expected(base, a, k, width)
    requires Carries(batch, b, k, width)
    ensures View(Upsert(rows, batch), k) == Expected(base, a + b, k, width)
  {
    UpsertFoldsOrSkips(rows, batch, b, k, width);
    ExpectedInTwoSteps(base, a, b, k, width);
    if k in rows && k in batch.stats {
      WatermarkIsBelow(base, a, b, k, width);
    }
  }

  /** Committing the next stretch of the log extends the counted prefix by exactly that stretch. */
  lemma CommitExtendsPrefix(base: map<Key, Row>, a: seq<Entry>, b: seq<Entry>, rows: map<Key, Row>,
                            batch: Columns, width: int)
    requires width > 0 && Ordered(a + b) && Predates(base, b)
    requires Counts(rows, base, a, width) && BatchOf(batch, b, width)
    ensures Counts(Upsert(rows, batch), base, a + b, width)
  {
    forall k ensures View(Upsert(rows, batch), k) == Expected(base, a + b, k, width) {
      assert View(rows, k) == Expected(base, a, k, width) && Carries(batch, b, k, width);
      RowOfNewBatch(base, a, b, rows, batch, k, width);
    }
  }

  /** Redelivering a stretch that is already counted leaves every row as it was. */
  lemma RedeliveryIsAbsorbed(base: map<Key, Row>, a: seq<Entry>, b: seq<Entry>, c: seq<Entry>, rows: map<Key, Row>,
                             batch: Columns, width: int)
    requires width > 0 && Ordered(a + b + c)
    requires Counts(rows, base, a + b + c, width) && BatchOf(batch, b, width)
    ensures Upsert(rows, batch) == rows
  {
    forall k | k in batch.stats ensures k in rows && !Before(rows[k].last, At(batch, k).last) {
      assert Carries(batch, b, k, width) && View(rows, k) == Expected(base, a + b + c, k, width);
      PricesAreAdditive(a, b, k, width);
      PricesAreAdditive(a + b, c, k, width);
      PricesHaveALastId(a + b + c, k, width);
      if LastId(c, k, width).Some? {
        LastIdsAreOrdered(a + b, c, k, width);
      }
    }
  }

  /** Entries that do not parse may be counted or not: the rows cannot tell. */
  lemma UnparseableTailIsFree(base: map<Key, Row>, a: seq<Entry>, b: seq<Entry>, rows: map<Key, Row>, width: int)
    requires width > 0 && forall e | e in b :: e.fields.None?
    ensures Counts(rows, base, a, width) <==> Counts(rows, base, a + b, width)
  {
    forall k ensures Expected(base, a, k, width) == Expected(base, a + b, k, width) {
      PricesAreAdditive(a, b, k, width);
      UnparseableHasNoPrices(b, k, width);
      assert PricesAt(a, k, width) + [] == PricesAt(a, k, width);
    }
    if Counts(rows, base, a, width) {
      CountsCarryOver(rows, base, a, a + b, width);
    }
    if Counts(rows, base, a + b, width) {
      CountsCarryOver(rows, base, a + b, a, width);
    }
  }

  lemma CountsCarryOver(rows: map<Key, Row>, base: map<Key, Row>, x: seq<Entry>, y: seq<Entry>, width: int)
    requires width > 0 && Counts(rows, base, x, width)
    requires forall k :: Expected(base, x, k, width) == Expected(base, y, k, width)
    ensures Counts(rows, base, y, width)
  {
    forall k ensures View(rows, k) == Expected(base, y, k, width) {
      assert View(rows, k) == Expected(base, x, k, width);
    }
  }

  // ------------------------------------- where the guarantee actually ends

  /** Both stretches of the log hold ticks of `k`. */
  ghost predicate SharedKey(a: seq<Entry>, b: seq<Entry>, k: Key, width: int)
    requires width > 0
  {
    PricesAt(a, k, width) != [] && PricesAt(b, k, width) != []
  }

  /**
    A replay page that straddles the committed boundary (a different page size
    after a restart, or a swallowed failure to acknowledge) counts the right
    entries exactly when no minute has ticks on both sides of the boundary.
   */
  lemma StraddlingPageIsExactIff(base: map<Key, Row>, a: seq<Entry>, done: seq<Entry>, rest: seq<Entry>,
                                 rows: map<Key, Row>, batch: Columns, width: int)
    requires width > 0 && Ordered(a + done + rest) && Predates(base, a + done + rest)
    requires Counts(rows, base, a + done, width) && BatchOf(batch, done + rest, width)
    ensures Counts(Upsert(rows, batch), base, a + done + rest, width)
      <==> forall k :: !SharedKey(done, rest, k, width)
  {
    var es, rows' := a + done + rest, Upsert(rows, batch);
    forall k ensures View(rows', k) == Expected(base, es, k, width) <==> !SharedKey(done, rest, k, width) {
      assert View(rows, k) == Expected(base, a + done, k, width) && Carries(batch, done + rest, k, width);
      StraddlingRow(base, a, done, rest, rows, batch, k, width);
    }
    IffPerKey(rows', base, es, width, k => !SharedKey(done, rest, k, width));
  }

  lemma IffPerKey(rows: map<Key, Row>, base: map<Key, Row>, es: seq<Entry>, width: int, ok: Key -> bool)
    requires width > 0 && forall k :: View(rows, k) == Expected(base, es, k, width) <==> ok(k)
    ensures Counts(rows, base, es, width) <==> forall k :: ok(k)
  {
    if Counts(rows, base, es, width) {
      forall k ensures ok(k) {
        assert View(rows, k) == Expected(base, es, k, width);
      }
    }
  }

  lemma StraddlingRow(base: map<Key, Row>, a: seq<Entry>, done: seq<Entry>, rest: seq<Entry>,
                      rows: map<Key, Row>, batch: Columns, k: Key, width: int)
    requires width > 0 && Ordered(a + done + rest) && Predates(base, a + done + rest)
    requires View(rows, k) == Expected(base, a + done, k, width) && Carries(batch, done + rest, k, width)
    ensures View(Upsert(rows, batch), k) == Expected(base, a + done + rest, k, width)
      <==> !SharedKey(done, rest, k, width)
  {
    var pd, pf := PricesAt(done, k, width), PricesAt(rest, k, width);
    UpsertFoldsOrSkips(rows, batch, done + rest, k, width);
    ExpectedInTwoSteps(base, a + done, rest, k, width);
    PricesAreAdditive(done, rest, k, width);
    PricesHaveALastId(rest, k, width);
    if pf == [] {
      assert pd + pf == pd;
      if pd != [] {
        PricesHaveALastId(done, k, width);
        ExpectedInTwoSteps(base, a, done, k, width);
        assert k in rows && !Before(rows[k].last, At(batch, k).last);
      }
    } else {
      assert Predates(base, rest) by {
        assert forall i | 0 <= i < |rest| :: rest[i] == (a + done + rest)[|a + done| + i];
      }
      if k in rows {
        WatermarkIsBelow(base, a + done, rest, k, width);
      }
      if pd == [] {
        assert pd + pf == pf;
      } else {
        TicksOfFold(View(rows, k), pd + pf, LastId(rest, k, width));
        TicksOfFold(View(rows, k), pf, LastId(rest, k, width));
      }
    }
  }

  /**
    Committing a later stretch before an earlier one (a holder that drains its own
    pending entries although another consumer's are older) loses the earlier ticks of
    every minute the two stretches share, and of no other minute.
   */
  lemma LateBeforeEarlyIsExactIff(base: map<Key, Row>, a: seq<Entry>, early: seq<Entry>, late: seq<Entry>,
                                  rows: map<Key, Row>, first: Columns, second: Columns, width: int)
    requires width > 0 && Ordered(a + early + late) && Predates(base, a + early + late)
    requires Counts(rows, base, a, width)
    requires BatchOf(first, late, width) && BatchOf(second, early, width)
    ensures Counts(Upsert(Upsert(rows, first), second), base, a + early + late, width)
      <==> forall k :: !SharedKey(early, late, k, width)
  {
    var rows' := Upsert(Upsert(rows, first), second);
    forall k ensures View(rows', k) == Expected(base, a + early + late, k, width) <==> !SharedKey(early, late, k, width) {
      assert View(rows, k) == Expected(base, a, k, width) && Carries(first, late, k, width) && Carries(second, early, k, width);
      LateBeforeEarlyRow(base, a, early, late, rows, first, second, k, width);
    }
    IffPerKey(rows', base, a + early + late, width, k => !SharedKey(early, late, k, width));
  }

  lemma LateBeforeEarlyRow(base: map<Key, Row>, a: seq<Entry>, early: seq<Entry>, late: seq<Entry>,
                           rows: map<Key, Row>, first: Columns, second: Columns, k: Key, width: int)
    requires width > 0 && Ordered(a + early + late) && Predates(base, a + early + late)
    requires View(rows, k) == Expected(base, a, k, width)
    requires Carries(first, late, k, width) && Carries(second, early, k, width)
    ensures View(Upsert(Upsert(rows, first), second), k) == Expected(base, a + early + late, k, width)
      <==> !SharedKey(early, late, k, width)
  {
    Suborders(a, early, late);
    assert Predates(base, late) && Predates(base, early) by {
      assert forall i | 0 <= i < |late| :: late[i] == (a + early + late)[|a + early| + i];
      assert forall i | 0 <= i < |early| :: early[i] == (a + early + late)[|a| + i];
    }
    var middle := Upsert(rows, first);
    RowOfNewBatch(base, a, late, rows, first, k, width);
    UpsertFoldsOrSkips(middle, second, early, k, width);
    ExpectedInTwoSteps(base, a, early, k, width);
    ExpectedInTwoSteps(base, a, late, k, width);
    ExpectedInTwoSteps(base, a + early, late, k, width);
    LateBeforeEarlyCases(base, a, early, late, middle, second, k, width);
  }

  lemma LateBeforeEarlyCases(base: map<Key, Row>, a: seq<Entry>, early: seq<Entry>, late: seq<Entry>,
                             middle: map<Key, Row>, second: Columns, k: Key, width: int)
    requires width > 0 && Ordered(a + early) && Ordered(early + late) && Predates(base, early)
    requires View(middle, k) == Fold(Expected(base, a, k, width), PricesAt(late, k, width), LastId(late, k, width))
    requires Carries(second, early, k, width)
    ensures View(Upsert(middle, second), k) ==
        Fold(Fold(Expected(base, a, k, width), PricesAt(early, k, width), LastId(early, k, width)),
             PricesAt(late, k, width), LastId(late, k, width))
      <==> !SharedKey(early, late, k, width)
  {
    var v, pe, pl := Expected(base, a, k, width), PricesAt(early, k, width), PricesAt(late, k, width);
    UpsertFoldsOrSkips(middle, second, early, k, width);
    PricesHaveALastId(early, k, width);
    PricesHaveALastId(late, k, width);
    if pe != [] && pl != [] {
      LastIdsAreOrdered(early, late, k, width);
      TicksOfFold(v, pe, LastId(early, k, width));
      TicksOfFold(Fold(v, pe, LastId(early, k, width)), pl, LastId(late, k, width));
      TicksOfFold(v, pl, LastId(late, k, width));
    } else if pe != [] && v.Some? {
      WatermarkIsBelow(base, a, early, k, width);
    }
  }

  lemma Suborders(a: seq<Entry>, b: seq<Entry>, c: seq<Entry>)
    requires Ordered(a + b + c)
    ensures Ordered(a + b) && Ordered(a + c) && Ordered(b + c)
  {
    var es := a + b + c;
    assert forall i | 0 <= i < |a + b| :: (a + b)[i] == es[i];
    assert forall i | 0 <= i < |b + c| :: (b + c)[i] == es[|a| + i];
    forall i, j | 0 <= i < j < |a + c| ensures Before((a + c)[i].id, (a + c)[j].id) {
      var i', j' := if i < |a| then i else |b| + i, if j < |a| then j else |b| + j;
      assert (a + c)[i] == es[i'] && (a + c)[j] == es[j'];
    }
  }

  // ------------------------------------------------------- the statement run

  /** The table itself. A statement over many column sets runs them one by one in one transaction. */
  class Database {
    var rows: map<Key, Row>

    constructor (rows: map<Key, Row>)
      ensures this.rows == rows
    {
      this.rows := rows;
    }

    method UpsertBars(batch: Columns) returns (written: nat)
      modifies this
      ensures rows == Upsert(old(rows), batch)
      ensures written == |batch.stats|
    {
      hide UpsertRow, At;
      written := |batch.stats|;
      var table, left := rows, batch.stats.Keys;
      while left != {}
        invariant rows == old(rows) && PartlyUpserted(table, rows, batch, left)
        decreases left
      {
        var k :| k in left;
        UpsertOneMore(table, rows, batch, left, k);
        table := table[k := UpsertRow(Lookup(table, k), At(batch, k))];
        left := left - {k};
      }
      PartlyUpsertedAtLast(table, rows, batch);
      rows := table;
    }
  }
}
