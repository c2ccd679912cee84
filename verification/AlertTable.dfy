/**
  The alert persister: batches of logged transitions, delivered at least once, into a
  table keyed by (symbol, number), every conflict classified before the batch is
  acknowledged. A row's further columns travel with its timestamp and are not modelled.
 */
module AlertTable {
  import opened Adoption
  import opened Wrappers

  datatype AlertKey = AlertKey(symbol: string, seqNo: int)

  function KeyOf(r: Emitted): AlertKey { AlertKey(r.symbol, r.seqNo) }

  type Table = map<AlertKey, Emitted>

  /** Insert, and do nothing on conflict: the first row of a key stays. */
  function InsertAll(t: Table, rows: seq<Emitted>): Table {
    if rows == [] then t
    else
      var u, r := InsertAll(t, rows[..|rows| - 1]), rows[|rows| - 1];
      if KeyOf(r) in u then u else u[KeyOf(r) := r]
  }

  /** The keys of the batch that were already stored, once per row. */
  function Conflicted(t: Table, rows: seq<Emitted>): seq<AlertKey> {
    if rows == [] then []
    else
      var front, k := Conflicted(t, rows[..|rows| - 1]), KeyOf(rows[|rows| - 1]);
      if k in t then front + [k] else front
  }

  /** The last row of the batch with this key. */
  function Incoming(rows: seq<Emitted>, k: AlertKey): Option<Emitted> {
    if rows == [] then None
    else if KeyOf(rows[|rows| - 1]) == k then Some(rows[|rows| - 1])
    else Incoming(rows[..|rows| - 1], k)
  }

  /** A conflict is a redelivery when what is stored carries the incoming timestamp. */
  predicate Redelivered(t: Table, rows: seq<Emitted>, k: AlertKey) {
    k in t && Incoming(rows, k).Some? && t[k].ts == Incoming(rows, k).value.ts
  }

  function Collisions(t: Table, rows: seq<Emitted>, ks: seq<AlertKey>): nat {
    if ks == [] then 0
    else Collisions(t, rows, ks[..|ks| - 1]) + if Redelivered(t, rows, ks[|ks| - 1]) then 0 else 1
  }

  lemma NothingInserted(t: Table, rows: seq<Emitted>)
    ensures InsertAll(t, rows[..0]) == t && Conflicted(t, rows[..0]) == []
  {}

  lemma InsertNext(t: Table, rows: seq<Emitted>, i: nat)
    requires i < |rows|
    ensures var u, r := InsertAll(t, rows[..i]), rows[i];
      InsertAll(t, rows[..i + 1]) == if KeyOf(r) in u then u else u[KeyOf(r) := r]
  {
    assert rows[..i + 1][..i] == rows[..i];
  }

  lemma ConflictedNext(t: Table, rows: seq<Emitted>, i: nat)
    requires i < |rows|
    ensures Conflicted(t, rows[..i + 1]) == Conflicted(t, rows[..i]) + if KeyOf(rows[i]) in t then [KeyOf(rows[i])] else []
  {
    assert rows[..i + 1][..i] == rows[..i];
  }

  lemma KeysAdd(a: Table, b: Table, more: set<AlertKey>)
    requires b.Keys == a.Keys + more && a.Keys !! more
    ensures |b| == |a| + |more|
  {
    assert |b| == |b.Keys| && |a| == |a.Keys|;
  }

  class AlertPersister {
    var table: Table
    var written: nat
    var redelivered: nat
    var collisions: nat

    constructor ()
      ensures table == map[] && written == redelivered == collisions == 0
    {
      table, written, redelivered, collisions := map[], 0, 0, 0;
    }

    /** One statement: the rows that landed, and the keys of those that did not. */
    method InsertAlerts(rows: seq<Emitted>) returns (inserted: nat, conflicted: seq<AlertKey>)
      modifies this`table
      ensures table == InsertAll(old(table), rows)
      ensures inserted == |table| - |old(table)| && conflicted == Conflicted(old(table), rows)
    {
      hide InsertAll, Conflicted;
      var landed: set<AlertKey> := {};
      NothingInserted(table, rows);
      for i := 0 to |rows|
        invariant table == InsertAll(old(table), rows[..i])
        invariant table.Keys == old(table).Keys + landed && old(table).Keys !! landed
        invariant forall j | 0 <= j < i :: KeyOf(rows[j]) in table
      {
        InsertNext(old(table), rows, i);
        if KeyOf(rows[i]) !in table {
          table := table[KeyOf(rows[i]) := rows[i]];
          landed := landed + {KeyOf(rows[i])};
        }
      }
      assert rows[..|rows|] == rows;
      KeysAdd(old(table), table, landed);
      inserted := |landed|;
      conflicted := [];
      for i := 0 to |rows|
        invariant table == InsertAll(old(table), rows)
        invariant conflicted == Conflicted(old(table), rows[..i])
      {
        ConflictedNext(old(table), rows, i);
        if KeyOf(rows[i]) !in landed {
          conflicted := conflicted + [KeyOf(rows[i])];
        }
      }
    }

    /** Commit a batch and classify its conflicts; the acknowledgement comes after. */
    method Flush(rows: seq<Emitted>)
      modifies this
      ensures table == InsertAll(old(table), rows)
      ensures written == old(written) + |table| - |old(table)|
      ensures collisions == old(collisions) + Collisions(table, rows, Conflicted(old(table), rows))
      ensures redelivered + collisions == old(redelivered) + old(collisions) + |Conflicted(old(table), rows)|
    {
      if rows == [] {
        return;
      }
      var inserted, conflicted := InsertAlerts(rows);
      written := written + inserted;
      for i := 0 to |conflicted|
        invariant table == InsertAll(old(table), rows) && written == old(written) + inserted
        invariant collisions == old(collisions) + Collisions(table, rows, conflicted[..i])
        invariant redelivered + collisions == old(redelivered) + old(collisions) + i
      {
        assert conflicted[..i + 1][..i] == conflicted[..i];
        if Redelivered(table, rows, conflicted[i]) {
          redelivered := redelivered + 1;
        } else {
          collisions := collisions + 1;
        }
      }
      assert conflicted[..|conflicted|] == conflicted;
    }
  }

  // --------------------------------------------------------------- every delivery

  /** Batches delivered one after the other. */
  function Deliver(t: Table, batches: seq<seq<Emitted>>): Table {
    if batches == [] then t else InsertAll(Deliver(t, batches[..|batches| - 1]), batches[|batches| - 1])
  }

  function AllCollisions(t: Table, batches: seq<seq<Emitted>>): nat {
    if batches == [] then 0
    else
      var k := |batches| - 1;
      var before := Deliver(t, batches[..k]);
      AllCollisions(t, batches[..k]) + Collisions(InsertAll(before, batches[k]), batches[k], Conflicted(before, batches[k]))
  }

  /** Every batch is of entries of the log, any of them any number of times. */
  ghost predicate FromLog(log: seq<Emitted>, batches: seq<seq<Emitted>>) {
    forall i | 0 <= i < |batches| :: forall r | r in batches[i] :: r in log
  }

  ghost predicate Stores(t: Table, log: seq<Emitted>) { forall k | k in t :: t[k] in log && KeyOf(t[k]) == k }

  lemma SameKeySameEntry(log: seq<Emitted>, a: Emitted, b: Emitted)
    requires NumberedOnce(log) && a in log && b in log && KeyOf(a) == KeyOf(b)
    ensures a == b
  {
    var i :| 0 <= i < |log| && log[i] == a;
    var j :| 0 <= j < |log| && log[j] == b;
    assert i < j ==> a.seqNo < b.seqNo;
    assert j < i ==> b.seqNo < a.seqNo;
  }

  lemma {:induction false} InsertStores(t: Table, rows: seq<Emitted>, log: seq<Emitted>)
    requires Stores(t, log) && forall r | r in rows :: r in log
    ensures Stores(InsertAll(t, rows), log)
    ensures forall r | r in rows :: KeyOf(r) in InsertAll(t, rows)
    ensures forall k | k in t :: k in InsertAll(t, rows) && InsertAll(t, rows)[k] == t[k]
    ensures forall k | k in InsertAll(t, rows) :: k in t || InsertAll(t, rows)[k] in rows
  {
    if rows != [] {
      var front, r := rows[..|rows| - 1], rows[|rows| - 1];
      assert rows == front + [r];
      InsertStores(t, front, log);
    }
  }

  lemma {:induction false} IncomingIsThere(rows: seq<Emitted>, k: AlertKey)
    ensures Incoming(rows, k).Some? ==> Incoming(rows, k).value in rows && KeyOf(Incoming(rows, k).value) == k
    ensures (exists r | r in rows :: KeyOf(r) == k) ==> Incoming(rows, k).Some?
  {
    if rows != [] {
      assert rows == rows[..|rows| - 1] + [rows[|rows| - 1]];
      IncomingIsThere(rows[..|rows| - 1], k);
    }
  }

  lemma {:induction false} ConflictedHas(t: Table, rows: seq<Emitted>)
    ensures forall k | k in Conflicted(t, rows) :: k in t && exists r :: r in rows && KeyOf(r) == k
  {
    if rows != [] {
      var front, r := rows[..|rows| - 1], rows[|rows| - 1];
      assert rows == front + [r];
      ConflictedHas(t, front);
      forall k | k in Conflicted(t, rows)
        ensures k in t && exists r :: r in rows && KeyOf(r) == k
      {
        if k == KeyOf(r) {
          assert r in rows;
        } else {
          assert k in Conflicted(t, front);
          var x :| x in front && KeyOf(x) == k;
          assert x in rows;
        }
      }
    }
  }

  lemma {:induction false} NoneCollide(t: Table, rows: seq<Emitted>, ks: seq<AlertKey>)
    requires forall k | k in ks :: Redelivered(t, rows, k)
    ensures Collisions(t, rows, ks) == 0
  {
    if ks != [] {
      assert ks == ks[..|ks| - 1] + [ks[|ks| - 1]];
      NoneCollide(t, rows, ks[..|ks| - 1]);
    }
  }

  lemma BatchHasNoCollision(t: Table, rows: seq<Emitted>, log: seq<Emitted>)
    requires NumberedOnce(log) && Stores(t, log) && forall r | r in rows :: r in log
    ensures Collisions(InsertAll(t, rows), rows, Conflicted(t, rows)) == 0
  {
    InsertStores(t, rows, log);
    ConflictedHas(t, rows);
    var after := InsertAll(t, rows);
    forall k | k in Conflicted(t, rows)
      ensures Redelivered(after, rows, k)
    {
      IncomingIsThere(rows, k);
      SameKeySameEntry(log, after[k], Incoming(rows, k).value);
    }
    NoneCollide(after, rows, Conflicted(t, rows));
  }

  /** Delivered at least once, stored once: the table is exactly the delivered entries, and no conflict is a collision. */
  lemma {:induction false} DeliveriesAreIdempotent(log: seq<Emitted>, batches: seq<seq<Emitted>>)
    requires NumberedOnce(log) && FromLog(log, batches)
    ensures var t := Deliver(map[], batches);
      && Stores(t, log)
      && (forall i | 0 <= i < |batches| :: forall r | r in batches[i] :: KeyOf(r) in t && t[KeyOf(r)] == r)
      && (forall k | k in t :: exists i :: 0 <= i < |batches| && t[k] in batches[i])
    ensures AllCollisions(map[], batches) == 0
  {
    if batches != [] {
      var front, rows := batches[..|batches| - 1], batches[|batches| - 1];
      assert batches == front + [rows];
      DeliveriesAreIdempotent(log, front);
      var before := Deliver(map[], front);
      assert forall r | r in rows :: r in log;
      InsertStores(before, rows, log);
      BatchHasNoCollision(before, rows, log);
      var t := InsertAll(before, rows);
      forall i, r | 0 <= i < |batches| && r in batches[i]
        ensures KeyOf(r) in t && t[KeyOf(r)] == r
      {
        if i < |front| {
          assert front[i] == batches[i];
        } else {
          SameKeySameEntry(log, t[KeyOf(r)], r);
        }
      }
      forall k | k in t
        ensures exists i :: 0 <= i < |batches| && t[k] in batches[i]
      {
        if k in before {
          var i :| 0 <= i < |front| && before[k] in front[i];
          assert t[k] in batches[i];
        } else {
          assert t[k] in batches[|front|];
        }
      }
    }
  }

  /**
    From the switches to the table: over any provider switches, deaths and promotions,
    and any redelivery of what they logged, every conflict the persister meets is
    classified as a redelivery, and each transition delivered is stored once.
   */
  lemma EveryConflictIsARedelivery(es: seq<Event>, batches: seq<seq<Emitted>>)
    requires Legal(START, es)
    requires FromLog(Run(START, es).log, batches)
    ensures AllCollisions(map[], batches) == 0
    ensures forall i | 0 <= i < |batches| :: forall r | r in batches[i] ::
      KeyOf(r) in Deliver(map[], batches) && Deliver(map[], batches)[KeyOf(r)] == r
  {
    NoNumberIsReused(es);
    DeliveriesAreIdempotent(Run(START, es).log, batches);
  }

  // ------------------------------------------- when the classification is right

  /** Row `i` is reported as a collision: its key was stored, and the batch's last row of that key has another timestamp. */
  predicate Counted(t: Table, rows: seq<Emitted>, i: int)
    requires 0 <= i < |rows|
  {
    KeyOf(rows[i]) in t && !Redelivered(InsertAll(t, rows), rows, KeyOf(rows[i]))
  }

  /** Row `i` is not what the table holds under its key once the batch is in: it is lost. */
  predicate Lost(t: Table, rows: seq<Emitted>, i: int)
    requires 0 <= i < |rows|
  {
    var after := InsertAll(t, rows);
    KeyOf(rows[i]) in after && after[KeyOf(rows[i])].ts != rows[i].ts
  }

  /** Every row lost is reported, and none that is stored or merely redelivered. */
  ghost predicate ReportsTheLost(t: Table, rows: seq<Emitted>) {
    forall i | 0 <= i < |rows| :: Counted(t, rows, i) <==> Lost(t, rows, i)
  }

  predicate SameVerdict(t: Table, a: Emitted, b: Emitted) {
    if KeyOf(a) in t then a.ts == t[KeyOf(a)].ts <==> b.ts == t[KeyOf(a)].ts else a.ts == b.ts
  }

  /** Rows of one key agree: with each other, if the key is new; on whether they are the stored one, if it is not. */
  ghost predicate Agree(t: Table, rows: seq<Emitted>) {
    forall i, j | 0 <= i < |rows| && 0 <= j < |rows| && KeyOf(rows[i]) == KeyOf(rows[j]) :: SameVerdict(t, rows[i], rows[j])
  }

  /** No two rows of the batch share a number with different timestamps. */
  ghost predicate Consistent(rows: seq<Emitted>) {
    forall i, j | 0 <= i < |rows| && 0 <= j < |rows| && KeyOf(rows[i]) == KeyOf(rows[j]) :: rows[i].ts == rows[j].ts
  }

  /** The first row of the batch with a key. */
  lemma {:induction false} FirstOf(rows: seq<Emitted>, k: AlertKey) returns (f: int)
    requires exists i | 0 <= i < |rows| :: KeyOf(rows[i]) == k
    ensures 0 <= f < |rows| && KeyOf(rows[f]) == k && forall i | 0 <= i < f :: KeyOf(rows[i]) != k
  {
    f := 0;
    while KeyOf(rows[f]) != k
      invariant 0 <= f < |rows| && forall i | 0 <= i < f :: KeyOf(rows[i]) != k
      decreases |rows| - f
    {
      f := f + 1;
    }
  }

  /** What a key holds afterwards: what it held, or else the batch's first row of it. */
  lemma {:induction false} StoredIs(t: Table, rows: seq<Emitted>, k: AlertKey)
    ensures k in t ==> k in InsertAll(t, rows) && InsertAll(t, rows)[k] == t[k]
    ensures k in InsertAll(t, rows) ==> k in t || exists i | 0 <= i < |rows| :: KeyOf(rows[i]) == k
  {
    if rows != [] {
      var front := rows[..|rows| - 1];
      StoredIs(t, front, k);
      if i :| 0 <= i < |front| && KeyOf(front[i]) == k {
        assert KeyOf(rows[i]) == k;
      }
    }
  }

  lemma {:induction false} FirstIsStored(t: Table, rows: seq<Emitted>, f: int)
    requires 0 <= f < |rows| && KeyOf(rows[f]) !in t && forall i | 0 <= i < f :: KeyOf(rows[i]) != KeyOf(rows[f])
    ensures KeyOf(rows[f]) in InsertAll(t, rows) && InsertAll(t, rows)[KeyOf(rows[f])] == rows[f]
  {
    var front := rows[..|rows| - 1];
    if f < |front| {
      FirstIsStored(t, front, f);
    } else {
      StoredIs(t, front, KeyOf(rows[f]));
    }
  }

  /** The batch's last row of a key is one of its rows of that key. */
  lemma {:induction false} IncomingAt(rows: seq<Emitted>, k: AlertKey) returns (l: int)
    requires exists i | 0 <= i < |rows| :: KeyOf(rows[i]) == k
    ensures 0 <= l < |rows| && KeyOf(rows[l]) == k && Incoming(rows, k) == Some(rows[l])
  {
    var last := |rows| - 1;
    if KeyOf(rows[last]) == k {
      l := last;
    } else {
      var front := rows[..last];
      var i :| 0 <= i < |rows| && KeyOf(rows[i]) == k;
      assert front[i] == rows[i];
      l := IncomingAt(front, k);
    }
  }

  /** What is reported and what is lost, for one row, by the batch's first and last row of its key. */
  lemma RowFate(t: Table, rows: seq<Emitted>, i: int) returns (f: int, l: int)
    requires 0 <= i < |rows|
    ensures 0 <= f < |rows| && 0 <= l < |rows| && KeyOf(rows[f]) == KeyOf(rows[l]) == KeyOf(rows[i])
    ensures KeyOf(rows[i]) in t ==>
      && (Counted(t, rows, i) <==> t[KeyOf(rows[i])].ts != rows[l].ts)
      && (Lost(t, rows, i) <==> t[KeyOf(rows[i])].ts != rows[i].ts)
    ensures KeyOf(rows[i]) !in t ==> !Counted(t, rows, i) && (Lost(t, rows, i) <==> rows[f].ts != rows[i].ts)
  {
    hide InsertAll, Incoming;
    var k := KeyOf(rows[i]);
    f := FirstOf(rows, k);
    l := IncomingAt(rows, k);
    StoredIs(t, rows, k);
    if k !in t {
      FirstIsStored(t, rows, f);
    }
  }

  /**
    For any table and any batch: the rows reported as collisions are exactly the rows
    lost, if and only if the batch's rows of each key agree.
   */
  lemma ReportsTheLostIff(t: Table, rows: seq<Emitted>)
    ensures ReportsTheLost(t, rows) <==> Agree(t, rows)
  {
    hide Counted, Lost;
    forall i | 0 <= i < |rows|
      ensures Agree(t, rows) ==> (Counted(t, rows, i) <==> Lost(t, rows, i))
    {
      var f, l := RowFate(t, rows, i);
      if Agree(t, rows) {
        assert SameVerdict(t, rows[i], rows[l]) && SameVerdict(t, rows[f], rows[i]);
      }
    }
    if ReportsTheLost(t, rows) {
      forall i, j | 0 <= i < |rows| && 0 <= j < |rows| && KeyOf(rows[i]) == KeyOf(rows[j])
        ensures SameVerdict(t, rows[i], rows[j])
      {
        VerdictsAgree(t, rows, i, j);
      }
    }
  }

  lemma VerdictsAgree(t: Table, rows: seq<Emitted>, i: int, j: int)
    requires ReportsTheLost(t, rows) && 0 <= i < |rows| && 0 <= j < |rows| && KeyOf(rows[i]) == KeyOf(rows[j])
    ensures SameVerdict(t, rows[i], rows[j])
  {
    var k := KeyOf(rows[i]);
    assert Counted(t, rows, i) <==> Counted(t, rows, j);
    hide Counted, Lost;
    var f, l := RowFate(t, rows, i);
    var f', l' := RowFate(t, rows, j);
    assert (Counted(t, rows, i) <==> Lost(t, rows, i)) && (Counted(t, rows, j) <==> Lost(t, rows, j));
    if k !in t {
      FirstIsOne(t, rows, f, i, j);
    }
  }

  /** With a new key and nothing lost, every row of it carries the first one's timestamp. */
  lemma FirstIsOne(t: Table, rows: seq<Emitted>, f: int, i: int, j: int)
    requires 0 <= i < |rows| && 0 <= j < |rows| && KeyOf(rows[i]) == KeyOf(rows[j]) && KeyOf(rows[i]) !in t
    requires !Lost(t, rows, i) && !Lost(t, rows, j)
    ensures rows[i].ts == rows[j].ts
  {
    hide InsertAll;
    var first := FirstOf(rows, KeyOf(rows[i]));
    FirstIsStored(t, rows, first);
  }

  /**
    Whatever is stored, a batch is reported right if and only if no two of its rows
    share a number with different timestamps.
   */
  lemma ReportsTheLostForEveryTableIff(rows: seq<Emitted>)
    ensures Consistent(rows) <==> forall t :: ReportsTheLost(t, rows)
  {
    hide ReportsTheLost;
    forall t
      ensures Consistent(rows) ==> ReportsTheLost(t, rows)
    {
      ReportsTheLostIff(t, rows);
    }
    var empty: Table := map[];
    ReportsTheLostIff(empty, rows);
    if ReportsTheLost(empty, rows) {
      forall i, j | 0 <= i < |rows| && 0 <= j < |rows| && KeyOf(rows[i]) == KeyOf(rows[j])
        ensures rows[i].ts == rows[j].ts
      {
        assert SameVerdict(empty, rows[i], rows[j]);
      }
    }
  }

  /** How many of the first `n` rows are lost. */
  function LostAmong(t: Table, rows: seq<Emitted>, n: nat): nat
    requires n <= |rows|
  {
    if n == 0 then 0 else LostAmong(t, rows, n - 1) + if Lost(t, rows, n - 1) then 1 else 0
  }

  lemma NoCollisions(t: Table, rows: seq<Emitted>)
    ensures Collisions(t, rows, []) == 0
  {}

  lemma CollisionsSnoc(t: Table, rows: seq<Emitted>, ks: seq<AlertKey>, k: AlertKey)
    ensures Collisions(t, rows, ks + [k]) == Collisions(t, rows, ks) + if Redelivered(t, rows, k) then 0 else 1
  {
    assert (ks + [k])[..|ks|] == ks;
  }

  lemma {:induction false} CollisionsAreCounted(t: Table, rows: seq<Emitted>, n: nat)
    requires n <= |rows| && ReportsTheLost(t, rows)
    ensures Collisions(InsertAll(t, rows), rows, Conflicted(t, rows[..n])) == LostAmong(t, rows, n)
  {
    hide InsertAll, Lost, Redelivered, Conflicted, Collisions;
    if n == 0 {
      NoCollisions(InsertAll(t, rows), rows);
      NothingInserted(t, rows);
    } else {
      CollisionsAreCounted(t, rows, n - 1);
      ConflictedNext(t, rows, n - 1);
      CollisionsSnoc(InsertAll(t, rows), rows, Conflicted(t, rows[..n - 1]), KeyOf(rows[n - 1]));
      assert Conflicted(t, rows[..n - 1]) + [] == Conflicted(t, rows[..n - 1]);
      assert Counted(t, rows, n - 1) <==> Lost(t, rows, n - 1);
    }
  }

  /** All rows lost over a run of batches. */
  function AllLost(t: Table, batches: seq<seq<Emitted>>): nat {
    if batches == [] then 0
    else
      var k := |batches| - 1;
      AllLost(t, batches[..k]) + LostAmong(Deliver(t, batches[..k]), batches[k], |batches[k]|)
  }

  /**
    For any log at all, numbers reused or not: while no batch holds a number with two
    timestamps, the collision counter is the number of rows the table lost.
   */
  lemma {:induction false} CollisionsAreTheLost(t: Table, batches: seq<seq<Emitted>>)
    requires forall i | 0 <= i < |batches| :: Consistent(batches[i])
    ensures AllCollisions(t, batches) == AllLost(t, batches)
  {
    if batches != [] {
      var k := |batches| - 1;
      CollisionsAreTheLost(t, batches[..k]);
      var before, rows := Deliver(t, batches[..k]), batches[k];
      ReportsTheLostForEveryTableIff(rows);
      assert rows[..|rows|] == rows;
      CollisionsAreCounted(before, rows, |rows|);
    }
  }

  /**
    One number, two transitions in one batch: over an empty table the second is lost
    unreported; over a table that holds the second, the first is; over a table that
    holds the first, its own redelivery is reported too.
   */
  lemma MixedBatchIsMisjudged(a: Emitted, b: Emitted)
    requires KeyOf(a) == KeyOf(b) && a.ts != b.ts
    ensures var k, rows := KeyOf(a), [a, b];
      && Lost(map[], rows, 1) && !Counted(map[], rows, 1)
      && Lost(map[k := b], rows, 0) && !Counted(map[k := b], rows, 0)
      && !Lost(map[k := a], rows, 0) && Counted(map[k := a], rows, 0)
  {
    var k, rows := KeyOf(a), [a, b];
    assert rows[..1] == [a] && rows[..1][..0] == [];
    MixedOver(map[], a, b);
    MixedOver(map[k := b], a, b);
    MixedOver(map[k := a], a, b);
  }

  lemma MixedOver(t: Table, a: Emitted, b: Emitted)
    requires KeyOf(a) == KeyOf(b)
    ensures InsertAll(t, [a, b]) == if KeyOf(a) in t then t else t[KeyOf(a) := a]
    ensures Incoming([a, b], KeyOf(a)) == Some(b)
  {
    var rows := [a, b];
    assert rows[..1] == [a] && [a][..0] == [];
    assert InsertAll(t, [a]) == if KeyOf(a) in t then t else t[KeyOf(a) := a] by {
      assert InsertAll(t, []) == t;
    }
  }
}
