/**
  The persister: entries are folded into memory one by one, flushed to the table,
  and only then acknowledged. Each method is shown to take exactly the steps of
  the delivery protocol it stands for, so what every run keeps holds of it.
 */
module Persister {
  import opened Bars
  import opened BarsTable
  import opened ConsumerGroup
  import opened Delivery
  import opened Draining
  import opened TickLog
  import opened WorkerMemory
  import opened Wrappers

  lemma WithoutNone(pel: seq<Pending>)
    ensures Without(pel, []) == pel
  {
    WithoutPrefix(pel, 0, []);
  }

  lemma RestartIsReady(s: System)
    requires s.holder.Some? && s.holder.value.phase.Draining? && !s.holder.value.committed && s.holder.value.unacked == []
    requires exists m :: s.holder.value.mem == Restarted(m)
    requires Distinct(s.pel)
    ensures Ready(s)
  {}

  /** A turn, by what it finds. */
  lemma TurnOf(cfg: Config, s: System)
    requires ValidConfig(cfg) && Ready(s) && PagesParse(s.log, Own(s.pel, s.holder.value.owner), cfg.pageSize)
    ensures var read := ReadOwnStep(cfg, s, s.holder.value);
      && read.holder.Some? && Turn(cfg, s) == FlushSteps(read)
      && (Own(s.pel, s.holder.value.owner) == [] ==> read == Turn(cfg, s))
    ensures var own, s' := Own(s.pel, s.holder.value.owner), Turn(cfg, s);
      if own == [] then s' == s.(holder := Some(s.holder.value.(phase := Claiming(0))))
      else
        && Ready(s') && s'.log == s.log && Others(s'.pel, s.holder.value.owner) == Others(s.pel, s.holder.value.owner)
        && Own(s'.pel, s.holder.value.owner) == own[|FirstOf(own, cfg.pageSize)|..]
        && PagesParse(s.log, Own(s'.pel, s.holder.value.owner), cfg.pageSize)
  {
    ReadyDrains(s);
    hide Ready, Own, Others, SomeParses, AckStep, CommitStep, Load;
    if Own(s.pel, s.holder.value.owner) == [] {
      LastTurn(cfg, s);
    } else {
      TurnTakesPage(cfg, s);
    }
  }

  class Persister {
    const cfg: Config
    const owner: string
    const redis: Group
    const db: Database

    var accs: map<Key, Stats>
    var maxId: map<Key, Id>
    var lastPrice: map<string, real>
    var lastBucket: map<string, int>
    var provider: map<string, string>
    var unacked: seq<nat>

    constructor (cfg: Config, owner: string, redis: Group, db: Database)
      ensures this.cfg == cfg && this.owner == owner && this.redis == redis && this.db == db
      ensures Mem() == EMPTY && unacked == []
    {
      this.cfg, this.owner, this.redis, this.db := cfg, owner, redis, db;
      accs, maxId, lastPrice, lastBucket, provider, unacked := map[], map[], map[], map[], map[], [];
    }

    function Mem(): Memory
      reads this
    {
      Memory(accs, maxId, lastPrice, lastBucket, provider)
    }

    /** The whole protocol state while this consumer holds the lease in the given phase. */
    ghost function State(phase: Phase): System
      reads this, redis, db
    {
      System(redis.log, redis.delivered, redis.pel, db.rows, Some(Worker(owner, phase, Mem(), unacked, false)))
    }

    method IngestEntry(e: Entry)
      requires cfg.width > 0
      modifies this`accs, this`maxId, this`lastPrice, this`lastBucket, this`provider
      ensures Mem() == Ingest(cfg, old(Mem()), e)
    {
      hide AddObs, StartStats, Mid, Before, KeyOf;
      if e.fields.Some? {
        var t := e.fields.value;
        var k := KeyOf(t, cfg.width);
        if t.symbol in provider && provider[t.symbol] != t.provider {
          lastPrice := Drop(lastPrice, t.symbol);
        }
        provider := provider[t.symbol := t.provider];
        if t.symbol in lastBucket && k.bucket - lastBucket[t.symbol] > cfg.width * GAP_BAR_MULTIPLE {
          lastPrice := Drop(lastPrice, t.symbol);
        }
        assert Lookup(lastPrice, t.symbol) == PreviousPrice(cfg, old(Mem()), t);
        lastBucket := lastBucket[t.symbol := k.bucket];
        Accumulate(k, t, e.id);
      }
    }

    /** The tick into its minute's accumulator, measured from the price still held. */
    method Accumulate(k: Key, t: Tick, id: Id)
      modifies this`accs, this`maxId, this`lastPrice
      ensures accs == old(accs)[k := AddObs(cfg.ln, if k in old(accs) then old(accs)[k] else StartStats(Mid(t)),
                                            Obs(Mid(t), Lookup(old(lastPrice), t.symbol)))]
      ensures maxId == if k in old(maxId) && !Before(old(maxId)[k], id) then old(maxId) else old(maxId)[k := id]
      ensures lastPrice == old(lastPrice)[t.symbol := Mid(t)]
    {
      var acc := if k in accs then accs[k] else StartStats(Mid(t));
      accs := accs[k := AddObs(cfg.ln, acc, Obs(Mid(t), Lookup(lastPrice, t.symbol)))];
      lastPrice := lastPrice[t.symbol := Mid(t)];
      if k !in maxId || Before(maxId[k], id) {
        maxId := maxId[k := id];
      }
    }

    /** Fold a page in, entry by entry, remembering what to acknowledge. */
    method Receive(page: seq<nat>)
      requires cfg.width > 0
      modifies this
      ensures Mem() == IngestAll(cfg, old(Mem()), Entries(redis.log, page))
      ensures unacked == old(unacked) + page
    {
      for i := 0 to |page|
        invariant Mem() == IngestAll(cfg, old(Mem()), Entries(redis.log, page)[..i])
        invariant unacked == old(unacked) + page[..i]
      {
        ghost var es := Entries(redis.log, page);
        assert es[..i + 1][..i] == es[..i];
        IngestEntry(if page[i] < |redis.log| then redis.log[page[i]] else Entry(Id(0, 0), None));
        unacked := unacked + [page[i]];
      }
      assert Entries(redis.log, page)[..|page|] == Entries(redis.log, page);
    }

    /** Commit, then acknowledge; with nothing accumulated, neither. */
    method Flush(ghost phase: Phase) returns (written: nat)
      modifies this, redis`pel, db
      ensures State(phase) == FlushSteps(old(State(phase)))
      ensures written == |old(accs)|
    {
      hide Upsert, Without;
      if accs == map[] {
        return 0;
      }
      ghost var s := State(phase);
      ghost var w := s.holder.value;
      written := db.UpsertBars(Batch(Mem()));
      if unacked != [] {
        redis.Ack(unacked);
      } else {
        WithoutNone(redis.pel);
      }
      assert redis.pel == Without(s.pel, w.unacked) && redis.log == s.log && redis.delivered == s.delivered;
      accs, maxId, unacked := map[], map[], [];
      assert Mem() == Flushed(w.mem);
    }

    /** The start of a run: whatever a failed flush left in memory will be replayed, so it is dropped. */
    method Restart()
      modifies this
      ensures Mem() == Restarted(old(Mem())) && unacked == []
    {
      accs, maxId, lastPrice, unacked := map[], map[], map[], [];
    }

    /** One turn of the loop over this consumer's own pending entries. */
    method DrainPage() returns (n: nat)
      requires cfg.width > 0
      modifies this, redis`pel, db
      ensures n == |FirstOf(Own(old(redis.pel), owner), cfg.pageSize)|
      ensures var s := ReadOwnStep(cfg, old(State(Draining)), old(State(Draining)).holder.value);
        if n == 0 then State(Claiming(0)) == s else State(Draining) == FlushSteps(s)
    {
      var page := redis.ReadOwn(owner, cfg.pageSize);
      n := |page|;
      if n > 0 {
        Receive(page);
        var _ := Flush(Draining);
      }
    }

    /** This consumer as it starts to drain. */
    ghost function Started(): System
      reads this, redis, db
    {
      System(redis.log, redis.delivered, redis.pel, db.rows, Some(Worker(owner, Draining, Restarted(Mem()), [], false)))
    }

    /** The whole drain, where it ends: when every page holds an entry that parses. */
    method DrainOwnPending() returns (total: nat)
      requires ValidConfig(cfg) && Distinct(redis.pel)
      requires PagesParse(redis.log, Own(redis.pel, owner), cfg.pageSize)
      modifies this, redis`pel, db
      ensures DrainedAll(old(Started()), State(Claiming(0)))
      ensures exists turns :: State(Claiming(0)) == Drained(cfg, old(Started()), turns)
      ensures total == |Own(old(redis.pel), owner)|
    {
      hide Turn, ReadOwnStep, FlushSteps, Own, Others, SomeParses, Distinct, Restarted;
      ghost var s0, turns, all := Started(), 0, Own(redis.pel, owner);
      Restart();
      RestartIsReady(s0);
      total := 0;
      var n: nat := 1;
      while n > 0
        invariant n == 0 ==> DrainedAll(s0, State(Claiming(0))) && State(Claiming(0)) == Drained(cfg, s0, turns) && total == |all|
        invariant n > 0 ==> Ready(State(Draining)) && State(Draining) == Drained(cfg, s0, turns)
        invariant n > 0 ==> PagesParse(redis.log, Own(redis.pel, owner), cfg.pageSize)
        invariant Others(redis.pel, owner) == Others(old(redis.pel), owner)
        invariant redis.log == old(redis.log) && total + |Own(redis.pel, owner)| == |all|
        decreases n > 0, |Own(redis.pel, owner)|
      {
        ghost var s := State(Draining);
        DrainedMore(cfg, s0, turns);
        n := DrainPage();
        TurnOf(cfg, s);
        turns, total := turns + 1, total + n;
      }
    }

    /** One turn of the loop over everyone's pending entries. */
    method ClaimPage(cursor: nat) returns (n: nat, next: nat)
      requires cfg.width > 0
      modifies this, redis`pel, db
      ensures var s := ClaimStep(cfg, old(State(Claiming(cursor))), old(State(Claiming(cursor))).holder.value, cursor);
        if n == 0 then State(Steady) == s else State(Claiming(next)) == FlushSteps(s)
    {
      var page := redis.AutoClaim(owner, cursor, cfg.pageSize);
      n, next := |page|, cursor;
      if n > 0 {
        next := page[n - 1] + 1;
        Receive(page);
        var _ := Flush(Claiming(next));
      } else {
        assert redis.pel == old(redis.pel);
      }
    }

    /** One turn of the steady loop: new entries, and a flush when one is due. */
    method ReadBatch(n: nat, due: bool)
      requires cfg.width > 0 && redis.delivered + n <= |redis.log|
      modifies this, redis`pel, redis`delivered, db
      ensures var s := ReadNewStep(cfg, old(State(Steady)), old(State(Steady)).holder.value, n);
        State(Steady) == if due then FlushSteps(s) else s
    {
      var page := redis.ReadNew(owner, n);
      Receive(page);
      if due {
        var _ := Flush(Steady);
      }
    }
  }
}
