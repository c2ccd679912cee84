/**
  The first loop of a new holder: page by page through its own pending entries. The
  loop has no bound of its own, and whether it ends is a property of the pages.
 */
module Draining {
  import opened BarsTable
  import opened ConsumerGroup
  import opened Delivery
  import opened TickLog
  import opened WorkerMemory
  import opened Wrappers

  /** A flush as the protocol sees it: nothing, or a commit and then an acknowledgement. */
  ghost function FlushSteps(s: System): (r: System)
    requires s.holder.Some?
    ensures r.holder.Some?
  {
    var w := s.holder.value;
    if w.mem.accs == map[] then s else AckStep(CommitStep(s, w), w.(committed := true))
  }

  /** One turn of the loop; after an empty page there is nothing to flush. */
  ghost function Turn(cfg: Config, s: System): (r: System)
    requires cfg.width > 0 && s.holder.Some?
    ensures r.holder.Some?
  {
    FlushSteps(ReadOwnStep(cfg, s, s.holder.value))
  }

  /** After `turns` turns, or fewer if the loop ended before. */
  ghost function Drained(cfg: Config, s: System, turns: nat): (r: System)
    requires cfg.width > 0 && s.holder.Some?
    ensures r.holder.Some?
    decreases turns
  {
    if turns == 0 || !s.holder.value.phase.Draining? then s else Drained(cfg, Turn(cfg, s), turns - 1)
  }

  predicate Parses(log: seq<Entry>, p: nat) { p < |log| && log[p].fields.Some? }

  predicate SomeParses(log: seq<Entry>, page: seq<nat>) { exists i | 0 <= i < |page| :: Parses(log, page[i]) }

  /** Cut into pages, every page holds an entry that parses. */
  predicate PagesParse(log: seq<Entry>, own: seq<nat>, size: nat)
    requires size > 0
    decreases |own|
  {
    own == [] || (SomeParses(log, FirstOf(own, size)) && PagesParse(log, own[|FirstOf(own, size)|..], size))
  }

  /** What the other consumers have pending. */
  function Others(pel: seq<Pending>, owner: string): seq<Pending> {
    if pel == [] then [] else
      (if pel[0].owner == owner then [] else [pel[0]]) + Others(pel[1..], owner)
  }

  ghost predicate Distinct(pel: seq<Pending>) { forall i, j | 0 <= i < j < |pel| :: pel[i].pos != pel[j].pos }

  /** At the top of the loop, with no flush outstanding. */
  ghost predicate Ready(s: System) {
    && s.holder.Some? && s.holder.value.phase.Draining? && Idle(s.holder.value) && s.holder.value.unacked == []
    && Distinct(s.pel)
  }

  // ---------------------------------------------------------------- one page

  lemma {:induction false} AccumulatesIff(cfg: Config, m: Memory, es: seq<Entry>)
    requires cfg.width > 0
    ensures IngestAll(cfg, m, es).accs == map[] <==> m.accs == map[] && forall i | 0 <= i < |es| :: es[i].fields.None?
  {
    if es != [] {
      var init, last := es[..|es| - 1], es[|es| - 1];
      AccumulatesIff(cfg, m, init);
      IngestAccumulates(cfg, IngestAll(cfg, m, init), last);
      assert forall i | 0 <= i < |init| :: es[i] == init[i];
    }
  }

  lemma IngestAccumulates(cfg: Config, m: Memory, e: Entry)
    requires cfg.width > 0
    ensures Ingest(cfg, m, e).accs == map[] <==> m.accs == map[] && e.fields.None?
  {
    if e.fields.Some? {
      assert KeyOf(e.fields.value, cfg.width) in Ingest(cfg, m, e).accs;
    }
  }

  lemma PageAccumulatesIff(cfg: Config, s: System, w: Worker, page: seq<nat>)
    requires cfg.width > 0 && w.mem.accs == map[]
    ensures Load(cfg, s, w, page).mem.accs != map[] <==> SomeParses(s.log, page)
  {
    var es := Entries(s.log, page);
    AccumulatesIff(cfg, w.mem, es);
    if i :| 0 <= i < |page| && Parses(s.log, page[i]) {
      assert es[i].fields.Some?;
    }
    if i :| 0 <= i < |es| && es[i].fields.Some? {
      assert Parses(s.log, page[i]);
    }
  }

  lemma {:induction false} WithoutAbsent(pel: seq<Pending>, p: nat, acked: seq<nat>)
    requires forall i | 0 <= i < |pel| :: pel[i].pos != p
    ensures Without(pel, [p] + acked) == Without(pel, acked)
  {
    if pel != [] {
      WithoutAbsent(pel[1..], p, acked);
    }
  }

  lemma {:induction false} OwnIsPending(pel: seq<Pending>, owner: string, k: nat)
    requires k < |Own(pel, owner)|
    ensures exists i | 0 <= i < |pel| :: pel[i].pos == Own(pel, owner)[k] && pel[i].owner == owner
  {
    if pel[0].owner != owner || k > 0 {
      OwnIsPending(pel[1..], owner, if pel[0].owner == owner then k - 1 else k);
      var tail := pel[1..];
      var i :| 0 <= i < |tail| && tail[i].pos == Own(pel, owner)[k] && tail[i].owner == owner;
      assert pel[i + 1] == tail[i];
    }
  }

  lemma {:induction false} WithoutIsAmong(pel: seq<Pending>, acked: seq<nat>, k: nat)
    requires k < |Without(pel, acked)|
    ensures exists i | 0 <= i < |pel| :: pel[i] == Without(pel, acked)[k]
  {
    if pel[0].pos in acked || k > 0 {
      WithoutIsAmong(pel[1..], acked, if pel[0].pos in acked then k else k - 1);
      var tail := pel[1..];
      var i :| 0 <= i < |tail| && tail[i] == Without(pel, acked)[k];
      assert pel[i + 1] == tail[i];
    }
  }

  lemma {:induction false} WithoutKeepsDistinct(pel: seq<Pending>, acked: seq<nat>)
    requires Distinct(pel)
    ensures Distinct(Without(pel, acked))
  {
    if pel != [] {
      var tail := pel[1..];
      assert forall i | 0 <= i < |tail| :: tail[i] == pel[i + 1];
      WithoutKeepsDistinct(tail, acked);
      var rest := Without(tail, acked);
      forall k | 0 <= k < |rest|
        ensures rest[k].pos != pel[0].pos
      {
        WithoutIsAmong(tail, acked, k);
      }
    }
  }

  lemma Headed(e: Pending, tail: seq<Pending>, owner: string, acked: seq<nat>)
    ensures Own([e] + tail, owner) == if e.owner == owner then [e.pos] + Own(tail, owner) else Own(tail, owner)
    ensures Others([e] + tail, owner) == if e.owner == owner then Others(tail, owner) else [e] + Others(tail, owner)
    ensures Without([e] + tail, acked) == if e.pos in acked then Without(tail, acked) else [e] + Without(tail, acked)
  {
    assert ([e] + tail)[1..] == tail;
    assert [] + Own(tail, owner) == Own(tail, owner) && [] + Others(tail, owner) == Others(tail, owner);
    assert [] + Without(tail, acked) == Without(tail, acked);
  }

  lemma AckTakesHead(e: Pending, tail: seq<Pending>, owner: string, page: seq<nat>)
    requires e.owner == owner && forall i | 0 <= i < |tail| :: tail[i].pos != e.pos
    ensures Without([e] + tail, [e.pos] + page) == Without(tail, page)
    ensures Own([e] + tail, owner) == [e.pos] + Own(tail, owner) && Others([e] + tail, owner) == Others(tail, owner)
  {
    hide Own, Others, Without;
    Headed(e, tail, owner, [e.pos] + page);
    WithoutAbsent(tail, e.pos, page);
  }

  lemma AckKeepsHead(e: Pending, tail: seq<Pending>, owner: string, page: seq<nat>)
    requires e.pos !in page
    ensures var rest := Without(tail, page);
      Own(Without([e] + tail, page), owner) == if e.owner == owner then [e.pos] + Own(rest, owner) else Own(rest, owner)
    ensures var rest := Without(tail, page);
      Others(Without([e] + tail, page), owner) == if e.owner == owner then Others(rest, owner) else [e] + Others(rest, owner)
  {
    hide Own, Others, Without;
    Headed(e, tail, owner, page);
    Headed(e, Without(tail, page), owner, page);
  }

  /** Acknowledging the first of one's own entries leaves one's others, and everybody else's. */
  lemma {:induction false} AckTakesOwn(pel: seq<Pending>, owner: string, page: seq<nat>, rest: seq<nat>)
    requires Distinct(pel) && Own(pel, owner) == page + rest
    ensures Own(Without(pel, page), owner) == rest && Others(Without(pel, page), owner) == Others(pel, owner)
  {
    if page == [] {
      WithoutPrefix(pel, 0, []);
      assert [] + rest == rest;
    } else {
      var e, tail := pel[0], pel[1..];
      DistinctTail(e, tail, pel);
      Headed(e, tail, owner, page);
      hide Own, Others, Without, Distinct;
      if e.owner == owner {
        var more := page[1..];
        OneLess(e.pos, Own(tail, owner), page, rest);
        AckTakesOwn(tail, owner, more, rest);
        AckTakesHead(e, tail, owner, more);
      } else {
        AckTakesOwn(tail, owner, page, rest);
        NotInPage(pel, owner, page);
        AckKeepsHead(e, tail, owner, page);
      }
    }
  }

  lemma OneLess(p: nat, own: seq<nat>, page: seq<nat>, rest: seq<nat>)
    requires [p] + own == page + rest && page != []
    ensures page == [p] + page[1..] && own == page[1..] + rest
  {
    assert ([p] + own)[0] == p && ([p] + own)[1..] == own;
    assert (page + rest)[0] == page[0] && (page + rest)[1..] == page[1..] + rest;
  }

  lemma DistinctTail(e: Pending, tail: seq<Pending>, pel: seq<Pending>)
    requires Distinct(pel) && pel != [] && e == pel[0] && tail == pel[1..]
    ensures pel == [e] + tail && Distinct(tail) && forall i | 0 <= i < |tail| :: tail[i].pos != e.pos
  {
    assert forall i | 0 <= i < |tail| :: tail[i] == pel[i + 1];
  }

  lemma NotInPage(pel: seq<Pending>, owner: string, page: seq<nat>)
    requires Distinct(pel) && pel != [] && page <= Own(pel[1..], owner)
    ensures pel[0].pos !in page
  {
    hide Own;
    forall k | 0 <= k < |page|
      ensures page[k] != pel[0].pos
    {
      OwnIsPending(pel[1..], owner, k);
    }
  }

  // ---------------------------------------------------------------- one turn

  /** A page with nothing that parses: the flush returns early, and the page is read again. */
  ghost predicate Stuck(cfg: Config, s: System)
    requires cfg.pageSize > 0
  {
    && s.holder.Some? && s.holder.value.phase.Draining? && Idle(s.holder.value)
    && var own := Own(s.pel, s.holder.value.owner);
       own != [] && !SomeParses(s.log, FirstOf(own, cfg.pageSize))
  }

  lemma StuckStays(cfg: Config, s: System)
    requires ValidConfig(cfg) && Stuck(cfg, s)
    ensures Stuck(cfg, Turn(cfg, s))
    ensures var s' := Turn(cfg, s);
      s'.pel == s.pel && s'.log == s.log && s'.rows == s.rows && s'.holder.value.owner == s.holder.value.owner
  {
    hide Own, SomeParses, IngestAll;
    var w := s.holder.value;
    PageAccumulatesIff(cfg, s, w, FirstOf(Own(s.pel, w.owner), cfg.pageSize));
  }

  lemma LastTurn(cfg: Config, s: System)
    requires ValidConfig(cfg) && Ready(s) && Own(s.pel, s.holder.value.owner) == []
    ensures Turn(cfg, s) == s.(holder := Some(s.holder.value.(phase := Claiming(0))))
  {}

  /** A page in which something parses is committed, acknowledged and gone. */
  lemma TurnTakesPage(cfg: Config, s: System)
    requires ValidConfig(cfg) && Ready(s)
    requires var own := Own(s.pel, s.holder.value.owner); own != [] && SomeParses(s.log, FirstOf(own, cfg.pageSize))
    ensures var s', owner := Turn(cfg, s), s.holder.value.owner;
      && Ready(s') && s'.holder.value.owner == owner && s'.log == s.log
      && Own(s'.pel, owner) == Own(s.pel, owner)[|FirstOf(Own(s.pel, owner), cfg.pageSize)|..]
      && Others(s'.pel, owner) == Others(s.pel, owner)
  {
    hide Own, Others, Without, SomeParses, IngestAll, Upsert, Distinct;
    var w := s.holder.value;
    var own := Own(s.pel, w.owner);
    var page := FirstOf(own, cfg.pageSize);
    assert page == own[..|page|];
    assert [] + page == page;
    PageAccumulatesIff(cfg, s, w, page);
    AckTakesOwn(s.pel, w.owner, page, own[|page|..]);
    WithoutKeepsDistinct(s.pel, page);
  }

  // ------------------------------------------------------------ the whole loop

  /** Over, with nothing of one's own pending and everybody else's as it was. */
  ghost predicate DrainedAll(s: System, s': System)
    requires s.holder.Some?
  {
    var owner := s.holder.value.owner;
    && s'.holder.Some? && s'.holder.value.phase == Claiming(0)
    && Own(s'.pel, owner) == [] && Others(s'.pel, owner) == Others(s.pel, owner)
  }

  lemma {:induction false} DrainEnds(cfg: Config, s: System) returns (turns: nat)
    requires ValidConfig(cfg) && Ready(s) && PagesParse(s.log, Own(s.pel, s.holder.value.owner), cfg.pageSize)
    ensures DrainedAll(s, Drained(cfg, s, turns))
    decreases |Own(s.pel, s.holder.value.owner)|
  {
    hide Turn, Ready, Own, Others, SomeParses;
    ReadyDrains(s);
    var s' := Turn(cfg, s);
    if Own(s.pel, s.holder.value.owner) == [] {
      LastTurn(cfg, s);
      turns := 1;
    } else {
      TurnTakesPage(cfg, s);
      var more := DrainEnds(cfg, s');
      turns := more + 1;
    }
    assert Drained(cfg, s, turns) == Drained(cfg, s', turns - 1);
  }

  lemma ReadyDrains(s: System)
    requires Ready(s)
    ensures s.holder.Some? && s.holder.value.phase.Draining?
  {}

  lemma {:induction false} StuckForever(cfg: Config, s: System, turns: nat)
    requires ValidConfig(cfg) && Stuck(cfg, s)
    ensures Stuck(cfg, Drained(cfg, s, turns))
    decreases turns
  {
    if turns > 0 {
      StuckStays(cfg, s);
      StuckForever(cfg, Turn(cfg, s), turns - 1);
    }
  }

  lemma {:induction false} DrainNeverEnds(cfg: Config, s: System, turns: nat)
    requires ValidConfig(cfg) && Ready(s) && !PagesParse(s.log, Own(s.pel, s.holder.value.owner), cfg.pageSize)
    ensures var s' := Drained(cfg, s, turns); s'.holder.value.phase.Draining? && Own(s'.pel, s.holder.value.owner) != []
    decreases turns
  {
    hide Turn, Own, Others, SomeParses, Distinct;
    if SomeParses(s.log, FirstOf(Own(s.pel, s.holder.value.owner), cfg.pageSize)) {
      if turns > 0 {
        TurnTakesPage(cfg, s);
        DrainNeverEnds(cfg, Turn(cfg, s), turns - 1);
      }
    } else {
      StuckForever(cfg, s, turns);
      StuckOwner(cfg, s, turns);
    }
  }

  lemma {:induction false} StuckOwner(cfg: Config, s: System, turns: nat)
    requires ValidConfig(cfg) && Stuck(cfg, s)
    ensures Drained(cfg, s, turns).holder.value.owner == s.holder.value.owner
    decreases turns
  {
    if turns > 0 {
      StuckStays(cfg, s);
      StuckOwner(cfg, Turn(cfg, s), turns - 1);
    }
  }

  /**
    The drain ends exactly when every page it meets holds an entry that parses: then
    with nothing of its own pending, and otherwise never.
   */
  lemma DrainEndsIff(cfg: Config, s: System)
    requires ValidConfig(cfg) && Ready(s)
    ensures (exists turns :: !Drained(cfg, s, turns).holder.value.phase.Draining?) <==>
      PagesParse(s.log, Own(s.pel, s.holder.value.owner), cfg.pageSize)
    ensures forall turns :: !Drained(cfg, s, turns).holder.value.phase.Draining? ==> DrainedAll(s, Drained(cfg, s, turns))
  {
    hide Turn, Own, Others, SomeParses, Distinct, PagesParse;
    var own := Own(s.pel, s.holder.value.owner);
    if PagesParse(s.log, own, cfg.pageSize) {
      var end := DrainEnds(cfg, s);
      forall turns | !Drained(cfg, s, turns).holder.value.phase.Draining?
        ensures DrainedAll(s, Drained(cfg, s, turns))
      {
        OneEnd(cfg, s, turns, end);
      }
    } else {
      forall turns
        ensures Drained(cfg, s, turns).holder.value.phase.Draining?
      {
        DrainNeverEnds(cfg, s, turns);
      }
    }
  }

  lemma {:induction false} OneEnd(cfg: Config, s: System, a: nat, b: nat)
    requires cfg.width > 0 && s.holder.Some?
    requires !Drained(cfg, s, a).holder.value.phase.Draining? && !Drained(cfg, s, b).holder.value.phase.Draining?
    ensures Drained(cfg, s, a) == Drained(cfg, s, b)
    decreases a
  {
    hide Turn;
    if s.holder.value.phase.Draining? {
      OneEnd(cfg, Turn(cfg, s), a - 1, b - 1);
    }
  }

  /** A turn more. */
  lemma {:induction false} DrainedMore(cfg: Config, s: System, turns: nat)
    requires cfg.width > 0 && s.holder.Some? && Drained(cfg, s, turns).holder.value.phase.Draining?
    ensures Drained(cfg, s, turns + 1) == Turn(cfg, Drained(cfg, s, turns))
    decreases turns
  {
    hide Turn;
    if turns > 0 && s.holder.value.phase.Draining? {
      DrainedMore(cfg, Turn(cfg, s), turns - 1);
    }
  }

  // ---------------------------------------------------- the loop within a run

  lemma OneAction(cfg: Config, base: map<Key, Row>, s: System, a: Action)
    requires ValidConfig(cfg) && Enabled(cfg, base, s, a)
    ensures Legal(cfg, base, s, [a]) && Run(cfg, base, s, [a]) == Apply(cfg, base, s, a)
  {
    hide Apply, Enabled;
    assert [a][1..] == [];
  }

  lemma {:induction false} RunsJoin(cfg: Config, base: map<Key, Row>, s: System, acts: seq<Action>, more: seq<Action>)
    requires ValidConfig(cfg) && Legal(cfg, base, s, acts) && Legal(cfg, base, Run(cfg, base, s, acts), more)
    ensures Legal(cfg, base, s, acts + more)
    ensures Run(cfg, base, s, acts + more) == Run(cfg, base, Run(cfg, base, s, acts), more)
    decreases |acts|
  {
    if acts == [] {
      assert [] + more == more;
    } else {
      hide Apply, Enabled;
      assert (acts + more)[0] == acts[0] && (acts + more)[1..] == acts[1..] + more;
      RunsJoin(cfg, base, Apply(cfg, base, s, acts[0]), acts[1..], more);
    }
  }

  /** A turn is a read, and a commit and an acknowledgement if anything was accumulated. */
  lemma TurnIsARun(cfg: Config, base: map<Key, Row>, s: System) returns (acts: seq<Action>)
    requires ValidConfig(cfg) && s.holder.Some? && s.holder.value.phase.Draining? && Idle(s.holder.value)
    ensures Legal(cfg, base, s, acts) && Run(cfg, base, s, acts) == Turn(cfg, s)
    ensures Idle(Turn(cfg, s).holder.value)
  {
    hide Own, IngestAll, Without, Upsert, Legal, Run;
    var read := ReadOwnStep(cfg, s, s.holder.value);
    OneAction(cfg, base, s, ReadOwn);
    acts := [ReadOwn];
    if read.holder.value.mem.accs != map[] {
      OneAction(cfg, base, read, Commit);
      var committed := Apply(cfg, base, read, Commit);
      OneAction(cfg, base, committed, Ack);
      RunsJoin(cfg, base, read, [Commit], [Ack]);
      RunsJoin(cfg, base, s, [ReadOwn], [Commit] + [Ack]);
      acts := [ReadOwn] + ([Commit] + [Ack]);
    }
  }

  /** However far it gets, the drain is a run of the protocol: what every run keeps, it keeps. */
  lemma {:induction false} DrainIsARun(cfg: Config, base: map<Key, Row>, s: System, turns: nat) returns (acts: seq<Action>)
    requires ValidConfig(cfg) && s.holder.Some? && Idle(s.holder.value)
    ensures Legal(cfg, base, s, acts) && Run(cfg, base, s, acts) == Drained(cfg, s, turns)
    decreases turns
  {
    hide Turn, Idle, Apply, Enabled;
    if turns == 0 || !s.holder.value.phase.Draining? {
      acts := [];
    } else {
      var first := TurnIsARun(cfg, base, s);
      var more := DrainIsARun(cfg, base, Turn(cfg, s), turns - 1);
      RunsJoin(cfg, base, s, first, more);
      acts := first + more;
    }
  }

  /** Whoever takes over at any point of any run is ready to drain. */
  lemma AcquiredIsReady(cfg: Config, base: map<Key, Row>, acts: seq<Action>, owner: string, carried: Memory)
    requires ValidConfig(cfg) && Legal(cfg, base, Initial(base), acts)
    requires Enabled(cfg, base, Run(cfg, base, Initial(base), acts), Acquire(owner, carried))
    ensures Ready(Apply(cfg, base, Run(cfg, base, Initial(base), acts), Acquire(owner, carried)))
  {
    hide Counts, Ordered, Predates, Holding, Aligned, Run, Legal;
    forall k ensures View(base, k) == Expected(base, [], k, cfg.width) {}
    InitiallyKept(cfg, base);
    var c, hi := RunKeeps(cfg, base, Initial(base), acts, 0, 0);
  }

  lemma InitiallyKept(cfg: Config, base: map<Key, Row>)
    requires ValidConfig(cfg)
    ensures Inv(cfg, base, Initial(base), 0, 0)
  {
    forall k ensures View(base, k) == Expected(base, [], k, cfg.width) {}
  }
}
