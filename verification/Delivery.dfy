/**
  Read, commit, acknowledge, crash, replay, take over: the delivery protocol
  between the tick log, the worker and the bars table as a state machine.

  Every action is one atomic step of one participant. A crash may fall between
  any two of them, and so may the loss of the lease or an exception: each leaves
  the next holder with the pending list and the rows, and with no memory.
 */
module Delivery {
  import opened BarsTable
  import opened ConsumerGroup
  import opened Floors
  import opened TickLog
  import opened WorkerMemory
  import opened Wrappers

  datatype Phase = Draining | Claiming(cursor: nat) | Steady

  datatype Worker = Worker(owner: string, phase: Phase, mem: Memory, unacked: seq<nat>, committed: bool)

  datatype System = System(log: seq<Entry>, delivered: nat, pel: seq<Pending>, rows: map<Key, Row>, holder: Option<Worker>)

  datatype Action =
    | Produce(entry: Entry)
    | Acquire(owner: string, carried: Memory)
    | ReadOwn
    | ClaimPage
    | ReadNew(n: nat)
    | Sweep(page: seq<nat>)
    | Commit
    | Ack
    | Crash

  // ------------------------------------------------------------------- steps

  function Entries(log: seq<Entry>, page: seq<nat>): seq<Entry> {
    seq(|page|, i requires 0 <= i < |page| => if page[i] < |log| then log[page[i]] else Entry(Id(0, 0), None))
  }

  function Load(cfg: Config, s: System, w: Worker, page: seq<nat>): Worker
    requires cfg.width > 0
  {
    w.(mem := IngestAll(cfg, w.mem, Entries(s.log, page)), unacked := w.unacked + page)
  }

  /** The next page of this consumer's own pending entries; an empty one ends the drain. */
  function ReadOwnStep(cfg: Config, s: System, w: Worker): System
    requires cfg.width > 0
  {
    var page := FirstOf(Own(s.pel, w.owner), cfg.pageSize);
    s.(holder := Some(if page == [] then w.(phase := Claiming(0)) else Load(cfg, s, w, page)))
  }

  /** The next page of everyone's pending entries, taken over; an empty one ends the scan. */
  function ClaimStep(cfg: Config, s: System, w: Worker, cursor: nat): System
    requires cfg.width > 0
  {
    var page := FirstOf(FromCursor(s.pel, cursor), cfg.pageSize);
    if page == [] then s.(holder := Some(w.(phase := Steady)))
    else s.(pel := Reassign(s.pel, page, w.owner),
            holder := Some(Load(cfg, s, w, page).(phase := Claiming(page[|page| - 1] + 1))))
  }

  function ReadNewStep(cfg: Config, s: System, w: Worker, n: nat): System
    requires cfg.width > 0
  {
    s.(pel := s.pel + Deliver(s.delivered, n, w.owner), delivered := s.delivered + n,
       holder := Some(Load(cfg, s, w, Range(s.delivered, n))))
  }

  ghost function CommitStep(s: System, w: Worker): System {
    s.(rows := Upsert(s.rows, Batch(w.mem)), holder := Some(w.(committed := true)))
  }

  function AckStep(s: System, w: Worker): System {
    s.(pel := Without(s.pel, w.unacked), holder := Some(w.(mem := Flushed(w.mem), unacked := [], committed := false)))
  }

  // ------------------------------------------------------------------ guards

  /** No other consumer's pending entry is older than one of this consumer's. */
  ghost predicate OwnFirst(pel: seq<Pending>, owner: string) {
    forall i, j | 0 <= i < j < |pel| && pel[j].owner == owner :: pel[i].owner == owner
  }

  /** Ready to read: the last flush is over, and it left nothing accumulated. */
  predicate Idle(w: Worker) { !w.committed && w.mem.accs == map[] }

  /**
    What the environment may do. One holder at a time; a new holder's own pending
    entries precede everyone else's; ids grow; the idle sweep of a steady worker
    finds only entries that do not parse, since every other one is flushed first.
   */
  ghost predicate Enabled(cfg: Config, base: map<Key, Row>, s: System, a: Action) {
    match a
    case Produce(e) => Ordered(s.log + [e]) && Predates(base, [e])
    case Acquire(owner, _) => s.holder.None? && OwnFirst(s.pel, owner)
    case ReadOwn => s.holder.Some? && s.holder.value.phase.Draining? && Idle(s.holder.value)
    case ClaimPage => s.holder.Some? && s.holder.value.phase.Claiming? && Idle(s.holder.value)
    case ReadNew(n) => s.holder.Some? && s.holder.value.phase.Steady? && !s.holder.value.committed &&
      n <= cfg.pageSize && s.delivered + n <= |s.log|
    case Sweep(page) => s.holder.Some? && s.holder.value.phase.Steady? && !s.holder.value.committed &&
      forall p | p in page :: p in Positions(s.pel) && p < |s.log| && s.log[p].fields.None?
    case Commit => s.holder.Some? && !s.holder.value.committed && s.holder.value.mem.accs != map[]
    case Ack => s.holder.Some? && s.holder.value.committed
    case Crash => s.holder.Some?
  }

  ghost function Apply(cfg: Config, base: map<Key, Row>, s: System, a: Action): System
    requires ValidConfig(cfg) && Enabled(cfg, base, s, a)
  {
    match a
    case Produce(e) => s.(log := s.log + [e])
    case Acquire(owner, carried) => s.(holder := Some(Worker(owner, Draining, Restarted(carried), [], false)))
    case ReadOwn => ReadOwnStep(cfg, s, s.holder.value)
    case ClaimPage => ClaimStep(cfg, s, s.holder.value, s.holder.value.phase.cursor)
    case ReadNew(n) => ReadNewStep(cfg, s, s.holder.value, n)
    case Sweep(page) => s.(holder := Some(Load(cfg, s, s.holder.value, page)))
    case Commit => CommitStep(s, s.holder.value)
    case Ack => AckStep(s, s.holder.value)
    case Crash => s.(holder := None)
  }

  // --------------------------------------------------------------- invariant

  function Acked(s: System): int { s.delivered - |s.pel| }

  /** The pending list is exactly what was delivered and not acknowledged, in log order. */
  ghost predicate Ledger(base: map<Key, Row>, s: System) {
    && Ordered(s.log) && Predates(base, s.log)
    && |s.pel| <= s.delivered <= |s.log|
    && Contiguous(s.pel, Acked(s))
  }

  /** The committed position never falls strictly inside the next replay page, nor does a change of owner. */
  ghost predicate Aligned(cfg: Config, s: System, c: nat)
    requires cfg.pageSize > 0
  {
    && Acked(s) <= c <= s.delivered
    && (c == s.delivered || (c - Acked(s)) % cfg.pageSize == 0)
    && forall i | 0 < i < |s.pel| && i % cfg.pageSize != 0 :: s.pel[i].owner == s.pel[i - 1].owner
  }

  /** How far into the pending list this phase has loaded. */
  ghost predicate LoadedTo(cfg: Config, s: System, w: Worker, hi: nat)
    requires cfg.pageSize > 0
  {
    match w.phase
    case Draining => OwnFirst(s.pel, w.owner) &&
      (hi == Acked(s) || hi - Acked(s) == |FirstOf(s.pel, cfg.pageSize)|)
    case Claiming(cursor) =>
      && hi == (if cursor <= Acked(s) then Acked(s) else cursor)
      && (hi == s.delivered || (hi - Acked(s)) % cfg.pageSize == 0)
    case Steady => hi == s.delivered
  }

  ghost predicate Holding(cfg: Config, s: System, w: Worker, c: nat, hi: nat)
    requires ValidConfig(cfg)
  {
    && Acked(s) <= hi <= s.delivered <= |s.log| && |s.pel| <= s.delivered
    && (forall p :: p in w.unacked <==> Acked(s) <= p < hi)
    && (forall i | 0 <= i < hi - Acked(s) :: i < |s.pel| && s.pel[i].owner == w.owner)
    && HoldsExactly(cfg, w.mem, s.log[Acked(s)..hi])
    && LoadedTo(cfg, s, w, hi)
    && (if w.committed then hi <= c else c == Acked(s) || hi <= c)
    && (w.phase.Steady? && !w.committed ==> c == Acked(s) || w.mem.accs == map[])
  }

  ghost predicate Inv(cfg: Config, base: map<Key, Row>, s: System, c: nat, hi: nat)
    requires ValidConfig(cfg)
  {
    && Ledger(base, s) && Aligned(cfg, s, c)
    && Counts(s.rows, base, s.log[..c], cfg.width)
    && (s.holder.Some? ==> Holding(cfg, s, s.holder.value, c, hi))
  }

  // -------------------------------------------- one lemma per kind of action

  lemma ProduceKeeps(cfg: Config, base: map<Key, Row>, s: System, e: Entry, c: nat, hi: nat)
    requires ValidConfig(cfg) && Inv(cfg, base, s, c, hi) && Enabled(cfg, base, s, Produce(e))
    ensures Inv(cfg, base, Apply(cfg, base, s, Produce(e)), c, hi)
  {
    var s' := Apply(cfg, base, s, Produce(e));
    assert s'.log[..c] == s.log[..c];
    if s.holder.Some? {
      assert s'.log[Acked(s)..hi] == s.log[Acked(s)..hi];
    }
    assert Predates(base, s'.log) by {
      forall k, i | k in base && 0 <= i < |s'.log| ensures Before(base[k].last, s'.log[i].id) {
        assert s'.log[i] == if i < |s.log| then s.log[i] else [e][0];
      }
    }
  }

  lemma AcquireKeeps(cfg: Config, base: map<Key, Row>, s: System, owner: string, carried: Memory, c: nat, hi: nat)
    requires ValidConfig(cfg) && Inv(cfg, base, s, c, hi) && Enabled(cfg, base, s, Acquire(owner, carried))
    ensures Inv(cfg, base, Apply(cfg, base, s, Acquire(owner, carried)), c, Acked(s))
  {
    HoldsNothing(cfg, Restarted(carried));
    assert s.log[Acked(s)..Acked(s)] == [];
  }

  /** A loaded page extends what the memory holds by the page's stretch of the log. */
  lemma LoadExtends(cfg: Config, s: System, w: Worker, a: nat, hi: nat, page: seq<nat>)
    requires ValidConfig(cfg) && Ordered(s.log) && a <= hi && hi + |page| <= |s.log|
    requires page == Range(hi, |page|)
    requires HoldsExactly(cfg, w.mem, s.log[a..hi])
    ensures HoldsExactly(cfg, Load(cfg, s, w, page).mem, s.log[a..hi + |page|])
  {
    var more := Entries(s.log, page);
    assert more == s.log[hi..hi + |page|];
    assert s.log[a..hi] + more == s.log[a..hi + |page|];
    IngestExtends(cfg, w.mem, s.log[a..hi], more);
  }

  /** While nothing is accumulated, the counted prefix may be taken to end where the memory begins. */
  lemma CountedFromStart(cfg: Config, base: map<Key, Row>, s: System, w: Worker, a: nat, hi: nat)
    requires ValidConfig(cfg) && a <= hi <= |s.log|
    requires w.mem.accs == map[] && HoldsExactly(cfg, w.mem, s.log[a..hi])
    requires Counts(s.rows, base, s.log[..hi], cfg.width)
    ensures Counts(s.rows, base, s.log[..a], cfg.width)
  {
    HoldsNothingIff(cfg, w.mem, s.log[a..hi]);
    assert s.log[..a] + s.log[a..hi] == s.log[..hi];
    UnparseableTailIsFree(base, s.log[..a], s.log[a..hi], s.rows, cfg.width);
  }

  /** Under own-first and page-aligned ownership the drain reads the head of the whole pending list. */
  lemma OwnPageIsHead(cfg: Config, s: System, owner: string, c: nat)
    requires ValidConfig(cfg) && |s.pel| <= s.delivered && Contiguous(s.pel, Acked(s)) && Aligned(cfg, s, c)
    requires OwnFirst(s.pel, owner)
    ensures var page := FirstOf(Own(s.pel, owner), cfg.pageSize);
      page == if s.pel == [] || s.pel[0].owner != owner then [] else Range(Acked(s), |FirstOf(s.pel, cfg.pageSize)|)
    ensures s.pel != [] && s.pel[0].owner == owner ==>
      forall i | 0 <= i < |FirstOf(s.pel, cfg.pageSize)| :: s.pel[i].owner == owner
  {
    var m := 0;
    while m < |s.pel| && s.pel[m].owner == owner
      invariant m <= |s.pel| && forall i | 0 <= i < m :: s.pel[i].owner == owner
    {
      m := m + 1;
    }
    OwnPrefix(s.pel, owner, m);
    if 0 < m < |s.pel| {
      assert s.pel[m].owner != s.pel[m - 1].owner;
      assert m % cfg.pageSize == 0;
      if m < cfg.pageSize {
        SmallMultiple(m, cfg.pageSize);
      }
    }
  }

  /** The drain loads the head page, or loads it again while nothing in it parses. */
  lemma DrainLoads(cfg: Config, s: System, w: Worker, hi: nat, page: seq<nat>)
    requires ValidConfig(cfg) && Ordered(s.log) && 0 <= Acked(s) <= hi <= |s.log| && Acked(s) + |page| <= |s.log|
    requires page == Range(Acked(s), |page|) && (hi == Acked(s) || hi == Acked(s) + |page|)
    requires w.mem.accs == map[] && HoldsExactly(cfg, w.mem, s.log[Acked(s)..hi])
    ensures HoldsExactly(cfg, Load(cfg, s, w, page).mem, s.log[Acked(s)..Acked(s) + |page|])
  {
    if hi == Acked(s) {
      LoadExtends(cfg, s, w, Acked(s), hi, page);
    } else {
      assert Entries(s.log, page) == s.log[Acked(s)..hi];
      HoldsNothingIff(cfg, w.mem, s.log[Acked(s)..hi]);
      UnparseableIsIgnored(cfg, w.mem, Entries(s.log, page));
    }
  }

  lemma ReadOwnKeeps(cfg: Config, base: map<Key, Row>, s: System, w: Worker, c: nat, hi: nat) returns (hi': nat)
    requires ValidConfig(cfg) && Inv(cfg, base, s, c, hi) && s.holder == Some(w) && w.phase.Draining? && Idle(w)
    ensures Inv(cfg, base, ReadOwnStep(cfg, s, w), c, hi')
  {
    hide HoldsExactly, Counts, Ordered, Predates, IngestAll, Entries, Aligned, Contiguous, Own;
    var a := Acked(s);
    OwnPageIsHead(cfg, s, w.owner, c);
    var page := FirstOf(Own(s.pel, w.owner), cfg.pageSize);
    hi' := a + |page|;
    SameStanding(cfg, s, ReadOwnStep(cfg, s, w), c);
    if page != [] {
      DrainLoads(cfg, s, w, hi, page);
      InRange(a, |page|);
      NotInsideHead(cfg, s, c, |page|);
    }
  }

  /** Whoever holds the group, what is pending and counted stays as it is. */
  lemma SameStanding(cfg: Config, s: System, s': System, c: nat)
    requires cfg.pageSize > 0 && Aligned(cfg, s, c) && s' == s.(holder := s'.holder)
    ensures Aligned(cfg, s', c)
  {}

  lemma NotInsideHead(cfg: Config, s: System, c: nat, n: nat)
    requires cfg.pageSize > 0 && Aligned(cfg, s, c) && n == |FirstOf(s.pel, cfg.pageSize)|
    ensures c == Acked(s) || Acked(s) + n <= c
  {
    if Acked(s) < c < Acked(s) + n {
      SmallMultiple(c - Acked(s), cfg.pageSize);
    }
  }

  lemma InRange(from: nat, n: nat)
    ensures forall p :: p in Range(from, n) <==> from <= p < from + n
  {
    forall p ensures p in Range(from, n) <==> from <= p < from + n {
      if from <= p < from + n {
        assert Range(from, n)[p - from] == p;
      }
    }
  }

  lemma ClaimKeeps(cfg: Config, base: map<Key, Row>, s: System, w: Worker, c: nat, hi: nat) returns (c': nat, hi': nat)
    requires ValidConfig(cfg) && Inv(cfg, base, s, c, hi) && s.holder == Some(w) && w.phase.Claiming? && Idle(w)
    ensures Inv(cfg, base, ClaimStep(cfg, s, w, w.phase.cursor), c', hi')
  {
    hide HoldsExactly, Counts, Ordered, Predates, IngestAll, Entries, FromCursor, Contiguous, Reassign;
    var a := Acked(s);
    var page := FirstOf(FromCursor(s.pel, w.phase.cursor), cfg.pageSize);
    ClaimedPage(cfg, s, hi, w.phase.cursor);
    hi' := hi + |page|;
    if page == [] {
      c' := c;
    } else {
      c' := CountedBeforePage(cfg, base, s, w, c, hi, |page|);
      LoadExtends(cfg, s, w, a, hi, page);
      InRange(hi, |page|);
      ClaimKeepsOwners(cfg, s, hi, page, w.owner);
      if |page| == cfg.pageSize {
        ShiftByMultiple(hi - a, cfg.pageSize, cfg.pageSize);
      }
    }
  }

  /** Before a page is loaded, the counted prefix ends where the memory begins or past the page. */
  lemma CountedBeforePage(cfg: Config, base: map<Key, Row>, s: System, w: Worker, c: nat, hi: nat, n: nat) returns (c': nat)
    requires ValidConfig(cfg) && 0 <= Acked(s) <= hi <= |s.log| && Aligned(cfg, s, c) && n <= cfg.pageSize
    requires c <= |s.log| && Counts(s.rows, base, s.log[..c], cfg.width)
    requires w.mem.accs == map[] && HoldsExactly(cfg, w.mem, s.log[Acked(s)..hi])
    requires c == Acked(s) || hi <= c
    requires hi == s.delivered || (hi - Acked(s)) % cfg.pageSize == 0
    requires hi + n <= s.delivered
    ensures c' == Acked(s) || (c' == c && hi + n <= c)
    ensures Counts(s.rows, base, s.log[..c'], cfg.width)
  {
    c' := c;
    if hi <= c < hi + n {
      if c != s.delivered {
        MultiplesAdd(c - Acked(s), hi - Acked(s), cfg.pageSize);
        SmallMultiple(c - hi, cfg.pageSize);
      }
      CountedFromStart(cfg, base, s, w, Acked(s), hi);
      c' := Acked(s);
    }
  }

  /** A claim takes the stretch of the pending list right after what is already loaded. */
  lemma ClaimedPage(cfg: Config, s: System, hi: nat, cursor: nat)
    requires ValidConfig(cfg) && |s.pel| <= s.delivered && Contiguous(s.pel, Acked(s))
    requires Acked(s) <= hi <= s.delivered && hi == (if cursor <= Acked(s) then Acked(s) else cursor)
    ensures var page := FirstOf(FromCursor(s.pel, cursor), cfg.pageSize);
      page == Range(hi, |page|) && hi + |page| <= s.delivered &&
      (|page| == cfg.pageSize || hi + |page| == s.delivered)
  {
    FromCursorSuffix(s.pel, Acked(s), cursor);
    PositionsFrom(s.pel, Acked(s), hi - Acked(s));
    hide FromCursor, Contiguous, Positions;
    PositionsOfNone();
    assert s.pel[0..] == s.pel && s.pel[|s.pel|..] == [];
    var left := s.delivered - hi;
    assert FromCursor(s.pel, cursor) == Range(hi, left);
  }

  lemma PositionsFrom(pel: seq<Pending>, from: nat, m: nat)
    requires Contiguous(pel, from) && m <= |pel|
    ensures Positions(pel[m..]) == Range(from + m, |pel| - m)
  {}

  /** Taking over whole pages changes owners only at page boundaries. */
  lemma ClaimKeepsOwners(cfg: Config, s: System, hi: nat, page: seq<nat>, owner: string)
    requires ValidConfig(cfg) && |s.pel| <= s.delivered && Contiguous(s.pel, Acked(s)) && Acked(s) <= hi
    requires page == Range(hi, |page|) && (|page| == cfg.pageSize || hi + |page| == s.delivered)
    requires (hi - Acked(s)) % cfg.pageSize == 0 || hi == s.delivered
    requires page != [] && hi + |page| <= s.delivered
    requires forall i | 0 <= i < hi - Acked(s) :: i < |s.pel| && s.pel[i].owner == owner
    requires forall i | 0 < i < |s.pel| && i % cfg.pageSize != 0 :: s.pel[i].owner == s.pel[i - 1].owner
    ensures var pel := Reassign(s.pel, page, owner);
      && |pel| == |s.pel| && Contiguous(pel, Acked(s))
      && (forall i | 0 <= i < hi + |page| - Acked(s) :: pel[i].owner == owner)
      && (forall i | 0 < i < |pel| && i % cfg.pageSize != 0 :: pel[i].owner == pel[i - 1].owner)
  {
    var pel := Reassign(s.pel, page, owner);
    InRange(hi, |page|);
    var end := hi + |page| - Acked(s);
    forall i | 0 < i < |pel| && i % cfg.pageSize != 0 ensures pel[i].owner == pel[i - 1].owner {
      if i == end {
        ShiftByMultiple(hi - Acked(s), cfg.pageSize, cfg.pageSize);
      }
    }
  }

  lemma ReadNewKeeps(cfg: Config, base: map<Key, Row>, s: System, w: Worker, n: nat, c: nat, hi: nat) returns (c': nat, hi': nat)
    requires ValidConfig(cfg) && Inv(cfg, base, s, c, hi) && s.holder == Some(w) && w.phase.Steady? && !w.committed
    requires s.delivered + n <= |s.log|
    ensures Inv(cfg, base, ReadNewStep(cfg, s, w, n), c', hi')
  {
    hide HoldsExactly, Counts, Ordered, Predates, IngestAll, Entries;
    var a, s' := Acked(s), ReadNewStep(cfg, s, w, n);
    c', hi' := c, hi + n;
    LoadExtends(cfg, s, w, a, hi, Range(hi, n));
    InRange(hi, n);
    if c != a {
      CountedFromStart(cfg, base, s, w, a, hi);
      c' := a;
    }
    assert Acked(s') == a;
    assert forall i | 0 <= i < |s'.pel| :: s'.pel[i].owner == w.owner;
  }

  lemma SweepKeeps(cfg: Config, base: map<Key, Row>, s: System, page: seq<nat>, c: nat, hi: nat)
    requires ValidConfig(cfg) && Inv(cfg, base, s, c, hi) && Enabled(cfg, base, s, Sweep(page))
    ensures Inv(cfg, base, Apply(cfg, base, s, Sweep(page)), c, hi)
  {
    var w := s.holder.value;
    UnparseableIsIgnored(cfg, w.mem, Entries(s.log, page));
    forall p | p in page ensures Acked(s) <= p < hi {
      assert p in Positions(s.pel);
    }
  }

  /** A commit counts the loaded stretch, or finds it counted already. */
  lemma CommitCounts(cfg: Config, base: map<Key, Row>, s: System, w: Worker, a: nat, c: nat, hi: nat)
    requires ValidConfig(cfg) && Ledger(base, s) && a <= hi <= |s.log| && c <= |s.log|
    requires Counts(s.rows, base, s.log[..c], cfg.width) && HoldsExactly(cfg, w.mem, s.log[a..hi])
    requires c == a || hi <= c
    ensures Counts(Upsert(s.rows, Batch(w.mem)), base, s.log[..if hi <= c then c else hi], cfg.width)
  {
    if hi <= c {
      assert s.log[..a] + s.log[a..hi] + s.log[hi..c] == s.log[..c];
      RedeliveryIsAbsorbed(base, s.log[..a], s.log[a..hi], s.log[hi..c], s.rows, Batch(w.mem), cfg.width);
    } else {
      assert s.log[..a] + s.log[a..hi] == s.log[..hi];
      CommitExtendsPrefix(base, s.log[..a], s.log[a..hi], s.rows, Batch(w.mem), cfg.width);
    }
  }

  /** What is loaded always ends at a page boundary or at the end of the pending list. */
  lemma LoadedIsAligned(cfg: Config, s: System, w: Worker, hi: nat)
    requires ValidConfig(cfg) && |s.pel| <= s.delivered && LoadedTo(cfg, s, w, hi)
    ensures hi == s.delivered || (hi - Acked(s)) % cfg.pageSize == 0
  {
    MultipleHasNoRemainder(1, cfg.pageSize);
  }

  lemma CommitKeeps(cfg: Config, base: map<Key, Row>, s: System, w: Worker, c: nat, hi: nat) returns (c': nat)
    requires ValidConfig(cfg) && Inv(cfg, base, s, c, hi) && s.holder == Some(w) && !w.committed
    ensures Inv(cfg, base, CommitStep(s, w), c', hi)
  {
    hide HoldsExactly, Counts, Ordered, Predates, Upsert, Batch;
    c' := if hi <= c then c else hi;
    CommitCounts(cfg, base, s, w, Acked(s), c, hi);
    LoadedIsAligned(cfg, s, w, hi);
  }

  lemma AckKeeps(cfg: Config, base: map<Key, Row>, s: System, w: Worker, c: nat, hi: nat)
    requires ValidConfig(cfg) && Inv(cfg, base, s, c, hi) && s.holder == Some(w) && w.committed
    ensures Inv(cfg, base, AckStep(s, w), c, hi)
    ensures AckStep(s, w).pel == s.pel[hi - Acked(s)..]
  {
    hide HoldsExactly, Counts, Ordered, Predates, Without;
    WithoutPrefix(s.pel, hi - Acked(s), w.unacked);
    HoldsNothing(cfg, Flushed(w.mem));
    assert s.log[hi..hi] == [];
    LoadedIsAligned(cfg, s, w, hi);
    AckKeepsAligned(cfg, s, c, hi, AckStep(s, w));
  }

  /** Dropping whole pages from the front keeps page boundaries where they were. */
  lemma AckKeepsAligned(cfg: Config, s: System, c: nat, hi: nat, s': System)
    requires ValidConfig(cfg) && |s.pel| <= s.delivered && Aligned(cfg, s, c) && Contiguous(s.pel, Acked(s))
    requires Acked(s) <= hi <= c
    requires hi == s.delivered || (hi - Acked(s)) % cfg.pageSize == 0
    requires s'.pel == s.pel[hi - Acked(s)..] && s'.delivered == s.delivered
    ensures Acked(s') == hi && Contiguous(s'.pel, hi) && Aligned(cfg, s', c)
  {
    var m := hi - Acked(s);
    assert forall i | 0 <= i < |s'.pel| :: s'.pel[i] == s.pel[m + i];
    if hi != s.delivered {
      if c != s.delivered {
        MultiplesAdd(c - Acked(s), m, cfg.pageSize);
      }
      forall i | 0 < i < |s'.pel| && i % cfg.pageSize != 0 ensures s'.pel[i].owner == s'.pel[i - 1].owner {
        ShiftByMultiple(i, m, cfg.pageSize);
        assert s'.pel[i] == s.pel[m + i] && s'.pel[i - 1] == s.pel[m + i - 1];
      }
    }
  }

  lemma StepKeeps(cfg: Config, base: map<Key, Row>, s: System, act: Action, c: nat, hi: nat) returns (c': nat, hi': nat)
    requires ValidConfig(cfg) && Inv(cfg, base, s, c, hi) && Enabled(cfg, base, s, act)
    ensures Inv(cfg, base, Apply(cfg, base, s, act), c', hi')
  {
    c', hi' := c, hi;
    match act
    case Produce(e) => ProduceKeeps(cfg, base, s, e, c, hi);
    case Acquire(owner, carried) =>
      AcquireKeeps(cfg, base, s, owner, carried, c, hi);
      hi' := Acked(s);
    case ReadOwn => hi' := ReadOwnKeeps(cfg, base, s, s.holder.value, c, hi);
    case ClaimPage => c', hi' := ClaimKeeps(cfg, base, s, s.holder.value, c, hi);
    case ReadNew(n) => c', hi' := ReadNewKeeps(cfg, base, s, s.holder.value, n, c, hi);
    case Sweep(page) => SweepKeeps(cfg, base, s, page, c, hi);
    case Commit => c' := CommitKeeps(cfg, base, s, s.holder.value, c, hi);
    case Ack => AckKeeps(cfg, base, s, s.holder.value, c, hi);
    case Crash =>
  }

  // ---------------------------------------------------------------- all runs

  ghost predicate Legal(cfg: Config, base: map<Key, Row>, s: System, acts: seq<Action>)
    requires ValidConfig(cfg)
    decreases |acts|
  {
    acts == [] || (Enabled(cfg, base, s, acts[0]) && Legal(cfg, base, Apply(cfg, base, s, acts[0]), acts[1..]))
  }

  ghost function Run(cfg: Config, base: map<Key, Row>, s: System, acts: seq<Action>): System
    requires ValidConfig(cfg) && Legal(cfg, base, s, acts)
    decreases |acts|
  {
    if acts == [] then s else Run(cfg, base, Apply(cfg, base, s, acts[0]), acts[1..])
  }

  function Initial(base: map<Key, Row>): System { System([], 0, [], base, None) }

  lemma RunKeeps(cfg: Config, base: map<Key, Row>, s: System, acts: seq<Action>, c: nat, hi: nat) returns (c': nat, hi': nat)
    requires ValidConfig(cfg) && Inv(cfg, base, s, c, hi) && Legal(cfg, base, s, acts)
    ensures Inv(cfg, base, Run(cfg, base, s, acts), c', hi')
    decreases |acts|
  {
    if acts == [] {
      c', hi' := c, hi;
    } else {
      c', hi' := StepKeeps(cfg, base, s, acts[0], c, hi);
      c', hi' := RunKeeps(cfg, base, Apply(cfg, base, s, acts[0]), acts[1..], c', hi');
    }
  }

  /**
    Exactly once, over every run: there is one prefix of the log such that each row
    is the fold of that prefix over what the table held before the log began. Every
    acknowledged entry lies in the prefix and nothing undelivered does.
   */
  lemma ExactlyOnce(cfg: Config, base: map<Key, Row>, acts: seq<Action>) returns (c: nat)
    requires ValidConfig(cfg) && Legal(cfg, base, Initial(base), acts)
    ensures var s := Run(cfg, base, Initial(base), acts);
      && c <= s.delivered <= |s.log|
      && (forall p | 0 <= p < s.delivered && p !in Positions(s.pel) :: p < c)
      && Counts(s.rows, base, s.log[..c], cfg.width)
  {
    forall k ensures View(base, k) == Expected(base, [], k, cfg.width) {}
    var hi: nat;
    c, hi := RunKeeps(cfg, base, Initial(base), acts, 0, 0);
    AckedIsCounted(cfg, base, Run(cfg, base, Initial(base), acts), c, hi);
  }

  lemma AckedIsCounted(cfg: Config, base: map<Key, Row>, s: System, c: nat, hi: nat)
    requires ValidConfig(cfg) && Inv(cfg, base, s, c, hi)
    ensures forall p | 0 <= p < s.delivered && p !in Positions(s.pel) :: p < c
  {
    hide Counts, Ordered, Predates, HoldsExactly;
    PositionsCover(s.pel, Acked(s));
  }

  /** With nothing pending, the rows are the fold of everything that was ever delivered. */
  lemma NothingPendingNothingMissing(cfg: Config, base: map<Key, Row>, acts: seq<Action>)
    requires ValidConfig(cfg) && Legal(cfg, base, Initial(base), acts)
    requires Run(cfg, base, Initial(base), acts).pel == []
    ensures var s := Run(cfg, base, Initial(base), acts);
      s.delivered <= |s.log| && Counts(s.rows, base, s.log[..s.delivered], cfg.width)
  {
    var s := Run(cfg, base, Initial(base), acts);
    var c := ExactlyOnce(cfg, base, acts);
    assert c !in Positions(s.pel);
  }

  // ---------------------------------------- the assumptions, and their edges

  /**
    A drained page is committed and acknowledged exactly when something in it
    parses. Otherwise the flush returns early, the page stays pending, and the
    next read of the drain returns the very same page.
   */
  lemma DrainAdvancesIff(cfg: Config, base: map<Key, Row>, s: System, w: Worker, c: nat, hi: nat)
    requires ValidConfig(cfg) && Inv(cfg, base, s, c, hi) && s.holder == Some(w) && w.phase.Draining? && Idle(w)
    ensures var page := FirstOf(Own(s.pel, w.owner), cfg.pageSize);
      var s' := ReadOwnStep(cfg, s, w);
      page != [] ==>
        && (s'.holder.value.mem.accs != map[] <==> exists e | e in Entries(s.log, page) :: e.fields.Some?)
        && (s'.holder.value.mem.accs == map[] ==>
             s'.pel == s.pel && s'.rows == s.rows && s'.holder.value.phase.Draining? && Idle(s'.holder.value))
  {
    var page := FirstOf(Own(s.pel, w.owner), cfg.pageSize);
    if page != [] {
      OwnPageIsHead(cfg, s, w.owner, c);
      DrainLoads(cfg, s, w, hi, page);
      var es := s.log[Acked(s)..Acked(s) + |page|];
      assert Entries(s.log, page) == es;
      HoldsNothingIff(cfg, Load(cfg, s, w, page).mem, es);
    }
  }

  /** Two ticks of one minute, the older one pending under another consumer: draining own entries first loses it. */
  lemma OwnFirstIsNeeded(cfg: Config, early: Entry, late: Entry)
    requires ValidConfig(cfg) && early.fields.Some? && late.fields.Some? && Before(early.id, late.id)
    requires KeyOf(early.fields.value, cfg.width) == KeyOf(late.fields.value, cfg.width)
    ensures var first, second := Batch(Ingest(cfg, EMPTY, late)), Batch(Ingest(cfg, EMPTY, early));
      !Counts(Upsert(Upsert(map[], first), second), map[], [early, late], cfg.width)
  {
    HoldsNothing(cfg, EMPTY);
    IngestOne(cfg, EMPTY, [], early);
    IngestOne(cfg, EMPTY, [], late);
    assert [] + [early] == [early] && [] + [late] == [late];
    LateFirstIsWrong(early, late, Batch(Ingest(cfg, EMPTY, late)), Batch(Ingest(cfg, EMPTY, early)), cfg.width);
  }

  lemma LateFirstIsWrong(early: Entry, late: Entry, first: Columns, second: Columns, width: int)
    requires width > 0 && early.fields.Some? && late.fields.Some? && Before(early.id, late.id)
    requires KeyOf(early.fields.value, width) == KeyOf(late.fields.value, width)
    requires BatchOf(first, [late], width) && BatchOf(second, [early], width)
    ensures !Counts(Upsert(Upsert(map[], first), second), map[], [early, late], width)
  {
    var k := KeyOf(early.fields.value, width);
    OneHit(early, k, width);
    OneHit(late, k, width);
    assert SharedKey([early], [late], k, width);
    forall x ensures View(map[], x) == Expected(map[], [], x, width) {}
    assert Counts(map[], map[], [], width) && Ordered([early, late]) && Predates(map[], [early, late]);
    assert [] + [early] + [late] == [early, late];
    hide BatchOf, Upsert, Counts, SharedKey, Ordered, Predates;
    LateBeforeEarlyIsExactIff(map[], [], [early], [late], map[], first, second, width);
  }

  /** A swallowed failure to acknowledge keeps the committed tick accumulated: the minute's next tick counts it again. */
  lemma SwallowedAckCountsTwice(cfg: Config, done: Entry, rest: Entry)
    requires ValidConfig(cfg) && done.fields.Some? && rest.fields.Some? && Before(done.id, rest.id)
    requires KeyOf(done.fields.value, cfg.width) == KeyOf(rest.fields.value, cfg.width)
    ensures var m := Ingest(cfg, EMPTY, done);
      !Counts(Upsert(Upsert(map[], Batch(m)), Batch(Ingest(cfg, m, rest))), map[], [done, rest], cfg.width)
  {
    TwoEntries(cfg, done, rest);
    hide Ingest, Upsert, Counts, Ordered, Predates, HoldsExactly, BatchOf, Batch, SharedKey, KeyOf;
    var m := Ingest(cfg, EMPTY, done);
    IngestedIsBatch(cfg, m, [done]);
    IngestedIsBatch(cfg, Ingest(cfg, m, rest), [done, rest]);
    assert [] + [done] == [done] && [done] + [rest] == [done, rest] && [] + [done] + [rest] == [done, rest];
    CommitExtendsPrefix(map[], [], [done], map[], Batch(m), cfg.width);
    StraddlingPageIsExactIff(map[], [], [done], [rest], Upsert(map[], Batch(m)), Batch(Ingest(cfg, m, rest)), cfg.width);
  }

  /** Two ticks of one minute in order, in a log and in memory. */
  lemma TwoEntries(cfg: Config, done: Entry, rest: Entry)
    requires ValidConfig(cfg) && done.fields.Some? && rest.fields.Some? && Before(done.id, rest.id)
    requires KeyOf(done.fields.value, cfg.width) == KeyOf(rest.fields.value, cfg.width)
    ensures var m := Ingest(cfg, EMPTY, done);
      HoldsExactly(cfg, m, [done]) && HoldsExactly(cfg, Ingest(cfg, m, rest), [done, rest])
    ensures Ordered([done]) && Ordered([done, rest]) && Predates(map[], [done]) && Predates(map[], [done, rest])
    ensures Counts(map[], map[], [], cfg.width)
    ensures exists k :: SharedKey([done], [rest], k, cfg.width)
  {
    TwoInOrder(done, rest);
    NothingCounted(cfg.width);
    hide HoldsExactly, Ingest, Counts, Ordered, Predates;
    var k := KeyOf(done.fields.value, cfg.width);
    OneHit(done, k, cfg.width);
    OneHit(rest, k, cfg.width);
    assert SharedKey([done], [rest], k, cfg.width);
    hide SharedKey, KeyOf;
    assert [] + [done] == [done] && [done] + [rest] == [done, rest];
    HoldsNothing(cfg, EMPTY);
    IngestOne(cfg, EMPTY, [], done);
    IngestOne(cfg, Ingest(cfg, EMPTY, done), [done], rest);
  }

  lemma TwoInOrder(a: Entry, b: Entry)
    requires Before(a.id, b.id)
    ensures Ordered([a]) && Ordered([a, b]) && Predates(map[], [a]) && Predates(map[], [a, b])
  {}

  lemma NothingCounted(width: int)
    requires width > 0
    ensures Counts(map[], map[], [], width)
  {
    forall x ensures View(map[], x) == Expected(map[], [], x, width) {}
  }

  lemma IngestedIsBatch(cfg: Config, m: Memory, es: seq<Entry>)
    requires cfg.width > 0 && HoldsExactly(cfg, m, es)
    ensures BatchOf(Batch(m), es, cfg.width)
  {}

  lemma OneHit(e: Entry, k: Key, width: int)
    requires width > 0 && Hits(e, k, width)
    ensures PricesAt([e], k, width) != []
  {}
}
