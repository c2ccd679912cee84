/**
  One browser's queue: the latest update per routing key, drained at whatever speed
  the reader manages, and the fan-out that offers to every session. The wake-up
  event and the saturation clock are not modelled; payloads are opaque text.
 */
module Conflator {
  import opened Wrappers

  datatype Pair = Pair(name: string)

  /** The routing keys: prices and volatility have one slot per pair, alerts one per transition. */
  datatype Key = Status | Tick(pair: Pair) | Vol(pair: Pair) | Alert(pair: Pair, seqNo: int)

  datatype Entry = Entry(key: Key, payload: string)

  datatype Session = Session(symbols: set<Pair>, pending: seq<Entry>, conflated: nat, sent: nat, closed: bool)

  const NEW := Session({}, [], 0, 0, false)

  function SlotOf(pending: seq<Entry>, k: Key): (r: int)
    ensures -1 <= r < |pending|
    ensures r >= 0 ==> pending[r].key == k
    ensures r < 0 ==> forall i | 0 <= i < |pending| :: pending[i].key != k
  {
    if pending == [] then -1
    else if pending[|pending| - 1].key == k then |pending| - 1
    else SlotOf(pending[..|pending| - 1], k)
  }

  /** A keyed slot keeps its place in the queue when its value is replaced. */
  function Place(pending: seq<Entry>, e: Entry): seq<Entry> {
    var i := SlotOf(pending, e.key);
    if i >= 0 then pending[i := e] else pending + [e]
  }

  function Pop(pending: seq<Entry>, k: Key): (r: seq<Entry>)
    ensures |r| <= |pending|
  {
    var i := SlotOf(pending, k);
    if i >= 0 then pending[..i] + pending[i + 1..] else pending
  }

  function OfferTo(s: Session, e: Entry): Session {
    if s.closed then s
    else s.(pending := Place(s.pending, e), conflated := if SlotOf(s.pending, e.key) >= 0 then s.conflated + 1 else s.conflated)
  }

  function DrainFrom(s: Session): (Session, seq<Entry>) {
    (s.(pending := [], sent := s.sent + |s.pending|), s.pending)
  }

  function Forgo(s: Session, p: Pair): (r: Session)
    ensures |r.pending| <= |s.pending|
  {
    s.(symbols := s.symbols - {p}, pending := Pop(Pop(s.pending, Tick(p)), Vol(p)))
  }

  function ForgoAll(s: Session, ps: seq<Pair>): Session {
    if ps == [] then s else Forgo(ForgoAll(s, ps[..|ps| - 1]), ps[|ps| - 1])
  }

  function Want(s: Session, ps: seq<Pair>): Session {
    if ps == [] then s else Want(s, ps[..|ps| - 1]).(symbols := Want(s, ps[..|ps| - 1]).symbols + {ps[|ps| - 1]})
  }

  // -------------------------------------------------------------- the classes

  class ClientSession {
    var symbols: set<Pair>
    /** Insertion-ordered, one entry per key. */
    var pending: seq<Entry>
    var conflated: nat
    var sent: nat
    var closed: bool

    function Abs(): Session
      reads this
    {
      Session(symbols, pending, conflated, sent, closed)
    }

    constructor ()
      ensures Abs() == NEW
    {
      symbols, pending, conflated, sent, closed := {}, [], 0, 0, false;
    }

    method Offer(e: Entry)
      modifies this
      ensures Abs() == OfferTo(old(Abs()), e)
    {
      if closed {
        return;
      }
      var i := SlotOf(pending, e.key);
      if i >= 0 {
        conflated := conflated + 1;
        pending := pending[i := e];
      } else {
        pending := pending + [e];
      }
    }

    method Drain() returns (batch: seq<Entry>)
      modifies this
      ensures (Abs(), batch) == DrainFrom(old(Abs()))
    {
      if pending == [] {
        return [];
      }
      batch := pending;
      pending := [];
      sent := sent + |batch|;
    }

    method Subscribe(ps: seq<Pair>)
      modifies this
      ensures Abs() == Want(old(Abs()), ps)
    {
      for i := 0 to |ps|
        invariant Abs() == Want(old(Abs()), ps[..i])
      {
        assert ps[..i + 1][..i] == ps[..i];
        symbols := symbols + {ps[i]};
      }
      assert ps[..|ps|] == ps;
    }

    method Unsubscribe(ps: seq<Pair>)
      modifies this
      ensures Abs() == ForgoAll(old(Abs()), ps)
    {
      for i := 0 to |ps|
        invariant Abs() == ForgoAll(old(Abs()), ps[..i])
      {
        assert ps[..i + 1][..i] == ps[..i];
        symbols := symbols - {ps[i]};
        pending := Pop(pending, Tick(ps[i]));
        pending := Pop(pending, Vol(ps[i]));
      }
      assert ps[..|ps|] == ps;
    }
  }

  datatype Message = Health(payload: string) | Price(pair: Pair, payload: string) | Volatility(pair: Pair, payload: string)
    | Event(pair: Pair, seqNo: int, payload: string)

  function Routed(m: Message): Entry {
    match m
    case Health(x) => Entry(Status, x)
    case Price(p, x) => Entry(Tick(p), x)
    case Volatility(p, x) => Entry(Vol(p), x)
    case Event(p, n, x) => Entry(Alert(p, n), x)
  }

  /** Feed health goes to everyone; the rest to those who want the pair. */
  predicate Addressed(s: Session, m: Message) { m.Health? || m.pair in s.symbols }

  function Hears(s: Session, m: Message): Session { if Addressed(s, m) then OfferTo(s, Routed(m)) else s }

  class FanoutManager {
    var clients: seq<ClientSession>
    var feedStatus: Option<string>

    constructor ()
      ensures clients == [] && feedStatus == None
    {
      clients, feedStatus := [], None;
    }

    method Dispatch(m: Message)
      requires forall i, j | 0 <= i < j < |clients| :: clients[i] != clients[j]
      modifies this`feedStatus, set i | 0 <= i < |clients| :: clients[i]
      ensures feedStatus == if m.Health? then Some(m.payload) else old(feedStatus)
      ensures forall i | 0 <= i < |clients| :: clients[i].Abs() == Hears(old(clients[i].Abs()), m)
    {
      if m.Health? {
        feedStatus := Some(m.payload);
      }
      for k := 0 to |clients|
        invariant feedStatus == if m.Health? then Some(m.payload) else old(feedStatus)
        invariant forall i | 0 <= i < k :: clients[i].Abs() == Hears(old(clients[i].Abs()), m)
        invariant forall i | k <= i < |clients| :: clients[i].Abs() == old(clients[i].Abs())
      {
        var c := clients[k];
        if m.Health? || m.pair in c.symbols {
          c.Offer(Routed(m));
        }
      }
    }
  }

  // ----------------------------------------------------------------- the history

  /** A session with everything ever accepted and delivered, and how much unsubscribing dropped. */
  datatype World = World(s: Session, accepted: seq<Entry>, delivered: seq<Entry>, dropped: nat, lost: set<Key>)

  datatype Happening = Send(m: Message) | Take | Follow(p: Pair) | Unfollow(p: Pair) | Close

  const START := World(NEW, [], [], 0, {})

  /** `lost` are the keys whose newest value an unsubscribe dropped. */
  function Step(w: World, h: Happening): World {
    match h
    case Send(m) =>
      if !Addressed(w.s, m) || w.s.closed then w
      else w.(s := OfferTo(w.s, Routed(m)), accepted := w.accepted + [Routed(m)], lost := w.lost - {Routed(m).key})
    case Take => w.(s := DrainFrom(w.s).0, delivered := w.delivered + DrainFrom(w.s).1)
    case Follow(p) => w.(s := Want(w.s, [p]))
    case Unfollow(p) =>
      var gone := (if SlotOf(w.s.pending, Tick(p)) >= 0 then {Tick(p)} else {}) +
                  (if SlotOf(w.s.pending, Vol(p)) >= 0 then {Vol(p)} else {});
      w.(s := Forgo(w.s, p), dropped := w.dropped + |w.s.pending| - |Forgo(w.s, p).pending|, lost := w.lost + gone)
    case Close => w.(s := w.s.(closed := true))
  }

  function Run(w: World, hs: seq<Happening>): World {
    if hs == [] then w else Step(Run(w, hs[..|hs| - 1]), hs[|hs| - 1])
  }

  // ------------------------------------------------------------ what is delivered

  /** The entries of one key, in order. */
  function Of(es: seq<Entry>, k: Key): seq<Entry> {
    if es == [] then []
    else if es[|es| - 1].key == k then Of(es[..|es| - 1], k) + [es[|es| - 1]]
    else Of(es[..|es| - 1], k)
  }

  function Alerts(es: seq<Entry>): seq<Entry> {
    if es == [] then []
    else if es[|es| - 1].key.Alert? then Alerts(es[..|es| - 1]) + [es[|es| - 1]]
    else Alerts(es[..|es| - 1])
  }

  /** `a` is `b` with entries left out. */
  predicate Thins(a: seq<Entry>, b: seq<Entry>)
    decreases |b|
  {
    || a == []
    || (b != [] && Thins(a, b[..|b| - 1]))
    || (b != [] && a[|a| - 1] == b[|b| - 1] && Thins(a[..|a| - 1], b[..|b| - 1]))
  }

  /** The map a reader ends with when it keeps the last value of each key. */
  function Last(es: seq<Entry>, k: Key): Option<string> {
    if es == [] then None
    else if es[|es| - 1].key == k then Some(es[|es| - 1].payload)
    else Last(es[..|es| - 1], k)
  }

  predicate OnePerKey(pending: seq<Entry>) { forall i, j | 0 <= i < j < |pending| :: pending[i].key != pending[j].key }

  lemma {:induction false} OfConcat(a: seq<Entry>, b: seq<Entry>, k: Key)
    ensures Of(a + b, k) == Of(a, k) + Of(b, k)
  {
    if b == [] {
      assert a + b == a;
    } else {
      assert (a + b)[..|a + b| - 1] == a + b[..|b| - 1];
      OfConcat(a, b[..|b| - 1], k);
    }
  }

  lemma {:induction false} AlertsConcat(a: seq<Entry>, b: seq<Entry>)
    ensures Alerts(a + b) == Alerts(a) + Alerts(b)
  {
    if b == [] {
      assert a + b == a;
    } else {
      assert (a + b)[..|a + b| - 1] == a + b[..|b| - 1];
      AlertsConcat(a, b[..|b| - 1]);
    }
  }

  lemma {:induction false} LastIsOfLast(es: seq<Entry>, k: Key)
    ensures Last(es, k) == if Of(es, k) == [] then None else Some(Of(es, k)[|Of(es, k)| - 1].payload)
  {
    if es != [] {
      LastIsOfLast(es[..|es| - 1], k);
    }
  }

  /** A queue with one entry per key holds at most one of each. */
  lemma {:induction false} OfPending(pending: seq<Entry>, k: Key)
    requires OnePerKey(pending)
    ensures Of(pending, k) == if SlotOf(pending, k) >= 0 then [pending[SlotOf(pending, k)]] else []
  {
    if pending != [] {
      OfPending(pending[..|pending| - 1], k);
    }
  }

  lemma PlaceMeans(pending: seq<Entry>, e: Entry, k: Key)
    requires OnePerKey(pending)
    ensures OnePerKey(Place(pending, e))
    ensures Of(Place(pending, e), k) == if k == e.key then [e] else Of(pending, k)
  {
    hide Of, OnePerKey, Place, SlotOf;
    PlaceKeepsOnePerKey(pending, e);
    var i := SlotOf(pending, e.key);
    OfPending(pending, e.key);
    PlaceIs(pending, e);
    if i >= 0 {
      OfReplaced(pending[..i], pending[i], e, pending[i + 1..], k);
    } else {
      OfConcat(pending, [e], k);
      OfOne(e, k);
    }
  }

  lemma PlaceIs(pending: seq<Entry>, e: Entry)
    ensures var i := SlotOf(pending, e.key);
      if i < 0 then Place(pending, e) == pending + [e]
      else Place(pending, e) == pending[..i] + [e] + pending[i + 1..] && pending == pending[..i] + [pending[i]] + pending[i + 1..]
  {
    hide SlotOf;
  }

  lemma PlaceKeepsOnePerKey(pending: seq<Entry>, e: Entry)
    requires OnePerKey(pending)
    ensures OnePerKey(Place(pending, e))
  {
    hide SlotOf;
    var i := SlotOf(pending, e.key);
    if i < 0 {
      assert forall j | 0 <= j < |pending| :: pending[j] in pending;
    }
  }

  /** One entry in the place of another of its key, the only one there is. */
  lemma OfReplaced(a: seq<Entry>, was: Entry, e: Entry, b: seq<Entry>, k: Key)
    requires was.key == e.key && Of(a + [was] + b, e.key) == [was]
    ensures Of(a + [e] + b, k) == if k == e.key then [e] else Of(a + [was] + b, k)
  {
    hide Of;
    OfThree(a, was, b, k);
    OfThree(a, e, b, k);
    if k == e.key {
      assert |Of(a, k)| + 1 + |Of(b, k)| == 1;
    }
  }

  lemma OfOne(e: Entry, k: Key)
    ensures Of([e], k) == if e.key == k then [e] else []
  {
    assert [e][..0] == [];
  }

  lemma OfThree(a: seq<Entry>, e: Entry, b: seq<Entry>, k: Key)
    ensures Of(a + [e] + b, k) == Of(a, k) + (if e.key == k then [e] else []) + Of(b, k)
  {
    OfConcat(a + [e], b, k);
    OfConcat(a, [e], k);
    OfOne(e, k);
  }

  lemma PopMeans(pending: seq<Entry>, p: Key, k: Key)
    requires OnePerKey(pending)
    ensures OnePerKey(Pop(pending, p))
    ensures Of(Pop(pending, p), k) == if k == p then [] else Of(pending, k)
  {
    hide Of, OnePerKey, Pop, SlotOf;
    PopKeepsOnePerKey(pending, p);
    OfPending(pending, p);
    PopIs(pending, p);
    var i := SlotOf(pending, p);
    if i >= 0 {
      OfRemoved(pending[..i], pending[i], pending[i + 1..], k);
    }
  }

  lemma PopIs(pending: seq<Entry>, p: Key)
    ensures var i := SlotOf(pending, p);
      if i < 0 then Pop(pending, p) == pending
      else Pop(pending, p) == pending[..i] + pending[i + 1..] && pending == pending[..i] + [pending[i]] + pending[i + 1..]
  {
    hide SlotOf;
  }

  lemma PopKeepsOnePerKey(pending: seq<Entry>, p: Key)
    requires OnePerKey(pending)
    ensures OnePerKey(Pop(pending, p))
  {
    hide SlotOf;
  }

  /** The only entry of its key, taken out. */
  lemma OfRemoved(a: seq<Entry>, e: Entry, b: seq<Entry>, k: Key)
    requires Of(a + [e] + b, e.key) == [e]
    ensures Of(a + b, k) == if k == e.key then [] else Of(a + [e] + b, k)
  {
    hide Of;
    OfThree(a, e, b, k);
    OfConcat(a, b, k);
    if k == e.key {
      assert |Of(a, k)| + 1 + |Of(b, k)| == 1;
    }
  }

  lemma PopHolds(pending: seq<Entry>, p: Key)
    requires OnePerKey(pending)
    ensures |Pop(pending, p)| <= |pending|
    ensures forall e | e in Pop(pending, p) :: e in pending && e.key != p
  {
    hide SlotOf;
  }

  lemma WantOne(s: Session, p: Pair)
    ensures Want(s, [p]) == s.(symbols := s.symbols + {p})
  {
    assert [p][..0] == [];
  }

  // ------------------------------------------------------------------- subsequences

  lemma {:induction false} ThinsMore(a: seq<Entry>, e: Entry, b: seq<Entry>)
    requires Thins(a + [e], b)
    ensures Thins(a, b)
    decreases |b|
  {
    var c := a + [e];
    assert c[..|c| - 1] == a;
    if b != [] {
      if Thins(c, b[..|b| - 1]) {
        ThinsMore(a, e, b[..|b| - 1]);
      }
    }
  }

  lemma ThinsGrow(a: seq<Entry>, b: seq<Entry>, e: Entry)
    requires Thins(a, b)
    ensures Thins(a, b + [e]) && Thins(a + [e], b + [e])
  {
    assert (b + [e])[..|b|] == b && (a + [e])[..|a|] == a;
  }

  // ---------------------------------------------------------------------- invariant

  /** What key `k`'s reader has had, and will have at the next drain. */
  function Reading(w: World, k: Key): seq<Entry> { Of(w.delivered, k) + Of(w.s.pending, k) }

  ghost predicate KeyInv(w: World, k: Key) {
    && Thins(Reading(w, k), Of(w.accepted, k))
    && (k !in w.lost ==> Last(w.delivered + w.s.pending, k) == Last(w.accepted, k))
  }

  ghost predicate Inv(w: World) {
    && OnePerKey(w.s.pending)
    && |w.accepted| == w.s.sent + w.s.conflated + |w.s.pending| + w.dropped
    && |w.delivered| == w.s.sent
    && (forall e | e in w.s.pending :: e in w.accepted)
    && (forall e | e in w.s.pending && (e.key.Tick? || e.key.Vol?) :: e.key.pair in w.s.symbols)
    && (forall k | k in w.lost :: k.Tick? || k.Vol?)
  }

  lemma StepKeepsInv(w: World, h: Happening)
    requires Inv(w)
    ensures Inv(Step(w, h))
  {
    hide Place, Pop, Of, Routed;
    match h
    case Send(m) =>
      PlaceMeans(w.s.pending, Routed(m), Status);
      PlaceHolds(w.s.pending, Routed(m));
      RoutedPair(m);
    case Take =>
    case Follow(p) =>
      WantOne(w.s, p);
    case Unfollow(p) =>
      PopMeans(w.s.pending, Tick(p), Status);
      PopHolds(w.s.pending, Tick(p));
      PopMeans(Pop(w.s.pending, Tick(p)), Vol(p), Status);
      PopHolds(Pop(w.s.pending, Tick(p)), Vol(p));
    case Close =>
  }

  lemma RoutedPair(m: Message)
    ensures if m.Health? then Routed(m).key == Status else !Routed(m).key.Status? && Routed(m).key.pair == m.pair
  {}

  lemma PlaceHolds(pending: seq<Entry>, e: Entry)
    ensures |Place(pending, e)| == if SlotOf(pending, e.key) >= 0 then |pending| else |pending| + 1
    ensures forall x | x in Place(pending, e) :: x in pending || x == e
  {
    hide SlotOf;
  }

  lemma StepKeepsKey(w: World, h: Happening, k: Key)
    requires Inv(w) && KeyInv(w, k)
    ensures KeyInv(Step(w, h), k)
  {
    hide Place, Pop, Of, Last, Thins, SlotOf, Routed;
    var w' := Step(w, h);
    StepKeepsInv(w, h);
    LastByKey(w, k);
    LastByKey(w', k);
    match h
    case Send(m) =>
      if w' != w {
        SendKeepsKey(w, Routed(m), k);
      }
    case Take =>
      OfConcat(w.delivered, w.s.pending, k);
      OfNone(k);
      assert w'.delivered + [] == w'.delivered;
      assert Of(w'.delivered, k) + [] == Of(w'.delivered, k);
    case Follow(p) =>
      WantOne(w.s, p);
    case Unfollow(p) =>
      ForgoKeepsKey(w, p, k);
    case Close =>
  }

  /** An unsubscribe takes a key's slot away and nothing else. */
  lemma ForgoKeepsKey(w: World, p: Pair, k: Key)
    requires Inv(w) && KeyInv(w, k)
    ensures var w' := Step(w, Unfollow(p));
      Thins(Reading(w', k), Of(w.accepted, k)) && (k !in w'.lost ==> Reading(w', k) == Reading(w, k))
  {
    hide Pop, Of, Last, Thins, SlotOf;
    PopMeans(w.s.pending, Tick(p), k);
    PopMeans(Pop(w.s.pending, Tick(p)), Vol(p), k);
    OfPending(w.s.pending, k);
    var had := Of(w.delivered, k);
    assert had + [] == had;
    if SlotOf(w.s.pending, k) >= 0 {
      ThinsMore(had, w.s.pending[SlotOf(w.s.pending, k)], Of(w.accepted, k));
    }
  }

  lemma OfNone(k: Key)
    ensures Of([], k) == []
  {}

  /** What a key's reader ends with, by what it has had. */
  lemma LastByKey(w: World, k: Key)
    ensures Last(w.delivered + w.s.pending, k) == NewestOf(Reading(w, k)) && Last(w.accepted, k) == NewestOf(Of(w.accepted, k))
  {
    OfConcat(w.delivered, w.s.pending, k);
    LastIsOfLast(w.delivered + w.s.pending, k);
    LastIsOfLast(w.accepted, k);
  }

  function NewestOf(es: seq<Entry>): Option<string> { if es == [] then None else Some(es[|es| - 1].payload) }

  lemma SendKeepsKey(w: World, e: Entry, k: Key)
    requires Inv(w) && KeyInv(w, k)
    ensures var pending, accepted := Place(w.s.pending, e), w.accepted + [e];
      && Thins(Of(w.delivered, k) + Of(pending, k), Of(accepted, k))
      && (k == e.key ==> Of(pending, k) == [e] && Of(accepted, k) == Of(w.accepted, k) + [e])
      && (k != e.key ==> Of(pending, k) == Of(w.s.pending, k) && Of(accepted, k) == Of(w.accepted, k))
  {
    hide Place, Of, Last, Thins, SlotOf;
    PlaceMeans(w.s.pending, e, k);
    OfConcat(w.accepted, [e], k);
    OfOne(e, k);
    if k == e.key {
      OfPending(w.s.pending, k);
      var before := Of(w.delivered, k);
      if SlotOf(w.s.pending, k) >= 0 {
        ThinsMore(before, w.s.pending[SlotOf(w.s.pending, k)], Of(w.accepted, k));
      }
      assert before + [] == before;
      ThinsGrow(before, Of(w.accepted, k), e);
      assert Of(Place(w.s.pending, e), k) == [e] && Of(w.accepted + [e], k) == Of(w.accepted, k) + [e];
    } else {
      assert Of(w.accepted, k) + [] == Of(w.accepted, k);
    }
  }

  lemma {:induction false} RunKeeps(hs: seq<Happening>, k: Key)
    ensures Inv(Run(START, hs)) && KeyInv(Run(START, hs), k)
  {
    if hs != [] {
      RunKeeps(hs[..|hs| - 1], k);
      StepKeepsInv(Run(START, hs[..|hs| - 1]), hs[|hs| - 1]);
      StepKeepsKey(Run(START, hs[..|hs| - 1]), hs[|hs| - 1], k);
    }
  }

  // ------------------------------------------------------------------- main results

  /**
    Over any run, a key's deliveries are its accepted values with some left out, in
    order; and a reader that overlays what is pending on what it was sent ends with
    the newest accepted value of every key that no unsubscribe dropped.
   */
  lemma ReaderIsCurrent(hs: seq<Happening>, k: Key)
    ensures var w := Run(START, hs);
      && Thins(Of(w.delivered, k) + Of(w.s.pending, k), Of(w.accepted, k))
      && (k !in w.lost ==> Last(w.delivered + w.s.pending, k) == Last(w.accepted, k))
  {
    RunKeeps(hs, k);
  }

  /** Nothing accepted is unaccounted for. */
  lemma EveryFrameIsCounted(hs: seq<Happening>)
    ensures var w := Run(START, hs);
      |w.accepted| == w.s.sent + w.s.conflated + |w.s.pending| + w.dropped && |w.delivered| == w.s.sent
  {
    RunKeeps(hs, Status);
  }

  /** Every alert key is accepted at most once. */
  predicate AlertsAreDistinct(es: seq<Entry>) {
    forall i, j | 0 <= i < j < |es| && es[i].key.Alert? :: es[i].key != es[j].key
  }

  lemma AlertsOfPlace(pending: seq<Entry>, e: Entry)
    requires e.key.Alert? ==> SlotOf(pending, e.key) < 0
    ensures Alerts(Place(pending, e)) == if e.key.Alert? then Alerts(pending) + [e] else Alerts(pending)
  {
    hide Alerts, SlotOf;
    var i := SlotOf(pending, e.key);
    AlertsOfOne(e);
    if i >= 0 {
      var a, b := pending[..i], pending[i + 1..];
      AlertsOfOne(pending[i]);
      assert pending == a + [pending[i]] + b && Place(pending, e) == a + [e] + b;
      AlertsConcat(a + [pending[i]], b);
      AlertsConcat(a, [pending[i]]);
      AlertsConcat(a + [e], b);
      AlertsConcat(a, [e]);
    } else {
      AlertsConcat(pending, [e]);
    }
  }

  lemma AlertsOfPop(pending: seq<Entry>, k: Key)
    requires !k.Alert?
    ensures Alerts(Pop(pending, k)) == Alerts(pending)
  {
    hide Alerts, SlotOf;
    var i := SlotOf(pending, k);
    if i >= 0 {
      var a, b := pending[..i], pending[i + 1..];
      AlertsOfOne(pending[i]);
      assert pending == a + [pending[i]] + b;
      AlertsConcat(a + [pending[i]], b);
      AlertsConcat(a, [pending[i]]);
      AlertsConcat(a, b);
    }
  }

  lemma StepKeepsAlerts(w: World, h: Happening)
    requires Inv(w) && AlertsAreDistinct(Step(w, h).accepted)
    requires Alerts(w.delivered) + Alerts(w.s.pending) == Alerts(w.accepted)
    ensures var w' := Step(w, h); Alerts(w'.delivered) + Alerts(w'.s.pending) == Alerts(w'.accepted)
  {
    hide Place, Pop, Alerts, SlotOf, Routed, AlertsAreDistinct;
    match h
    case Send(m) =>
      if Addressed(w.s, m) && !w.s.closed {
        var e := Routed(m);
        if e.key.Alert? && SlotOf(w.s.pending, e.key) >= 0 {
          PendingWasAccepted(w, e);
        } else {
          AlertsOfPlace(w.s.pending, e);
          AlertsConcat(w.accepted, [e]);
          AlertsOfOne(e);
        }
      }
    case Take =>
      AlertsConcat(w.delivered, w.s.pending);
      AlertsOfNone();
    case Follow(p) =>
      WantOne(w.s, p);
    case Unfollow(p) =>
      AlertsOfPop(w.s.pending, Tick(p));
      AlertsOfPop(Pop(w.s.pending, Tick(p)), Vol(p));
    case Close =>
  }

  lemma AlertsOfNone()
    ensures Alerts([]) == []
  {}

  lemma AlertsOfOne(e: Entry)
    ensures Alerts([e]) == if e.key.Alert? then [e] else []
  {
    assert [e][..0] == [];
  }

  lemma PendingWasAccepted(w: World, e: Entry)
    requires Inv(w) && e.key.Alert? && SlotOf(w.s.pending, e.key) >= 0
    ensures !AlertsAreDistinct(w.accepted + [e])
  {
    var x := w.s.pending[SlotOf(w.s.pending, e.key)];
    assert x in w.accepted;
    var i :| 0 <= i < |w.accepted| && w.accepted[i] == x;
    var all := w.accepted + [e];
    assert all[i].key == e.key && all[|w.accepted|] == e;
  }

  lemma AcceptedGrows(w: World, h: Happening)
    ensures |w.accepted| <= |Step(w, h).accepted| && forall i | 0 <= i < |w.accepted| :: Step(w, h).accepted[i] == w.accepted[i]
  {
    hide Place, Pop, Routed;
  }

  /** No alert is conflated or overtaken: those delivered, then those pending, are exactly those accepted, in order. */
  lemma {:induction false} AlertsAreNeverConflated(hs: seq<Happening>)
    requires AlertsAreDistinct(Run(START, hs).accepted)
    ensures var w := Run(START, hs); Alerts(w.delivered) + Alerts(w.s.pending) == Alerts(w.accepted)
  {
    if hs != [] {
      var front, h := hs[..|hs| - 1], hs[|hs| - 1];
      hide Step, Alerts;
      var w := Run(START, front);
      AcceptedGrows(w, h);
      assert forall i | 0 <= i < |w.accepted| :: Step(w, h).accepted[i] == w.accepted[i];
      AlertsAreNeverConflated(front);
      RunKeeps(front, Status);
      StepKeepsAlerts(w, h);
    }
  }

  // ------------------------------------------------------- by the messages sent

  /** Two messages share a slot if and only if the second makes the first stale: feed health, or one figure of one pair, or one transition again. */
  lemma SlotsAreSharedIff(a: Message, b: Message)
    ensures Routed(a).key == Routed(b).key <==>
      || (a.Health? && b.Health?)
      || (a.Price? && b.Price? && a.pair == b.pair)
      || (a.Volatility? && b.Volatility? && a.pair == b.pair)
      || (a.Event? && b.Event? && a.pair == b.pair && a.seqNo == b.seqNo)
    ensures Routed(a).payload == a.payload
  {}

  /** What a run does with a message is what the fan-out does with it; a closed session takes nothing. */
  lemma SendingIsDispatching(w: World, m: Message)
    ensures Step(w, Send(m)).s == Hears(w.s, m)
    ensures w.s.closed ==> Hears(w.s, m) == w.s
  {
    hide Place, Routed;
  }

  predicate Follows(hs: seq<Happening>, p: Pair) {
    hs != [] &&
    match hs[|hs| - 1]
    case Follow(q) => q == p || Follows(hs[..|hs| - 1], p)
    case Unfollow(q) => q != p && Follows(hs[..|hs| - 1], p)
    case _ => Follows(hs[..|hs| - 1], p)
  }

  predicate Open(hs: seq<Happening>) { hs == [] || (hs[|hs| - 1] != Close && Open(hs[..|hs| - 1])) }

  /** The messages a reader is owed: sent while it was connected, about feed health or a pair it then followed. */
  function Owed(hs: seq<Happening>): seq<Message> {
    if hs == [] then []
    else
      var front, h := hs[..|hs| - 1], hs[|hs| - 1];
      if h.Send? && Open(front) && (h.m.Health? || Follows(front, h.m.pair)) then Owed(front) + [h.m] else Owed(front)
  }

  lemma {:induction false} SessionFollows(hs: seq<Happening>)
    ensures var s := Run(START, hs).s; s.closed == !Open(hs) && forall p :: p in s.symbols <==> Follows(hs, p)
  {
    if hs != [] {
      hide Place, Pop, Routed;
      SessionFollows(hs[..|hs| - 1]);
      if hs[|hs| - 1].Follow? {
        WantOne(Run(START, hs[..|hs| - 1]).s, hs[|hs| - 1].p);
      }
    }
  }

  function AllRouted(ms: seq<Message>): seq<Entry> {
    if ms == [] then [] else AllRouted(ms[..|ms| - 1]) + [Routed(ms[|ms| - 1])]
  }

  lemma AcceptedStep(w: World, h: Happening)
    ensures Step(w, h).accepted ==
      if h.Send? && Addressed(w.s, h.m) && !w.s.closed then w.accepted + [Routed(h.m)] else w.accepted
  {
    hide Place, Pop, Routed, SlotOf;
  }

  lemma AllRoutedSnoc(ms: seq<Message>, m: Message)
    ensures AllRouted(ms + [m]) == AllRouted(ms) + [Routed(m)]
  {
    assert (ms + [m])[..|ms|] == ms;
  }

  lemma {:induction false} AcceptedIsOwed(hs: seq<Happening>)
    ensures Run(START, hs).accepted == AllRouted(Owed(hs))
  {
    if hs != [] {
      hide Step, Routed, AllRouted;
      var front, h := hs[..|hs| - 1], hs[|hs| - 1];
      AcceptedIsOwed(front);
      SessionFollows(front);
      AcceptedStep(Run(START, front), h);
      if h.Send? {
        AllRoutedSnoc(Owed(front), h.m);
      }
    }
  }

  /** What an alert says, and what a reader sees of one. */
  datatype Notice = Notice(pair: Pair, seqNo: int, payload: string)

  function Notices(ms: seq<Message>): seq<Notice> {
    if ms == [] then []
    else
      var m := ms[|ms| - 1];
      if m.Event? then Notices(ms[..|ms| - 1]) + [Notice(m.pair, m.seqNo, m.payload)] else Notices(ms[..|ms| - 1])
  }

  function Read(es: seq<Entry>): seq<Notice> {
    if es == [] then []
    else
      var e := es[|es| - 1];
      if e.key.Alert? then Read(es[..|es| - 1]) + [Notice(e.key.pair, e.key.seqNo, e.payload)] else Read(es[..|es| - 1])
  }

  lemma {:induction false} ReadOfRouted(ms: seq<Message>)
    ensures Read(AllRouted(ms)) == Notices(ms)
  {
    if ms != [] {
      ReadOfRouted(ms[..|ms| - 1]);
    }
  }

  lemma {:induction false} ReadOfAlerts(es: seq<Entry>)
    ensures Read(Alerts(es)) == Read(es)
  {
    if es != [] {
      var front, e := es[..|es| - 1], es[|es| - 1];
      ReadOfAlerts(front);
      assert (Alerts(front) + [e])[..|Alerts(front)|] == Alerts(front);
    }
  }

  lemma {:induction false} ReadConcat(a: seq<Entry>, b: seq<Entry>)
    ensures Read(a + b) == Read(a) + Read(b)
  {
    if b == [] {
      assert a + b == a;
    } else {
      assert (a + b)[..|a + b| - 1] == a + b[..|b| - 1];
      ReadConcat(a, b[..|b| - 1]);
    }
  }

  /** No transition is announced twice. */
  predicate EventsAreDistinct(hs: seq<Happening>) {
    forall i, j | 0 <= i < j < |hs| && hs[i].Send? && hs[j].Send? && hs[i].m.Event? && hs[j].m.Event? ::
      hs[i].m.pair != hs[j].m.pair || hs[i].m.seqNo != hs[j].m.seqNo
  }

  lemma {:induction false} OwedWasSent(hs: seq<Happening>, k: int)
    requires 0 <= k < |Owed(hs)|
    ensures exists i | 0 <= i < |hs| :: hs[i] == Send(Owed(hs)[k])
  {
    var front := hs[..|hs| - 1];
    if k < |Owed(front)| {
      OwedWasSent(front, k);
      var i :| 0 <= i < |front| && front[i] == Send(Owed(hs)[k]);
      assert hs[i] == front[i];
    }
  }

  lemma {:induction false} OwedAreDistinct(hs: seq<Happening>)
    requires EventsAreDistinct(hs)
    ensures forall i, j | 0 <= i < j < |Owed(hs)| && Owed(hs)[i].Event? && Owed(hs)[j].Event? ::
      Owed(hs)[i].pair != Owed(hs)[j].pair || Owed(hs)[i].seqNo != Owed(hs)[j].seqNo
  {
    if hs != [] {
      var front, h := hs[..|hs| - 1], hs[|hs| - 1];
      assert forall i | 0 <= i < |front| :: front[i] == hs[i];
      OwedAreDistinct(front);
      if h.Send? && h.m.Event? {
        forall i | 0 <= i < |Owed(front)| && Owed(front)[i].Event?
          ensures Owed(front)[i].pair != h.m.pair || Owed(front)[i].seqNo != h.m.seqNo
        {
          OwedWasSent(front, i);
          var n :| 0 <= n < |front| && front[n] == Send(Owed(front)[i]);
          assert hs[n] == front[n];
        }
      }
    }
  }

  lemma {:induction false} RoutedAt(ms: seq<Message>)
    ensures |AllRouted(ms)| == |ms| && forall i | 0 <= i < |ms| :: AllRouted(ms)[i] == Routed(ms[i])
  {
    if ms != [] {
      RoutedAt(ms[..|ms| - 1]);
    }
  }

  /**
    Every transition announced, each once, reaches its readers: those delivered and
    then those pending are, in order and with their text, all the events sent while
    the reader was connected and followed the pair.
   */
  lemma EveryEventReachesItsReaders(hs: seq<Happening>)
    requires EventsAreDistinct(hs)
    ensures var w := Run(START, hs); Read(w.delivered) + Read(w.s.pending) == Notices(Owed(hs))
  {
    var w, ms := Run(START, hs), Owed(hs);
    AcceptedIsOwed(hs);
    OwedAreDistinct(hs);
    RoutedAt(ms);
    forall i, j | 0 <= i < j < |w.accepted| && w.accepted[i].key.Alert?
      ensures w.accepted[i].key != w.accepted[j].key
    {
      SlotsAreSharedIff(ms[i], ms[j]);
    }
    hide Run, Owed, AllRouted, Routed, Alerts, Read, Notices;
    AlertsAreNeverConflated(hs);
    ReadOfAlerts(w.delivered);
    ReadOfAlerts(w.s.pending);
    ReadOfAlerts(w.accepted);
    ReadConcat(Alerts(w.delivered), Alerts(w.s.pending));
    ReadOfRouted(ms);
  }

  /** The last price, volatility or health text among the messages. */
  function NewestText(ms: seq<Message>, k: Key): Option<string> {
    if ms == [] then None
    else
      var m := ms[|ms| - 1];
      if (k == Status && m.Health?) || (k.Tick? && m.Price? && m.pair == k.pair) || (k.Vol? && m.Volatility? && m.pair == k.pair)
      then Some(m.payload) else NewestText(ms[..|ms| - 1], k)
  }

  lemma {:induction false} LastOfRouted(ms: seq<Message>, k: Key)
    requires !k.Alert?
    ensures Last(AllRouted(ms), k) == NewestText(ms, k)
  {
    if ms != [] {
      LastOfRouted(ms[..|ms| - 1], k);
    }
  }

  lemma {:induction false} LostByUnfollowing(hs: seq<Happening>, p: Pair)
    requires forall i | 0 <= i < |hs| :: hs[i] != Unfollow(p)
    ensures Tick(p) !in Run(START, hs).lost && Vol(p) !in Run(START, hs).lost
  {
    if hs != [] {
      hide Place, Pop, Routed, SlotOf;
      LostByUnfollowing(hs[..|hs| - 1], p);
    }
  }

  /**
    A reader that overlays what is pending on what it was sent has the newest price
    and volatility it is owed of every pair it never unfollowed, and the newest feed
    health, however slowly it reads.
   */
  lemma ReaderHasTheNewest(hs: seq<Happening>, p: Pair)
    requires forall i | 0 <= i < |hs| :: hs[i] != Unfollow(p)
    ensures var w, ms := Run(START, hs), Owed(hs);
      && Last(w.delivered + w.s.pending, Tick(p)) == NewestText(ms, Tick(p))
      && Last(w.delivered + w.s.pending, Vol(p)) == NewestText(ms, Vol(p))
      && Last(w.delivered + w.s.pending, Status) == NewestText(ms, Status)
  {
    hide Run, Owed, AllRouted, Last, NewestText, Thins, Of;
    AcceptedIsOwed(hs);
    LostByUnfollowing(hs, p);
    RunKeeps(hs, Tick(p));
    RunKeeps(hs, Vol(p));
    RunKeeps(hs, Status);
    LastOfRouted(Owed(hs), Tick(p));
    LastOfRouted(Owed(hs), Vol(p));
    LastOfRouted(Owed(hs), Status);
  }

  // ---------------------------------------------------------------------- the bound

  function Prices(es: seq<Entry>): (r: seq<Pair>)
    ensures forall p :: p in r <==> exists e :: e in es && e.key == Tick(p)
  {
    if es == [] then []
    else
      assert es == es[..|es| - 1] + [es[|es| - 1]];
      if es[|es| - 1].key.Tick? then Prices(es[..|es| - 1]) + [es[|es| - 1].key.pair] else Prices(es[..|es| - 1])
  }

  function Vols(es: seq<Entry>): (r: seq<Pair>)
    ensures forall p :: p in r <==> exists e :: e in es && e.key == Vol(p)
  {
    if es == [] then []
    else
      assert es == es[..|es| - 1] + [es[|es| - 1]];
      if es[|es| - 1].key.Vol? then Vols(es[..|es| - 1]) + [es[|es| - 1].key.pair] else Vols(es[..|es| - 1])
  }

  predicate Distinct(ps: seq<Pair>) { forall i, j | 0 <= i < j < |ps| :: ps[i] != ps[j] }

  lemma {:induction false} DistinctFits(ps: seq<Pair>, all: set<Pair>)
    requires Distinct(ps) && forall p | p in ps :: p in all
    ensures |ps| <= |all|
  {
    if ps != [] {
      var front, last := ps[..|ps| - 1], ps[|ps| - 1];
      assert ps == front + [last];
      DistinctFits(front, all - {last});
    }
  }

  lemma {:induction false} CountPending(pending: seq<Entry>)
    requires OnePerKey(pending)
    ensures Distinct(Prices(pending)) && Distinct(Vols(pending))
    ensures |pending| == |Prices(pending)| + |Vols(pending)| + |Of(pending, Status)| + |Alerts(pending)|
  {
    if pending != [] {
      var front, last := pending[..|pending| - 1], pending[|pending| - 1];
      assert pending == front + [last];
      CountPending(front);
    }
  }

  /** A reader that takes nothing holds at most two slots per pair it follows, one for feed health, and its alerts. */
  lemma PendingIsBounded(hs: seq<Happening>)
    ensures var s := Run(START, hs).s; |s.pending| - |Alerts(s.pending)| <= 2 * |s.symbols| + 1
  {
    var s := Run(START, hs).s;
    RunKeeps(hs, Status);
    CountPending(s.pending);
    DistinctFits(Prices(s.pending), s.symbols);
    DistinctFits(Vols(s.pending), s.symbols);
    OfPending(s.pending, Status);
  }
}
