/**
  Switching providers: one atomic script parks the old provider's state under its name
  and brings the new one's back, and a promoted process never numbers a transition
  below what any parked detector has used.
 */
module Adoption {
  import opened Wrappers

  datatype Kind = Minutes | Days | Scores | Regime

  datatype StateName = StateName(symbol: string, kind: Kind)

  datatype Key = Live(name: StateName) | Archive(owner: string, name: StateName) | Cache(symbol: string)

  datatype Value = Series(body: string) | DetectorState(seqNo: int, body: string)

  type Keys = map<Key, Value>

  datatype Store = Store(marker: Option<string>, keys: Keys)

  /** The park of keys written before any provider was recorded; not the name of a provider. */
  const UNVERIFIED := "unverified"

  function LabelOf(marker: Option<string>): string { if marker.Some? then marker.value else UNVERIFIED }

  function Look(ks: Keys, k: Key): Option<Value> { if k in ks then Some(ks[k]) else None }

  // -------------------------------------------------------------------- the script

  predicate Refuses(ks: Keys, owner: string, names: seq<StateName>) {
    exists i | 0 <= i < |names| :: Live(names[i]) in ks && Archive(owner, names[i]) in ks
  }

  function Rename(ks: Keys, from: Key, to: Key): Keys
    requires from in ks
  {
    ks[to := ks[from]] - {from}
  }

  function AdoptOne(ks: Keys, owner: string, provider: string, n: StateName): Keys {
    var parked := if Live(n) in ks then Rename(ks, Live(n), Archive(owner, n)) else ks;
    if Archive(provider, n) in parked then Rename(parked, Archive(provider, n), Live(n)) else parked
  }

  function AdoptAll(ks: Keys, owner: string, provider: string, names: seq<StateName>): Keys {
    if names == [] then ks else AdoptOne(AdoptAll(ks, owner, provider, names[..|names| - 1]), owner, provider, names[|names| - 1])
  }

  function DropCaches(ks: Keys, symbols: seq<string>): Keys {
    if symbols == [] then ks else DropCaches(ks, symbols[..|symbols| - 1]) - {Cache(symbols[|symbols| - 1])}
  }

  /** Nothing, when the script answers with an error. */
  function Script(s: Store, expected: Option<string>, provider: string, names: seq<StateName>, symbols: seq<string>): Option<Store> {
    if s.marker != expected || Refuses(s.keys, LabelOf(expected), names) then None
    else Some(Store(Some(provider), DropCaches(AdoptAll(s.keys, LabelOf(expected), provider, names), symbols)))
  }

  class Redis {
    var marker: Option<string>
    var keys: Keys

    function Abs(): Store
      reads this
    {
      Store(marker, keys)
    }

    constructor ()
      ensures Abs() == Store(None, map[])
    {
      marker, keys := None, map[];
    }

    /** The script, key by key: check, park and restore each state key, drop the caches, set the marker. */
    method Adopt(expected: Option<string>, provider: string, names: seq<StateName>, symbols: seq<string>) returns (parked: Option<nat>)
      modifies this
      ensures parked.Some? <==> Script(old(Abs()), expected, provider, names, symbols).Some?
      ensures Abs() == if parked.Some? then Script(old(Abs()), expected, provider, names, symbols).value else old(Abs())
    {
      if marker != expected {
        return None;
      }
      var owner := LabelOf(expected);
      for i := 0 to |names|
        invariant !exists j | 0 <= j < i :: Live(names[j]) in keys && Archive(owner, names[j]) in keys
        invariant Abs() == old(Abs())
      {
        if Live(names[i]) in keys && Archive(owner, names[i]) in keys {
          return None;
        }
      }
      var count := 0;
      for i := 0 to |names|
        invariant keys == AdoptAll(old(keys), owner, provider, names[..i]) && marker == old(marker)
      {
        assert names[..i + 1][..i] == names[..i];
        if Live(names[i]) in keys {
          keys := Rename(keys, Live(names[i]), Archive(owner, names[i]));
          count := count + 1;
        }
        if Archive(provider, names[i]) in keys {
          keys := Rename(keys, Archive(provider, names[i]), Live(names[i]));
        }
      }
      assert names[..|names|] == names;
      ghost var moved := keys;
      for i := 0 to |symbols|
        invariant keys == DropCaches(moved, symbols[..i]) && marker == old(marker)
      {
        assert symbols[..i + 1][..i] == symbols[..i];
        keys := keys - {Cache(symbols[i])};
      }
      assert symbols[..|symbols|] == symbols;
      marker := Some(provider);
      return Some(count);
    }
  }

  // -------------------------------------------------------- nothing lost, nothing doubled

  predicate Distinct(names: seq<StateName>) { forall i, j | 0 <= i < j < |names| :: names[i] != names[j] }

  /** What a key holds afterwards, by what the keys held before. */
  function Source(ks: Keys, owner: string, provider: string, names: seq<StateName>, k: Key): Option<Value> {
    if k.Cache? || k.name !in names then Look(ks, k)
    else if k.Live? then Look(ks, Archive(provider, k.name))
    else if k.owner == provider then None
    else if k.owner == owner && Live(k.name) in ks then Look(ks, Live(k.name))
    else Look(ks, k)
  }

  lemma AdoptOneMeans(ks: Keys, owner: string, provider: string, n: StateName, k: Key)
    requires owner != provider
    ensures Look(AdoptOne(ks, owner, provider, n), k) == Source(ks, owner, provider, [n], k)
  {}

  lemma {:induction false} AdoptAllMeans(ks: Keys, owner: string, provider: string, names: seq<StateName>, k: Key)
    requires owner != provider && Distinct(names)
    ensures Look(AdoptAll(ks, owner, provider, names), k) == Source(ks, owner, provider, names, k)
  {
    hide AdoptOne;
    if names != [] {
      var front, n := names[..|names| - 1], names[|names| - 1];
      assert names == front + [n];
      assert n !in front;
      AdoptAllMeans(ks, owner, provider, front, k);
      AdoptAllMeans(ks, owner, provider, front, Live(n));
      AdoptAllMeans(ks, owner, provider, front, Archive(provider, n));
      AdoptOneMeans(AdoptAll(ks, owner, provider, front), owner, provider, n, k);
      assert k.Cache? || (k.name in names <==> k.name in front || k.name == n);
    }
  }

  lemma {:induction false} DropCachesMeans(ks: Keys, symbols: seq<string>, k: Key)
    ensures !k.Cache? ==> Look(DropCaches(ks, symbols), k) == Look(ks, k)
    ensures k.Cache? && k.symbol in symbols ==> Look(DropCaches(ks, symbols), k) == None
  {
    if symbols != [] {
      DropCachesMeans(ks, symbols[..|symbols| - 1], k);
      assert symbols == symbols[..|symbols| - 1] + [symbols[|symbols| - 1]];
    }
  }

  lemma ScriptMeans(s: Store, provider: string, names: seq<StateName>, symbols: seq<string>, k: Key)
    requires LabelOf(s.marker) != provider && Distinct(names)
    requires Script(s, s.marker, provider, names, symbols).Some? && !k.Cache?
    ensures Look(Script(s, s.marker, provider, names, symbols).value.keys, k) == Source(s.keys, LabelOf(s.marker), provider, names, k)
  {
    hide AdoptAll, DropCaches, Source;
    AdoptAllMeans(s.keys, LabelOf(s.marker), provider, names, k);
    DropCachesMeans(AdoptAll(s.keys, LabelOf(s.marker), provider, names), symbols, k);
  }

  /** Of any two processes that read the marker before either runs the script, at most one adopts: the other finds it changed, and changes nothing. */
  lemma OnlyOneAdopts(s: Store, seen: Option<string>, first: string, a: Process, second: string, b: Process)
    requires Script(s, seen, first, a.names, a.symbols).Some? && Some(first) != seen
    ensures s.marker == seen
    ensures Script(Script(s, seen, first, a.names, a.symbols).value, seen, second, b.names, b.symbols).None?
  {
    hide AdoptAll, DropCaches;
  }

  /** After an adoption the provider is the one recorded, and none of the process's caches is left. */
  lemma AdoptionClearsCaches(s: Store, provider: string, who: Process, symbol: string)
    requires AdoptBy(s, provider, who).Some?
    ensures var after := AdoptBy(s, provider, who).value;
      after.marker == Some(provider) && (symbol in who.symbols ==> Cache(symbol) !in after.keys)
  {
    hide AdoptAll, DropCaches;
    DropCachesMeans(AdoptAll(s.keys, LabelOf(s.marker), provider, who.names), who.symbols, Cache(symbol));
  }

  /** Where the script takes a state key. */
  function Moved(owner: string, provider: string, names: seq<StateName>, k: Key): Key {
    if k.Cache? || k.name !in names then k
    else if k.Live? then Archive(owner, k.name)
    else if k.owner == provider then Live(k.name)
    else k
  }

  /** Where it takes it from. */
  function Origin(ks: Keys, owner: string, provider: string, names: seq<StateName>, k: Key): Key {
    if k.Cache? || k.name !in names then k
    else if k.Live? then Archive(provider, k.name)
    else if k.owner == owner && Live(k.name) in ks then Live(k.name)
    else k
  }

  /**
    The script moves every state key to its own place with its value, and leaves no
    key that was not moved there: nothing is lost, doubled or invented.
   */
  lemma NoKeyIsLost(s: Store, provider: string, names: seq<StateName>, symbols: seq<string>, k: Key)
    requires LabelOf(s.marker) != provider && Distinct(names) && !k.Cache?
    requires Script(s, s.marker, provider, names, symbols).Some?
    ensures var owner, after := LabelOf(s.marker), Script(s, s.marker, provider, names, symbols).value.keys;
      && (k in s.keys ==> Look(after, Moved(owner, provider, names, k)) == Look(s.keys, k))
      && (k in after ==> var o := Origin(s.keys, owner, provider, names, k);
            o in s.keys && Moved(owner, provider, names, o) == k)
      && (k in s.keys ==> Origin(s.keys, owner, provider, names, Moved(owner, provider, names, k)) == k)
  {
    hide Script;
    var owner := LabelOf(s.marker);
    ScriptMeans(s, provider, names, symbols, Moved(owner, provider, names, k));
    ScriptMeans(s, provider, names, symbols, k);
    NotRefused(s, provider, names, symbols, k);
  }

  lemma NotRefused(s: Store, provider: string, names: seq<StateName>, symbols: seq<string>, k: Key)
    requires Script(s, s.marker, provider, names, symbols).Some? && !k.Cache?
    ensures k.name in names ==> !(Live(k.name) in s.keys && Archive(LabelOf(s.marker), k.name) in s.keys)
  {
    if k.name in names {
      var i :| 0 <= i < |names| && names[i] == k.name;
    }
  }

  // ------------------------------------------------------------------ the numbering

  function RegimeOf(symbol: string): StateName { StateName(symbol, Regime) }

  predicate IsParked(ks: Keys, k: Key, symbol: string) {
    k in ks && k.Archive? && k.name == RegimeOf(symbol) && ks[k].DetectorState?
  }

  /** `r` is the larger of `base` and every number a parked detector of the symbol has used. */
  ghost predicate IsRaised(ks: Keys, symbol: string, base: int, r: int) {
    && r >= base
    && (forall k | IsParked(ks, k, symbol) :: r >= ks[k].seqNo)
    && (r == base || exists k | IsParked(ks, k, symbol) :: r == ks[k].seqNo)
  }

  /** Where a restored detector's numbering starts: its snapshot's, or the process's own if there is none. */
  function BaseSeq(ks: Keys, symbol: string, own: int): int {
    if Live(RegimeOf(symbol)) in ks && ks[Live(RegimeOf(symbol))].DetectorState? then ks[Live(RegimeOf(symbol))].seqNo else own
  }

  /** Restoring one symbol's numbering: its snapshot, then every parked detector in whatever order the scan meets them. */
  method RestoreSeq(ks: Keys, symbol: string, own: int) returns (r: int)
    ensures IsRaised(ks, symbol, BaseSeq(ks, symbol, own), r)
  {
    r := BaseSeq(ks, symbol, own);
    var left := ks.Keys;
    while left != {}
      invariant left <= ks.Keys
      invariant r >= BaseSeq(ks, symbol, own)
      invariant forall k | IsParked(ks, k, symbol) && k !in left :: r >= ks[k].seqNo
      invariant r == BaseSeq(ks, symbol, own) || exists k | IsParked(ks, k, symbol) :: r == ks[k].seqNo
      decreases |left|
    {
      var k :| k in left;
      left := left - {k};
      if IsParked(ks, k, symbol) && ks[k].seqNo > r {
        r := ks[k].seqNo;
      }
    }
  }

  // ---------------------------------------------------------------------- whole runs

  datatype Emitted = Emitted(symbol: string, seqNo: int, ts: int)

  /** What a process is configured for: its state keys, four per symbol, and its caches. */
  datatype Process = Process(names: seq<StateName>, symbols: seq<string>)

  /**
    The store, the numbering each symbol's detector has in the leading process, if one
    leads, all transitions logged, and the state keys the adoption that set the marker covered.
   */
  datatype World = World(store: Store, leading: Option<map<string, int>>, log: seq<Emitted>, covered: seq<StateName>)

  /** `own` is a process's numbering before it restores, `restored` after. */
  datatype Event =
    | Adopting(provider: string, who: Process)
    | Restoring(own: map<string, int>, restored: map<string, int>)
    | Sealing(symbol: string, fires: bool, ts: int, body: string)
    | Writing(name: StateName, body: string)
    | Expiring(key: Key)
    | Dying
    | LosingMarker

  predicate Adopts(s: Store, provider: string) { s.marker != Some(provider) }

  /** What the script does when a process adopts its provider. */
  function AdoptBy(s: Store, provider: string, who: Process): Option<Store> {
    Script(s, s.marker, provider, who.names, who.symbols)
  }

  /** Processes may be configured differently, each for distinct keys. */
  ghost predicate Possible(w: World, e: Event) {
    match e
    case Adopting(p, who) => p != UNVERIFIED && Distinct(who.names)
    case Restoring(own, restored) =>
      own.Keys == restored.Keys &&
      forall x | x in own :: IsRaised(w.store.keys, x, BaseSeq(w.store.keys, x, own[x]), restored[x])
    case Sealing(x, fires, ts, body) => w.leading.Some? && x in w.leading.value
    case Writing(n, body) => w.leading.Some? && n.kind != Regime
    case Expiring(k) => !k.Cache? && k.name.kind != Regime
    case Dying => true
    case LosingMarker => true
  }

  ghost function Step(w: World, e: Event): World
    requires Possible(w, e)
  {
    match e
    case Adopting(p, who) =>
      var after := AdoptBy(w.store, p, who);
      if !Adopts(w.store, p) || after.None? then w.(leading := None)
      else w.(store := after.value, leading := None, covered := who.names)
    case Restoring(own, restored) => w.(leading := Some(restored))
    case Sealing(x, fires, ts, body) =>
      var n := w.leading.value[x] + if fires then 1 else 0;
      w.(store := w.store.(keys := w.store.keys[Live(RegimeOf(x)) := DetectorState(n, body)]),
         leading := Some(w.leading.value[x := n]),
         log := if fires then w.log + [Emitted(x, n, ts)] else w.log)
    case Writing(n, body) => w.(store := w.store.(keys := w.store.keys[Live(n) := Series(body)]))
    case Expiring(k) => w.(store := w.store.(keys := w.store.keys - {k}))
    case Dying => w.(leading := None)
    case LosingMarker => w.(store := w.store.(marker := None))
  }

  const START := World(Store(None, map[]), None, [], [])

  ghost predicate Legal(w: World, es: seq<Event>)
    decreases |es|
  {
    es == [] || (Possible(w, es[0]) && Legal(Step(w, es[0]), es[1..]))
  }

  ghost function Run(w: World, es: seq<Event>): World
    requires Legal(w, es)
    decreases |es|
  {
    if es == [] then w else Run(Step(w, es[0]), es[1..])
  }

  /** Some stored detector of the symbol, live or parked, has used number `n` or a later one. */
  ghost predicate Used(ks: Keys, symbol: string, n: int) {
    exists k | k in ks :: !k.Cache? && k.name == RegimeOf(symbol) && ks[k].DetectorState? && ks[k].seqNo >= n
  }

  /** No number is used twice for a symbol. */
  ghost predicate NumberedOnce(log: seq<Emitted>) {
    forall i, j | 0 <= i < j < |log| && log[i].symbol == log[j].symbol :: log[i].seqNo < log[j].seqNo
  }

  ghost predicate Inv(w: World) {
    && NumberedOnce(w.log)
    && (forall e | e in w.log :: Used(w.store.keys, e.symbol, e.seqNo))
    && (w.leading.Some? ==> forall e | e in w.log && e.symbol in w.leading.value :: e.seqNo <= w.leading.value[e.symbol])
    && (forall k | k in w.store.keys && !k.Cache? && k.name.kind == Regime :: w.store.keys[k].DetectorState?)
    && (w.store.marker.Some? ==> w.store.marker.value != UNVERIFIED)
    && (w.store.marker.Some? ==> forall n | n in w.covered :: Archive(w.store.marker.value, n) !in w.store.keys)
  }

  lemma AdoptKeepsUsed(s: Store, provider: string, names: seq<StateName>, symbols: seq<string>, symbol: string, n: int)
    requires LabelOf(s.marker) != provider && Distinct(names) && Script(s, s.marker, provider, names, symbols).Some?
    requires Used(s.keys, symbol, n)
    ensures Used(Script(s, s.marker, provider, names, symbols).value.keys, symbol, n)
  {
    hide Script;
    var k :| k in s.keys && !k.Cache? && k.name == RegimeOf(symbol) && s.keys[k].DetectorState? && s.keys[k].seqNo >= n;
    NoKeyIsLost(s, provider, names, symbols, k);
    var m := Moved(LabelOf(s.marker), provider, names, k);
    assert m in Script(s, s.marker, provider, names, symbols).value.keys;
  }

  lemma AdoptKeepsRegimes(s: Store, provider: string, names: seq<StateName>, symbols: seq<string>, k: Key)
    requires LabelOf(s.marker) != provider && Distinct(names) && Script(s, s.marker, provider, names, symbols).Some?
    requires !k.Cache? && k in Script(s, s.marker, provider, names, symbols).value.keys
    ensures var o := Origin(s.keys, LabelOf(s.marker), provider, names, k);
      o in s.keys && !o.Cache? && o.name == k.name && s.keys[o] == Script(s, s.marker, provider, names, symbols).value.keys[k]
  {
    hide Script;
    NoKeyIsLost(s, provider, names, symbols, k);
    ScriptMeans(s, provider, names, symbols, k);
    NotRefused(s, provider, names, symbols, k);
  }

  lemma AdoptKeepsInv(w: World, provider: string, who: Process)
    requires Inv(w) && Possible(w, Adopting(provider, who))
    ensures Inv(Step(w, Adopting(provider, who)))
  {
    hide Script, Used;
    if Adopts(w.store, provider) && AdoptBy(w.store, provider, who).Some? {
      var after := AdoptBy(w.store, provider, who).value;
      forall e | e in w.log
        ensures Used(after.keys, e.symbol, e.seqNo)
      {
        AdoptKeepsUsed(w.store, provider, who.names, who.symbols, e.symbol, e.seqNo);
      }
      forall k | k in after.keys && !k.Cache? && k.name.kind == Regime
        ensures after.keys[k].DetectorState?
      {
        AdoptKeepsRegimes(w.store, provider, who.names, who.symbols, k);
      }
      MarkerIsSet(w.store, provider, who.names, who.symbols);
      forall n | n in who.names
        ensures Archive(provider, n) !in after.keys
      {
        ScriptMeans(w.store, provider, who.names, who.symbols, Archive(provider, n));
      }
    }
  }

  lemma MarkerIsSet(s: Store, provider: string, names: seq<StateName>, symbols: seq<string>)
    requires Script(s, s.marker, provider, names, symbols).Some?
    ensures Script(s, s.marker, provider, names, symbols).value.marker == Some(provider)
  {}

  /** A restored numbering is at or past everything stored. */
  lemma RaisedIsPastUsed(ks: Keys, symbol: string, own: int, r: int, n: int)
    requires IsRaised(ks, symbol, BaseSeq(ks, symbol, own), r) && Used(ks, symbol, n)
    ensures n <= r
  {
    var k :| k in ks && !k.Cache? && k.name == RegimeOf(symbol) && ks[k].DetectorState? && ks[k].seqNo >= n;
    if k.Archive? {
      assert IsParked(ks, k, symbol);
    } else {
      assert k == Live(RegimeOf(symbol));
    }
  }

  lemma SealKeepsInv(w: World, e: Event)
    requires Inv(w) && Possible(w, e) && e.Sealing?
    ensures Inv(Step(w, e))
  {
    var w' := Step(w, e);
    var live, n := Live(RegimeOf(e.symbol)), w'.leading.value[e.symbol];
    forall x | x in w'.log
      ensures Used(w'.store.keys, x.symbol, x.seqNo)
    {
      if x.symbol == e.symbol {
        assert w'.store.keys[live] == DetectorState(n, e.body);
      } else {
        UsedElsewhere(w.store.keys, x.symbol, x.seqNo, live, DetectorState(n, e.body));
      }
    }
  }

  lemma UsedElsewhere(ks: Keys, symbol: string, n: int, at: Key, v: Value)
    requires Used(ks, symbol, n) && (at.Cache? || at.name != RegimeOf(symbol))
    ensures Used(ks[at := v], symbol, n) && Used(ks - {at}, symbol, n)
  {
    var k :| k in ks && !k.Cache? && k.name == RegimeOf(symbol) && ks[k].DetectorState? && ks[k].seqNo >= n;
    assert k in ks[at := v] && k in ks - {at};
  }

  lemma StepKeeps(w: World, e: Event)
    requires Inv(w) && Possible(w, e)
    ensures Inv(Step(w, e))
  {
    hide Used, IsRaised, BaseSeq;
    match e
    case Adopting(p, who) => AdoptKeepsInv(w, p, who);
    case Restoring(own, restored) =>
      forall x | x in w.log && x.symbol in restored
        ensures x.seqNo <= restored[x.symbol]
      {
        RaisedIsPastUsed(w.store.keys, x.symbol, own[x.symbol], restored[x.symbol], x.seqNo);
      }
    case Sealing(_, _, _, _) => SealKeepsInv(w, e);
    case Writing(n, body) =>
      forall x | x in w.log
        ensures Used(w.store.keys[Live(n) := Series(body)], x.symbol, x.seqNo)
      {
        UsedElsewhere(w.store.keys, x.symbol, x.seqNo, Live(n), Series(body));
      }
    case Expiring(k) =>
      forall x | x in w.log
        ensures Used(w.store.keys - {k}, x.symbol, x.seqNo)
      {
        UsedElsewhere(w.store.keys, x.symbol, x.seqNo, k, Series(""));
      }
    case Dying =>
    case LosingMarker =>
  }

  lemma RunKeeps(w: World, es: seq<Event>)
    requires Inv(w) && Legal(w, es)
    ensures Inv(Run(w, es))
    decreases |es|
  {
    hide Inv, Step, Possible;
    if es != [] {
      StepKeeps(w, es[0]);
      RunKeeps(Step(w, es[0]), es[1..]);
    }
  }

  // --------------------------------------------------------------------- main results

  /**
    Over any provider switches, deaths and promotions of processes however configured,
    even with the provider marker lost: no (symbol, number) is logged twice, and a
    symbol's numbers only rise.
   */
  lemma NoNumberIsReused(es: seq<Event>)
    requires Legal(START, es)
    ensures NumberedOnce(Run(START, es).log)
  {
    RunKeeps(START, es);
  }

  predicate AllCovered(names: seq<StateName>, covered: seq<StateName>) { forall n | n in names :: n in covered }

  /**
    With a provider recorded, the script refuses only for a state key that the
    adoption which recorded it did not cover and that is both live and parked under it.
   */
  lemma RefusalIsOutsideTheCovered(es: seq<Event>, provider: string, who: Process)
    requires Legal(START, es) && Run(START, es).store.marker.Some?
    ensures var w := Run(START, es);
      AdoptBy(w.store, provider, who).None? <==>
        exists n | n in who.names && n !in w.covered :: Live(n) in w.store.keys && Archive(w.store.marker.value, n) in w.store.keys
  {
    RunKeeps(START, es);
    var w := Run(START, es);
    if AdoptBy(w.store, provider, who).None? {
      var i :| 0 <= i < |who.names| && Live(who.names[i]) in w.store.keys && Archive(LabelOf(w.store.marker), who.names[i]) in w.store.keys;
      assert who.names[i] in who.names;
    }
  }

  /** A run after which a provider is recorded by an adoption of `covered`, and `who`'s script is refused. */
  ghost predicate LeadsToRefusal(es: seq<Event>, covered: seq<StateName>, provider: string, who: Process) {
    && Legal(START, es)
    && var w := Run(START, es);
       w.store.marker.Some? && w.covered == covered && Adopts(w.store, provider) && AdoptBy(w.store, provider, who).None?
  }

  /**
    When a switch away from a recorded provider can be refused: if and only if the
    switching process is configured for a state key that the adoption which recorded
    the provider did not cover.
   */
  lemma RefusalIsReachableIff(covered: seq<StateName>, provider: string, who: Process)
    requires Distinct(covered) && provider != UNVERIFIED && Distinct(who.names)
    ensures (exists es :: LeadsToRefusal(es, covered, provider, who)) <==> !AllCovered(who.names, covered)
  {
    if es :| LeadsToRefusal(es, covered, provider, who) {
      RefusalIsOutsideTheCovered(es, provider, who);
    }
    if n :| n in who.names && n !in covered {
      var away, back := provider + "b", provider + "a";
      assert |away| == |back| == |provider| + 1 && away[|provider|] != back[|provider|];
      var es := ForgottenKeyRun(n, covered, back, away, who, provider);
      assert LeadsToRefusal(es, covered, provider, who);
    }
  }

  /** What makes a key live. */
  function Fill(n: StateName): Event { if n.kind == Regime then Sealing(n.symbol, false, 0, "") else Writing(n, "") }

  function Filled(n: StateName): Value { if n.kind == Regime then DetectorState(0, "") else Series("") }

  /** A key written under one provider, parked by a switch, left behind when a process without it switches back, and written again. */
  function ForgottenKey(n: StateName, covered: seq<StateName>, first: string, second: string): seq<Event> {
    var own := map[n.symbol := 0];
    [Adopting(first, Process([n], [])), Restoring(own, own), Fill(n), Adopting(second, Process([n], [])),
     Adopting(first, Process(covered, [])), Restoring(own, own), Fill(n)]
  }

  /** The store while only `n`'s key is there, live, parked or both. */
  ghost predicate Holds(w: World, marker: Option<string>, ks: Keys) { w.store == Store(marker, ks) && w.log == [] }

  lemma ForgottenKeyRun(n: StateName, covered: seq<StateName>, first: string, second: string, who: Process, provider: string)
    returns (es: seq<Event>)
    requires Distinct(covered) && n !in covered && n in who.names && first != second
    requires first != UNVERIFIED && second != UNVERIFIED && provider != first
    ensures Legal(START, es)
    ensures var w := Run(START, es);
      w.store.marker == Some(first) && w.covered == covered && Adopts(w.store, provider) && AdoptBy(w.store, provider, who).None?
  {
    es := ForgottenKey(n, covered, first, second);
    var v := Filled(n);
    var w1 := AdoptWithNothing(START, first, Process([n], []), n, None, map[]);
    var w2 := RestoreAndFill(w1, n, map[], Some(first));
    var w3 := ParkOne(w2, n, first, second, v);
    var w4 := AdoptWithNothing(w3, first, Process(covered, []), n, Some(second), map[Archive(first, n) := v]);
    var w5 := RestoreAndFill(w4, n, map[Archive(first, n) := v], Some(first));
    RunOfSeven(es, w1, w2, w3, w4, w5);
    var i :| 0 <= i < |who.names| && who.names[i] == n;
    assert Live(who.names[i]) in w5.store.keys && Archive(first, who.names[i]) in w5.store.keys;
  }

  /** An adoption that finds none of its keys changes only the marker and what is covered. */
  lemma AdoptWithNothing(w: World, p: string, who: Process, n: StateName, marker: Option<string>, ks: Keys) returns (w': World)
    requires Holds(w, marker, ks) && p != UNVERIFIED && LabelOf(marker) != p && Distinct(who.names)
    requires (forall k | k in ks :: !k.Cache? && k.name == n && k.Archive?) && (n in who.names ==> ks == map[]) && who.symbols == []
    ensures Possible(w, Adopting(p, who)) && w' == Step(w, Adopting(p, who))
    ensures Holds(w', Some(p), ks) && w'.covered == who.names && w'.leading == None
  {
    hide AdoptAll, DropCaches, Source;
    w' := Step(w, Adopting(p, who));
    assert !Refuses(ks, LabelOf(marker), who.names);
    NoCachesDropped(AdoptAll(ks, LabelOf(marker), p, who.names));
    forall k
      ensures Look(w'.store.keys, k) == Look(ks, k)
    {
      AdoptAllMeans(ks, LabelOf(marker), p, who.names, k);
      UntouchedSource(ks, LabelOf(marker), p, who.names, n, k);
    }
    SameKeys(w'.store.keys, ks);
  }

  lemma NoCachesDropped(ks: Keys)
    ensures DropCaches(ks, []) == ks
  {}

  lemma UntouchedSource(ks: Keys, owner: string, p: string, names: seq<StateName>, n: StateName, k: Key)
    requires (forall x | x in ks :: !x.Cache? && x.name == n && x.Archive?) && (n in names ==> ks == map[]) && owner != p
    ensures Source(ks, owner, p, names, k) == Look(ks, k)
  {}

  lemma SameKeys(a: Keys, b: Keys)
    requires forall k :: Look(a, k) == Look(b, k)
    ensures a == b
  {
    forall k
      ensures (k in a <==> k in b) && (k in a ==> a[k] == b[k])
    {
      assert Look(a, k) == Look(b, k);
    }
  }

  /** A process restores and makes the key live. */
  lemma RestoreAndFill(w: World, n: StateName, ks: Keys, marker: Option<string>) returns (w': World)
    requires Holds(w, marker, ks) && Live(n) !in ks
    requires forall k | k in ks :: !k.Cache? && ks[k] == Filled(n) && k.name == n
    ensures var own := map[n.symbol := 0];
      Possible(w, Restoring(own, own)) && Possible(Step(w, Restoring(own, own)), Fill(n)) &&
      w' == Step(Step(w, Restoring(own, own)), Fill(n))
    ensures Holds(w', marker, ks[Live(n) := Filled(n)]) && w'.covered == w.covered
  {
    var own := map[n.symbol := 0];
    assert IsRaised(ks, n.symbol, BaseSeq(ks, n.symbol, 0), 0);
    w' := Step(Step(w, Restoring(own, own)), Fill(n));
  }

  /** A switch parks the one live key. */
  lemma ParkOne(w: World, n: StateName, first: string, second: string, v: Value) returns (w': World)
    requires Holds(w, Some(first), map[Live(n) := v]) && first != second && second != UNVERIFIED
    ensures var e := Adopting(second, Process([n], [])); Possible(w, e) && w' == Step(w, e)
    ensures Holds(w', Some(second), map[Archive(first, n) := v])
  {
    hide AdoptAll, DropCaches;
    var ks: Keys := map[Live(n) := v];
    w' := Step(w, Adopting(second, Process([n], [])));
    assert !Refuses(ks, first, [n]);
    NoCachesDropped(AdoptAll(ks, first, second, [n]));
    forall k
      ensures Look(w'.store.keys, k) == Look(map[Archive(first, n) := v], k)
    {
      AdoptAllMeans(ks, first, second, [n], k);
    }
    SameKeys(w'.store.keys, map[Archive(first, n) := v]);
  }

  lemma RunOfSeven(es: seq<Event>, w1: World, w2: World, w3: World, w4: World, w5: World)
    requires |es| == 7
    requires Possible(START, es[0]) && w1 == Step(START, es[0])
    requires Possible(w1, es[1]) && Possible(Step(w1, es[1]), es[2]) && w2 == Step(Step(w1, es[1]), es[2])
    requires Possible(w2, es[3]) && w3 == Step(w2, es[3])
    requires Possible(w3, es[4]) && w4 == Step(w3, es[4])
    requires Possible(w4, es[5]) && Possible(Step(w4, es[5]), es[6]) && w5 == Step(Step(w4, es[5]), es[6])
    ensures Legal(START, es) && Run(START, es) == w5
  {
    hide Possible, Step;
    Unroll(w4, es[4..][1..], Step(w4, es[5]));
    Unroll(Step(w4, es[5]), es[6..], w5);
    assert es[6..][1..] == [] && es[5..][1..] == es[6..] && es[4..][1..] == es[5..] && es[3..][1..] == es[4..];
    assert es[2..][1..] == es[3..] && es[1..][1..] == es[2..];
    Unroll(w3, es[4..], w4);
    Unroll(w2, es[3..], w3);
    Unroll(Step(w1, es[1]), es[2..], w2);
    Unroll(w1, es[1..], Step(w1, es[1]));
    Unroll(START, es, w1);
  }

  lemma Unroll(w: World, es: seq<Event>, w': World)
    requires es != [] && Possible(w, es[0]) && w' == Step(w, es[0])
    ensures Legal(w, es) <==> Legal(w', es[1..])
    ensures Legal(w, es) ==> Run(w, es) == Run(w', es[1..])
  {}

  /** Whatever is done under other providers, what one provider has parked is left alone. */
  lemma ParkedStays(w: World, es: seq<Event>, a: string, n: StateName)
    requires Legal(w, es) && a != UNVERIFIED && w.store.marker != Some(a)
    requires forall e | e in es :: !(e.Adopting? && e.provider == a) && e != Expiring(Archive(a, n))
    ensures var w' := Run(w, es);
      Look(w'.store.keys, Archive(a, n)) == Look(w.store.keys, Archive(a, n)) && w'.store.marker != Some(a)
    decreases |es|
  {
    hide Script, IsRaised, BaseSeq;
    if es != [] {
      assert es[0] in es;
      var e := es[0];
      if e.Adopting? && Adopts(w.store, e.provider) && AdoptBy(w.store, e.provider, e.who).Some? {
        if LabelOf(w.store.marker) != e.provider {
          ScriptMeans(w.store, e.provider, e.who.names, e.who.symbols, Archive(a, n));
        }
        MarkerIsSet(w.store, e.provider, e.who.names, e.who.symbols);
      }
      assert forall x | x in es[1..] :: x in es;
      ParkedStays(Step(w, e), es[1..], a, n);
    }
  }

  /**
    Switching away and back: whatever other providers did in between, under processes
    however configured, a process that covers a state key and adopts the provider again
    puts it back as it was when it was left.
   */
  lemma SwitchingBackRestores(s: Store, b: string, leaver: Process, a: string, returner: Process, n: StateName, between: seq<Event>)
    requires Distinct(leaver.names) && Distinct(returner.names) && n in leaver.names && n in returner.names
    requires s.marker == Some(a) && a != UNVERIFIED && b != a && b != UNVERIFIED && Archive(a, n) !in s.keys
    requires AdoptBy(s, b, leaver).Some?
    requires var left := World(AdoptBy(s, b, leaver).value, None, [], leaver.names); Legal(left, between)
    requires forall e | e in between :: !(e.Adopting? && e.provider == a) && e != Expiring(Archive(a, n))
    ensures var left := World(AdoptBy(s, b, leaver).value, None, [], leaver.names);
      var back := Run(left, between).store;
      && LabelOf(back.marker) != a
      && (AdoptBy(back, a, returner).Some? ==>
            Look(AdoptBy(back, a, returner).value.keys, Live(n)) == Look(s.keys, Live(n)))
  {
    hide Script;
    var left := World(AdoptBy(s, b, leaver).value, None, [], leaver.names);
    MarkerIsSet(s, b, leaver.names, leaver.symbols);
    ScriptMeans(s, b, leaver.names, leaver.symbols, Archive(a, n));
    ParkedStays(left, between, a, n);
    var back := Run(left, between).store;
    if AdoptBy(back, a, returner).Some? {
      ScriptMeans(back, a, returner.names, returner.symbols, Live(n));
    }
  }
}
