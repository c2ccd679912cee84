/**
  The hot cache: a sorted set of members scored by minute, which recovery adds to with
  one atomic script. A minute may hold two members (ours and the provider's); the
  script adds to a minute only while it holds none.
 */
module HotCache {
  import opened Wrappers

  datatype Member = Member(t: int, text: string)

  /** Scores never descend: the order of the sorted set. */
  predicate InOrder(ms: seq<Member>) { forall i, j | 0 <= i < j < |ms| :: ms[i].t <= ms[j].t }

  function Holds(ms: seq<Member>, t: int): (r: bool)
    ensures r <==> exists i :: 0 <= i < |ms| && ms[i].t == t
  {
    if ms == [] then false
    else
      assert forall i | 0 <= i < |ms| - 1 :: ms[..|ms| - 1][i] == ms[i];
      ms[|ms| - 1].t == t || Holds(ms[..|ms| - 1], t)
  }

  /** A member at its place by score. */
  function Insert(ms: seq<Member>, m: Member): (r: seq<Member>)
    ensures |r| == |ms| + 1
    ensures forall t :: Holds(r, t) <==> Holds(ms, t) || t == m.t
  {
    if ms == [] || ms[|ms| - 1].t <= m.t then
      assert (ms + [m])[..|ms|] == ms;
      ms + [m]
    else
      var r := Insert(ms[..|ms| - 1], m) + [ms[|ms| - 1]];
      assert r[..|r| - 1] == Insert(ms[..|ms| - 1], m);
      r
  }

  /** The newest `cap` members. */
  function Newest(ms: seq<Member>, cap: nat): seq<Member> { if |ms| <= cap then ms else ms[|ms| - cap..] }

  // -------------------------------------------------------------------- the script

  /** The oldest score a full cache keeps. */
  function Floor(ms: seq<Member>, cap: nat): Option<int>
    requires cap > 0
  {
    if |ms| >= cap then Some(ms[|ms| - cap].t) else None
  }

  predicate Takes(ms: seq<Member>, cap: nat, t: int)
    requires cap > 0
  {
    !Holds(ms, t) && (Floor(ms, cap).None? || t > Floor(ms, cap).value)
  }

  function AddOne(ms: seq<Member>, cap: nat, m: Member): seq<Member>
    requires cap > 0
  {
    if Takes(ms, cap, m.t) then Newest(Insert(ms, m), cap) else ms
  }

  function AddAll(ms: seq<Member>, cap: nat, bars: seq<Member>): seq<Member>
    requires cap > 0
  {
    if bars == [] then ms else AddOne(AddAll(ms, cap, bars[..|bars| - 1]), cap, bars[|bars| - 1])
  }

  lemma NoneAdded(ms: seq<Member>, cap: nat, bars: seq<Member>)
    requires cap > 0
    ensures AddAll(ms, cap, bars[..0]) == ms && Added(ms, cap, bars[..0]) == 0
  {}

  lemma OneMoreBar(ms: seq<Member>, cap: nat, bars: seq<Member>, i: nat)
    requires cap > 0 && i < |bars|
    ensures var before := AddAll(ms, cap, bars[..i]);
      && AddAll(ms, cap, bars[..i + 1]) == AddOne(before, cap, bars[i])
      && Added(ms, cap, bars[..i + 1]) == Added(ms, cap, bars[..i]) + if Takes(before, cap, bars[i].t) then 1 else 0
  {
    assert bars[..i + 1][..i] == bars[..i];
  }

  /** One addition spelled out: where the script puts the bar, and what it trims. */
  lemma AddOneIs(ms: seq<Member>, cap: nat, b: Member)
    requires cap > 0
    ensures Takes(ms, cap, b.t) <==> !Holds(ms, b.t) && (|ms| >= cap ==> b.t > ms[|ms| - cap].t)
    ensures var r := Insert(ms, b);
      AddOne(ms, cap, b) == if !Takes(ms, cap, b.t) then ms else if |r| > cap then r[|r| - cap..] else r
  {
    hide Holds, Insert;
  }

  /** The script: an absent cache is left absent; a bar is added only where no member is and only if it would be kept. */
  method CacheAdd(cache: Option<seq<Member>>, cap: nat, bars: seq<Member>) returns (after: Option<seq<Member>>, added: nat)
    requires cap > 0
    ensures after == if cache.None? then None else Some(AddAll(cache.value, cap, bars))
    ensures cache.None? ==> added == 0
    ensures cache.Some? ==> added == Added(cache.value, cap, bars)
  {
    if cache.None? {
      return None, 0;
    }
    hide Holds, Insert, AddAll, Added, AddOne, Takes, Newest;
    var ms := cache.value;
    added := 0;
    NoneAdded(ms, cap, bars);
    for i := 0 to |bars|
      invariant ms == AddAll(cache.value, cap, bars[..i])
      invariant added == Added(cache.value, cap, bars[..i])
    {
      OneMoreBar(cache.value, cap, bars, i);
      var b := bars[i];
      AddOneIs(ms, cap, b);
      if !Holds(ms, b.t) {
        var keep := true;
        if |ms| >= cap {
          var oldestKept := ms[|ms| - cap];
          keep := b.t > oldestKept.t;
        }
        if keep {
          ms := Insert(ms, b);
          if |ms| > cap {
            ms := ms[|ms| - cap..];
          }
          added := added + 1;
        }
      }
    }
    assert bars[..|bars|] == bars;
    after := Some(ms);
  }

  /** How many bars the script adds. */
  function Added(ms: seq<Member>, cap: nat, bars: seq<Member>): nat
    requires cap > 0
  {
    if bars == [] then 0
    else
      var k := |bars| - 1;
      Added(ms, cap, bars[..k]) + if Takes(AddAll(ms, cap, bars[..k]), cap, bars[k].t) then 1 else 0
  }

  // -------------------------------------------------------------------- the union

  /** Everything held and, for minutes not held, the first bar given for each. */
  function Union(ms: seq<Member>, bars: seq<Member>): seq<Member> {
    if bars == [] then ms
    else
      var u, b := Union(ms, bars[..|bars| - 1]), bars[|bars| - 1];
      if Holds(u, b.t) then u else Insert(u, b)
  }

  lemma {:induction false} InsertKeepsOrder(ms: seq<Member>, m: Member)
    requires InOrder(ms)
    ensures InOrder(Insert(ms, m))
    ensures ms != [] && ms[|ms| - 1].t > m.t ==> Insert(ms, m)[|ms|] == ms[|ms| - 1]
    ensures ms != [] && ms[|ms| - 1].t <= m.t ==> Insert(ms, m) == ms + [m]
  {
    if ms != [] && ms[|ms| - 1].t > m.t {
      var front, last := ms[..|ms| - 1], ms[|ms| - 1];
      InsertKeepsOrder(front, m);
      if front != [] && front[|front| - 1].t > m.t {
        assert front[|front| - 1] == ms[|ms| - 2];
      }
    }
  }

  lemma {:induction false} UnionInOrder(ms: seq<Member>, bars: seq<Member>)
    requires InOrder(ms)
    ensures InOrder(Union(ms, bars)) && |Union(ms, bars)| >= |ms|
  {
    if bars != [] {
      UnionInOrder(ms, bars[..|bars| - 1]);
      InsertKeepsOrder(Union(ms, bars[..|bars| - 1]), bars[|bars| - 1]);
    }
  }

  /** A newer member goes into the newer part, an older one into the older part. */
  lemma {:induction false} InsertSplits(a: seq<Member>, r: seq<Member>, m: Member)
    requires r != [] && InOrder(a + r)
    ensures m.t >= r[0].t ==> Insert(a + r, m) == a + Insert(r, m)
    ensures m.t < r[0].t ==> Insert(a + r, m) == Insert(a, m) + r
    decreases |r|
  {
    var all := a + r;
    assert all[|all| - 1] == r[|r| - 1];
    assert all[..|all| - 1] == a + r[..|r| - 1];
    assert r[0] == all[|a|] && (|r| > 1 ==> r[|r| - 1] == all[|all| - 1]);
    if r[|r| - 1].t > m.t {
      if |r| == 1 {
        assert a + [] == a;
      } else {
        var short := r[..|r| - 1];
        assert InOrder(a + short);
        InsertSplits(a, short, m);
        assert short + [r[|r| - 1]] == r;
      }
    }
  }

  lemma HoldsNewest(u: seq<Member>, cap: nat, t: int)
    requires InOrder(u) && cap > 0
    ensures Holds(Newest(u, cap), t) ==> Holds(u, t)
    ensures Holds(u, t) && !Holds(Newest(u, cap), t) ==> |u| > cap && t < Newest(u, cap)[0].t
  {
    var r := Newest(u, cap);
    if Holds(r, t) {
      var i :| 0 <= i < |r| && r[i].t == t;
      assert r[i] == u[|u| - |r| + i];
    }
    if Holds(u, t) && !Holds(r, t) {
      var i :| 0 <= i < |u| && u[i].t == t;
      assert forall j | |u| - |r| <= j < |u| :: u[j] == r[j - (|u| - |r|)];
      assert r[0] == u[|u| - |r|];
      assert r[0].t != t;
    }
  }

  /** One more bar: adding to the newest is the newest after adding. */
  lemma AddOneIsNewest(u: seq<Member>, cap: nat, b: Member)
    requires InOrder(u) && cap > 0
    ensures AddOne(Newest(u, cap), cap, b) == Newest(if Holds(u, b.t) then u else Insert(u, b), cap)
  {
    hide Insert, Holds;
    HoldsNewest(u, cap, b.t);
    if |u| >= cap && !Holds(u, b.t) {
      NewestAfterInsert(u, cap, b);
    }
  }

  lemma NewestAfterInsert(u: seq<Member>, cap: nat, b: Member)
    requires InOrder(u) && |u| >= cap > 0 && !Holds(u, b.t)
    ensures var r := Newest(u, cap);
      Newest(Insert(u, b), cap) == (if b.t > r[0].t then Insert(r, b)[1..] else r) && Floor(r, cap) == Some(r[0].t)
  {
    hide Insert, Holds;
    var r := Newest(u, cap);
    var a := u[..|u| - cap];
    assert u == a + r;
    NotHeldAtFloor(u, cap, b.t);
    InsertSplits(a, r, b);
  }

  lemma NotHeldAtFloor(u: seq<Member>, cap: nat, t: int)
    requires |u| >= cap > 0 && !Holds(u, t)
    ensures Newest(u, cap)[0].t != t && Floor(Newest(u, cap), cap) == Some(Newest(u, cap)[0].t)
  {
    assert Newest(u, cap)[0] == u[|u| - cap];
  }

  /**
    Whatever bars are added to a cache within its bound, in whatever order, it ends as
    the newest `cap` of everything: what was held, and for minutes not held the first
    bar given. A held bar is never replaced.
   */
  lemma {:induction false} CacheIsNewestOfUnion(ms: seq<Member>, cap: nat, bars: seq<Member>)
    requires InOrder(ms) && cap > 0 && |ms| <= cap
    ensures AddAll(ms, cap, bars) == Newest(Union(ms, bars), cap)
  {
    if bars != [] {
      var front, b := bars[..|bars| - 1], bars[|bars| - 1];
      CacheIsNewestOfUnion(ms, cap, front);
      UnionInOrder(ms, front);
      AddOneIsNewest(Union(ms, front), cap, b);
    }
  }

  predicate OnePerMinute(ms: seq<Member>) { forall i, j | 0 <= i < j < |ms| :: ms[i].t < ms[j].t }

  lemma {:induction false} MinuteNotThere(ms: seq<Member>, t: int)
    requires !Holds(ms, t)
    ensures forall i | 0 <= i < |ms| :: ms[i].t != t
  {}

  lemma {:induction false} InsertKeepsOnePerMinute(ms: seq<Member>, m: Member)
    requires OnePerMinute(ms) && forall i | 0 <= i < |ms| :: ms[i].t != m.t
    ensures OnePerMinute(Insert(ms, m)) && forall x :: x in Insert(ms, m) <==> x in ms || x == m
  {
    if ms != [] {
      hide Holds;
      var front, last := ms[..|ms| - 1], ms[|ms| - 1];
      assert ms == front + [last];
      if last.t > m.t {
        InsertKeepsOnePerMinute(front, m);
        assert forall x | x in front :: x.t < last.t;
      }
    }
  }

  /** With one member per minute to begin with, the newest members are the newest minutes, and every held one is its minute's. */
  lemma {:induction false} UnionIsByMinute(ms: seq<Member>, bars: seq<Member>)
    requires OnePerMinute(ms)
    ensures OnePerMinute(Union(ms, bars))
    ensures forall x | x in ms :: x in Union(ms, bars)
    ensures forall x | x in Union(ms, bars) :: x in ms || (x in bars && !Holds(ms, x.t))
    ensures forall t :: Holds(Union(ms, bars), t) <==> Holds(ms, t) || Holds(bars, t)
  {
    if bars != [] {
      var front, b := bars[..|bars| - 1], bars[|bars| - 1];
      assert bars == front + [b];
      UnionIsByMinute(ms, front);
      if !Holds(Union(ms, front), b.t) {
        MinuteNotThere(Union(ms, front), b.t);
        InsertKeepsOnePerMinute(Union(ms, front), b);
      }
    }
  }

  // ----------------------------------------------------------------- the predictor

  /** The read-only prediction: of these minutes, the ones the cache as it is would take. */
  function WouldTake(cache: Option<seq<Member>>, cap: nat, minutes: set<int>): (r: set<int>)
    requires cap > 0
    ensures forall t :: t in r <==> cache.Some? && t in minutes && Takes(cache.value, cap, t)
  {
    if cache.None? then {} else set t | t in minutes && Takes(cache.value, cap, t)
  }

  /** A cache that took bars would not take what it would not take before. */
  lemma {:induction false} NeverTakesMore(ms: seq<Member>, cap: nat, bars: seq<Member>, t: int)
    requires InOrder(ms) && cap > 0 && |ms| <= cap
    ensures Takes(AddAll(ms, cap, bars), cap, t) ==> Takes(ms, cap, t)
  {
    if bars != [] {
      var front, b := bars[..|bars| - 1], bars[|bars| - 1];
      NeverTakesMore(ms, cap, front, t);
      CacheIsNewestOfUnion(ms, cap, front);
      UnionInOrder(ms, front);
      NewestInOrder(Union(ms, front), cap);
      if Takes(AddAll(ms, cap, bars), cap, t) {
        AddOneTakesNoMore(AddAll(ms, cap, front), cap, b, t);
      }
    }
  }

  lemma NewestInOrder(u: seq<Member>, cap: nat)
    requires InOrder(u)
    ensures InOrder(Newest(u, cap)) && |Newest(u, cap)| <= cap
  {}

  lemma AddOneTakesNoMore(ms: seq<Member>, cap: nat, b: Member, t: int)
    requires InOrder(ms) && cap > 0 && |ms| <= cap && Takes(AddOne(ms, cap, b), cap, t)
    ensures Takes(ms, cap, t)
  {
    if Takes(ms, cap, b.t) {
      var u := Insert(ms, b);
      InsertKeepsOrder(ms, b);
      HoldsNewest(u, cap, t);
      if |ms| == cap {
        InsertSplits([], ms, b);
        assert [] + ms == ms;
        InsertAtLeast(ms, b);
      }
    }
  }

  /** Above the oldest, an insertion leaves the oldest first. */
  lemma {:induction false} InsertAtLeast(ms: seq<Member>, m: Member)
    requires ms != [] && InOrder(ms) && m.t >= ms[0].t
    ensures Insert(ms, m)[0] == ms[0] && InOrder(Insert(ms, m))
  {
    InsertKeepsOrder(ms, m);
    if ms[|ms| - 1].t > m.t {
      assert |ms| > 1;
      InsertAtLeast(ms[..|ms| - 1], m);
    }
  }

  // ------------------------------------------------------ how good the prediction is

  /** How many members are newer than `t`. */
  function Newer(ms: seq<Member>, t: int): nat {
    if ms == [] then 0 else Newer(ms[..|ms| - 1], t) + if ms[|ms| - 1].t > t then 1 else 0
  }

  lemma NewerSnoc(ms: seq<Member>, m: Member, t: int)
    ensures Newer(ms + [m], t) == Newer(ms, t) + if m.t > t then 1 else 0
  {
    assert (ms + [m])[..|ms|] == ms;
  }

  lemma {:induction false} InsertNewer(ms: seq<Member>, m: Member, t: int)
    ensures Newer(Insert(ms, m), t) == Newer(ms, t) + if m.t > t then 1 else 0
  {
    hide Holds;
    if ms == [] || ms[|ms| - 1].t <= m.t {
      NewerSnoc(ms, m, t);
    } else {
      InsertNewer(ms[..|ms| - 1], m, t);
      NewerSnoc(Insert(ms[..|ms| - 1], m), ms[|ms| - 1], t);
    }
  }

  lemma {:induction false} NoneNewer(ms: seq<Member>, t: int)
    requires InOrder(ms) && (ms != [] ==> ms[|ms| - 1].t <= t)
    ensures Newer(ms, t) == 0
  {
    if ms != [] {
      var front := ms[..|ms| - 1];
      assert front != [] ==> front[|front| - 1] == ms[|ms| - 2];
      NoneNewer(front, t);
    }
  }

  /** At least `n` members are newer than `t` exactly when the `n`th newest is. */
  lemma {:induction false} NewerByPlace(ms: seq<Member>, t: int, n: nat)
    requires InOrder(ms) && 0 < n <= |ms|
    ensures Newer(ms, t) >= n <==> ms[|ms| - n].t > t
  {
    var front, last := ms[..|ms| - 1], ms[|ms| - 1];
    if last.t <= t {
      NoneNewer(ms, t);
    } else if n > 1 {
      NewerByPlace(front, t, n - 1);
      assert front[|front| - (n - 1)] == ms[|ms| - n];
    }
  }

  /** A cache of the newest takes a minute exactly when the whole does not hold it and fewer than `cap` members are newer. */
  lemma TakesByCount(u: seq<Member>, cap: nat, t: int)
    requires InOrder(u) && cap > 0
    ensures Takes(Newest(u, cap), cap, t) <==> !Holds(u, t) && Newer(u, t) < cap
  {
    hide Holds, Newer;
    HoldsNewest(u, cap, t);
    if |u| >= cap {
      NewerByPlace(u, t, cap);
      assert Newest(u, cap)[0] == u[|u| - cap];
      if !Holds(u, t) {
        NotHeldAtFloor(u, cap, t);
      }
    } else {
      NewerAtMostAll(u, t);
    }
  }

  lemma {:induction false} NewerAtMostAll(ms: seq<Member>, t: int)
    ensures Newer(ms, t) <= |ms|
  {
    if ms != [] {
      NewerAtMostAll(ms[..|ms| - 1], t);
    }
  }

  lemma {:induction false} UnionHolds(ms: seq<Member>, bars: seq<Member>, t: int)
    ensures Holds(Union(ms, bars), t) <==> Holds(ms, t) || Holds(bars, t)
  {
    if bars != [] {
      var front, b := bars[..|bars| - 1], bars[|bars| - 1];
      UnionHolds(ms, front, t);
      UnionHolds(ms, front, b.t);
    }
  }

  /**
    Which bars of a list the script takes: those of a minute neither held nor given
    earlier, with fewer than `cap` members newer among what is held and was given.
   */
  lemma TakenIff(ms: seq<Member>, cap: nat, bars: seq<Member>, k: nat)
    requires InOrder(ms) && cap > 0 && |ms| <= cap && k < |bars|
    ensures Takes(AddAll(ms, cap, bars[..k]), cap, bars[k].t) <==>
      !Holds(ms, bars[k].t) && !Holds(bars[..k], bars[k].t) && Newer(Union(ms, bars[..k]), bars[k].t) < cap
  {
    hide Takes, Holds, Newer, Union, AddAll;
    CacheIsNewestOfUnion(ms, cap, bars[..k]);
    UnionInOrder(ms, bars[..k]);
    TakesByCount(Union(ms, bars[..k]), cap, bars[k].t);
    UnionHolds(ms, bars[..k], bars[k].t);
  }

  /** The script takes exactly the bars that were predicted. */
  ghost predicate PredictionHolds(ms: seq<Member>, cap: nat, bars: seq<Member>)
    requires cap > 0
  {
    forall k | 0 <= k < |bars| :: Takes(AddAll(ms, cap, bars[..k]), cap, bars[k].t) <==> Takes(ms, cap, bars[k].t)
  }

  /** Bar `k` is the first of its minute, and what came before it leaves it room. */
  predicate RoomFor(ms: seq<Member>, cap: nat, bars: seq<Member>, k: nat)
    requires k < |bars|
  {
    !Holds(bars[..k], bars[k].t) && Newer(Union(ms, bars[..k]), bars[k].t) < cap
  }

  /** For bars in any order: the prediction is exact if and only if each predicted bar is the first of its minute and has room. */
  lemma PredictionIsExactIff(ms: seq<Member>, cap: nat, bars: seq<Member>)
    requires InOrder(ms) && cap > 0 && |ms| <= cap
    ensures PredictionHolds(ms, cap, bars) <==> forall k | 0 <= k < |bars| && Takes(ms, cap, bars[k].t) :: RoomFor(ms, cap, bars, k)
  {
    hide AddAll, Holds, Newer, Union;
    forall k | 0 <= k < |bars|
      ensures Takes(AddAll(ms, cap, bars[..k]), cap, bars[k].t) <==> !Holds(ms, bars[k].t) && RoomFor(ms, cap, bars, k)
      ensures Takes(AddAll(ms, cap, bars[..k]), cap, bars[k].t) ==> Takes(ms, cap, bars[k].t)
    {
      TakenIff(ms, cap, bars, k);
      NeverTakesMore(ms, cap, bars[..k], bars[k].t);
    }
  }

  predicate Ascending(bars: seq<Member>) { forall i, j | 0 <= i < j < |bars| :: bars[i].t < bars[j].t }

  lemma {:induction false} OlderBarsAddNoneNewer(ms: seq<Member>, bars: seq<Member>, t: int)
    requires forall i | 0 <= i < |bars| :: bars[i].t <= t
    ensures Newer(Union(ms, bars), t) == Newer(ms, t)
  {
    hide Holds;
    if bars != [] {
      OlderBarsAddNoneNewer(ms, bars[..|bars| - 1], t);
      InsertNewer(Union(ms, bars[..|bars| - 1]), bars[|bars| - 1], t);
    }
  }

  /** For any number of bars oldest first, as the rows are read: the script takes exactly those predicted. */
  lemma AscendingPredictionIsExact(ms: seq<Member>, cap: nat, bars: seq<Member>)
    requires InOrder(ms) && cap > 0 && |ms| <= cap && Ascending(bars)
    ensures PredictionHolds(ms, cap, bars)
  {
    hide Takes, AddAll, Newer, Union;
    forall k | 0 <= k < |bars|
      ensures Takes(AddAll(ms, cap, bars[..k]), cap, bars[k].t) <==> Takes(ms, cap, bars[k].t)
    {
      var t := bars[k].t;
      TakenIff(ms, cap, bars, k);
      OlderBarsAddNoneNewer(ms, bars[..k], t);
      TakesByCount(ms, cap, t);
    }
  }

  function Minutes(bars: seq<Member>): (r: set<int>)
    ensures forall t :: t in r <==> Holds(bars, t)
  {
    if bars == [] then {} else Minutes(bars[..|bars| - 1]) + {bars[|bars| - 1].t}
  }

  /** The count the script returns is the number of minutes predicted. */
  lemma {:induction false} AddedIsPredicted(ms: seq<Member>, cap: nat, bars: seq<Member>)
    requires InOrder(ms) && cap > 0 && |ms| <= cap && Ascending(bars)
    ensures Added(ms, cap, bars) == |WouldTake(Some(ms), cap, Minutes(bars))|
  {
    if bars == [] {
      NothingWouldBeTaken(ms, cap);
    } else {
      hide Takes, AddAll, Holds;
      var front, b := bars[..|bars| - 1], bars[|bars| - 1];
      AddedIsPredicted(ms, cap, front);
      AscendingPredictionIsExact(ms, cap, bars);
      assert bars[..|bars| - 1] == front && bars[|front|] == b;
      NotGivenBefore(bars);
      OneMoreMinute(ms, cap, Minutes(front), b.t);
    }
  }

  lemma NothingWouldBeTaken(ms: seq<Member>, cap: nat)
    requires cap > 0
    ensures |WouldTake(Some(ms), cap, Minutes([]))| == 0
  {
    assert WouldTake(Some(ms), cap, Minutes([])) == {};
  }

  lemma NotGivenBefore(bars: seq<Member>)
    requires Ascending(bars) && bars != []
    ensures bars[|bars| - 1].t !in Minutes(bars[..|bars| - 1])
  {}

  lemma OneMoreMinute(ms: seq<Member>, cap: nat, minutes: set<int>, t: int)
    requires cap > 0 && t !in minutes
    ensures |WouldTake(Some(ms), cap, minutes + {t})| == |WouldTake(Some(ms), cap, minutes)| + if Takes(ms, cap, t) then 1 else 0
  {
    hide Takes;
    var before := WouldTake(Some(ms), cap, minutes);
    assert WouldTake(Some(ms), cap, minutes + {t}) == if Takes(ms, cap, t) then before + {t} else before;
  }

  /** A repair of predicted bars, oldest first, adds every one of them: the number it announced. */
  lemma {:induction false} RepairAddsWhatItAnnounced(ms: seq<Member>, cap: nat, bars: seq<Member>)
    requires InOrder(ms) && cap > 0 && |ms| <= cap && Ascending(bars)
    requires forall k | 0 <= k < |bars| :: Takes(ms, cap, bars[k].t)
    ensures Added(ms, cap, bars) == |bars|
  {
    hide Takes, AddAll;
    if bars != [] {
      var front := bars[..|bars| - 1];
      assert forall i | 0 <= i < |front| :: front[i] == bars[i];
      RepairAddsWhatItAnnounced(ms, cap, front);
      AscendingPredictionIsExact(ms, cap, bars);
      assert bars[..|bars| - 1] == front;
    }
  }

  /** Every bar the script adds was predicted, whatever the order. */
  lemma PredictionCovers(ms: seq<Member>, cap: nat, bars: seq<Member>, k: nat, minutes: set<int>)
    requires InOrder(ms) && cap > 0 && |ms| <= cap && k < |bars| && bars[k].t in minutes
    ensures Takes(AddAll(ms, cap, bars[..k]), cap, bars[k].t) ==> bars[k].t in WouldTake(Some(ms), cap, minutes)
  {
    NeverTakesMore(ms, cap, bars[..k], bars[k].t);
  }

  lemma PairTakes(a: Member, b: Member, t: int)
    requires a.t < b.t
    ensures Takes([a, b], 2, t) <==> t > a.t && t != b.t
  {
    assert [a, b][..1] == [a] && [a][..0] == [];
  }

  lemma PairThenNewer(a: Member, b: Member, c: Member, t: int)
    requires a.t < b.t < c.t
    ensures AddAll([a, b], 2, [c]) == [b, c] && Newer(Union([a, b], [c]), t) >= Newer([b, c], t)
  {
    PairTakes(a, b, c.t);
    hide Takes, Holds, Newer;
    assert [c][..0] == [];
    assert Insert([a, b], c) == [a, b] + [c];
    assert Union([a, b], [c]) == [a, b] + [c];
    assert [a, b] + [c] == [a] + [b, c] && ([a] + [b, c])[1..] == [b, c];
    assert [a] + [b] == [a, b] && [b] + [c] == [b, c] && [] + [b] == [b];
    NewerSnoc([a, b], c, t);
    NewerSnoc([a], b, t);
    NewerSnoc([b], c, t);
    NewerSnoc([], b, t);
    NewerOfNone(t);
  }

  lemma NewerOfNone(t: int)
    ensures Newer([], t) == 0
  {}

  lemma PairNewer(b: Member, c: Member, t: int)
    requires t < b.t && t < c.t
    ensures Newer([b, c], t) == 2
  {
    assert [] + [b] == [b] && [b] + [c] == [b, c];
    NewerOfNone(t);
    NewerSnoc([], b, t);
    NewerSnoc([b], c, t);
  }

  /** Newest first, two bars can compete for one place: both predicted, one added. */
  lemma NewestFirstIsMispredicted()
    ensures var ms, bars := [Member(1, "a"), Member(5, "b")], [Member(7, "c"), Member(3, "d")];
      && !PredictionHolds(ms, 2, bars) && !RoomFor(ms, 2, bars, 1)
      && Takes(ms, 2, 7) && Takes(ms, 2, 3)
  {
    hide Takes, Holds, Newer, AddAll, Union;
    var a, b, c, d := Member(1, "a"), Member(5, "b"), Member(7, "c"), Member(3, "d");
    PairTakes(a, b, 7);
    PairTakes(a, b, 3);
    PairThenNewer(a, b, c, 3);
    PairTakes(b, c, 3);
    PairNewer(b, c, 3);
    var bars := [c, d];
    assert bars[..1] == [c] && bars[1].t == 3;
  }
}
