/**
  Two routes from the same minutes to the same candles. The server sorts the raw
  cache members and folds them; the browser books each report, joins per minute and
  folds what it shows.
 */
module CandleParity {
  import opened Candles
  import opened Floors
  import opened MinuteBook
  import opened Wrappers

  /** What the cache holds: whole minutes, provider bars with no tick count, our own bars. */
  predicate Member(b: Bar) { b.t % MINUTE_S == 0 && ((b.src == Backfill && b.n == 0) || b.src == Stream) }

  /** At most one bar per minute and source. */
  predicate OnePerSource(bars: seq<Bar>) {
    forall i, j | 0 <= i < j < |bars| :: bars[i].t != bars[j].t || bars[i].src != bars[j].src
  }

  predicate Members(bars: seq<Bar>) { OnePerSource(bars) && forall b | b in bars :: Member(b) }

  /** The bars of minute `t`, in the order given. */
  function Only(bars: seq<Bar>, t: int): (r: seq<Bar>)
    ensures forall b :: b in r <==> b in bars && b.t == t
  {
    if bars == [] then []
    else
      assert bars == bars[..|bars| - 1] + [bars[|bars| - 1]];
      if bars[|bars| - 1].t == t then Only(bars[..|bars| - 1], t) + [bars[|bars| - 1]]
      else Only(bars[..|bars| - 1], t)
  }

  // -------------------------------------------------------------- the server's

  predicate StrictlyBefore(a: Bar, b: Bar) { a.t < b.t || (a.t == b.t && TieOrder(a.src) < TieOrder(b.src)) }

  predicate StrictlySorted(bars: seq<Bar>) { forall i, j | 0 <= i < j < |bars| :: StrictlyBefore(bars[i], bars[j]) }

  lemma {:induction false} InsertBarSorts(bars: seq<Bar>, b: Bar)
    requires StrictlySorted(bars) && Member(b)
    requires forall x | x in bars :: Member(x) && (x.t != b.t || x.src != b.src)
    ensures StrictlySorted(InsertBar(bars, b))
    ensures forall x :: x in InsertBar(bars, b) <==> x in bars || x == b
  {
    if bars != [] {
      var front, last := bars[..|bars| - 1], bars[|bars| - 1];
      assert bars == front + [last];
      assert last in bars;
      if !Before(last, b) {
        InsertBarSorts(front, b);
        assert forall x | x in front :: StrictlyBefore(x, last);
      }
    }
  }

  lemma {:induction false} SortBarsSorts(bars: seq<Bar>)
    requires Members(bars)
    ensures StrictlySorted(SortBars(bars)) && forall x :: x in SortBars(bars) <==> x in bars
  {
    hide InsertBar;
    if bars != [] {
      var front, last := bars[..|bars| - 1], bars[|bars| - 1];
      assert bars == front + [last];
      SortBarsSorts(front);
      InsertBarSorts(SortBars(front), last);
    }
  }

  /** One candle per minute: the join of that minute's bars. */
  ghost predicate MinuteByMinute(candles: seq<Bar>, bars: seq<Bar>) {
    && Ascending(candles)
    && (forall x :: x in candles <==> Belongs(bars, x))
  }

  /** `x` is the join of its minute's bars. */
  predicate Belongs(bars: seq<Bar>, x: Bar) { Only(bars, x.t) != [] && x == Join(Only(bars, x.t)) }

  lemma {:induction false} OnlyOfEarlier(bars: seq<Bar>, t: int)
    requires forall b | b in bars :: b.t < t
    ensures Only(bars, t) == []
  {
    if Only(bars, t) != [] {
      HoldsItsFirst(Only(bars, t));
    }
  }

  /** Provider history then our stream, joined or folded: the same bar. */
  lemma JoinOfTwo(p: Bar, m: Bar)
    requires p.t == m.t && p.src == Backfill && m.src == Stream && p.n == 0
    ensures Join([p, m]) == Absorb(p, m)
  {
    assert [p, m][..1] == [p];
    assert Insert([p], m) == [p, m];
    JoinOfOne(p);
    assert SortByRank([p, m]) == [p, m];
  }

  /** What comes before the last of strictly sorted members, in that minute: at most one provider bar. */
  lemma OnlyBeforeLast(bars: seq<Bar>)
    requires bars != [] && StrictlySorted(bars) && forall b | b in bars :: Member(b)
    ensures var front, m := bars[..|bars| - 1], bars[|bars| - 1];
      if front != [] && front[|front| - 1].t == m.t then
        Only(front, m.t) == [front[|front| - 1]] && front[|front| - 1].src == Backfill && m.src == Stream
      else Only(front, m.t) == []
  {
    var front, m := bars[..|bars| - 1], bars[|bars| - 1];
    assert m in bars;
    if front != [] {
      var p := front[|front| - 1];
      assert bars[|bars| - 2] == p && p in bars && StrictlyBefore(p, m);
      if p.t == m.t {
        assert forall b | b in front[..|front| - 1] :: b.t < m.t;
        OnlyOfEarlier(front[..|front| - 1], m.t);
      } else {
        OnlyOfEarlier(front, m.t);
      }
    }
  }

  lemma OnlySnoc(bars: seq<Bar>, m: Bar, t: int)
    ensures Only(bars + [m], t) == if m.t == t then Only(bars, t) + [m] else Only(bars, t)
  {
    assert (bars + [m])[..|bars|] == bars;
  }

  lemma AddMinuteOfOne(out: seq<Bar>, m: Bar)
    requires m.t % MINUTE_S == 0
    ensures AddMinute(out, m, MINUTE_S) ==
      if out != [] && out[|out| - 1].t == m.t then out[..|out| - 1] + [Absorb(out[|out| - 1], m)] else out + [m]
  {
    FloorToIsUnique(m.t, MINUTE_S, m.t);
  }

  lemma {:induction false} FoldIsMinuteByMinute(bars: seq<Bar>)
    requires StrictlySorted(bars) && forall b | b in bars :: Member(b)
    ensures MinuteByMinute(Fold(bars, MINUTE_S), bars)
  {
    hide Join, AddMinute, Absorb, FloorTo;
    if bars != [] {
      var front, m := bars[..|bars| - 1], bars[|bars| - 1];
      assert bars == front + [m] && m in bars;
      FoldIsMinuteByMinute(front);
      OnlyBeforeLast(bars);
      AddMinuteOfOne(Fold(front, MINUTE_S), m);
      GrowsByOne(Fold(front, MINUTE_S), front, m);
    }
  }

  /** The newest candle is of the newest minute. */
  lemma NewestCandle(a: seq<Bar>, front: seq<Bar>, t: int)
    requires MinuteByMinute(a, front) && a != [] && forall b | b in front :: b.t <= t
    ensures a[|a| - 1].t <= t && (a[|a| - 1].t == t <==> Only(front, t) != [])
    ensures Only(front, t) != [] ==> a[|a| - 1] == Join(Only(front, t))
  {
    hide Join, Only;
    var y := a[|a| - 1];
    assert y in a && Belongs(front, y);
    HoldsItsFirst(Only(front, y.t));
    assert Only(front, y.t)[0] in front;
    if Only(front, t) != [] {
      var x := Join(Only(front, t));
      JoinKeepsTime(Only(front, t), t);
      assert Belongs(front, x) && x in a;
      var i :| 0 <= i < |a| && a[i] == x;
    }
  }

  lemma GrowsByOne(a: seq<Bar>, front: seq<Bar>, m: Bar)
    requires MinuteByMinute(a, front) && (a == [] <==> front == [])
    requires forall b | b in front :: b.t <= m.t
    requires if front != [] && front[|front| - 1].t == m.t then
        Only(front, m.t) == [front[|front| - 1]] && front[|front| - 1].src == Backfill && front[|front| - 1].n == 0 && m.src == Stream
      else Only(front, m.t) == []
    ensures MinuteByMinute(if a != [] && a[|a| - 1].t == m.t then a[..|a| - 1] + [Absorb(a[|a| - 1], m)] else a + [m], front + [m])
  {
    hide Join, MinuteByMinute, Only;
    assert Only(front, m.t) == [] || Only(front, m.t) == [front[|front| - 1]];
    if a != [] {
      NewestCandle(a, front, m.t);
    }
    if Only(front, m.t) != [] {
      var p := front[|front| - 1];
      JoinOfOne(p);
      JoinOfTwo(p, m);
      assert [p] + [m] == [p, m];
      ReplacesNewest(a, front, m, Absorb(p, m));
    } else {
      JoinOfOne(m);
      AppendsNewest(a, front, m);
    }
  }

  /** A new report changes what belongs to its own minute only. */
  lemma BelongsSnoc(front: seq<Bar>, m: Bar, x: Bar)
    ensures Belongs(front + [m], x) <==> if x.t == m.t then x == Join(Only(front, m.t) + [m]) else Belongs(front, x)
  {
    hide Join;
    OnlySnoc(front, m, x.t);
  }

  lemma ReplacesNewest(a: seq<Bar>, front: seq<Bar>, m: Bar, z: Bar)
    requires MinuteByMinute(a, front) && a != [] && a[|a| - 1].t == m.t == z.t
    requires z == Join(Only(front, m.t) + [m])
    ensures MinuteByMinute(a[..|a| - 1] + [z], front + [m])
  {
    hide Join, Only, Belongs;
    var older := a[..|a| - 1];
    assert a == older + [a[|a| - 1]];
    forall x: Bar
      ensures x in older + [z] <==> Belongs(front + [m], x)
    {
      BelongsSnoc(front, m, x);
      if x in older {
        assert x in a && x.t < m.t;
      }
    }
  }

  lemma AppendsNewest(a: seq<Bar>, front: seq<Bar>, m: Bar)
    requires MinuteByMinute(a, front) && (a != [] ==> a[|a| - 1].t < m.t)
    requires Only(front, m.t) == [] && m == Join([m])
    ensures MinuteByMinute(a + [m], front + [m])
  {
    hide Join, Only, Belongs;
    assert [] + [m] == [m];
    forall x: Bar
      ensures x in a + [m] <==> Belongs(front + [m], x)
    {
      BelongsSnoc(front, m, x);
      if x in a {
        assert x.t < m.t;
      }
    }
  }

  // -------------------------------------------------------------- the browser's

  /** Every report booked, in the order it came. */
  function Booked(bars: seq<Bar>): (r: Slots)
    requires Members(bars)
    ensures ValidSlots(r) && |r| <= MINUTE_CAP + TRIM_SLACK
  {
    if bars == [] then map[]
    else
      var last := bars[|bars| - 1];
      assert last in bars;
      PutMeans(Booked(bars[..|bars| - 1]), last, Reported(last.src));
      PutBook(Booked(bars[..|bars| - 1]), last, Reported(last.src)).0
  }

  predicate AllReported(kinds: seq<Kind>, parts: seq<Bar>) {
    |kinds| == |parts| && forall i | 0 <= i < |kinds| :: kinds[i] == Reported(parts[i].src)
  }

  /** Each minute's slot holds that minute's bars, in the order they came. */
  lemma {:induction false} BookedHolds(bars: seq<Bar>, t: int)
    requires Members(bars) && |bars| <= MINUTE_CAP + TRIM_SLACK
    ensures t in Booked(bars) <==> Only(bars, t) != []
    ensures t in Booked(bars) ==> Booked(bars)[t].parts == Only(bars, t) && AllReported(Booked(bars)[t].kinds, Booked(bars)[t].parts)
    ensures |Booked(bars)| <= |bars|
  {
    hide Join, ValidSlot, PutSlot, PutBook, AllReported, Suits;
    if bars != [] {
      var front, b := bars[..|bars| - 1], bars[|bars| - 1];
      assert bars == front + [b] && b in bars;
      BookedHolds(front, t);
      BookedHolds(front, b.t);
      var slots := Booked(front);
      PutIsKept(slots, b);
      if t == b.t {
        forall x | x in Only(front, t)
          ensures x.src != b.src
        {
          var i :| 0 <= i < |front| && front[i] == x;
          assert bars[i] == x;
        }
        PutSlotOfNew(At(slots, t), b, Only(front, t));
      }
    }
  }

  /** Below the cap a report changes its own minute and nothing else. */
  lemma PutIsKept(slots: Slots, b: Bar)
    requires ValidSlots(slots) && |slots| < MINUTE_CAP + TRIM_SLACK
    ensures PutBook(slots, b, Reported(b.src)).0 == slots[b.t := PutSlot(At(slots, b.t), b, Reported(b.src)).0]
    ensures |PutBook(slots, b, Reported(b.src)).0| <= |slots| + 1
  {
    hide PutSlot, ValidSlot;
    var next := slots[b.t := PutSlot(At(slots, b.t), b, Reported(b.src)).0];
    assert next.Keys == slots.Keys + {b.t};
    assert |next| == |next.Keys| <= |slots.Keys| + 1;
  }

  /** A report of a kind not held yet is added; nothing is superseded. */
  lemma PutSlotOfNew(slot: Option<Slot>, b: Bar, held: seq<Bar>)
    requires slot.Some? ==> ValidSlot(b.t, slot.value) && slot.value.parts == held && AllReported(slot.value.kinds, held)
    requires slot.None? ==> held == []
    requires forall x | x in held :: x.src != b.src
    ensures var s := PutSlot(slot, b, Reported(b.src)).0; s.parts == held + [b] && AllReported(s.kinds, s.parts)
  {
    hide Join;
  }

  /** A minute's bars are of different ranks, whatever list they are taken from. */
  lemma {:induction false} OnlyRanksDiffer(bars: seq<Bar>, t: int)
    requires Members(bars)
    ensures DistinctRanks(Only(bars, t))
  {
    if bars != [] {
      var front, b := bars[..|bars| - 1], bars[|bars| - 1];
      assert bars == front + [b];
      OnlyRanksDiffer(front, t);
      assert forall x | x in Only(front, t) :: x in front;
    }
  }

  lemma SortedIsMembers(bars: seq<Bar>, s: seq<Bar>)
    requires Members(bars) && StrictlySorted(s) && forall x :: x in s <==> x in bars
    ensures Members(s)
  {
    forall i, j | 0 <= i < j < |s|
      ensures s[i].t != s[j].t || s[i].src != s[j].src
    {
      assert StrictlyBefore(s[i], s[j]);
    }
  }

  /** What the browser shows is one bar per minute: the join of that minute's bars as the server sorts them. */
  lemma ShownIsMinuteByMinute(bars: seq<Bar>)
    requires Members(bars) && |bars| <= MINUTE_CAP + TRIM_SLACK
    ensures MinuteByMinute(Shown(Booked(bars)), SortBars(bars))
  {
    hide Join, SortBars, Booked, Shown, ValidSlot;
    var s := SortBars(bars);
    SortBarsSorts(bars);
    SortedIsMembers(bars, s);
    ShownIsAscending(Booked(bars));
    forall x: Bar
      ensures x in Shown(Booked(bars)) <==> Belongs(s, x)
    {
      BookedHolds(bars, x.t);
      OnlyRanksDiffer(bars, x.t);
      OnlyRanksDiffer(s, x.t);
      SameMinute(bars, s, x.t);
      if x.t in Booked(bars) {
        MergedTime(x.t, Booked(bars)[x.t]);
      }
    }
  }

  lemma SameMinute(bars: seq<Bar>, s: seq<Bar>, t: int)
    requires (forall x :: x in s <==> x in bars) && DistinctRanks(Only(bars, t)) && DistinctRanks(Only(s, t))
    ensures Only(bars, t) != [] <==> Only(s, t) != []
    ensures Only(bars, t) != [] ==> Join(Only(bars, t)) == Join(Only(s, t))
  {
    hide Join;
    SomethingOfMinute(bars, s, t);
    SomethingOfMinute(s, bars, t);
    if Only(bars, t) != [] {
      JoinIgnoresOrder(Only(bars, t), Only(s, t));
    }
  }

  lemma SomethingOfMinute(a: seq<Bar>, b: seq<Bar>, t: int)
    requires forall x :: x in a ==> x in b
    ensures Only(a, t) != [] ==> Only(b, t) != []
  {
    if Only(a, t) != [] {
      HoldsItsFirst(Only(a, t));
      assert Only(a, t)[0] in Only(b, t);
    }
  }

  lemma TailOfAscending(a: seq<Bar>)
    requires Ascending(a) && a != []
    ensures Ascending(a[1..]) && forall x :: x in a[1..] <==> x in a && x != a[0]
  {}

  /** Two lists of candles with the same members, one per minute, are one list. */
  lemma {:induction false} AscendingIsUnique(a: seq<Bar>, b: seq<Bar>)
    requires Ascending(a) && Ascending(b) && forall x :: x in a <==> x in b
    ensures a == b
    decreases |a|
  {
    if b != [] {
      HoldsItsFirst(b);
    }
    if a != [] {
      HoldsItsFirst(a);
      var i :| 0 <= i < |b| && b[i] == a[0];
      var j :| 0 <= j < |a| && a[j] == b[0];
      assert i == 0;
      TailOfAscending(a);
      TailOfAscending(b);
      AscendingIsUnique(a[1..], b[1..]);
      assert a == [a[0]] + a[1..] && b == [b[0]] + b[1..];
    }
  }

  /**
    The server's candles and the browser's are the same candles: for any cache
    members in any order, and any whole-minute timeframe, every field included.
   */
  lemma ServerAndBrowserAgree(bars: seq<Bar>, seconds: int)
    requires Members(bars) && |bars| <= MINUTE_CAP + TRIM_SLACK
    requires seconds > 0 && seconds % MINUTE_S == 0
    ensures ServerFold(bars, seconds) == FoldMinutes(Shown(Booked(bars)), seconds)
  {
    hide MinuteByMinute, SortBars, Fold, Shown, Booked;
    var s := SortBars(bars);
    SortBarsSorts(bars);
    FoldIsMinuteByMinute(s);
    ShownIsMinuteByMinute(bars);
    MinuteByMinuteIsUnique(Fold(s, MINUTE_S), Shown(Booked(bars)), s);
    RefoldIsFold(s, MINUTE_S, seconds);
  }

  lemma MinuteByMinuteIsUnique(a: seq<Bar>, b: seq<Bar>, bars: seq<Bar>)
    requires MinuteByMinute(a, bars) && MinuteByMinute(b, bars)
    ensures a == b
  {
    hide Join;
    AscendingIsUnique(a, b);
  }
}
