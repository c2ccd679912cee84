/**
  History recovery's planning: the missing minutes of a window as maximal spans, and
  those spans as provider requests of whole UTC days. A minute is its number since
  the epoch, so a UTC day is a multiple of 1,440.
 */
module Recovery {
  import opened Floors
  import opened OrderedKeys
  import opened Wrappers

  const DAY := 1_440

  /** A run of consecutive minutes of one symbol, both ends included. */
  datatype Span = Span(symbol: string, start: int, end: int)

  datatype Request = Request(symbol: string, spans: seq<Span>)

  datatype Settled = Settled(from: int, to: int)

  function Range(a: int, b: int): (r: seq<int>)
    ensures |r| == if a <= b then b - a + 1 else 0
    ensures forall i | 0 <= i < |r| :: r[i] == a + i
    decreases b - a
  {
    if a > b then [] else Range(a, b - 1) + [b]
  }

  /** The minutes of the spans, one span after the other. */
  function MinutesOf(spans: seq<Span>): seq<int> {
    if spans == [] then [] else MinutesOf(spans[..|spans| - 1]) + Range(spans[|spans| - 1].start, spans[|spans| - 1].end)
  }

  lemma MinutesSnoc(a: seq<Span>, s: Span)
    ensures MinutesOf(a + [s]) == MinutesOf(a) + Range(s.start, s.end)
  {
    assert (a + [s])[..|a|] == a;
  }

  lemma RangeSplits(a: int, b: int, c: int)
    requires a <= b + 1 && b <= c
    ensures Range(a, c) == Range(a, b) + Range(b + 1, c)
  {}

  // ------------------------------------------------------------- missing minutes

  predicate IsSettled(settled: seq<Settled>, m: int) {
    exists i | 0 <= i < |settled| :: settled[i].from <= m <= settled[i].to
  }

  predicate Missing(present: set<int>, settled: seq<Settled>, m: int) { m !in present && !IsSettled(settled, m) }

  /** The expected minutes neither stored nor settled, in order. */
  function AllMissing(expected: seq<int>, present: set<int>, settled: seq<Settled>): (r: seq<int>) {
    if expected == [] then []
    else
      var front, m := AllMissing(expected[..|expected| - 1], present, settled), expected[|expected| - 1];
      if Missing(present, settled, m) then front + [m] else front
  }

  /** Spans with at least a minute each, ascending, and no two that could be one. */
  predicate Apart(spans: seq<Span>) {
    && (forall i | 0 <= i < |spans| :: spans[i].start <= spans[i].end)
    && (forall i, j | 0 <= i < j < |spans| :: spans[i].end + 1 < spans[j].start)
  }

  /** The minutes of the closed spans and of the one still open. */
  function WithOpen(spans: seq<Span>, open: Option<Span>): seq<int> {
    MinutesOf(spans) + if open.Some? then Range(open.value.start, open.value.end) else []
  }

  lemma MinutesOfNone()
    ensures MinutesOf([]) == []
  {}

  lemma RangeOfOne(m: int)
    ensures Range(m, m) == [m]
  {}

  lemma ApartSnoc(spans: seq<Span>, s: Span)
    requires Apart(spans) && s.start <= s.end && (spans != [] ==> spans[|spans| - 1].end + 1 < s.start)
    ensures Apart(spans + [s])
  {}

  lemma ApartFront(spans: seq<Span>, s: Span)
    requires Apart(spans + [s])
    ensures Apart(spans) && (spans != [] ==> spans[|spans| - 1].end + 1 < s.start)
  {
    assert forall i | 0 <= i < |spans| :: (spans + [s])[i] == spans[i];
    assert (spans + [s])[|spans|] == s;
  }

  lemma OpenSpan(spans: seq<Span>, s: Span)
    ensures WithOpen(spans + [s], None) == WithOpen(spans, Some(s))
    ensures WithOpen(spans, Some(s.(end := s.start))) == WithOpen(spans, None) + [s.start]
    ensures s.start <= s.end ==> WithOpen(spans, Some(s.(end := s.end + 1))) == WithOpen(spans, Some(s)) + [s.end + 1]
    ensures WithOpen(spans, None) == MinutesOf(spans)
  {
    hide MinutesOf, Range;
    MinutesSnoc(spans, s);
    RangeOfOne(s.start);
    RangeOfOne(s.end + 1);
    assert MinutesOf(spans) + [] == MinutesOf(spans) && MinutesOf(spans + [s]) + [] == MinutesOf(spans + [s]);
    if s.start <= s.end {
      RangeSplits(s.start, s.end, s.end + 1);
      assert MinutesOf(spans) + (Range(s.start, s.end) + [s.end + 1]) == MinutesOf(spans) + Range(s.start, s.end) + [s.end + 1];
    }
  }

  /** The spans grouped from minutes up to and including `newest`, the last perhaps still open. */
  ghost predicate Grouped(symbol: string, spans: seq<Span>, open: Option<Span>, newest: int) {
    && (if open.Some? then Apart(spans + [open.value]) else Apart(spans))
    && (forall k | 0 <= k < |spans| :: spans[k].symbol == symbol)
    && (if open.Some? then open.value.symbol == symbol && open.value.start <= open.value.end == newest
        else spans != [] ==> spans[|spans| - 1].end < newest)
  }

  lemma ExtendKeeps(symbol: string, spans: seq<Span>, s: Span)
    requires Grouped(symbol, spans, Some(s), s.end)
    ensures Grouped(symbol, spans, Some(s.(end := s.end + 1)), s.end + 1)
    ensures WithOpen(spans, Some(s.(end := s.end + 1))) == WithOpen(spans, Some(s)) + [s.end + 1]
  {
    hide Apart, WithOpen;
    ApartFront(spans, s);
    ApartSnoc(spans, s.(end := s.end + 1));
    OpenSpan(spans, s);
  }

  lemma CloseKeeps(symbol: string, spans: seq<Span>, s: Span, m: int)
    requires Grouped(symbol, spans, Some(s), s.end) && s.end < m
    ensures Grouped(symbol, spans + [s], None, m) && WithOpen(spans + [s], None) == WithOpen(spans, Some(s))
  {
    hide Apart, WithOpen;
    OpenSpan(spans, s);
  }

  lemma SkipKeeps(symbol: string, spans: seq<Span>, newest: int, m: int)
    requires Grouped(symbol, spans, None, newest) && newest <= m
    ensures Grouped(symbol, spans, None, m)
  {}

  lemma OpenKeeps(symbol: string, spans: seq<Span>, m: int)
    requires Grouped(symbol, spans, None, m) && (spans != [] ==> spans[|spans| - 1].end + 1 < m)
    ensures Grouped(symbol, spans, Some(Span(symbol, m, m)), m)
    ensures WithOpen(spans, Some(Span(symbol, m, m))) == WithOpen(spans, None) + [m]
  {
    hide Apart, WithOpen;
    OpenSpan(spans, Span(symbol, m, m));
    ApartSnoc(spans, Span(symbol, m, m));
  }

  lemma OpenFromClosed(symbol: string, spans: seq<Span>, newest: int, m: int)
    requires Grouped(symbol, spans, None, newest) && newest < m
    ensures spans != [] ==> spans[|spans| - 1].end + 1 < m
  {}

  datatype Grouping = Grouping(spans: seq<Span>, open: Option<Span>)

  function Closed(g: Grouping): seq<Span> { if g.open.Some? then g.spans + [g.open.value] else g.spans }

  /** One expected minute: it extends the open span, or closes it and perhaps opens another. */
  function Group(g: Grouping, symbol: string, m: int, missing: bool): Grouping {
    if missing && g.open.Some? && m == g.open.value.end + 1 then g.(open := Some(g.open.value.(end := m)))
    else Grouping(Closed(g), if missing then Some(Span(symbol, m, m)) else None)
  }

  function GroupAll(symbol: string, expected: seq<int>, present: set<int>, settled: seq<Settled>): Grouping {
    if expected == [] then Grouping([], None)
    else
      var k := |expected| - 1;
      Group(GroupAll(symbol, expected[..k], present, settled), symbol, expected[k], Missing(present, settled, expected[k]))
  }

  lemma GroupKeeps(g: Grouping, symbol: string, newest: int, m: int, missing: bool)
    requires Grouped(symbol, g.spans, g.open, newest) && newest < m
    ensures var g' := Group(g, symbol, m, missing);
      && Grouped(symbol, g'.spans, g'.open, m)
      && WithOpen(g'.spans, g'.open) == WithOpen(g.spans, g.open) + if missing then [m] else []
  {
    hide WithOpen, Apart;
    if missing && g.open.Some? && m == g.open.value.end + 1 {
      ExtendKeeps(symbol, g.spans, g.open.value);
    } else {
      if g.open.Some? {
        CloseKeeps(symbol, g.spans, g.open.value, m);
        if missing {
          OpenKeeps(symbol, g.spans + [g.open.value], m);
        }
      } else {
        OpenFromClosed(symbol, g.spans, newest, m);
        SkipKeeps(symbol, g.spans, newest, m);
        if missing {
          OpenKeeps(symbol, g.spans, m);
        }
      }
      assert WithOpen(g.spans, g.open) + [] == WithOpen(g.spans, g.open);
    }
  }

  lemma {:induction false} GroupAllMeans(symbol: string, expected: seq<int>, present: set<int>, settled: seq<Settled>, newest: int)
    requires Rising(expected) && newest == (if expected == [] then 0 else expected[|expected| - 1])
    ensures var g := GroupAll(symbol, expected, present, settled);
      Grouped(symbol, g.spans, g.open, newest) && WithOpen(g.spans, g.open) == AllMissing(expected, present, settled)
  {
    hide WithOpen, Apart, Missing, Group, Grouped;
    if expected == [] {
      NothingGrouped(symbol, newest);
    } else {
      var front, m := expected[..|expected| - 1], expected[|expected| - 1];
      var before := if front == [] then m - 1 else front[|front| - 1];
      if front == [] {
        NothingGrouped(symbol, before);
      } else {
        GroupAllMeans(symbol, front, present, settled, before);
      }
      GroupKeeps(GroupAll(symbol, front, present, settled), symbol, before, m, Missing(present, settled, m));
    }
  }

  lemma NothingGrouped(symbol: string, newest: int)
    ensures Grouped(symbol, [], None, newest) && WithOpen([], None) == []
  {}

  /** Grouping closes into spans apart from one another that hold exactly the missing minutes. */
  lemma ClosedGroupMeans(symbol: string, expected: seq<int>, present: set<int>, settled: seq<Settled>)
    requires Rising(expected)
    ensures var spans := Closed(GroupAll(symbol, expected, present, settled));
      && MinutesOf(spans) == AllMissing(expected, present, settled) && Apart(spans)
      && forall i | 0 <= i < |spans| :: spans[i].symbol == symbol
  {
    hide WithOpen, Apart, Grouped, GroupAll, AllMissing, MinutesOf;
    var newest := if expected == [] then 0 else expected[|expected| - 1];
    GroupAllMeans(symbol, expected, present, settled, newest);
    var g := GroupAll(symbol, expected, present, settled);
    if g.open.Some? {
      OpenEndsNewest(symbol, g, newest);
      CloseKeeps(symbol, g.spans, g.open.value, newest + 1);
      ClosedMeans(symbol, Closed(g), newest + 1);
    } else {
      ClosedMeans(symbol, Closed(g), newest);
    }
  }

  lemma OpenEndsNewest(symbol: string, g: Grouping, newest: int)
    requires Grouped(symbol, g.spans, g.open, newest) && g.open.Some?
    ensures g.open.value.end == newest
  {}

  method MissingSpans(symbol: string, expected: seq<int>, present: set<int>, settled: seq<Settled>) returns (spans: seq<Span>)
    requires Rising(expected)
    ensures MinutesOf(spans) == AllMissing(expected, present, settled)
    ensures Apart(spans) && forall i | 0 <= i < |spans| :: spans[i].symbol == symbol
  {
    hide MinutesOf, AllMissing, Missing, Apart;
    spans := [];
    var open: Option<Span> := None;
    for i := 0 to |expected|
      invariant Grouping(spans, open) == GroupAll(symbol, expected[..i], present, settled)
    {
      var m := expected[i];
      assert expected[..i + 1][..i] == expected[..i];
      var missing := Missing(present, settled, m);
      if missing && open.Some? && m == open.value.end + 1 {
        open := Some(open.value.(end := m));
      } else {
        if open.Some? {
          spans := spans + [open.value];
          open := None;
        }
        if missing {
          open := Some(Span(symbol, m, m));
        }
      }
    }
    assert expected[..|expected|] == expected;
    if open.Some? {
      spans := spans + [open.value];
    }
    ClosedGroupMeans(symbol, expected, present, settled);
  }

  lemma ClosedMeans(symbol: string, spans: seq<Span>, newest: int)
    requires Grouped(symbol, spans, None, newest)
    ensures Apart(spans) && WithOpen(spans, None) == MinutesOf(spans) && forall i | 0 <= i < |spans| :: spans[i].symbol == symbol
  {}

  lemma {:induction false} MissingMeans(expected: seq<int>, present: set<int>, settled: seq<Settled>, m: int)
    ensures m in AllMissing(expected, present, settled) <==>
      m in expected && m !in present && forall i | 0 <= i < |settled| :: m < settled[i].from || settled[i].to < m
  {
    if expected != [] {
      var front, last := expected[..|expected| - 1], expected[|expected| - 1];
      assert expected == front + [last];
      MissingMeans(front, present, settled, m);
    }
  }

  /** A minute of the spans is a minute of one of them. */
  lemma {:induction false} MinuteHasSpan(spans: seq<Span>, m: int)
    ensures m in MinutesOf(spans) <==> exists i :: 0 <= i < |spans| && spans[i].start <= m <= spans[i].end
  {
    if spans != [] {
      var front, last := spans[..|spans| - 1], spans[|spans| - 1];
      MinuteHasSpan(front, m);
      RangeHolds(last.start, last.end, m);
      if m in MinutesOf(front) {
        var i :| 0 <= i < |front| && front[i].start <= m <= front[i].end;
        assert spans[i] == front[i];
      }
      if i :| 0 <= i < |spans| && spans[i].start <= m <= spans[i].end {
        if i < |front| {
          assert front[i] == spans[i];
        }
      }
    }
  }

  lemma RangeHolds(a: int, b: int, m: int)
    ensures m in Range(a, b) <==> a <= m <= b
  {
    if a <= m <= b {
      assert Range(a, b)[m - a] == m;
    }
  }

  /** No span could be longer: the minutes just outside it are in no span, so not missing ones. */
  lemma SpansAreMaximal(spans: seq<Span>, i: int)
    requires Apart(spans) && 0 <= i < |spans|
    ensures spans[i].start - 1 !in MinutesOf(spans) && spans[i].end + 1 !in MinutesOf(spans)
  {
    MinuteHasSpan(spans, spans[i].start - 1);
    MinuteHasSpan(spans, spans[i].end + 1);
    forall j | 0 <= j < |spans|
      ensures !(spans[j].start <= spans[i].start - 1 <= spans[j].end)
      ensures !(spans[j].start <= spans[i].end + 1 <= spans[j].end)
    {
      assert j < i ==> spans[j].end + 1 < spans[i].start;
      assert i < j ==> spans[i].end + 1 < spans[j].start;
    }
  }

  // ------------------------------------------------------------------ whole days

  function DayOf(m: int): int { m / DAY }

  /** A span cut where `days` calendar days end. */
  method SplitByDays(span: Span, days: int) returns (parts: seq<Span>)
    requires days >= 1 && span.start <= span.end
    ensures MinutesOf(parts) == Range(span.start, span.end) && parts != []
    ensures forall i | 0 <= i < |parts| :: Fits(parts[i], span.symbol, days) && span.start <= parts[i].start
    ensures forall i | 0 <= i < |parts| :: CutFrom(parts[i], span, days)
  {
    hide MinutesOf, Range, FloorTo, DayOf, CutFrom;
    MinutesOfNone();
    assert Range(span.start, span.start - 1) == [];
    parts := [];
    var start := span.start;
    while start <= span.end
      invariant span.start <= start <= span.end + 1
      invariant MinutesOf(parts) == Range(span.start, start - 1)
      invariant start > span.start ==> parts != []
      invariant forall i | 0 <= i < |parts| :: Fits(parts[i], span.symbol, days) && span.start <= parts[i].start
      invariant forall i | 0 <= i < |parts| :: CutFrom(parts[i], span, days)
      invariant start == span.start || start == span.end + 1 || start % DAY == 0
      decreases span.end + 1 - start
    {
      var boundary := FloorTo(start, DAY) + days * DAY;
      DayBoundary(start, days);
      var end := if span.end < boundary - 1 then span.end else boundary - 1;
      var part := Span(span.symbol, start, end);
      MinutesSnoc(parts, part);
      RangeSplits(span.start, start - 1, end);
      BeforeBoundary(start, end, days);
      CutsAtBoundary(span, part, days);
      parts := parts + [part];
      start := end + 1;
    }
  }

  /** A piece of the span, cut only where a day begins or where `days` calendar days, counted from the piece's first, end. */
  predicate CutFrom(p: Span, whole: Span, days: int) {
    && p.symbol == whole.symbol && whole.start <= p.start <= p.end <= whole.end
    && (p.start == whole.start || p.start % DAY == 0)
    && (p.end == whole.end || p.end + 1 == (p.start / DAY + days) * DAY)
  }

  lemma CutsAtBoundary(whole: Span, p: Span, days: int)
    requires days >= 1 && p.symbol == whole.symbol && whole.start <= p.start <= whole.end && (p.start == whole.start || p.start % DAY == 0)
    requires var boundary := FloorTo(p.start, DAY) + days * DAY; p.end == if whole.end < boundary - 1 then whole.end else boundary - 1
    ensures CutFrom(p, whole, days) && (p.end == whole.end || (p.end + 1) % DAY == 0)
  {
    DayBoundary(p.start, days);
    assert FloorTo(p.start, DAY) == p.start / DAY * DAY;
    assert FloorTo(p.start, DAY) + days * DAY == (p.start / DAY + days) * DAY;
    WholeDays(p.start / DAY + days);
  }

  lemma WholeDays(n: int)
    ensures (n * DAY) % DAY == 0
  {}

  predicate Fits(s: Span, symbol: string, days: int) {
    s.symbol == symbol && s.start <= s.end && DayOf(s.end) - DayOf(s.start) < days
  }

  lemma DayBoundary(start: int, days: int)
    requires days >= 1
    ensures FloorTo(start, DAY) + days * DAY > start
  {}

  lemma BeforeBoundary(start: int, end: int, days: int)
    requires end < FloorTo(start, DAY) + days * DAY
    ensures DayOf(end) - DayOf(start) < days
  {
    assert FloorTo(start, DAY) == DayOf(start) * DAY;
    assert end < (DayOf(start) + days) * DAY;
  }

  // --------------------------------------------------------------- the requests

  /** Alphabetical order. */
  predicate Less(a: string, b: string)
    decreases |a|
  {
    b != [] && (a == [] || a[0] < b[0] || (a[0] == b[0] && Less(a[1..], b[1..])))
  }

  /** By the first character in which they differ, a name before every longer one that it begins. */
  lemma {:induction false} LessMeans(a: string, b: string)
    ensures Less(a, b) <==> exists k | 0 <= k < |b| :: DiffersUp(a, b, k)
    decreases |a|
  {
    if a == [] {
      assert b != [] ==> DiffersUp(a, b, 0);
    } else if b != [] && a[0] == b[0] {
      LessMeans(a[1..], b[1..]);
      if k :| 0 <= k < |b[1..]| && DiffersUp(a[1..], b[1..], k) {
        assert forall i | 0 < i <= k :: a[i] == a[1..][i - 1] && b[i] == b[1..][i - 1];
        assert DiffersUp(a, b, k + 1);
      }
      if k :| 0 <= k < |b| && DiffersUp(a, b, k) {
        assert DiffersUp(a[1..], b[1..], k - 1);
      }
    } else if b != [] {
      if a[0] < b[0] {
        assert DiffersUp(a, b, 0);
      }
    }
  }

  /** Alike up to place `k`, where `a` ends or has the smaller character. */
  predicate DiffersUp(a: string, b: string, k: nat)
    requires k < |b|
  {
    k <= |a| && (forall i | 0 <= i < k :: a[i] == b[i]) && (k == |a| || a[k] < b[k])
  }

  lemma {:induction false} LessIsTotal(a: string, b: string)
    ensures a == b || Less(a, b) || Less(b, a)
    ensures !(Less(a, b) && Less(b, a)) && !Less(a, a)
    decreases |a|
  {
    if a != [] {
      LessIsTotal(a[1..], a[1..]);
      if b != [] && a[0] == b[0] {
        LessIsTotal(a[1..], b[1..]);
        assert a == [a[0]] + a[1..] && b == [b[0]] + b[1..];
      }
    }
  }

  lemma {:induction false} LessIsTransitive(a: string, b: string, c: string)
    requires Less(a, b) && Less(b, c)
    ensures Less(a, c)
    decreases |a|
  {
    if a != [] && a[0] == b[0] == c[0] {
      LessIsTransitive(a[1..], b[1..], c[1..]);
    }
  }

  ghost predicate Alphabetical(names: seq<string>) { forall i, j | 0 <= i < j < |names| :: Less(names[i], names[j]) }

  /** A name into an alphabetical list, once. */
  function InsertName(names: seq<string>, n: string): (r: seq<string>)
    requires Alphabetical(names)
    ensures Alphabetical(r) && forall x :: x in r <==> x in names || x == n
  {
    if names == [] then [n]
    else
      var front, last := names[..|names| - 1], names[|names| - 1];
      assert names == front + [last];
      LessIsTotal(last, n);
      if last == n then names
      else if Less(last, n) then
        assert forall i | 0 <= i < |names| - 1 :: Less(names[i], n) by {
          forall i | 0 <= i < |names| - 1
            ensures Less(names[i], n)
          {
            LessIsTransitive(names[i], last, n);
          }
        }
        names + [n]
      else
        var r := InsertName(front, n);
        assert forall i | 0 <= i < |r| :: Less(r[i], last) by {
          forall i | 0 <= i < |r|
            ensures Less(r[i], last)
          {
            assert r[i] in r;
            if r[i] in front {
              var k :| 0 <= k < |front| && front[k] == r[i];
              assert names[k] == r[i];
            }
          }
        }
        r + [last]
  }

  /** The symbols of the spans, in alphabetical order. */
  function Symbols(spans: seq<Span>): (r: seq<string>)
    ensures Alphabetical(r) && forall x :: x in r <==> exists i :: 0 <= i < |spans| && spans[i].symbol == x
  {
    if spans == [] then []
    else
      var front, last := spans[..|spans| - 1], spans[|spans| - 1];
      assert forall i | 0 <= i < |front| :: front[i] == spans[i];
      InsertName(Symbols(front), last.symbol)
  }

  function OfSymbol(spans: seq<Span>, symbol: string): (r: seq<Span>)
    ensures forall i | 0 <= i < |r| :: r[i] in spans && r[i].symbol == symbol
  {
    if spans == [] then []
    else if spans[|spans| - 1].symbol == symbol then OfSymbol(spans[..|spans| - 1], symbol) + [spans[|spans| - 1]]
    else OfSymbol(spans[..|spans| - 1], symbol)
  }

  /** A stable insertion by start. */
  function InsertSpan(spans: seq<Span>, s: Span): (r: seq<Span>)
    ensures multiset(r) == multiset(spans) + multiset{s}
  {
    if spans == [] || spans[|spans| - 1].start <= s.start then spans + [s]
    else
      assert spans == spans[..|spans| - 1] + [spans[|spans| - 1]];
      InsertSpan(spans[..|spans| - 1], s) + [spans[|spans| - 1]]
  }

  function SortByStart(spans: seq<Span>): (r: seq<Span>)
    ensures multiset(r) == multiset(spans)
  {
    if spans == [] then []
    else
      assert spans == spans[..|spans| - 1] + [spans[|spans| - 1]];
      InsertSpan(SortByStart(spans[..|spans| - 1]), spans[|spans| - 1])
  }

  predicate ByStart(spans: seq<Span>) { forall i, j | 0 <= i < j < |spans| :: spans[i].start <= spans[j].start }

  lemma {:induction false} InsertKeepsOrder(spans: seq<Span>, s: Span)
    requires ByStart(spans)
    ensures ByStart(InsertSpan(spans, s))
  {
    if spans != [] && spans[|spans| - 1].start > s.start {
      var front, last := spans[..|spans| - 1], spans[|spans| - 1];
      InsertKeepsOrder(front, s);
      var r := InsertSpan(front, s);
      forall i | 0 <= i < |r|
        ensures r[i].start <= last.start
      {
        assert r[i] in multiset(front) + multiset{s};
        if r[i] in multiset(front) {
          var k :| 0 <= k < |front| && front[k] == r[i];
          assert spans[k] == front[k];
        }
      }
    }
  }

  /** Whatever the spans, the sorted ones start one after the other. */
  lemma {:induction false} SortsByStart(spans: seq<Span>)
    ensures ByStart(SortByStart(spans))
  {
    if spans != [] {
      SortsByStart(spans[..|spans| - 1]);
      InsertKeepsOrder(SortByStart(spans[..|spans| - 1]), spans[|spans| - 1]);
    }
  }

  predicate Overlap(s: Span, t: Span) { s.start <= t.end && t.start <= s.end }

  /** No minute is in two of the spans. */
  predicate Disjoint(spans: seq<Span>) { forall i, j | 0 <= i < j < |spans| :: !Overlap(spans[i], spans[j]) }

  lemma {:induction false} InsertKeepsDisjoint(spans: seq<Span>, s: Span)
    requires Disjoint(spans) && forall i | 0 <= i < |spans| :: !Overlap(spans[i], s)
    ensures Disjoint(InsertSpan(spans, s))
  {
    if spans != [] && spans[|spans| - 1].start > s.start {
      var front, last := spans[..|spans| - 1], spans[|spans| - 1];
      InsertKeepsDisjoint(front, s);
      var r := InsertSpan(front, s);
      forall i | 0 <= i < |r|
        ensures !Overlap(r[i], last)
      {
        assert r[i] in multiset(front) + multiset{s};
        if r[i] in multiset(front) {
          var k :| 0 <= k < |front| && front[k] == r[i];
          assert spans[k] == front[k];
        }
      }
    }
  }

  lemma {:induction false} SortKeepsDisjoint(spans: seq<Span>)
    requires Disjoint(spans)
    ensures Disjoint(SortByStart(spans))
  {
    if spans != [] {
      var front, last := spans[..|spans| - 1], spans[|spans| - 1];
      SortKeepsDisjoint(front);
      forall i | 0 <= i < |front|
        ensures !Overlap(SortByStart(front)[i], last)
      {
        assert SortByStart(front)[i] in multiset(front);
        var k :| 0 <= k < |front| && front[k] == SortByStart(front)[i];
        assert spans[k] == front[k];
      }
      InsertKeepsDisjoint(SortByStart(front), last);
    }
  }

  lemma InTurnFront(spans: seq<Span>, s: Span)
    requires WellFormed(spans + [s]) && ByStart(spans + [s]) && Disjoint(spans + [s])
    ensures WellFormed(spans) && ByStart(spans) && Disjoint(spans) && s.start <= s.end
    ensures spans != [] ==> spans[|spans| - 1].end < s.start
  {
    var all := spans + [s];
    assert forall i | 0 <= i < |spans| :: all[i] == spans[i];
    assert all[|spans|] == s;
    assert spans != [] ==> !Overlap(all[|spans| - 1], s) && all[|spans| - 1].start <= s.start;
  }

  /** The minutes rise strictly, up to the end of the last span. */
  predicate RiseTo(ms: seq<int>, spans: seq<Span>) {
    Rising(ms) && if spans == [] then ms == [] else ms != [] && ms[|ms| - 1] == spans[|spans| - 1].end
  }

  lemma RiseThrough(ms: seq<int>, spans: seq<Span>, s: Span)
    requires RiseTo(ms, spans) && s.start <= s.end && (spans != [] ==> spans[|spans| - 1].end < s.start)
    ensures RiseTo(ms + Range(s.start, s.end), spans + [s])
  {}

  /** Spans that start one after the other and share no minute hold theirs in strictly rising order. */
  lemma {:induction false} InTurnMinutesRise(spans: seq<Span>)
    requires WellFormed(spans) && ByStart(spans) && Disjoint(spans)
    ensures RiseTo(MinutesOf(spans), spans)
  {
    if spans != [] {
      var front, last := spans[..|spans| - 1], spans[|spans| - 1];
      assert spans == front + [last] by { hide *; }
      assert RiseTo(MinutesOf(front + [last]), front + [last]) by {
        hide *;
        InTurnFront(front, last);
        InTurnMinutesRise(front);
        MinutesSnoc(front, last);
        RiseThrough(MinutesOf(front), front, last);
      }
    }
  }

  /** All spans of a request are its symbol's, and none ends `days` calendar days or more after the first begins. */
  predicate WithinDays(r: Request, days: int) {
    && r.spans != []
    && (forall i | 0 <= i < |r.spans| ::
          Fits(r.spans[i], r.symbol, days) && DayOf(r.spans[i].end) - DayOf(r.spans[0].start) < days)
  }

  /** The minutes a symbol's requests carry, in the order they are made. */
  function Carried(requests: seq<Request>, symbol: string): seq<int> {
    if requests == [] then []
    else
      Carried(requests[..|requests| - 1], symbol) +
      if requests[|requests| - 1].symbol == symbol then MinutesOf(requests[|requests| - 1].spans) else []
  }

  lemma CarriedSnoc(requests: seq<Request>, r: Request, symbol: string)
    ensures Carried(requests + [r], symbol) == Carried(requests, symbol) + if r.symbol == symbol then MinutesOf(r.spans) else []
  {
    assert (requests + [r])[..|requests|] == requests;
  }

  lemma {:induction false} CarriedConcat(a: seq<Request>, b: seq<Request>, symbol: string)
    ensures Carried(a + b, symbol) == Carried(a, symbol) + Carried(b, symbol)
  {
    if b == [] {
      assert a + b == a;
    } else {
      assert (a + b)[..|a + b| - 1] == a + b[..|b| - 1];
      CarriedConcat(a, b[..|b| - 1], symbol);
    }
  }

  predicate WellFormed(spans: seq<Span>) { forall i | 0 <= i < |spans| :: spans[i].start <= spans[i].end }

  predicate AllWithin(rs: seq<Request>, symbol: string, days: int) {
    forall i | 0 <= i < |rs| :: rs[i].symbol == symbol && WithinDays(rs[i], days)
  }

  function Built(done: seq<Request>, open: seq<Span>, symbol: string): seq<Request> {
    if open == [] then done else done + [Request(symbol, open)]
  }

  /** A request of a symbol is followed by another only because that one's first piece ends too many days on. */
  predicate Packed(rs: seq<Request>, days: int) {
    forall i | 0 < i < |rs| && rs[i - 1].symbol == rs[i].symbol ::
      rs[i - 1].spans != [] && rs[i].spans != [] && TooFar(rs[i - 1].spans[0], rs[i].spans[0], days)
  }

  predicate TooFar(first: Span, next: Span, days: int) { next.end / DAY - first.start / DAY >= days }

  predicate PieceOfSome(p: Span, wholes: seq<Span>, days: int) { exists w | 0 <= w < |wholes| :: CutFrom(p, wholes[w], days) }

  predicate AllPieces(ps: seq<Span>, wholes: seq<Span>, days: int) { forall i | 0 <= i < |ps| :: PieceOfSome(ps[i], wholes, days) }

  predicate AllCut(rs: seq<Request>, wholes: seq<Span>, days: int) {
    forall i | 0 <= i < |rs| :: AllPieces(rs[i].spans, wholes, days)
  }

  /** Parts taken into the request being built, which is closed when the next would not fit its days. */
  method AddParts(done: seq<Request>, current: seq<Span>, parts: seq<Span>, symbol: string, days: int, ghost wholes: seq<Span>)
    returns (requests: seq<Request>, open: seq<Span>)
    requires days >= 1 && AllWithin(done, symbol, days) && (current != [] ==> WithinDays(Request(symbol, current), days))
    requires forall i | 0 <= i < |parts| :: Fits(parts[i], symbol, days)
    requires (current == [] ==> done == []) && Packed(Built(done, current, symbol), days)
    requires AllCut(Built(done, current, symbol), wholes, days) && AllPieces(parts, wholes, days)
    ensures AllWithin(requests, symbol, days) && (open != [] ==> WithinDays(Request(symbol, open), days))
    ensures Carried(requests, symbol) + MinutesOf(open) == Carried(done, symbol) + MinutesOf(current) + MinutesOf(parts)
    ensures (open == [] ==> requests == []) && Packed(Built(requests, open, symbol), days)
    ensures AllCut(Built(requests, open, symbol), wholes, days)
  {
    hide MinutesOf, Carried, Fits, DayOf, Packed, Built, PieceOfSome, AllCut;
    MinutesOfNone();
    requests, open := done, current;
    assert parts[..0] == [];
    ghost var all := Carried(done, symbol) + MinutesOf(current);
    assert all + [] == all;
    for k := 0 to |parts|
      invariant AllWithin(requests, symbol, days) && (open != [] ==> WithinDays(Request(symbol, open), days))
      invariant Carried(requests, symbol) + MinutesOf(open) == all + MinutesOf(parts[..k])
      invariant (open == [] ==> requests == []) && Packed(Built(requests, open, symbol), days)
      invariant AllCut(Built(requests, open, symbol), wholes, days)
    {
      var part := parts[k];
      assert parts[..k + 1] == parts[..k] + [part];
      MinutesSnoc(parts[..k], part);
      FitsMeans(part, symbol, days);
      var closes := open != [] && DayOf(part.end) - DayOf(open[0].start) >= days;
      PackOne(requests, open, part, symbol, days, closes, wholes);
      CarriedByOneMore(requests, open, part, symbol, closes);
      if closes {
        requests := requests + [Request(symbol, open)];
        open := [];
        assert open + [part] == [part];
      }
      open := open + [part];
      assert all + MinutesOf(parts[..k + 1]) == (all + MinutesOf(parts[..k])) + Range(part.start, part.end);
    }
    assert parts[..|parts|] == parts;
  }

  lemma CarriedByOneMore(done: seq<Request>, open: seq<Span>, part: Span, symbol: string, closes: bool)
    ensures (if closes then Carried(done + [Request(symbol, open)], symbol) + MinutesOf([part])
             else Carried(done, symbol) + MinutesOf(open + [part])) ==
      (Carried(done, symbol) + MinutesOf(open)) + Range(part.start, part.end)
  {
    hide Carried, MinutesOf;
    MinutesOfNone();
    CarriedSnoc(done, Request(symbol, open), symbol);
    MinutesSnoc(open, part);
    MinutesSnoc([], part);
    assert [] + [part] == [part] && [] + Range(part.start, part.end) == Range(part.start, part.end);
  }

  lemma PiecesSnoc(ps: seq<Span>, p: Span, wholes: seq<Span>, days: int)
    ensures AllPieces(ps + [p], wholes, days) <==> AllPieces(ps, wholes, days) && PieceOfSome(p, wholes, days)
  {
    hide PieceOfSome;
    assert forall i | 0 <= i < |ps| :: (ps + [p])[i] == ps[i];
    assert (ps + [p])[|ps|] == p;
  }

  function OneMore(done: seq<Request>, open: seq<Span>, part: Span, symbol: string, closes: bool): seq<Request> {
    if closes then Built(done + [Request(symbol, open)], [part], symbol) else Built(done, open + [part], symbol)
  }

  /** One more piece, in the request being built or in a new one. */
  lemma PackOne(done: seq<Request>, open: seq<Span>, part: Span, symbol: string, days: int, closes: bool, wholes: seq<Span>)
    requires Packed(Built(done, open, symbol), days) && (open == [] ==> done == [])
    requires forall i | 0 <= i < |done| :: done[i].symbol == symbol && done[i].spans != []
    requires closes <==> open != [] && DayOf(part.end) - DayOf(open[0].start) >= days
    requires AllCut(Built(done, open, symbol), wholes, days) && PieceOfSome(part, wholes, days)
    ensures Packed(if closes then Built(done + [Request(symbol, open)], [part], symbol) else Built(done, open + [part], symbol), days)
    ensures AllCut(if closes then Built(done + [Request(symbol, open)], [part], symbol) else Built(done, open + [part], symbol), wholes, days)
  {
    hide PieceOfSome, AllPieces, TooFar;
    var was, now := Built(done, open, symbol), OneMore(done, open, part, symbol, closes);
    assert forall i | 0 <= i < |done| :: now[i] == was[i] == done[i];
    assert open != [] ==> |was| == |done| + 1 && was[|done|] == Request(symbol, open) && now[|done|].spans[0] == open[0];
    assert closes ==> now[|done|] == was[|done|] && now[|done| + 1] == Request(symbol, [part]);
    IsTooFar(open, part, days);
    forall i | 0 < i < |now| && now[i - 1].symbol == now[i].symbol
      ensures now[i - 1].spans != [] && now[i].spans != [] && TooFar(now[i - 1].spans[0], now[i].spans[0], days)
    {
      if i < |was| {
        assert was[i - 1].symbol == was[i].symbol;
        assert TooFar(was[i - 1].spans[0], was[i].spans[0], days);
      }
    }
    OnePiece(part, wholes, days);
    PiecesSnoc(open, part, wholes, days);
    assert open == [] ==> open + [part] == [part];
    assert open != [] ==> AllPieces(was[|done|].spans, wholes, days);
  }

  lemma IsTooFar(open: seq<Span>, part: Span, days: int)
    ensures open != [] ==> (TooFar(open[0], part, days) <==> DayOf(part.end) - DayOf(open[0].start) >= days)
  {}

  lemma OnePiece(p: Span, wholes: seq<Span>, days: int)
    requires PieceOfSome(p, wholes, days)
    ensures AllPieces([p], wholes, days)
  {}

  lemma FitsMeans(s: Span, symbol: string, days: int)
    requires Fits(s, symbol, days)
    ensures DayOf(s.end) - DayOf(s.start) < days
  {}

  /** One symbol's requests, oldest first. */
  method PlanSymbol(spans: seq<Span>, symbol: string, days: int) returns (requests: seq<Request>)
    requires days >= 1 && WellFormed(spans) && forall i | 0 <= i < |spans| :: spans[i].symbol == symbol
    ensures AllWithin(requests, symbol, days)
    ensures Carried(requests, symbol) == MinutesOf(spans)
    ensures Packed(requests, days) && AllCut(requests, spans, days)
  {
    hide MinutesOf, Carried, Fits, DayOf, WithinDays, Packed, AllPieces, AllCut, Built, CutFrom;
    NothingBuilt(symbol, days, spans);
    MinutesOfNone();
    var current: seq<Span>;
    requests, current := [], [];
    assert spans[..0] == [];
    CarriedNone(symbol);
    for i := 0 to |spans|
      invariant AllWithin(requests, symbol, days) && (current != [] ==> WithinDays(Request(symbol, current), days))
      invariant Carried(requests, symbol) + MinutesOf(current) == MinutesOf(spans[..i])
      invariant (current == [] ==> requests == []) && Packed(Built(requests, current, symbol), days)
      invariant AllCut(Built(requests, current, symbol), spans, days)
    {
      assert spans[..i + 1] == spans[..i] + [spans[i]];
      MinutesSnoc(spans[..i], spans[i]);
      var parts := SplitByDays(spans[i], days);
      PartsArePieces(parts, spans, i, days);
      requests, current := AddParts(requests, current, parts, symbol, days, spans);
    }
    assert spans[..|spans|] == spans;
    BuiltIs(requests, current, symbol);
    if current != [] {
      CarriedSnoc(requests, Request(symbol, current), symbol);
      requests := requests + [Request(symbol, current)];
    }
  }

  lemma NothingPlanned(wholes: seq<Span>, days: int)
    ensures Packed([], days) && AllCut([], wholes, days)
  {}

  lemma NothingBuilt(symbol: string, days: int, wholes: seq<Span>)
    ensures Packed(Built([], [], symbol), days) && AllCut(Built([], [], symbol), wholes, days)
  {}

  lemma BuiltIs(done: seq<Request>, open: seq<Span>, symbol: string)
    ensures Built(done, open, symbol) == if open == [] then done else done + [Request(symbol, open)]
  {}

  lemma PartsArePieces(parts: seq<Span>, wholes: seq<Span>, i: nat, days: int)
    requires i < |wholes| && forall k | 0 <= k < |parts| :: CutFrom(parts[k], wholes[i], days)
    ensures AllPieces(parts, wholes, days)
  {
    hide CutFrom;
  }

  lemma CarriedNone(symbol: string)
    ensures Carried([], symbol) == []
  {}

  /** Requests come symbol by symbol. */
  ghost predicate SymbolBySymbol(rs: seq<Request>) {
    forall i, j | 0 <= i < j < |rs| :: rs[i].symbol == rs[j].symbol || Less(rs[i].symbol, rs[j].symbol)
  }

  ghost predicate AllFit(rs: seq<Request>, days: int) { forall i | 0 <= i < |rs| :: WithinDays(rs[i], days) }

  lemma SortedSpansAreThose(spans: seq<Span>, symbol: string)
    requires WellFormed(spans)
    ensures var s := SortByStart(OfSymbol(spans, symbol)); WellFormed(s) && forall i | 0 <= i < |s| :: s[i].symbol == symbol
  {
    var own := OfSymbol(spans, symbol);
    var s := SortByStart(own);
    forall i | 0 <= i < |s|
      ensures s[i].symbol == symbol && s[i].start <= s[i].end
    {
      assert s[i] in multiset(own);
      var k :| 0 <= k < |own| && own[k] == s[i];
      assert own[k] in spans;
    }
  }

  lemma {:induction false} CarriesNone(rs: seq<Request>, symbol: string)
    requires forall i | 0 <= i < |rs| :: rs[i].symbol != symbol
    ensures Carried(rs, symbol) == []
  {
    if rs != [] {
      CarriesNone(rs[..|rs| - 1], symbol);
    }
  }

  /**
    The plan: every request within its days, symbol by symbol, and for each symbol
    exactly the minutes of its spans, none lost or repeated, oldest first.
   */
  method PlanRequests(spans: seq<Span>, days: int) returns (requests: seq<Request>)
    requires days >= 1 && WellFormed(spans)
    ensures AllFit(requests, days) && SymbolBySymbol(requests)
    ensures forall symbol :: Carried(requests, symbol) == MinutesOf(SortByStart(OfSymbol(spans, symbol)))
    ensures forall symbol | Disjoint(OfSymbol(spans, symbol)) :: Rising(Carried(requests, symbol))
    ensures Packed(requests, days) && AllCut(requests, spans, days)
  {
    hide MinutesOf, Carried, WithinDays, OfSymbol, SortByStart, Rising, Disjoint, Packed, AllCut;
    NothingPlanned(spans, days);
    var names := Symbols(spans);
    requests := [];
    for i := 0 to |names|
      invariant AllFit(requests, days) && SymbolBySymbol(requests)
      invariant forall k | 0 <= k < |requests| :: requests[k].symbol in names[..i]
      invariant forall n | 0 <= n < i :: Carried(requests, names[n]) == MinutesOf(SortByStart(OfSymbol(spans, names[n])))
      invariant Packed(requests, days) && AllCut(requests, spans, days)
    {
      var symbol := names[i];
      SortedSpansAreThose(spans, symbol);
      var more := PlanSymbol(SortByStart(OfSymbol(spans, symbol)), symbol, days);
      NamesDiffer(requests, names, i);
      PiecesOfThose(more, spans, symbol, days);
      PlansJoin(requests, more, symbol, spans, days);
      forall n | 0 <= n <= i
        ensures Carried(requests + more, names[n]) == MinutesOf(SortByStart(OfSymbol(spans, names[n])))
      {
        CarriedConcat(requests, more, names[n]);
        LessIsTotal(names[n], symbol);
        if n < i {
          CarriesNone(more, names[n]);
        } else {
          CarriesNone(requests, symbol);
        }
      }
      forall k | 0 <= k < |requests + more|
        ensures (requests + more)[k].symbol in names[..i + 1]
      {
        assert names[..i + 1] == names[..i] + [symbol];
      }
      requests := requests + more;
    }
    assert names[..|names|] == names;
    forall symbol
      ensures Carried(requests, symbol) == MinutesOf(SortByStart(OfSymbol(spans, symbol)))
    {
      if symbol in names {
        var n :| 0 <= n < |names| && names[n] == symbol;
      } else {
        CarriesNone(requests, symbol);
        NoSpansOf(spans, symbol);
        SortOfNone();
        MinutesOfNone();
      }
    }
    forall symbol | Disjoint(OfSymbol(spans, symbol))
      ensures Rising(Carried(requests, symbol))
    {
      OldestFirst(spans, symbol);
    }
  }

  lemma OldestFirst(spans: seq<Span>, symbol: string)
    requires WellFormed(spans) && Disjoint(OfSymbol(spans, symbol))
    ensures Rising(MinutesOf(SortByStart(OfSymbol(spans, symbol))))
  {
    var own := OfSymbol(spans, symbol);
    SortedSpansAreThose(spans, symbol);
    SortsByStart(own);
    SortKeepsDisjoint(own);
    InTurnMinutesRise(SortByStart(own));
  }

  lemma {:induction false} PartRises(rs: seq<Request>, i: nat)
    requires i < |rs| && Rising(Carried(rs, rs[i].symbol))
    ensures Rising(MinutesOf(rs[i].spans))
  {
    hide MinutesOf;
    var front, last, symbol := rs[..|rs| - 1], rs[|rs| - 1], rs[i].symbol;
    var before, all := Carried(front, symbol), Carried(rs, symbol);
    if i < |front| {
      assert all[..|before|] == before;
      PartRises(front, i);
    } else {
      assert all == before + MinutesOf(last.spans);
      assert MinutesOf(last.spans) == all[|before|..];
    }
  }

  /**
    What a request asks the provider for, its first span's start to its last span's
    end, is within its days and takes in every minute it carries.
   */
  lemma RequestCoversItsSpans(rs: seq<Request>, i: nat, days: int)
    requires i < |rs| && WithinDays(rs[i], days) && Rising(Carried(rs, rs[i].symbol))
    ensures var spans := rs[i].spans;
      && DayOf(spans[|spans| - 1].end) - DayOf(spans[0].start) < days
      && forall m | m in MinutesOf(spans) :: spans[0].start <= m <= spans[|spans| - 1].end
  {
    hide DayOf;
    var spans := rs[i].spans;
    PartRises(rs, i);
    FirstMinute(spans);
    var ms := MinutesOf(spans);
    assert ms[|ms| - 1] == spans[|spans| - 1].end;
    forall m | m in ms
      ensures spans[0].start <= m <= spans[|spans| - 1].end
    {
      var k :| 0 <= k < |ms| && ms[k] == m;
      assert ms[0] <= ms[k] <= ms[|ms| - 1];
    }
  }

  lemma {:induction false} FirstMinute(spans: seq<Span>)
    requires spans != [] && WellFormed(spans)
    ensures MinutesOf(spans) != [] && MinutesOf(spans)[0] == spans[0].start
  {
    if |spans| > 1 {
      FirstMinute(spans[..|spans| - 1]);
    } else {
      assert MinutesOf(spans[..0]) == [];
    }
  }

  lemma PiecesOfThose(rs: seq<Request>, spans: seq<Span>, symbol: string, days: int)
    requires AllCut(rs, SortByStart(OfSymbol(spans, symbol)), days)
    ensures AllCut(rs, spans, days)
  {
    hide CutFrom;
    var own := OfSymbol(spans, symbol);
    var s := SortByStart(own);
    forall i, j | 0 <= i < |rs| && 0 <= j < |rs[i].spans|
      ensures PieceOfSome(rs[i].spans[j], spans, days)
    {
      assert PieceOfSome(rs[i].spans[j], s, days);
      var w :| 0 <= w < |s| && CutFrom(rs[i].spans[j], s[w], days);
      assert s[w] in multiset(own);
      var k :| 0 <= k < |own| && own[k] == s[w];
      assert own[k] in spans;
      var n :| 0 <= n < |spans| && spans[n] == own[k];
    }
  }

  lemma PlansJoin(a: seq<Request>, b: seq<Request>, symbol: string, spans: seq<Span>, days: int)
    requires Packed(a, days) && Packed(b, days) && AllCut(a, spans, days) && AllCut(b, spans, days)
    requires forall i | 0 <= i < |a| :: a[i].symbol != symbol
    requires forall i | 0 <= i < |b| :: b[i].symbol == symbol
    ensures Packed(a + b, days) && AllCut(a + b, spans, days)
  {
    hide TooFar, AllPieces;
    var all := a + b;
    forall i | 0 < i < |all| && all[i - 1].symbol == all[i].symbol
      ensures all[i - 1].spans != [] && all[i].spans != [] && TooFar(all[i - 1].spans[0], all[i].spans[0], days)
    {
      if i < |a| {
        assert a[i - 1].symbol == a[i].symbol;
      } else if i > |a| {
        assert b[i - |a| - 1].symbol == b[i - |a|].symbol;
      }
    }
  }

  lemma NamesDiffer(requests: seq<Request>, names: seq<string>, i: int)
    requires Alphabetical(names) && 0 <= i < |names|
    requires forall k | 0 <= k < |requests| :: requests[k].symbol in names[..i]
    ensures forall k | 0 <= k < |requests| :: requests[k].symbol != names[i] && Less(requests[k].symbol, names[i])
  {
    LessIsTotal(names[i], names[i]);
    forall k | 0 <= k < |requests|
      ensures requests[k].symbol != names[i] && Less(requests[k].symbol, names[i])
    {
      var earlier := names[..i];
      var n :| 0 <= n < |earlier| && earlier[n] == requests[k].symbol;
      assert names[n] == earlier[n];
    }
  }

  lemma {:induction false} NoSpansOf(spans: seq<Span>, symbol: string)
    requires forall i | 0 <= i < |spans| :: spans[i].symbol != symbol
    ensures OfSymbol(spans, symbol) == []
  {
    if spans != [] {
      NoSpansOf(spans[..|spans| - 1], symbol);
    }
  }

  lemma SortOfNone()
    ensures SortByStart([]) == []
  {}

  // ------------------------------------------------------------ how few requests

  function CountOf(f: seq<nat>, v: nat): nat {
    if f == [] then 0 else CountOf(f[..|f| - 1], v) + if f[|f| - 1] == v then 1 else 0
  }

  function Others(f: seq<nat>, v: nat): (r: seq<nat>)
    ensures |r| + CountOf(f, v) == |f|
    ensures forall i | 0 <= i < |r| :: r[i] in f && r[i] != v
  {
    if f == [] then [] else Others(f[..|f| - 1], v) + if f[|f| - 1] == v then [] else [f[|f| - 1]]
  }

  lemma {:induction false} CountOfOthers(f: seq<nat>, v: nat, u: nat)
    ensures CountOf(Others(f, v), u) <= CountOf(f, u)
  {
    if f != [] {
      var front, last := f[..|f| - 1], f[|f| - 1];
      CountOfOthers(front, v, u);
      assert (Others(front, v) + [last])[..|Others(front, v)|] == Others(front, v);
      assert Others(front, v) + [] == Others(front, v);
    }
  }

  /** Numbers below `n`, none of them more than `c` times, are at most `c * n`. */
  lemma {:induction false} AtMostEach(f: seq<nat>, n: nat, c: nat)
    requires forall i | 0 <= i < |f| :: f[i] < n
    requires forall v: nat :: CountOf(f, v) <= c
    ensures |f| <= c * n
    decreases n
  {
    if n == 0 {
    } else {
      var rest := Others(f, n - 1);
      forall v: nat ensures CountOf(rest, v) <= c { CountOfOthers(f, n - 1, v); }
      forall i | 0 <= i < |rest| ensures rest[i] < n - 1 {
        var k :| 0 <= k < |f| && f[k] == rest[i];
      }
      AtMostEach(rest, n - 1, c);
      assert c * n == c * (n - 1) + c;
    }
  }

  lemma {:induction false} CountHasLast(f: seq<nat>, v: nat) returns (k: int)
    requires CountOf(f, v) > 0
    ensures 0 <= k < |f| && f[k] == v && CountOf(f[..k], v) == CountOf(f, v) - 1
  {
    k := |f| - 1;
    if f[k] != v {
      var front := f[..k];
      k := CountHasLast(front, v);
      assert front[..k] == f[..k];
    }
  }

  /** A plan as the method leaves it: within its days, symbol by symbol, packed, and in time order per symbol. */
  ghost predicate Planned(rs: seq<Request>, days: int) {
    && AllFit(rs, days) && SymbolBySymbol(rs) && Packed(rs, days)
    && forall symbol :: Rising(Carried(rs, symbol))
  }

  lemma {:induction false} CarriedHas(rs: seq<Request>, i: nat, m: int) returns (k: int)
    requires i < |rs| && m in MinutesOf(rs[i].spans)
    ensures 0 <= k < |Carried(rs, rs[i].symbol)| && Carried(rs, rs[i].symbol)[k] == m
  {
    hide MinutesOf;
    var front, last := rs[..|rs| - 1], rs[|rs| - 1];
    var before := Carried(front, rs[i].symbol);
    if i < |front| {
      k := CarriedHas(front, i, m);
    } else {
      var ms := MinutesOf(last.spans);
      var n :| 0 <= n < |ms| && ms[n] == m;
      k := |before| + n;
    }
  }

  lemma {:induction false} RisingPrefix(rs: seq<Request>, j: nat, symbol: string)
    requires j <= |rs| && Rising(Carried(rs, symbol))
    ensures Rising(Carried(rs[..j], symbol))
  {
    hide MinutesOf;
    if j == |rs| {
      assert rs[..j] == rs;
    } else {
      var front := rs[..|rs| - 1];
      var before := Carried(front, symbol);
      assert Carried(rs, symbol)[..|before|] == before;
      RisingPrefix(front, j, symbol);
      assert front[..j] == rs[..j];
    }
  }

  lemma FirstSpanHolds(spans: seq<Span>)
    requires spans != [] && WellFormed(spans)
    ensures spans[0].start in MinutesOf(spans) && spans[0].end in MinutesOf(spans)
  {
    MinuteHasSpan(spans, spans[0].start);
    MinuteHasSpan(spans, spans[0].end);
  }

  lemma FitIsWellFormed(r: Request, days: int)
    requires WithinDays(r, days)
    ensures r.spans != [] && WellFormed(r.spans) && forall i | 0 <= i < |r.spans| :: r.spans[i].symbol == r.symbol
  {
    hide DayOf;
  }

  /** Of two requests of a symbol, the later begins after the first piece of the earlier ends. */
  lemma FirstsInOrder(rs: seq<Request>, days: int, i: nat, j: nat)
    requires Planned(rs, days) && i < j < |rs| && rs[i].symbol == rs[j].symbol
    ensures rs[i].spans != [] && rs[j].spans != [] && rs[i].spans[0].end < rs[j].spans[0].start
  {
    hide MinutesOf, Carried, WithinDays, Packed, SymbolBySymbol;
    FitIsWellFormed(rs[i], days);
    FitIsWellFormed(rs[j], days);
    var symbol := rs[i].symbol;
    var upto := rs[..j + 1];
    assert upto == rs[..j] + [rs[j]];
    RisingPrefix(rs, j + 1, symbol);
    CarriedSnoc(rs[..j], rs[j], symbol);
    FirstSpanHolds(rs[i].spans);
    FirstMinute(rs[j].spans);
    var k := CarriedHas(rs[..j], i, rs[i].spans[0].end);
    var n := |Carried(rs[..j], symbol)|;
    assert Carried(upto, symbol)[k] < Carried(upto, symbol)[n];
  }

  /** Requests of a symbol never have their first pieces within `days` of one another. */
  lemma FirstsFarApart(rs: seq<Request>, days: int, i: nat, j: nat)
    requires Planned(rs, days) && i < j < |rs| && rs[i].symbol == rs[j].symbol
    ensures rs[i].spans != [] && rs[j].spans != []
    ensures rs[j].spans[0].end / DAY - rs[i].spans[0].start / DAY >= days
  {
    hide MinutesOf, Carried, WithinDays;
    LessIsTotal(rs[i].symbol, rs[i + 1].symbol);
    FitIsWellFormed(rs[i], days);
    FitIsWellFormed(rs[i + 1], days);
    FitIsWellFormed(rs[j], days);
    assert rs[i + 1].symbol == rs[i].symbol;
    assert rs[i + 1 - 1].symbol == rs[i + 1].symbol;
    assert TooFar(rs[i].spans[0], rs[i + 1].spans[0], days);
    if i + 1 < j {
      FirstsInOrder(rs, days, i + 1, j);
      LaterDay(rs[i + 1].spans[0].end, rs[j].spans[0].end);
    }
  }

  lemma LaterDay(a: int, b: int)
    requires a <= b
    ensures a / DAY <= b / DAY
  {}

  /** A request of one symbol, its pieces in any order, all within `days` calendar days. */
  predicate Asks(spans: seq<Span>, days: int) {
    forall i, j | 0 <= i < |spans| && 0 <= j < |spans| ::
      spans[i].symbol == spans[j].symbol && spans[j].end / DAY - spans[i].start / DAY < days
  }

  /** No plan that carries the same pieces whole, each of its requests within the days, has fewer requests. */
  lemma FewestRequests(rs: seq<Request>, days: int, other: seq<seq<Span>>)
    requires Planned(rs, days)
    requires forall k | 0 <= k < |other| :: Asks(other[k], days)
    requires forall i | 0 <= i < |rs| && rs[i].spans != [] :: exists k | 0 <= k < |other| :: rs[i].spans[0] in other[k]
    ensures |rs| <= |other|
  {
    hide MinutesOf, Carried, WithinDays, Packed, SymbolBySymbol;
    var f: seq<nat> := [];
    for i := 0 to |rs|
      invariant |f| == i && forall n | 0 <= n < i :: rs[n].spans != [] && f[n] < |other| && rs[n].spans[0] in other[f[n]]
    {
      FitIsWellFormed(rs[i], days);
      var k :| 0 <= k < |other| && rs[i].spans[0] in other[k];
      f := f + [k];
    }
    forall v: nat ensures CountOf(f, v) <= 1 {
      if CountOf(f, v) >= 2 {
        var j := CountHasLast(f, v);
        var i := CountHasLast(f[..j], v);
        FitIsWellFormed(rs[i], days);
        FitIsWellFormed(rs[j], days);
        var a :| 0 <= a < |other[v]| && other[v][a] == rs[i].spans[0];
        var b :| 0 <= b < |other[v]| && other[v][b] == rs[j].spans[0];
        assert other[v][a].symbol == other[v][b].symbol;
        FirstsFarApart(rs, days, i, j);
        assert false;
      }
    }
    AtMostEach(f, |other|, 1);
  }

  /** `days` calendar days of a symbol, from one on. */
  datatype Window = Window(symbol: string, day: int)

  predicate Opens(w: Window, symbol: string, m: int, days: int) { w.symbol == symbol && w.day <= m / DAY < w.day + days }

  /** However the minutes were cut and grouped, a plan of them needs at least half as many requests. */
  lemma AtMostTwiceTheFewest(rs: seq<Request>, days: int, other: seq<Window>)
    requires Planned(rs, days)
    requires forall i, m | 0 <= i < |rs| && m in MinutesOf(rs[i].spans) :: exists k | 0 <= k < |other| :: Opens(other[k], rs[i].symbol, m, days)
    ensures |rs| <= 2 * |other|
  {
    hide MinutesOf, Carried, WithinDays, Packed, SymbolBySymbol, Opens;
    var f: seq<nat> := [];
    for i := 0 to |rs|
      invariant |f| == i
      invariant forall n | 0 <= n < i :: rs[n].spans != [] && f[n] < |other| && Opens(other[f[n]], rs[n].symbol, rs[n].spans[0].start, days)
    {
      FitIsWellFormed(rs[i], days);
      FirstSpanHolds(rs[i].spans);
      var k :| 0 <= k < |other| && Opens(other[k], rs[i].symbol, rs[i].spans[0].start, days);
      f := f + [k];
    }
    forall v: nat ensures CountOf(f, v) <= 2 {
      if CountOf(f, v) >= 3 {
        var k := CountHasLast(f, v);
        var j := CountHasLast(f[..k], v);
        var i := CountHasLast(f[..k][..j], v);
        assert f[i] == f[j] == f[k] == v;
        ThirdDoesNotFit(rs, days, i, j, k, other[v]);
        assert false;
      }
    }
    AtMostEach(f, |other|, 2);
  }

  lemma ThirdDoesNotFit(rs: seq<Request>, days: int, i: nat, j: nat, k: nat, w: Window)
    requires Planned(rs, days) && i < j < k < |rs| && rs[i].spans != [] && rs[j].spans != [] && rs[k].spans != []
    requires Opens(w, rs[i].symbol, rs[i].spans[0].start, days) && Opens(w, rs[j].symbol, rs[j].spans[0].start, days)
    ensures !Opens(w, rs[k].symbol, rs[k].spans[0].start, days)
  {
    hide MinutesOf, Carried, WithinDays, Packed, SymbolBySymbol;
    FirstsFarApart(rs, days, i, j);
    if rs[k].symbol == w.symbol {
      FirstsInOrder(rs, days, j, k);
      LaterDay(rs[j].spans[0].end, rs[k].spans[0].start);
    }
  }

  lemma ThreeRequests(a: Request, b: Request, c: Request, symbol: string)
    requires a.symbol == b.symbol == c.symbol
    ensures Carried([a, b, c], symbol) ==
      if symbol == a.symbol then MinutesOf(a.spans) + MinutesOf(b.spans) + MinutesOf(c.spans) else []
  {
    hide Carried, MinutesOf;
    assert [] + [a] == [a] && [a] + [b] == [a, b] && [a, b] + [c] == [a, b, c];
    assert [] + MinutesOf(a.spans) == MinutesOf(a.spans);
    CarriedNone(symbol);
    CarriedSnoc([], a, symbol);
    CarriedSnoc([a], b, symbol);
    CarriedSnoc([a, b], c, symbol);
  }

  /** A gap over midnight is not cut there, and that can cost a request: three days at a time, days 0, 2 to 3 and 5 take three, not two. */
  lemma CuttingElsewhereCanSaveOne(s: string)
    ensures var rs := [Request(s, [Span(s, 0, 0)]), Request(s, [Span(s, 4_319, 4_320)]), Request(s, [Span(s, 7_200, 7_200)])];
      && Planned(rs, 3)
      && var other := [Window(s, 0), Window(s, 3)];
         forall i, m | 0 <= i < |rs| && m in MinutesOf(rs[i].spans) :: exists k | 0 <= k < |other| :: Opens(other[k], rs[i].symbol, m, 3)
  {
    hide Carried, MinutesOf;
    var a, b, c := Span(s, 0, 0), Span(s, 4_319, 4_320), Span(s, 7_200, 7_200);
    var rs := [Request(s, [a]), Request(s, [b]), Request(s, [c])];
    var other := [Window(s, 0), Window(s, 3)];
    forall symbol ensures Rising(Carried(rs, symbol)) {
      ThreeRequests(rs[0], rs[1], rs[2], symbol);
      OneSpan(a);
      OneSpan(b);
      OneSpan(c);
      FourMinutes();
    }
    forall i, m | 0 <= i < |rs| && m in MinutesOf(rs[i].spans)
      ensures exists k | 0 <= k < |other| :: Opens(other[k], rs[i].symbol, m, 3)
    {
      MinuteHasSpan(rs[i].spans, m);
      assert Opens(other[if m < 4_320 then 0 else 1], s, m, 3);
    }
  }

  lemma FourMinutes()
    ensures Rising(Range(0, 0) + Range(4_319, 4_320) + Range(7_200, 7_200)) && Rising([])
  {}

  lemma OneSpan(s: Span)
    ensures MinutesOf([s]) == Range(s.start, s.end)
  {
    MinutesOfNone();
    MinutesSnoc([], s);
    assert [] + [s] == [s] && [] + Range(s.start, s.end) == Range(s.start, s.end);
  }

  // ------------------------------------------------------- from gaps to requests

  lemma ApartSpansGoLast(spans: seq<Span>, s: Span)
    requires Apart(spans) && (spans != [] ==> spans[|spans| - 1].end + 1 < s.start)
    ensures InsertSpan(spans, s) == spans + [s]
  {}

  lemma {:induction false} ApartIsSorted(spans: seq<Span>)
    requires Apart(spans)
    ensures SortByStart(spans) == spans
  {
    if spans != [] {
      hide InsertSpan, Apart;
      var front, last := spans[..|spans| - 1], spans[|spans| - 1];
      assert spans == front + [last];
      ApartFront(front, last);
      ApartIsSorted(front);
      ApartSpansGoLast(front, last);
    }
  }

  lemma ApartIsDisjoint(spans: seq<Span>)
    requires Apart(spans)
    ensures Disjoint(spans) && WellFormed(spans)
  {}

  lemma NothingRises()
    ensures Rising([])
  {}

  /**
    A symbol's requests carry exactly its missing minutes: each expected minute that
    is neither stored nor settled once, in order, and nothing else.
   */
  method PlanMissing(symbol: string, expected: seq<int>, present: set<int>, settled: seq<Settled>, days: int)
    returns (requests: seq<Request>)
    requires Rising(expected) && days >= 1
    ensures AllFit(requests, days)
    ensures Carried(requests, symbol) == AllMissing(expected, present, settled)
    ensures forall other | other != symbol :: Carried(requests, other) == []
    ensures Planned(requests, days)
  {
    hide MinutesOf, Carried, OfSymbol, SortByStart, WithinDays, Packed, AllCut, Disjoint, Rising, Apart;
    var spans := MissingSpans(symbol, expected, present, settled);
    ApartIsDisjoint(spans);
    requests := PlanRequests(spans, days);
    AllOfSymbol(spans, symbol);
    ApartIsSorted(spans);
    NothingRises();
    forall other | other != symbol
      ensures Carried(requests, other) == []
    {
      NoSpansOf(spans, other);
      SortOfNone();
      MinutesOfNone();
    }
  }

  lemma {:induction false} AllOfSymbol(spans: seq<Span>, symbol: string)
    requires forall i | 0 <= i < |spans| :: spans[i].symbol == symbol
    ensures OfSymbol(spans, symbol) == spans
  {
    if spans != [] {
      AllOfSymbol(spans[..|spans| - 1], symbol);
    }
  }

  /** Each missing minute is asked for once. */
  lemma {:induction false} MissingIsRising(expected: seq<int>, present: set<int>, settled: seq<Settled>)
    requires Rising(expected)
    ensures Rising(AllMissing(expected, present, settled))
    ensures AllMissing(expected, present, settled) != [] ==>
      expected != [] && AllMissing(expected, present, settled)[|AllMissing(expected, present, settled)| - 1] <= expected[|expected| - 1]
  {
    if expected != [] {
      MissingIsRising(expected[..|expected| - 1], present, settled);
    }
  }
}
