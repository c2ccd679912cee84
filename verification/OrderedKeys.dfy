/** The keys of a finite set in ascending order. */
module OrderedKeys {
  lemma EmptyOrNot(s: set<int>)
    ensures s == {} || exists x :: x in s
  {
    if forall x: int :: x !in s {
      assert s == {};
    }
  }

  lemma HasLeast(s: set<int>)
    requires s != {}
    ensures exists x :: x in s && forall y | y in s :: x <= y
  {
    EmptyOrNot(s);
    var x :| x in s;
    if s - {x} != {} {
      HasLeast(s - {x});
      var m :| m in s - {x} && forall y | y in s - {x} :: m <= y;
      assert forall y | y in s :: y == x || y in s - {x};
      var least := if m < x then m else x;
      assert least in s;
    } else {
      assert forall y | y in s :: y == x by {
        forall y | y in s
          ensures y == x
        {
          assert y !in s - {x};
        }
      }
    }
  }

  predicate Rising(ts: seq<int>) { forall i, j | 0 <= i < j < |ts| :: ts[i] < ts[j] }

  predicate Lists(ts: seq<int>, s: set<int>) {
    && (forall i | 0 <= i < |ts| :: ts[i] in s)
    && (forall x | x in s :: x in ts)
  }

  /** The members of a set, smallest first. */
  function Ascend(s: set<int>): (r: seq<int>)
    ensures Rising(r) && |r| == |s| && Lists(r, s)
  {
    if s == {} then []
    else
      HasLeast(s);
      var x :| x in s && forall y | y in s :: x <= y;
      var rest := Ascend(s - {x});
      ConsLists(x, rest, s);
      [x] + rest
  }

  lemma ConsLists(x: int, rest: seq<int>, s: set<int>)
    requires x in s && (forall y | y in s :: x <= y) && Rising(rest) && Lists(rest, s - {x}) && |rest| == |s - {x}|
    ensures Rising([x] + rest) && Lists([x] + rest, s) && |[x] + rest| == |s|
  {
    var r := [x] + rest;
    assert |s - {x}| == |s| - 1;
    forall i | 0 < i < |r|
      ensures r[i] in s && x < r[i]
    {
      assert r[i] == rest[i - 1] && rest[i - 1] in s - {x};
    }
    forall y | y in s
      ensures y in r
    {
      if y == x {
        assert r[0] == x;
      } else {
        var i := PositionOf(rest, y);
        assert r[i + 1] == y;
      }
    }
  }

  lemma PositionOf(ts: seq<int>, x: int) returns (i: int)
    requires x in ts
    ensures 0 <= i < |ts| && ts[i] == x
  {
    i :| 0 <= i < |ts| && ts[i] == x;
  }
}
