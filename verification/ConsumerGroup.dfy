/**
  The consumer group on the tick log: a delivery cursor and a pending list in log
  order, each entry owned by one consumer until it is acknowledged. An entry is
  named by its position in the log. Each method is one atomic server command.
 */
module ConsumerGroup {
  import opened TickLog

  datatype Pending = Pending(pos: nat, owner: string)

  function Positions(pel: seq<Pending>): (r: seq<nat>)
    ensures |r| == |pel| && forall i | 0 <= i < |r| :: r[i] == pel[i].pos
  {
    seq(|pel|, i requires 0 <= i < |pel| => pel[i].pos)
  }

  /** One consumer's own pending positions, oldest first. */
  function Own(pel: seq<Pending>, owner: string): seq<nat> {
    if pel == [] then [] else
      (if pel[0].owner == owner then [pel[0].pos] else []) + Own(pel[1..], owner)
  }

  /** The group's pending positions at or after a cursor, whoever owns them. */
  function FromCursor(pel: seq<Pending>, cursor: nat): seq<nat> {
    if pel == [] then [] else
      (if pel[0].pos >= cursor then [pel[0].pos] else []) + FromCursor(pel[1..], cursor)
  }

  function FirstOf<T>(s: seq<T>, count: nat): seq<T> { if |s| <= count then s else s[..count] }

  function Reassign(pel: seq<Pending>, page: seq<nat>, owner: string): seq<Pending> {
    seq(|pel|, i requires 0 <= i < |pel| => if pel[i].pos in page then Pending(pel[i].pos, owner) else pel[i])
  }

  function Without(pel: seq<Pending>, acked: seq<nat>): seq<Pending> {
    if pel == [] then [] else
      (if pel[0].pos in acked then [] else [pel[0]]) + Without(pel[1..], acked)
  }

  function Deliver(from: nat, n: nat, owner: string): seq<Pending> {
    seq(n, i requires 0 <= i < n => Pending(from + i, owner))
  }

  function Range(from: nat, n: nat): seq<nat> { seq(n, i requires 0 <= i < n => from + i) }

  class Group {
    var log: seq<Entry>
    var delivered: nat
    var pel: seq<Pending>

    constructor ()
      ensures log == [] && delivered == 0 && pel == []
    {
      log, delivered, pel := [], 0, [];
    }

    method ReadOwn(owner: string, count: nat) returns (page: seq<nat>)
      ensures page == FirstOf(Own(pel, owner), count)
    {
      page := FirstOf(Own(pel, owner), count);
    }

    method AutoClaim(owner: string, cursor: nat, count: nat) returns (page: seq<nat>)
      modifies this`pel
      ensures page == FirstOf(FromCursor(old(pel), cursor), count)
      ensures pel == Reassign(old(pel), page, owner)
    {
      page := FirstOf(FromCursor(pel, cursor), count);
      pel := Reassign(pel, page, owner);
    }

    method ReadNew(owner: string, n: nat) returns (page: seq<nat>)
      requires delivered + n <= |log|
      modifies this`pel, this`delivered
      ensures page == Range(old(delivered), n)
      ensures pel == old(pel) + Deliver(old(delivered), n, owner) && delivered == old(delivered) + n
    {
      page := Range(delivered, n);
      pel := pel + Deliver(delivered, n, owner);
      delivered := delivered + n;
    }

    method Ack(page: seq<nat>)
      modifies this`pel
      ensures pel == Without(old(pel), page)
    {
      pel := Without(pel, page);
    }
  }

  // ------------------------------------------------- a pending list in order

  /** The list covers a stretch of the log without holes. */
  ghost predicate Contiguous(pel: seq<Pending>, from: nat) {
    forall i | 0 <= i < |pel| :: pel[i].pos == from + i
  }

  lemma PositionsCover(pel: seq<Pending>, from: nat)
    requires Contiguous(pel, from)
    ensures forall p :: p in Positions(pel) <==> from <= p < from + |pel|
  {
    forall p | from <= p < from + |pel| ensures p in Positions(pel) {
      assert Positions(pel)[p - from] == p;
    }
  }

  lemma {:induction false} OwnPrefix(pel: seq<Pending>, owner: string, m: nat)
    requires m <= |pel|
    requires forall i | 0 <= i < m :: pel[i].owner == owner
    requires forall i | m <= i < |pel| :: pel[i].owner != owner
    ensures Own(pel, owner) == Positions(pel[..m])
  {
    if pel != [] {
      if m == 0 {
        OwnPrefix(pel[1..], owner, 0);
        assert Positions(pel[..0]) == [];
      } else {
        OwnPrefix(pel[1..], owner, m - 1);
        assert Positions(pel[..m]) == [pel[0].pos] + Positions(pel[1..][..m - 1]);
      }
    }
  }

  lemma PositionsOfNone()
    ensures Positions([]) == []
  {}

  lemma ContiguousTail(pel: seq<Pending>, from: nat)
    requires Contiguous(pel, from) && pel != []
    ensures Contiguous(pel[1..], from + 1) && pel[0].pos == from
    ensures Positions(pel) == [pel[0].pos] + Positions(pel[1..])
  {
    assert forall i | 0 <= i < |pel[1..]| :: pel[1..][i] == pel[i + 1];
  }

  lemma {:induction false} FromCursorSuffix(pel: seq<Pending>, from: nat, cursor: nat)
    requires Contiguous(pel, from)
    ensures FromCursor(pel, cursor) ==
      if cursor <= from then Positions(pel)
      else if from + |pel| <= cursor then []
      else Positions(pel[cursor - from..])
  {
    hide Contiguous, Positions;
    if pel == [] {
      PositionsOfNone();
    } else {
      ContiguousTail(pel, from);
      FromCursorSuffix(pel[1..], from + 1, cursor);
      if from < cursor < from + |pel| {
        assert pel[1..][cursor - from - 1..] == pel[cursor - from..];
      }
    }
  }

  lemma {:induction false} WithoutPrefix(pel: seq<Pending>, m: nat, acked: seq<nat>)
    requires m <= |pel|
    requires forall i | 0 <= i < |pel| :: pel[i].pos in acked <==> i < m
    ensures Without(pel, acked) == pel[m..]
  {
    if pel != [] {
      var tail := pel[1..];
      assert forall i | 0 <= i < |tail| :: tail[i] == pel[i + 1];
      if m == 0 {
        WithoutPrefix(tail, 0, acked);
      } else {
        WithoutPrefix(tail, m - 1, acked);
        assert tail[m - 1..] == pel[m..];
      }
    }
  }
}
