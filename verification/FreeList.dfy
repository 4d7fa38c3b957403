/** The allocator's blocks as values: a free list in list order, the merging of neighbours that
    follow each other both in the list and in the pool, and the bytes a list covers. */
module FreeList {

  /** `size` bytes from offset `off` of the pool, header included. */
  datatype Block = Block(off: nat, size: nat) {
    function End(): nat {
      off + size
    }
  }

  const POOL_SIZE: nat := 32768
  const HEADER: nat := 8

  ghost predicate Inside(x: int, b: Block) {
    b.off <= x < b.End()
  }

  ghost predicate Apart(b: Block, c: Block) {
    b.End() <= c.off || c.End() <= b.off
  }

  ghost predicate Within(b: Block, c: Block) {
    c.off <= b.off && b.End() <= c.End()
  }

  /** A block the allocator can hold: on 8-byte boundaries, not empty, inside the pool. */
  ghost predicate BlockOk(b: Block) {
    b.off % 8 == 0 && b.size % 8 == 0 && 0 < b.size && b.End() <= POOL_SIZE
  }

  ghost predicate ListOk(s: seq<Block>) {
    && (forall i :: 0 <= i < |s| ==> BlockOk(s[i]))
    && (forall i, j :: 0 <= i < j < |s| ==> Apart(s[i], s[j]))
  }

  /** Byte x is in some block of the list. */
  ghost predicate Covers(s: seq<Block>, x: int) {
    exists i :: 0 <= i < |s| && Inside(x, s[i])
  }

  /** Every block of s lies inside one block of r. */
  ghost predicate Absorbed(s: seq<Block>, r: seq<Block>) {
    forall i :: 0 <= i < |s| ==> Holds(r, s[i])
  }

  ghost predicate Holds(r: seq<Block>, b: Block) {
    exists j :: 0 <= j < |r| && Within(b, r[j])
  }

  function Merged(b: Block, c: Block): Block {
    Block(b.off, b.size + c.size)
  }

  /** _coalesce_forward. */
  function Coalesce(s: seq<Block>): (r: seq<Block>)
    ensures |r| <= |s|
    decreases |s|
  {
    if |s| < 2 then s
    else if s[0].End() == s[1].off then Coalesce([Merged(s[0], s[1])] + s[2..])
    else [s[0]] + Coalesce(s[1..])
  }

  // ---------------------------------------------------------------- joining the first two blocks

  lemma JoinOk(s: seq<Block>)
    requires ListOk(s) && |s| >= 2 && s[0].End() == s[1].off
    ensures ListOk([Merged(s[0], s[1])] + s[2..])
  {
    var r := [Merged(s[0], s[1])] + s[2..];
    assert forall i :: 1 <= i < |r| ==> r[i] == s[i + 1];
  }

  lemma JoinCovers(s: seq<Block>, x: int)
    requires |s| >= 2 && s[0].End() == s[1].off
    ensures Covers([Merged(s[0], s[1])] + s[2..], x) <==> Covers(s, x)
  {
    var r := [Merged(s[0], s[1])] + s[2..];
    assert forall i :: 1 <= i < |r| ==> r[i] == s[i + 1];
    assert Inside(x, r[0]) <==> Inside(x, s[0]) || Inside(x, s[1]);
    if Covers(s, x) {
      var i :| 0 <= i < |s| && Inside(x, s[i]);
      assert Inside(x, r[if i < 2 then 0 else i - 1]);
    }
  }

  lemma JoinAbsorbs(s: seq<Block>)
    requires |s| >= 2 && s[0].End() == s[1].off
    ensures Absorbed(s, [Merged(s[0], s[1])] + s[2..])
  {
    var r := [Merged(s[0], s[1])] + s[2..];
    forall i | 0 <= i < |s|
      ensures Holds(r, s[i])
    {
      assert Within(s[i], r[if i < 2 then 0 else i - 1]);
    }
  }

  // ---------------------------------------------------------------- taking the head off and on

  lemma CoversCons(b: Block, s: seq<Block>, x: int)
    ensures Covers([b] + s, x) <==> Inside(x, b) || Covers(s, x)
  {
    var r := [b] + s;
    assert r[0] == b;
    if Covers(s, x) {
      var i :| 0 <= i < |s| && Inside(x, s[i]);
      assert r[i + 1] == s[i];
    }
    if Covers(r, x) && !Inside(x, b) {
      var i :| 0 <= i < |r| && Inside(x, r[i]);
      assert r[i] == s[i - 1];
    }
  }

  lemma TailOk(s: seq<Block>)
    requires ListOk(s) && s != []
    ensures ListOk(s[1..])
  {
  }

  /** Blocks apart share no byte, and the other way round for blocks that are not empty. */
  lemma ApartFromAll(b: Block, s: seq<Block>)
    requires BlockOk(b) && (forall i :: 0 <= i < |s| ==> BlockOk(s[i]))
    ensures (forall i :: 0 <= i < |s| ==> Apart(b, s[i])) <==> (forall x :: Inside(x, b) ==> !Covers(s, x))
  {
    if forall x :: Inside(x, b) ==> !Covers(s, x) {
      forall i | 0 <= i < |s|
        ensures Apart(b, s[i])
      {
        if !Apart(b, s[i]) {
          var x := if b.off <= s[i].off then s[i].off else b.off;
          assert Inside(x, b) && Inside(x, s[i]);
          assert false;
        }
      }
    }
  }

  lemma ConsOk(b: Block, s: seq<Block>)
    requires BlockOk(b) && ListOk(s) && (forall x :: Inside(x, b) ==> !Covers(s, x))
    ensures ListOk([b] + s)
  {
    ApartFromAll(b, s);
    var r := [b] + s;
    assert forall i :: 1 <= i < |r| ==> r[i] == s[i - 1];
  }

  lemma HeadApart(s: seq<Block>, x: int)
    requires ListOk(s) && s != [] && Inside(x, s[0])
    ensures !Covers(s[1..], x)
  {
    assert forall i :: 0 <= i < |s[1..]| ==> s[1..][i] == s[i + 1];
  }

  lemma AbsorbedTrans(a: seq<Block>, b: seq<Block>, c: seq<Block>)
    requires Absorbed(a, b) && Absorbed(b, c)
    ensures Absorbed(a, c)
  {
    forall i | 0 <= i < |a|
      ensures Holds(c, a[i])
    {
      assert Holds(b, a[i]);
      var j :| 0 <= j < |b| && Within(a[i], b[j]);
      assert Holds(c, b[j]);
      var l :| 0 <= l < |c| && Within(b[j], c[l]);
      assert Within(a[i], c[l]);
    }
  }

  lemma AbsorbedCons(b: Block, s: seq<Block>, r: seq<Block>)
    requires Absorbed(s, r)
    ensures Absorbed([b] + s, [b] + r)
  {
    var s', r' := [b] + s, [b] + r;
    forall i | 0 <= i < |s'|
      ensures Holds(r', s'[i])
    {
      if i == 0 {
        assert Within(s'[0], r'[0]);
      } else {
        assert Holds(r, s[i - 1]);
        var j :| 0 <= j < |r| && Within(s[i - 1], r[j]);
        assert Within(s'[i], r'[j + 1]);
      }
    }
  }

  // ---------------------------------------------------------------- what merging keeps

  lemma {:induction false} CoalesceCovers(s: seq<Block>, x: int)
    ensures Covers(Coalesce(s), x) <==> Covers(s, x)
    decreases |s|
  {
    if |s| >= 2 {
      if s[0].End() == s[1].off {
        JoinCovers(s, x);
        CoalesceCovers([Merged(s[0], s[1])] + s[2..], x);
      } else {
        CoalesceCovers(s[1..], x);
        CoversCons(s[0], Coalesce(s[1..]), x);
        CoversCons(s[0], s[1..], x);
        assert s == [s[0]] + s[1..];
      }
    }
  }

  lemma {:induction false} CoalesceOk(s: seq<Block>)
    requires ListOk(s)
    ensures ListOk(Coalesce(s))
    decreases |s|
  {
    if |s| >= 2 {
      if s[0].End() == s[1].off {
        JoinOk(s);
        CoalesceOk([Merged(s[0], s[1])] + s[2..]);
      } else {
        TailOk(s);
        CoalesceOk(s[1..]);
        forall x | Inside(x, s[0])
          ensures !Covers(Coalesce(s[1..]), x)
        {
          HeadApart(s, x);
          CoalesceCovers(s[1..], x);
        }
        ConsOk(s[0], Coalesce(s[1..]));
      }
    }
  }

  lemma {:induction false} CoalesceAbsorbs(s: seq<Block>)
    ensures Absorbed(s, Coalesce(s))
    decreases |s|
  {
    if |s| < 2 {
      forall i | 0 <= i < |s|
        ensures Holds(s, s[i])
      {
        assert Within(s[i], s[i]);
      }
    } else if s[0].End() == s[1].off {
      var r := [Merged(s[0], s[1])] + s[2..];
      JoinAbsorbs(s);
      CoalesceAbsorbs(r);
      AbsorbedTrans(s, r, Coalesce(r));
    } else {
      CoalesceAbsorbs(s[1..]);
      AbsorbedCons(s[0], s[1..], Coalesce(s[1..]));
      assert s == [s[0]] + s[1..];
    }
  }

  /** The head of the list stays where it is and only grows. */
  lemma {:induction false} CoalesceHead(s: seq<Block>)
    requires s != []
    ensures Coalesce(s) != [] && Coalesce(s)[0].off == s[0].off && s[0].size <= Coalesce(s)[0].size
    decreases |s|
  {
    if |s| >= 2 && s[0].End() == s[1].off {
      CoalesceHead([Merged(s[0], s[1])] + s[2..]);
    }
  }

  lemma {:induction false} CoalesceStart(s: seq<Block>, i: nat) returns (p: nat)
    requires i < |Coalesce(s)|
    ensures p < |s| && s[p].off == Coalesce(s)[i].off
    decreases |s|
  {
    if |s| < 2 {
      p := i;
    } else if s[0].End() == s[1].off {
      p := CoalesceStart([Merged(s[0], s[1])] + s[2..], i);
      p := if p == 0 then 0 else p + 1;
    } else if i == 0 {
      p := 0;
    } else {
      p := CoalesceStart(s[1..], i - 1);
      p := p + 1;
    }
  }

  /** Each block begins where a block of the list began, and they follow each other as those did. */
  lemma {:induction false} CoalesceKeepsOrder(s: seq<Block>, i: nat, j: nat) returns (p: nat, q: nat)
    requires i < j < |Coalesce(s)|
    ensures p < q < |s| && s[p].off == Coalesce(s)[i].off && s[q].off == Coalesce(s)[j].off
    decreases |s|
  {
    if s[0].End() == s[1].off {
      p, q := CoalesceKeepsOrder([Merged(s[0], s[1])] + s[2..], i, j);
      p, q := if p == 0 then 0 else p + 1, q + 1;
    } else if i == 0 {
      q := CoalesceStart(s[1..], j - 1);
      p, q := 0, q + 1;
    } else {
      p, q := CoalesceKeepsOrder(s[1..], i - 1, j - 1);
      p, q := p + 1, q + 1;
    }
  }

  /** No list neighbours are left that are also neighbours in the pool, in that order. */
  lemma {:induction false} CoalesceIsComplete(s: seq<Block>, i: nat)
    requires i + 1 < |Coalesce(s)|
    ensures Coalesce(s)[i].End() != Coalesce(s)[i + 1].off
    decreases |s|
  {
    if s[0].End() == s[1].off {
      CoalesceIsComplete([Merged(s[0], s[1])] + s[2..], i);
    } else if i > 0 {
      CoalesceIsComplete(s[1..], i - 1);
    } else {
      CoalesceHead(s[1..]);
    }
  }
}
