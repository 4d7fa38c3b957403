/** The allocator in its own form: block headers inside a pool of 32-bit words, threaded into a free
    list and edited in place. */
module HeapPool {
  import opened Types
  import opened FreeList
  import opened HeapModel

  const WORDS: nat := 8192

  type Words = w: seq<nat> | |w| == WORDS witness seq(WORDS, _ => 0)

  /** A block starts on an 8-byte boundary and its 8-byte header is inside the pool. */
  predicate HeaderAt(off: nat) {
    off % 8 == 0 && off + HEADER <= POOL_SIZE
  }

  // A header is two words: the size, then the link.

  function SizeAt(w: Words, off: nat): nat
    requires HeaderAt(off)
  {
    w[off / 4]
  }

  function LinkAt(w: Words, off: nat): Addr
    requires HeaderAt(off)
  {
    w[off / 4 + 1]
  }

  function SetSize(w: Words, off: nat, size: nat): (r: Words)
    requires HeaderAt(off)
    ensures forall p: nat :: HeaderAt(p) ==> SizeAt(r, p) == if p == off then size else SizeAt(w, p)
    ensures forall p: nat :: HeaderAt(p) ==> LinkAt(r, p) == LinkAt(w, p)
  {
    w[off / 4 := size]
  }

  function SetLink(w: Words, off: nat, link: Addr): (r: Words)
    requires HeaderAt(off)
    ensures forall p: nat :: HeaderAt(p) ==> LinkAt(r, p) == if p == off then link else LinkAt(w, p)
    ensures forall p: nat :: HeaderAt(p) ==> SizeAt(r, p) == SizeAt(w, p)
  {
    w[off / 4 + 1 := link]
  }

  function AddrAt(base: Addr, free: seq<Block>, i: nat): Addr {
    if i < |free| then base + free[i].off else NULL
  }

  /** Every header is a place of its own. */
  ghost predicate HeadersApart(h: Heap) {
    && (forall i :: 0 <= i < |h.free| ==> HeaderAt(h.free[i].off))
    && (forall i, j :: 0 <= i < j < |h.free| ==> h.free[i].off != h.free[j].off)
    && (forall o :: o in h.live ==> HeaderAt(o))
    && (forall i :: 0 <= i < |h.free| ==> h.free[i].off !in h.live)
  }

  /** The links spell out the free list. */
  ghost predicate Chained(w: Words, base: Addr, head: Addr, free: seq<Block>) {
    && (forall i :: 0 <= i < |free| ==> HeaderAt(free[i].off))
    && head == AddrAt(base, free, 0)
    && (forall i {:trigger LinkAt(w, free[i].off)} ::
          0 <= i < |free| ==> LinkAt(w, free[i].off) == AddrAt(base, free, i + 1))
  }

  /** Each header holds the size of its block. */
  ghost predicate Sized(w: Words, h: Heap) {
    && (forall i :: 0 <= i < |h.free| ==> HeaderAt(h.free[i].off) && SizeAt(w, h.free[i].off) == h.free[i].size)
    && (forall o :: o in h.live ==> HeaderAt(o) && SizeAt(w, o) == h.live[o])
  }

  ghost predicate Linked(w: Words, base: Addr, head: Addr, h: Heap) {
    HeadersApart(h) && Chained(w, base, head, h.free) && Sized(w, h)
  }

  lemma TilingHasHeaders(h: Heap)
    requires HeapOk(h)
    ensures HeadersApart(h)
  {
    forall i | 0 <= i < |h.free|
      ensures HeaderAt(h.free[i].off) && h.free[i].off !in h.live
    {
      assert BlockOk(h.free[i]);
      FreeIsNotLive(h, i);
    }
    forall i, j | 0 <= i < j < |h.free|
      ensures h.free[i].off != h.free[j].off
    {
      assert BlockOk(h.free[i]) && BlockOk(h.free[j]) && Apart(h.free[i], h.free[j]);
    }
    forall o | o in h.live
      ensures HeaderAt(o)
    {
      assert BlockOk(Block(o, h.live[o]));
    }
  }

  // ---------------------------------------------------------------- one edit of the headers each

  lemma AddrCons(base: Addr, b: Block, free: seq<Block>)
    ensures AddrAt(base, [b] + free, 0) == base + b.off
    ensures forall j: nat :: AddrAt(base, [b] + free, j + 1) == AddrAt(base, free, j)
  {
  }

  lemma AddrDrop(base: Addr, free: seq<Block>, i: nat)
    requires i < |free|
    ensures forall j: nat :: AddrAt(base, Drop(free, i), j) == AddrAt(base, free, if j < i then j else j + 1)
  {
  }

  lemma AddrJoin(base: Addr, free: seq<Block>, i: nat)
    requires i + 1 < |free|
    ensures forall j: nat :: AddrAt(base, JoinedAt(free, i), j) == AddrAt(base, free, if j <= i then j else j + 1)
  {
  }

  lemma PrependChained(w: Words, base: Addr, head: Addr, free: seq<Block>, b: Block)
    requires Chained(w, base, head, free) && HeaderAt(b.off)
    requires forall i :: 0 <= i < |free| ==> free[i].off != b.off
    ensures Chained(SetLink(w, b.off, head), base, base + b.off, [b] + free)
  {
    hide HeaderAt, SizeAt, LinkAt, SetLink, AddrAt;
    AddrCons(base, b, free);
    var free' := [b] + free;
    forall j | 0 <= j < |free'|
      ensures HeaderAt(free'[j].off) && LinkAt(SetLink(w, b.off, head), free'[j].off) == AddrAt(base, free', j + 1)
    {
      assert j > 0 ==> free'[j] == free[j - 1];
    }
  }

  lemma PrependApart(h: Heap, off: nat)
    requires HeadersApart(h) && off in h.live
    ensures HeadersApart(Heap([Block(off, h.live[off])] + h.free, h.live - {off}))
  {
    hide HeaderAt;
    var free := [Block(off, h.live[off])] + h.free;
    assert forall i :: 1 <= i < |free| ==> free[i] == h.free[i - 1];
  }

  lemma PrependSized(w: Words, h: Heap, off: nat)
    requires Sized(w, h) && off in h.live
    ensures Sized(w, Heap([Block(off, h.live[off])] + h.free, h.live - {off}))
  {
    hide HeaderAt, SizeAt;
    var free := [Block(off, h.live[off])] + h.free;
    assert forall i :: 1 <= i < |free| ==> free[i] == h.free[i - 1];
  }

  /** A block in use becomes the first of the free list. */
  lemma PrependLinked(w: Words, base: Addr, head: Addr, h: Heap, off: nat)
    requires Linked(w, base, head, h) && off in h.live
    ensures HeaderAt(off)
    ensures Linked(SetLink(w, off, head), base, base + off, Heap([Block(off, h.live[off])] + h.free, h.live - {off}))
  {
    hide HeaderAt, Chained, Sized, SetLink;
    PrependApart(h, off);
    PrependChained(w, base, head, h.free, Block(off, h.live[off]));
    PrependSized(w, h, off);
    SizedKept(w, Heap([Block(off, h.live[off])] + h.free, h.live - {off}), off, head);
  }

  lemma RemoveApart(h: Heap, i: nat)
    requires HeadersApart(h) && i < |h.free|
    ensures HeadersApart(Heap(Drop(h.free, i), h.live[h.free[i].off := h.free[i].size]))
  {
    hide HeaderAt;
    DropAt(h.free, i);
  }

  lemma RemoveSized(w: Words, h: Heap, i: nat)
    requires Sized(w, h) && i < |h.free|
    ensures Sized(w, Heap(Drop(h.free, i), h.live[h.free[i].off := h.free[i].size]))
  {
    hide HeaderAt, SizeAt;
    DropAt(h.free, i);
  }

  /** A link written does not change a size. */
  lemma SizedKept(w: Words, h: Heap, off: nat, link: Addr)
    requires Sized(w, h) && HeaderAt(off)
    ensures Sized(SetLink(w, off, link), h)
  {
    hide HeaderAt, SizeAt, LinkAt, SetLink;
  }

  lemma RemoveChained(w: Words, base: Addr, head: Addr, h: Heap, i: nat)
    requires HeadersApart(h) && Chained(w, base, head, h.free) && i < |h.free|
    ensures var off := h.free[i].off;
      && (i > 0 ==> HeaderAt(h.free[i - 1].off))
      && Chained(SetLink(if i == 0 then w else SetLink(w, h.free[i - 1].off, LinkAt(w, off)), off, NULL),
                 base, if i == 0 then LinkAt(w, off) else head, Drop(h.free, i))
  {
    hide HeaderAt, SizeAt, LinkAt, SetLink, Drop, AddrAt;
    AddrDrop(base, h.free, i);
    var off, free := h.free[i].off, Drop(h.free, i);
    var w1 := if i == 0 then w else SetLink(w, h.free[i - 1].off, LinkAt(w, off));
    DropAt(h.free, i);
    forall j | 0 <= j < |free|
      ensures HeaderAt(free[j].off) && LinkAt(SetLink(w1, off, NULL), free[j].off) == AddrAt(base, free, j + 1)
    {
      var l := if j < i then j else j + 1;
      assert h.free[l].off != off;
      assert j + 1 != i ==> LinkAt(w1, h.free[l].off) == LinkAt(w, h.free[l].off);
    }
  }

  /** Block i leaves the free list; its header keeps its size. */
  lemma RemoveLinked(w: Words, base: Addr, head: Addr, h: Heap, i: nat)
    requires Linked(w, base, head, h) && i < |h.free|
    ensures var off := h.free[i].off;
      && HeaderAt(off) && (i > 0 ==> HeaderAt(h.free[i - 1].off))
      && Linked(SetLink(if i == 0 then w else SetLink(w, h.free[i - 1].off, LinkAt(w, off)), off, NULL),
                base, if i == 0 then LinkAt(w, off) else head, Heap(Drop(h.free, i), h.live[off := h.free[i].size]))
  {
    assert HeaderAt(h.free[i].off) && (i > 0 ==> HeaderAt(h.free[i - 1].off));
    hide HeaderAt, SizeAt, LinkAt, SetLink, Drop, Sized, Chained, HeadersApart;
    var off := h.free[i].off;
    var h' := Heap(Drop(h.free, i), h.live[off := h.free[i].size]);
    RemoveApart(h, i);
    RemoveChained(w, base, head, h, i);
    RemoveSized(w, h, i);
    if i == 0 {
      SizedKept(w, h', off, NULL);
    } else {
      SizedKept(w, h', h.free[i - 1].off, LinkAt(w, off));
      SizedKept(SetLink(w, h.free[i - 1].off, LinkAt(w, off)), h', off, NULL);
    }
  }

  /** The two headers written when the block at off is cut after `total` bytes. */
  function CutWords(w: Words, off: nat, total: nat, left: nat): Words
    requires HeaderAt(off) && HeaderAt(off + total)
  {
    SetSize(SetLink(SetSize(w, off + total, left), off + total, NULL), off, total)
  }

  function CutLive(live: map<nat, nat>, off: nat, total: nat): map<nat, nat>
    requires off in live && total <= live[off]
  {
    live[off + total := live[off] - total][off := total]
  }

  lemma CutSized(w: Words, h: Heap, off: nat, total: nat)
    requires Sized(w, h) && off in h.live && total <= h.live[off] && HeaderAt(off + total)
    requires forall i :: 0 <= i < |h.free| ==> h.free[i].off != off && h.free[i].off != off + total
    ensures HeaderAt(off)
    ensures Sized(CutWords(w, off, total, h.live[off] - total), Heap(h.free, CutLive(h.live, off, total)))
  {
    hide HeaderAt, SizeAt, LinkAt, SetLink, SetSize;
  }

  lemma CutChained(w: Words, base: Addr, head: Addr, free: seq<Block>, off: nat, total: nat, left: nat)
    requires Chained(w, base, head, free) && HeaderAt(off) && HeaderAt(off + total)
    requires forall i :: 0 <= i < |free| ==> free[i].off != off + total
    ensures Chained(CutWords(w, off, total, left), base, head, free)
  {
    hide HeaderAt, SizeAt, LinkAt, SetLink, SetSize, AddrAt;
  }

  lemma CutApart(h: Heap, off: nat, total: nat)
    requires HeadersApart(h) && off in h.live && total <= h.live[off]
    requires HeaderAt(off + total) && forall i :: 0 <= i < |h.free| ==> h.free[i].off != off + total
    ensures HeadersApart(Heap(h.free, CutLive(h.live, off, total)))
  {
    hide HeaderAt;
  }

  /** The block at off is cut in two, each with a header. */
  lemma CutLinked(w: Words, base: Addr, head: Addr, h: Heap, off: nat, total: nat)
    requires Linked(w, base, head, h) && off in h.live && total <= h.live[off] && HeaderAt(off + total)
    requires forall i :: 0 <= i < |h.free| ==> h.free[i].off != off + total
    ensures HeaderAt(off)
    ensures Linked(CutWords(w, off, total, h.live[off] - total), base, head, Heap(h.free, CutLive(h.live, off, total)))
  {
    hide HeaderAt, Chained, Sized, CutWords;
    CutApart(h, off, total);
    CutChained(w, base, head, h.free, off, total, h.live[off] - total);
    CutSized(w, h, off, total);
  }

  function JoinedAt(s: seq<Block>, i: nat): seq<Block>
    requires i + 1 < |s|
  {
    s[..i] + [Merged(s[i], s[i + 1])] + s[i + 2..]
  }

  lemma JoinedIs(s: seq<Block>, i: nat)
    requires i + 1 < |s|
    ensures |JoinedAt(s, i)| == |s| - 1 && JoinedAt(s, i)[i] == Merged(s[i], s[i + 1])
    ensures forall j :: 0 <= j < |s| - 1 && j != i ==> JoinedAt(s, i)[j] == s[if j < i then j else j + 1]
  {
  }

  /** The header written when the block at b takes in the next block of the list, at c. */
  function JoinWords(w: Words, b: nat, c: nat): Words
    requires HeaderAt(b) && HeaderAt(c)
  {
    SetLink(SetSize(w, b, SizeAt(w, b) + SizeAt(w, c)), b, LinkAt(w, c))
  }

  lemma JoinApart(h: Heap, i: nat)
    requires HeadersApart(h) && i + 1 < |h.free|
    ensures HeadersApart(Heap(JoinedAt(h.free, i), h.live))
  {
    hide HeaderAt, JoinedAt;
    JoinedIs(h.free, i);
    var free := JoinedAt(h.free, i);
    assert forall j :: 0 <= j < |free| ==> free[j].off == h.free[if j <= i then j else j + 1].off;
  }

  lemma JoinSized(w: Words, h: Heap, i: nat)
    requires Sized(w, h) && HeadersApart(h) && i + 1 < |h.free|
    ensures HeaderAt(h.free[i].off) && HeaderAt(h.free[i + 1].off)
    ensures Sized(JoinWords(w, h.free[i].off, h.free[i + 1].off), Heap(JoinedAt(h.free, i), h.live))
  {
    hide HeaderAt, SizeAt, LinkAt, SetLink, SetSize, JoinedAt;
    JoinedIs(h.free, i);
  }

  lemma JoinChained(w: Words, base: Addr, head: Addr, h: Heap, i: nat)
    requires Chained(w, base, head, h.free) && HeadersApart(h) && i + 1 < |h.free|
    ensures HeaderAt(h.free[i].off) && HeaderAt(h.free[i + 1].off)
    ensures Chained(JoinWords(w, h.free[i].off, h.free[i + 1].off), base, head, JoinedAt(h.free, i))
  {
    hide HeaderAt, SizeAt, LinkAt, SetLink, SetSize, JoinedAt, AddrAt;
    JoinedIs(h.free, i);
    AddrJoin(base, h.free, i);
    var free, w' := JoinedAt(h.free, i), JoinWords(w, h.free[i].off, h.free[i + 1].off);
    forall j | 0 <= j < |free|
      ensures HeaderAt(free[j].off) && LinkAt(w', free[j].off) == AddrAt(base, free, j + 1)
    {
      if j != i {
        var l := if j < i then j else j + 1;
        assert free[j] == h.free[l] && h.free[l].off != h.free[i].off;
      }
    }
  }

  /** Block i takes in the block after it. */
  lemma JoinLinked(w: Words, base: Addr, head: Addr, h: Heap, i: nat)
    requires Linked(w, base, head, h) && i + 1 < |h.free|
    ensures HeaderAt(h.free[i].off) && HeaderAt(h.free[i + 1].off)
    ensures Linked(JoinWords(w, h.free[i].off, h.free[i + 1].off), base, head, Heap(JoinedAt(h.free, i), h.live))
  {
    hide HeaderAt, Chained, Sized, HeadersApart, JoinWords;
    JoinApart(h, i);
    JoinChained(w, base, head, h, i);
    JoinSized(w, h, i);
  }

  lemma CoalesceUnfolds(t: seq<Block>)
    requires |t| >= 2
    ensures t[0].End() == t[1].off ==> Coalesce(t) == Coalesce([Merged(t[0], t[1])] + t[2..])
    ensures t[0].End() != t[1].off ==> Coalesce(t) == [t[0]] + Coalesce(t[1..])
  {
  }

  /** Merging at position i is a step of the merging from position i on. */
  lemma CoalesceStep(s: seq<Block>, i: nat)
    requires i + 1 < |s|
    ensures s[i].End() == s[i + 1].off ==>
      JoinedAt(s, i)[..i] + Coalesce(JoinedAt(s, i)[i..]) == s[..i] + Coalesce(s[i..])
    ensures s[i].End() != s[i + 1].off ==> s[..i + 1] + Coalesce(s[i + 1..]) == s[..i] + Coalesce(s[i..])
  {
    hide Coalesce;
    var t := s[i..];
    CoalesceUnfolds(t);
    assert t[1..] == s[i + 1..] && t[2..] == s[i + 2..];
    if s[i].End() == s[i + 1].off {
      assert JoinedAt(s, i)[i..] == [Merged(t[0], t[1])] + t[2..];
      assert JoinedAt(s, i)[..i] == s[..i];
    } else {
      assert s[..i + 1] == s[..i] + [t[0]];
    }
  }

  lemma CoalesceEnd(s: seq<Block>, i: nat)
    requires i <= |s| <= i + 1
    ensures s[..i] + Coalesce(s[i..]) == s
  {
  }

  lemma HeadAddress(w: Words, base: Addr, head: Addr, h: Heap)
    requires Linked(w, base, head, h)
    ensures head == AddrAt(base, h.free, 0)
  {
  }

  lemma LiveSize(w: Words, base: Addr, head: Addr, h: Heap, off: nat)
    requires Linked(w, base, head, h) && off in h.live
    ensures HeaderAt(off) && SizeAt(w, off) == h.live[off]
  {
  }

  /** What a walk reads at block i. */
  lemma ListAddresses(w: Words, base: Addr, head: Addr, h: Heap, i: nat)
    requires Linked(w, base, head, h) && i < |h.free|
    ensures HeaderAt(h.free[i].off) && SizeAt(w, h.free[i].off) == h.free[i].size
    ensures LinkAt(w, h.free[i].off) == AddrAt(base, h.free, i + 1)
    ensures i + 1 < |h.free| ==> HeaderAt(h.free[i + 1].off) && SizeAt(w, h.free[i + 1].off) == h.free[i + 1].size
  {
  }

  /** Cutting a block in use puts the new header where no free block has one. */
  lemma CutIsClear(h: Heap, off: nat, total: nat)
    requires HeapOk(h) && off in h.live && total % 8 == 0 && total + HEADER + 8 <= h.live[off]
    ensures HeaderAt(off) && HeaderAt(off + total) && (total > 0 ==> off + total !in h.live)
    ensures forall i :: 0 <= i < |h.free| ==> h.free[i].off != off + total
  {
    hide ListOk, LiveOk;
    var b := Block(off, h.live[off]);
    LiveMember(h.live, off);
    LiveAlone(h.live, off, off + total);
    if total > 0 && off + total in h.live {
      LiveMember(h.live, off + total);
      assert false;
    }
    forall i | 0 <= i < |h.free|
      ensures h.free[i].off != off + total
    {
      ListMember(h.free, i);
      MemberCovers(h.free, i, h.free[i].off);
    }
  }

  lemma LiveMember(live: map<nat, nat>, o: nat)
    requires LiveOk(live) && o in live
    ensures BlockOk(Block(o, live[o])) && Inside(o, Block(o, live[o]))
  {
  }

  /** Taking a whole block off the free list is what a grant without a remainder does. */
  lemma RemoveKeepsHeap(h: Heap, i: nat)
    requires HeapOk(h) && i < |h.free|
    ensures HeapOk(Heap(Drop(h.free, i), h.live[h.free[i].off := h.free[i].size]))
  {
    var b := h.free[i];
    FreeIsNotLive(h, i);
    DropOk(h.free, i);
    var h' := Heap(Drop(h.free, i), h.live[b.off := b.size]);
    forall x
      ensures Covers(h'.free, x) <==> Covers(h.free, x) && !Inside(x, b)
      ensures LiveCovers(h'.live, x) <==> LiveCovers(h.live, x) || Inside(x, b)
      ensures Inside(x, b) ==> Covers(h.free, x)
    {
      DropCovers(h.free, i, x);
      LiveAdds(h.live, b.off, b.size, x);
    }
    LiveAddsOk(h.live, b);
  }

  /** A word of a payload is no word of a header. */
  lemma PayloadWords(h: Heap, o: nat, i: nat)
    requires HeapOk(h) && o in h.live && HEADER + 4 * i + 4 <= h.live[o]
    ensures var at := (o + HEADER) / 4 + i;
      && at < WORDS
      && (forall p :: p in h.live ==> at != p / 4 && at != p / 4 + 1)
      && (forall j :: 0 <= j < |h.free| ==> at != h.free[j].off / 4 && at != h.free[j].off / 4 + 1)
  {
    hide ListOk, LiveOk, Covers, LiveCovers, HeaderAt;
    LiveMember(h.live, o);
    var x := o + HEADER + 4 * i;
    PayloadsApart(h, o, x);
    TilingHasHeaders(h);
    PayloadWord(o, i);
    forall p: nat | HeaderAt(p) && !(p <= x < p + HEADER)
      ensures x / 4 != p / 4 && x / 4 != p / 4 + 1
    {
      OtherWord(p, x);
    }
  }

  lemma PayloadWord(o: nat, i: nat)
    requires HeaderAt(o) && o + HEADER + 4 * i + 4 <= POOL_SIZE
    ensures (o + HEADER + 4 * i) % 4 == 0 && (o + HEADER + 4 * i) / 4 == (o + HEADER) / 4 + i < WORDS
  {
    var q := o / 8;
    assert o == 8 * q;
    assert o + HEADER + 4 * i == 4 * (2 * q + 2 + i) && o + HEADER == 4 * (2 * q + 2);
  }

  lemma OtherWord(p: nat, x: nat)
    requires HeaderAt(p) && x % 4 == 0 && !(p <= x < p + HEADER)
    ensures x / 4 != p / 4 && x / 4 != p / 4 + 1
  {
  }

  lemma StoreLinked(w: Words, base: Addr, head: Addr, h: Heap, at: nat, v: nat)
    requires Linked(w, base, head, h) && at < WORDS
    requires forall p :: p in h.live ==> at != p / 4 && at != p / 4 + 1
    requires forall j :: 0 <= j < |h.free| ==> at != h.free[j].off / 4 && at != h.free[j].off / 4 + 1
    ensures Linked(w[at := v], base, head, h)
  {
    hide AddrAt;
    assert forall j :: 0 <= j < |h.free| ==> LinkAt(w[at := v], h.free[j].off) == LinkAt(w, h.free[j].off);
  }

  lemma PositiveSize(h: Heap, i: nat)
    requires HeapOk(h) && i < |h.free|
    ensures 0 < h.free[i].size
  {
    assert BlockOk(h.free[i]);
  }

  /** Once the first free header has size 0, the headers describe no tiling. */
  lemma EmptyHeadIsBad(w: Words, base: Addr, head: Addr, h: Heap)
    requires Linked(w, base, head, h) && h.free != [] && h.free[0].size == 0 && base > 0
    ensures forall h' :: Linked(w, base, head, h') ==> !HeapOk(h')
  {
    forall h' | Linked(w, base, head, h')
      ensures !HeapOk(h')
    {
      assert h'.free != [] && h'.free[0].off == h.free[0].off;
      assert h'.free[0].size == SizeAt(w, h.free[0].off) == 0;
      EmptyBlockIsBad(h');
    }
  }

  /** Freeing the pointer that such a request returned never ends: the block is prepended to itself,
      and the merge with its neighbour, which is the block, changes nothing. */
  lemma FreeAfterClashSpins(w: Words, base: Addr, h: Heap, off: nat)
    requires h.free != [] && h.free[0] == Block(off, 0) && Linked(w, base, base + off, h)
    ensures HeaderAt(off)
    ensures var w' := SetLink(w, off, base + off);
      && LinkAt(w', off) == base + off == base + off + SizeAt(w', off)
      && JoinWords(w', off, off) == w'
  {
    assert HeaderAt(h.free[0].off) && SizeAt(w, h.free[0].off) == 0;
  }

  /** The pointer a caller gets. */
  function Pointer(base: Addr, g: Grant): Addr {
    match g
    case Granted(off) => base + off + HEADER
    case Refused => NULL
  }

  class Pool {
    const base: Addr
    const words: array<nat>
    var freeList: Addr
    var ready: bool

    // The blocks that the headers describe.
    ghost var heap: Heap

    ghost predicate Shaped()
      reads this
    {
      words.Length == WORDS && base % 8 == 0 && base > 0
    }

    ghost predicate Threaded()
      reads this, words
    {
      Shaped() && Linked(words[..], base, freeList, heap)
    }

    ghost predicate Valid()
      reads this, words
    {
      Shaped() && (ready ==> HeapOk(heap) && Threaded())
    }

    /** The pool before heap_init. */
    constructor (base: Addr)
      requires base % 8 == 0 && base > 0
      ensures Valid() && !ready && this.base == base && fresh(words)
    {
      this.base := base;
      words := new nat[WORDS](_ => 0);
      freeList, ready := NULL, false;
      heap := Heap([], map[]);
    }

    // -------------------------------------------------------------- words of a header

    ghost predicate IsBlock(blk: Addr)
      reads this
    {
      blk >= base && HeaderAt(blk - base)
    }

    function Size(blk: Addr): (n: nat)
      reads this, words
      requires Shaped() && IsBlock(blk)
      ensures n == SizeAt(words[..], blk - base)
    {
      words[(blk - base) / 4]
    }

    function Next(blk: Addr): (n: Addr)
      reads this, words
      requires Shaped() && IsBlock(blk)
      ensures n == LinkAt(words[..], blk - base)
    {
      words[(blk - base) / 4 + 1]
    }

    method WriteSize(blk: Addr, size: nat)
      requires Shaped() && IsBlock(blk)
      modifies words
      ensures words[..] == SetSize(old(words[..]), blk - base, size)
    {
      words[(blk - base) / 4] := size;
    }

    method WriteNext(blk: Addr, next: Addr)
      requires Shaped() && IsBlock(blk)
      modifies words
      ensures words[..] == SetLink(old(words[..]), blk - base, next)
    {
      words[(blk - base) / 4 + 1] := next;
    }

    // -------------------------------------------------------------- list edits

    /** _remove_from_list; the block removed is block i, and it counts as in use. */
    method RemoveFromList(blk: Addr, prev: Addr, ghost i: nat)
      requires Threaded() && i < |heap.free| && blk == base + heap.free[i].off
      requires prev == if i == 0 then NULL else base + heap.free[i - 1].off
      modifies `freeList, `heap, words
      ensures Threaded()
      ensures heap == Heap(Drop(old(heap).free, i), old(heap).live[blk - base := old(heap).free[i].size])
    {
      hide Linked, SetLink, LinkAt, SizeAt, Drop;
      RemoveLinked(words[..], base, freeList, heap, i);
      var next := Next(blk);
      if prev == NULL {
        freeList := next;
      } else {
        WriteNext(prev, next);
      }
      WriteNext(blk, NULL);
      heap := Heap(Drop(heap.free, i), heap.live[blk - base := heap.free[i].size]);
    }

    /** _prepend_free. */
    method PrependFree(blk: Addr)
      requires Threaded() && blk >= base && blk - base in heap.live
      modifies `freeList, `heap, words
      ensures Threaded()
      ensures heap == Heap([Block(blk - base, old(heap).live[blk - base])] + old(heap).free, old(heap).live - {blk - base})
    {
      hide Linked, SetLink;
      PrependLinked(words[..], base, freeList, heap, blk - base);
      WriteNext(blk, freeList);
      freeList := blk;
      heap := Heap([Block(blk - base, heap.live[blk - base])] + heap.free, heap.live - {blk - base});
    }

    /** The merge inside _coalesce_forward. */
    method Join(walk: Addr, ghost i: nat)
      requires Threaded() && i + 1 < |heap.free| && walk == base + heap.free[i].off
      modifies `heap, words
      ensures Threaded() && heap == Heap(JoinedAt(old(heap).free, i), old(heap).live)
    {
      hide Linked, SetLink, SetSize, JoinedAt;
      ListAddresses(words[..], base, freeList, heap, i);
      JoinLinked(words[..], base, freeList, heap, i);
      var next := Next(walk);
      var after := Next(next);
      WriteSize(walk, Size(walk) + Size(next));
      WriteNext(walk, after);
      heap := Heap(JoinedAt(heap.free, i), heap.live);
    }

    /** _coalesce_forward. */
    method CoalesceForward()
      requires Threaded()
      modifies `heap, words
      ensures Threaded() && heap == Heap(Coalesce(old(heap).free), old(heap).live)
    {
      hide Linked, Coalesce, JoinedAt;
      var walk := freeList;
      ghost var i := 0;
      assert heap.free[0..] == heap.free;
      HeadAddress(words[..], base, freeList, heap);
      while walk != NULL
        invariant Threaded() && 0 <= i <= |heap.free| && walk == AddrAt(base, heap.free, i)
        invariant heap.live == old(heap).live
        invariant heap.free[..i] + Coalesce(heap.free[i..]) == Coalesce(old(heap).free)
        decreases |heap.free| - i
      {
        ListAddresses(words[..], base, freeList, heap, i);
        if Next(walk) == NULL {
          break;
        }
        CoalesceStep(heap.free, i);
        JoinedIs(heap.free, i);
        if walk + Size(walk) == Next(walk) {
          Join(walk, i);
        } else {
          walk := Next(walk);
          i := i + 1;
        }
      }
      CoalesceEnd(heap.free, i);
    }

    // -------------------------------------------------------------- the allocator

    /** heap_init. */
    method Init()
      requires Valid()
      modifies this, words
      ensures Valid() && ready && heap == Fresh
    {
      for i := 0 to WORDS
        invariant Shaped() && forall j :: 0 <= j < i ==> words[j] == 0
      {
        words[i] := 0;
      }
      ready := false;
      freeList := base;
      WriteSize(base, POOL_SIZE);
      WriteNext(base, NULL);
      ready := true;
      heap := Fresh;
      FreshOk();
      TilingHasHeaders(heap);
    }

    /** The walk of heap_alloc: the first block that is large enough and the one before it. */
    method FindFit(total: nat) returns (prev: Addr, curr: Addr, ghost i: nat)
      requires Threaded()
      ensures i == FirstFit(heap.free, total) && curr == AddrAt(base, heap.free, i)
      ensures prev == if i == 0 then NULL else base + heap.free[i - 1].off
    {
      hide Linked;
      HeadAddress(words[..], base, freeList, heap);
      prev, curr, i := NULL, freeList, 0;
      while curr != NULL
        invariant 0 <= i <= |heap.free| && curr == AddrAt(base, heap.free, i)
        invariant prev == if i == 0 then NULL else base + heap.free[i - 1].off
        invariant forall j :: 0 <= j < i ==> heap.free[j].size < total
        decreases |heap.free| - i
      {
        ListAddresses(words[..], base, freeList, heap, i);
        if Size(curr) >= total {
          return;
        }
        prev, curr := curr, Next(curr);
        i := i + 1;
      }
    }

    /** The remainder of a block becomes a free block. */
    method Split(curr: Addr, total: nat)
      requires Threaded() && HeapOk(heap) && curr >= base && curr - base in heap.live
      requires total % 8 == 0 && total + HEADER + 8 <= heap.live[curr - base]
      modifies `freeList, `heap, words
      ensures Threaded()
      ensures var off, h := curr - base, old(heap);
        if total == 0 then heap == Heap(Coalesce([Block(off, 0)] + h.free), h.live - {off})
        else heap == Heap(Coalesce([Block(off + total, h.live[off] - total)] + h.free), h.live[off := total])
    {
      hide Linked, HeapOk, Coalesce, CutWords;
      ghost var off, h := curr - base, heap;
      CutIsClear(h, off, total);
      LiveSize(words[..], base, freeList, h, off);
      CutLinked(words[..], base, freeList, h, off, total);
      var frag := curr + total;
      var leftover := Size(curr) - total;
      Cut(curr, total, leftover);
      heap := Heap(h.free, CutLive(h.live, off, total));
      PrependFree(frag);
      CoalesceForward();
      assert CutLive(h.live, off, total) - {off + total} == if total == 0 then h.live - {off} else h.live[off := total];
    }

    method Cut(curr: Addr, total: nat, leftover: nat)
      requires Shaped() && IsBlock(curr) && IsBlock(curr + total)
      modifies words
      ensures words[..] == CutWords(old(words[..]), curr - base, total, leftover)
    {
      hide SetSize, SetLink;
      var frag := curr + total;
      WriteSize(frag, leftover);
      WriteNext(frag, NULL);
      WriteSize(curr, total);
    }

    /** heap_alloc.  Whatever the size, the headers spell out what the model says; they describe some
        tiling of the pool if and only if the request does not clash. */
    method Alloc(size: nat) returns (p: Addr)
      requires Valid() && size < U32_MOD
      modifies `freeList, `heap, words
      ensures !ready || size == 0 ==> p == NULL && heap == old(heap) && Valid()
      ensures ready ==> Threaded() && heap == Take(old(heap), size).0 && p == Pointer(base, Take(old(heap), size).1)
      ensures ready ==> (Valid() <==> RequestOk(old(heap), size))
      ensures ready && !RequestOk(old(heap), size) ==> forall h :: Linked(words[..], base, freeList, h) ==> !HeapOk(h)
    {
      hide Linked, HeapOk, HeapModel.Alloc;
      if !ready || size == 0 {
        return NULL;
      }
      var total := ((size + 7) % U32_MOD / 8 * 8 + HEADER) % U32_MOD;
      TotalIsEnough(size);
      ghost var before := heap;
      p := AllocBlock(total);
      if Clash(before, total) {
        ClashFacts(before, total);
        EmptyHeadIsBad(words[..], base, freeList, heap);
      } else {
        AllocKeepsHeap(before, total);
      }
    }

    /** The search and the grant of heap_alloc. */
    method AllocBlock(total: nat) returns (p: Addr)
      requires Threaded() && HeapOk(heap) && total % 8 == 0
      modifies `freeList, `heap, words
      ensures Threaded() && heap == HeapModel.Alloc(old(heap), total).0
      ensures p == Pointer(base, HeapModel.Alloc(old(heap), total).1)
    {
      hide Linked, HeapOk, Coalesce, Drop, FirstFit;
      ghost var h := heap;
      var prev, curr, i := FindFit(total);
      if curr == NULL {
        return NULL;
      }
      ListAddresses(words[..], base, freeList, heap, i);
      PositiveSize(h, i);
      FreeIsNotLive(h, i);
      var leftover := Size(curr) - total;
      RemoveKeepsHeap(h, i);
      RemoveFromList(curr, prev, i);
      if leftover >= HEADER + 8 {
        Split(curr, total);
        assert h.live[curr - base := h.free[i].size][curr - base := total] == h.live[curr - base := total];
        assert h.live[curr - base := h.free[i].size] - {curr - base} == h.live;
      }
      p := curr + HEADER;
    }

    /** heap_free, for NULL or the payload of a block in use. */
    method Free(p: Addr)
      requires Valid() && (ready && p != NULL ==> p >= base + HEADER && p - base - HEADER in heap.live)
      modifies `freeList, `heap, words
      ensures Valid()
      ensures heap == if ready && p != NULL then HeapModel.Free(old(heap), p - base - HEADER) else old(heap)
    {
      hide Linked, HeapOk, Coalesce;
      if p == NULL || !ready {
        return;
      }
      FreeKeepsHeap(heap, p - base - HEADER);
      var blk := p - HEADER;
      PrependFree(blk);
      CoalesceForward();
    }

    /** A caller writes a word of a payload it holds: no header changes. */
    method Store(p: Addr, i: nat, v: nat)
      requires Valid() && ready && p >= base + HEADER && p - base - HEADER in heap.live
      requires HEADER + 4 * i + 4 <= heap.live[p - base - HEADER]
      modifies words
      ensures Valid()
    {
      hide Linked, HeapOk;
      ghost var w, o := words[..], p - base - HEADER;
      PayloadWords(heap, o, i);
      words[(p - base) / 4 + i] := v;
      StoreLinked(w, base, freeList, heap, (p - base) / 4 + i, v);
    }
  }
}
