/** The first-fit allocator as a value: what heap_alloc and heap_free do to the free list and to
    the blocks in use, and what they keep. */
module HeapModel {
  import opened Types
  import opened FreeList

  /** live maps the offset of each block in use to its size. */
  datatype Heap = Heap(free: seq<Block>, live: map<nat, nat>)

  const Fresh: Heap := Heap([Block(0, POOL_SIZE)], map[])

  ghost predicate LiveCovers(live: map<nat, nat>, x: int) {
    exists o :: o in live && Inside(x, Block(o, live[o]))
  }

  ghost predicate LiveOk(live: map<nat, nat>) {
    && (forall o :: o in live ==> BlockOk(Block(o, live[o])))
    && (forall o, p :: o in live && p in live && o != p ==> Apart(Block(o, live[o]), Block(p, live[p])))
  }

  /** Blocks in use and free blocks tile the pool: each byte is in exactly one block. */
  ghost predicate HeapOk(h: Heap) {
    && ListOk(h.free) && LiveOk(h.live)
    && (forall x :: Covers(h.free, x) ==> !LiveCovers(h.live, x))
    && (forall x :: 0 <= x < POOL_SIZE ==> Covers(h.free, x) || LiveCovers(h.live, x))
  }

  // ---------------------------------------------------------------- sizes

  /** The bytes a request takes, in 32-bit arithmetic: rounded up to 8, plus a header. */
  function Total(size: nat): (t: nat) {
    ((size + 7) % U32_MOD / 8 * 8 + HEADER) % U32_MOD
  }

  /** The rounding keeps its promise exactly for requests up to 0xFFFFFFF0. */
  lemma TotalIsEnough(size: nat)
    requires 0 < size < U32_MOD
    ensures Total(size) % 8 == 0
    ensures size + HEADER <= Total(size) <==> size <= 0xFFFF_FFF0
    ensures size <= 0xFFFF_FFF0 ==> Total(size) < size + HEADER + 8
    ensures Total(size) == 0 <==> 0xFFFF_FFF0 < size <= 0xFFFF_FFF8
    ensures 0xFFFF_FFF8 < size ==> Total(size) == HEADER
  {
    var q := (size + 7) / 8;
    assert size <= 8 * q <= size + 7;
    if size <= 0xFFFF_FFF8 {
      assert (size + 7) % U32_MOD == size + 7;
    } else {
      assert (size + 7) % U32_MOD == size + 7 - U32_MOD < 8;
    }
  }

  // ---------------------------------------------------------------- operations

  /** The first block that is large enough, or the length of the list. */
  function FirstFit(free: seq<Block>, total: nat): (i: nat)
    ensures i <= |free|
    ensures i < |free| ==> total <= free[i].size
    ensures forall j :: 0 <= j < i ==> free[j].size < total
  {
    if free == [] || total <= free[0].size then 0 else 1 + FirstFit(free[1..], total)
  }

  function Drop(s: seq<Block>, i: nat): seq<Block>
    requires i < |s|
  {
    s[..i] + s[i + 1..]
  }

  /** The size of the block that is handed out: a remainder too small for a block goes with it. */
  function Taken(b: Block, total: nat): (n: nat)
    requires total <= b.size
    ensures total <= n <= b.size
  {
    if b.size - total >= HEADER + 8 then total else b.size
  }

  datatype Grant = Granted(off: nat) | Refused

  /** heap_alloc of a block of `total` bytes; the result is the offset of the block.  When nothing is
      taken, block and remainder have the same header, which ends up on the free list with size 0. */
  function Alloc(h: Heap, total: nat): (r: (Heap, Grant)) {
    var i := FirstFit(h.free, total);
    if i == |h.free| then (h, Refused)
    else
      var b, rest := h.free[i], Drop(h.free, i);
      var n := Taken(b, total);
      if n == 0 then (Heap(Coalesce([Block(b.off, 0)] + rest), h.live), Granted(b.off))
      else
        var free := if n < b.size then Coalesce([Block(b.off + n, b.size - n)] + rest) else rest;
        (Heap(free, h.live[b.off := n]), Granted(b.off))
  }

  /** A total that wrapped to 0 meets a first free block that can be split. */
  predicate Clash(h: Heap, total: nat) {
    total == 0 && h.free != [] && h.free[0].size >= HEADER + 8
  }

  /** heap_alloc, with the check for an empty request. */
  function Take(h: Heap, size: nat): (r: (Heap, Grant)) {
    if size == 0 then (h, Refused) else Alloc(h, Total(size))
  }

  /** The requests that heap_alloc can serve. */
  predicate RequestOk(h: Heap, size: nat) {
    size < U32_MOD && (size > 0 ==> !Clash(h, Total(size)))
  }

  function Free(h: Heap, off: nat): Heap
    requires off in h.live
  {
    Heap(Coalesce([Block(off, h.live[off])] + h.free), h.live - {off})
  }

  // ---------------------------------------------------------------- bytes

  lemma DropAt(s: seq<Block>, i: nat)
    requires i < |s|
    ensures |Drop(s, i)| == |s| - 1
    ensures forall j :: 0 <= j < |Drop(s, i)| ==> Drop(s, i)[j] == s[if j < i then j else j + 1]
  {
  }

  lemma DropCovers(s: seq<Block>, i: nat, x: int)
    requires ListOk(s) && i < |s|
    ensures Covers(Drop(s, i), x) <==> Covers(s, x) && !Inside(x, s[i])
  {
    hide BlockOk, Drop;
    var r := Drop(s, i);
    DropAt(s, i);
    if Covers(s, x) && !Inside(x, s[i]) {
      var j :| 0 <= j < |s| && Inside(x, s[j]);
      assert r[if j < i then j else j - 1] == s[j];
    }
    if Covers(r, x) {
      var j :| 0 <= j < |r| && Inside(x, r[j]);
      var l := if j < i then j else j + 1;
      assert r[j] == s[l];
      assert if l < i then Apart(s[l], s[i]) else Apart(s[i], s[l]);
    }
  }

  lemma DropOk(s: seq<Block>, i: nat)
    requires ListOk(s) && i < |s|
    ensures ListOk(Drop(s, i))
  {
  }

  lemma LiveAdds(live: map<nat, nat>, o: nat, n: nat, x: int)
    requires o !in live
    ensures LiveCovers(live[o := n], x) <==> LiveCovers(live, x) || Inside(x, Block(o, n))
  {
    var live' := live[o := n];
    if LiveCovers(live, x) {
      var p :| p in live && Inside(x, Block(p, live[p]));
      assert p in live' && Inside(x, Block(p, live'[p]));
    }
    if Inside(x, Block(o, n)) {
      assert o in live' && Inside(x, Block(o, live'[o]));
    }
  }

  lemma LiveDrops(live: map<nat, nat>, o: nat, x: int)
    requires LiveOk(live) && o in live
    ensures LiveCovers(live - {o}, x) <==> LiveCovers(live, x) && !Inside(x, Block(o, live[o]))
  {
    var live' := live - {o};
    if LiveCovers(live', x) {
      var p :| p in live' && Inside(x, Block(p, live'[p]));
      assert p in live && Apart(Block(p, live[p]), Block(o, live[o]));
    }
    if LiveCovers(live, x) && !Inside(x, Block(o, live[o])) {
      var p :| p in live && Inside(x, Block(p, live[p]));
      assert p in live' && Inside(x, Block(p, live'[p]));
    }
  }

  /** A free block starts no block in use. */
  lemma FreeBlockOk(h: Heap, i: nat)
    requires HeapOk(h) && i < |h.free|
    ensures BlockOk(h.free[i])
  {
  }

  lemma FreeIsNotLive(h: Heap, i: nat)
    requires HeapOk(h) && i < |h.free|
    ensures h.free[i].off !in h.live
  {
    var b := h.free[i];
    assert Inside(b.off, b) && Covers(h.free, b.off);
    assert b.off in h.live ==> Inside(b.off, Block(b.off, h.live[b.off]));
  }

  lemma MemberCovers(s: seq<Block>, i: nat, x: int)
    requires i < |s| && Inside(x, s[i])
    ensures Covers(s, x)
  {
  }

  /** Without a clash something is taken. */
  lemma TakenIsPositive(h: Heap, total: nat)
    requires HeapOk(h) && total % 8 == 0 && !Clash(h, total) && FirstFit(h.free, total) < |h.free|
    ensures var b := h.free[FirstFit(h.free, total)]; BlockOk(b) && 0 < Taken(b, total) && Taken(b, total) % 8 == 0
  {
  }

  /** What a grant does to the free bytes. */
  lemma AllocCovers(h: Heap, total: nat, x: int)
    requires HeapOk(h) && total % 8 == 0 && !Clash(h, total)
    ensures var (h', g) := Alloc(h, total);
      match g
      case Refused => h' == h
      case Granted(o) =>
        && o in h'.live && o !in h.live && h' == h'.(live := h.live[o := h'.live[o]])
        && (Covers(h'.free, x) <==> Covers(h.free, x) && !Inside(x, Block(o, h'.live[o])))
        && (Inside(x, Block(o, h'.live[o])) ==> Covers(h.free, x))
  {
    hide ListOk, LiveOk, Covers, LiveCovers, Coalesce, Drop;
    var i := FirstFit(h.free, total);
    if i < |h.free| {
      var b, rest := h.free[i], Drop(h.free, i);
      var n := Taken(b, total);
      TakenIsPositive(h, total);
      FreeIsNotLive(h, i);
      DropCovers(h.free, i, x);
      if Inside(x, b) {
        MemberCovers(h.free, i, x);
      }
      if n < b.size {
        var frag := Block(b.off + n, b.size - n);
        CoalesceCovers([frag] + rest, x);
        CoversCons(frag, rest, x);
      }
    }
  }

  lemma FreeCovers(h: Heap, off: nat, x: int)
    requires off in h.live
    ensures Covers(Free(h, off).free, x) <==> Covers(h.free, x) || Inside(x, Block(off, h.live[off]))
  {
    var b := Block(off, h.live[off]);
    CoalesceCovers([b] + h.free, x);
    CoversCons(b, h.free, x);
  }

  // ---------------------------------------------------------------- the tiling is kept

  lemma AllocListOk(h: Heap, total: nat)
    requires HeapOk(h) && total % 8 == 0 && !Clash(h, total)
    ensures ListOk(Alloc(h, total).0.free)
  {
    var i := FirstFit(h.free, total);
    if i < |h.free| {
      var b, rest := h.free[i], Drop(h.free, i);
      DropOk(h.free, i);
      var n := Taken(b, total);
      if n < b.size {
        var frag := Block(b.off + n, b.size - n);
        forall x | Inside(x, frag)
          ensures !Covers(rest, x)
        {
          DropCovers(h.free, i, x);
        }
        ConsOk(frag, rest);
        CoalesceOk([frag] + rest);
      }
    }
  }

  lemma LiveAddsOk(live: map<nat, nat>, b: Block)
    requires LiveOk(live) && b.off !in live && BlockOk(b) && (forall x :: Inside(x, b) ==> !LiveCovers(live, x))
    ensures LiveOk(live[b.off := b.size])
  {
    forall p | p in live
      ensures Apart(Block(p, live[p]), b)
    {
      var c := Block(p, live[p]);
      if !Apart(c, b) {
        var x := if b.off <= c.off then c.off else b.off;
        assert Inside(x, b) && Inside(x, c);
        assert false;
      }
    }
  }

  lemma AllocKeepsHeap(h: Heap, total: nat)
    requires HeapOk(h) && total % 8 == 0 && !Clash(h, total)
    ensures HeapOk(Alloc(h, total).0)
  {
    var (h', g) := Alloc(h, total);
    if g.Granted? {
      var o := g.off;
      AllocListOk(h, total);
      GrantFacts(h, total);
      var b := Block(o, h'.live[o]);
      forall x
        ensures Inside(x, b) ==> Covers(h.free, x)
        ensures Covers(h'.free, x) <==> Covers(h.free, x) && !Inside(x, b)
        ensures LiveCovers(h'.live, x) <==> LiveCovers(h.live, x) || Inside(x, b)
      {
        AllocCovers(h, total, x);
        LiveAdds(h.live, o, b.size, x);
      }
      LiveAddsOk(h.live, b);
    }
  }

  /** The granted block. */
  lemma GrantFacts(h: Heap, total: nat)
    requires HeapOk(h) && total % 8 == 0 && !Clash(h, total) && Alloc(h, total).1.Granted?
    ensures var (h', g) := Alloc(h, total);
      && g.off in h'.live && g.off !in h.live && h'.live == h.live[g.off := h'.live[g.off]]
      && total <= h'.live[g.off] < total + HEADER + 8
      && BlockOk(Block(g.off, h'.live[g.off]))
  {
    FreeIsNotLive(h, FirstFit(h.free, total));
  }

  lemma FreeKeepsHeap(h: Heap, off: nat)
    requires HeapOk(h) && off in h.live
    ensures HeapOk(Free(h, off))
  {
    var h', b := Free(h, off), Block(off, h.live[off]);
    forall x
      ensures Covers(h'.free, x) <==> Covers(h.free, x) || Inside(x, b)
      ensures LiveCovers(h'.live, x) <==> LiveCovers(h.live, x) && !Inside(x, b)
      ensures Inside(x, b) ==> !Covers(h.free, x)
    {
      FreeCovers(h, off, x);
      LiveDrops(h.live, off, x);
      assert Inside(x, b) ==> LiveCovers(h.live, x);
    }
    ConsOk(b, h.free);
    CoalesceOk([b] + h.free);
  }

  // ---------------------------------------------------------------- what a caller gets

  /** A request is refused exactly when no free block holds it. */
  lemma RefusedIff(h: Heap, total: nat)
    ensures Alloc(h, total).1.Refused? <==> forall i :: 0 <= i < |h.free| ==> h.free[i].size < total
  {
  }

  /** A grant is of the first block of the list that is large enough, from its start: just the total when
      the remainder can hold a header and 8 bytes, and the whole block otherwise. */
  lemma GrantIsFirstFit(h: Heap, total: nat)
    requires HeapOk(h) && total % 8 == 0 && !Clash(h, total) && Alloc(h, total).1.Granted?
    ensures var (h', g) := Alloc(h, total);
      exists i :: 0 <= i < |h.free| && h.free[i].off == g.off && total <= h.free[i].size && g.off in h'.live
        && (forall j :: 0 <= j < i ==> h.free[j].size < total)
        && h'.live[g.off] == if h.free[i].size - total >= 16 then total else h.free[i].size
  {
    hide Coalesce, LiveOk, Covers, LiveCovers;
    TakenIsPositive(h, total);
    var i := FirstFit(h.free, total);
    assert h.free[i].off == Alloc(h, total).1.off;
  }

  /** A freed block, and what is left of a block that was split, come first on the free list. */
  lemma FreedGoesFirst(h: Heap, off: nat)
    requires off in h.live
    ensures var h' := Free(h, off); h'.free != [] && h'.free[0].off == off && h.live[off] <= h'.free[0].size
  {
    hide Coalesce;
    CoalesceHead([Block(off, h.live[off])] + h.free);
  }

  lemma RestGoesFirst(h: Heap, total: nat)
    requires 0 < total && Alloc(h, total).1.Granted?
    ensures var (h', g) := Alloc(h, total);
      exists i :: 0 <= i < |h.free| && h.free[i].off == g.off && total <= h.free[i].size
        && if h.free[i].size - total < 16 then h'.free == h.free[..i] + h.free[i + 1..]
           else h'.free != [] && h'.free[0].off == g.off + total && h.free[i].size - total <= h'.free[0].size
  {
    hide Coalesce;
    var i := FirstFit(h.free, total);
    var b := h.free[i];
    if b.size - total >= 16 {
      CoalesceHead([Block(b.off + total, b.size - total)] + Drop(h.free, i));
    }
    assert h.free[i].off == Alloc(h, total).1.off;
  }

  /** A granted pointer is to a block in use with room for the request exactly when the rounding
      did not wrap. */
  lemma GrantIsEnough(h: Heap, size: nat)
    requires HeapOk(h) && 0 < size < U32_MOD && Alloc(h, Total(size)).1.Granted?
    ensures var (h', g) := Alloc(h, Total(size));
      && (g.off + HEADER) % 8 == 0
      && (g.off in h'.live && size <= h'.live[g.off] - HEADER <==> size <= 0xFFFF_FFF0)
  {
    hide HeapOk, Coalesce, Total;
    TotalIsEnough(size);
    var i := FirstFit(h.free, Total(size));
    FreeBlockOk(h, i);
    FreeIsNotLive(h, i);
    if !Clash(h, Total(size)) {
      GrantFacts(h, Total(size));
    }
  }

  lemma ClashFacts(h: Heap, total: nat)
    requires HeapOk(h) && Clash(h, total)
    ensures var (h', g) := Alloc(h, total);
      g.Granted? && h'.free != [] && h'.free[0] == Block(g.off, 0)
  {
    hide LiveOk, LiveCovers, Covers;
    var b, rest := h.free[0], Drop(h.free, 0);
    var s := [Block(b.off, 0)] + rest;
    assert FirstFit(h.free, total) == 0;
    assert rest != [] ==> rest[0] == h.free[1] && Apart(b, h.free[1]) && BlockOk(b) && BlockOk(h.free[1]);
    assert s[1..] == rest;
  }

  /** A request keeps the tiling if and only if it is not one of the eight sizes that wrap to 0 made
      while the first free block can be split. */
  lemma RequestKeepsTilingIff(h: Heap, size: nat)
    requires HeapOk(h) && 0 < size < U32_MOD
    ensures HeapOk(Take(h, size).0) <==>
      !(0xFFFF_FFF0 < size <= 0xFFFF_FFF8 && h.free != [] && h.free[0].size >= HEADER + 8)
  {
    hide HeapOk, Alloc;
    TotalIsEnough(size);
    if Clash(h, Total(size)) {
      ClashFacts(h, Total(size));
      EmptyBlockIsBad(Take(h, size).0);
    } else {
      AllocKeepsHeap(h, Total(size));
    }
  }

  lemma EmptyBlockIsBad(h: Heap)
    requires h.free != [] && h.free[0].size == 0
    ensures !HeapOk(h)
  {
    hide LiveOk, Covers, LiveCovers;
  }

  /** The payload of a block in use meets no other block in use, no free block and no header. */
  lemma PayloadsApart(h: Heap, o: nat, x: int)
    requires HeapOk(h) && o in h.live && o + HEADER <= x < o + h.live[o]
    ensures !Covers(h.free, x)
    ensures forall p :: p in h.live && Inside(x, Block(p, h.live[p])) ==> p == o
    ensures forall p :: p in h.live ==> !(p <= x < p + HEADER)
    ensures forall i :: 0 <= i < |h.free| ==> !(h.free[i].off <= x < h.free[i].off + HEADER)
    ensures (o + HEADER) % 8 == 0
  {
    hide ListOk;
    LiveAlone(h.live, o, x);
    assert BlockOk(Block(o, h.live[o]));
    forall p | p in h.live
      ensures !(p <= x < p + HEADER)
    {
      HeaderInside(Block(p, h.live[p]), x);
    }
    forall i | 0 <= i < |h.free|
      ensures !(h.free[i].off <= x < h.free[i].off + HEADER)
    {
      ListMember(h.free, i);
      HeaderInside(h.free[i], x);
      assert Inside(x, h.free[i]) ==> Covers(h.free, x);
    }
  }

  lemma ListMember(s: seq<Block>, i: nat)
    requires ListOk(s) && i < |s|
    ensures BlockOk(s[i])
  {
  }

  /** A header is part of its block. */
  lemma HeaderInside(b: Block, x: int)
    requires BlockOk(b)
    ensures b.off <= x < b.off + HEADER ==> Inside(x, b)
  {
  }

  lemma LiveAlone(live: map<nat, nat>, o: nat, x: int)
    requires LiveOk(live) && o in live && Inside(x, Block(o, live[o]))
    ensures LiveCovers(live, x)
    ensures forall p :: p in live && Inside(x, Block(p, live[p])) ==> p == o
  {
    hide BlockOk;
    forall p | p in live && p != o
      ensures !Inside(x, Block(p, live[p]))
    {
      assert Apart(Block(o, live[o]), Block(p, live[p]));
    }
  }

  // ---------------------------------------------------------------- allocate, then free at once

  lemma AllocFreeBytes(h: Heap, total: nat, x: int)
    requires HeapOk(h) && total % 8 == 0 && !Clash(h, total) && Alloc(h, total).1.Granted?
    ensures var (h', g) := Alloc(h, total);
      && g.off in h'.live && Free(h', g.off).live == h.live
      && (Covers(Free(h', g.off).free, x) <==> Covers(h.free, x))
  {
    var (h', g) := Alloc(h, total);
    AllocCovers(h, total, x);
    FreeCovers(h', g.off, x);
    assert h.live[g.off := h'.live[g.off]] - {g.off} == h.live;
  }

  /** The block given back joins the remainder it was cut from. */
  lemma AllocFreeRejoins(h: Heap, total: nat)
    requires HeapOk(h) && total % 8 == 0 && !Clash(h, total) && Alloc(h, total).1.Granted?
    ensures var (h', g) := Alloc(h, total);
      && g.off in h'.live && Free(h', g.off).free != []
      && Within(h.free[FirstFit(h.free, total)], Free(h', g.off).free[0])
  {
    var (h', g) := Alloc(h, total);
    var i := FirstFit(h.free, total);
    var b, rest := h.free[i], Drop(h.free, i);
    var n := Taken(b, total);
    var s := [Block(b.off, n)] + h'.free;
    if n < b.size {
      CoalesceHead([Block(b.off + n, b.size - n)] + rest);
      assert s[0].End() == s[1].off;
      CoalesceHead([Merged(s[0], s[1])] + s[2..]);
    } else {
      CoalesceHead(s);
    }
  }

  lemma DropHolds(s: seq<Block>, i: nat, j: nat)
    requires i < |s| && j < |s| && i != j
    ensures Holds(Drop(s, i), s[j])
  {
    assert Within(s[j], Drop(s, i)[if j < i then j else j - 1]);
  }

  lemma HoldsTrans(a: seq<Block>, b: seq<Block>, c: Block)
    requires Holds(a, c) && Absorbed(a, b)
    ensures Holds(b, c)
  {
    AbsorbedTrans([c], a, b);
    assert [c][0] == c;
  }

  lemma TailAbsorbed(b: Block, s: seq<Block>)
    ensures Absorbed(s, [b] + s)
  {
    forall i | 0 <= i < |s|
      ensures Holds([b] + s, s[i])
    {
      assert Within(s[i], ([b] + s)[i + 1]);
    }
  }

  lemma AllocFreeAbsorbs(h: Heap, total: nat)
    requires HeapOk(h) && total % 8 == 0 && !Clash(h, total) && Alloc(h, total).1.Granted?
    ensures var (h', g) := Alloc(h, total);
      g.off in h'.live && Absorbed(h.free, Free(h', g.off).free)
  {
    var (h', g) := Alloc(h, total);
    var h'' := Free(h', g.off);
    var i := FirstFit(h.free, total);
    var rest := Drop(h.free, i);
    var blk := Block(g.off, h'.live[g.off]);
    AllocFreeRejoins(h, total);
    RestAbsorbed(h, total);
    TailAbsorbed(blk, h'.free);
    CoalesceAbsorbs([blk] + h'.free);
    AbsorbedTrans(h'.free, [blk] + h'.free, h''.free);
    AbsorbedTrans(rest, h'.free, h''.free);
    forall j | 0 <= j < |h.free|
      ensures Holds(h''.free, h.free[j])
    {
      if j != i {
        DropHolds(h.free, i, j);
        HoldsTrans(rest, h''.free, h.free[j]);
      }
    }
  }

  lemma RestAbsorbed(h: Heap, total: nat)
    requires Alloc(h, total).1.Granted?
    ensures Absorbed(Drop(h.free, FirstFit(h.free, total)), Alloc(h, total).0.free)
  {
    hide Coalesce, Drop, FirstFit;
    var i := FirstFit(h.free, total);
    var b, rest := h.free[i], Drop(h.free, i);
    var n := Taken(b, total);
    if n == 0 || n < b.size {
      var frag := if n == 0 then Block(b.off, 0) else Block(b.off + n, b.size - n);
      TailAbsorbed(frag, rest);
      CoalesceAbsorbs([frag] + rest);
      AbsorbedTrans(rest, [frag] + rest, Coalesce([frag] + rest));
    } else {
      forall j | 0 <= j < |rest|
        ensures Holds(rest, rest[j])
      {
        assert Within(rest[j], rest[j]);
      }
    }
  }

  /** Allocating and freeing at once gives the free bytes back, breaks up no free block, and so
      takes no request away. */
  lemma AllocFreeRoundTrip(h: Heap, total: nat, other: nat)
    requires HeapOk(h) && total % 8 == 0 && !Clash(h, total) && Alloc(h, total).1.Granted?
    ensures var (h', g) := Alloc(h, total);
      && g.off in h'.live && Free(h', g.off).live == h.live
      && (forall x :: Covers(Free(h', g.off).free, x) <==> Covers(h.free, x))
      && Absorbed(h.free, Free(h', g.off).free)
      && (Alloc(h, other).1.Granted? ==> Alloc(Free(h', g.off), other).1.Granted?)
  {
    hide HeapOk, Alloc, Free, Covers, Absorbed;
    var (h', g) := Alloc(h, total);
    AllocFreeBytes(h, total, 0);
    forall x
      ensures Covers(Free(h', g.off).free, x) <==> Covers(h.free, x)
    {
      AllocFreeBytes(h, total, x);
    }
    AllocFreeAbsorbs(h, total);
    if Alloc(h, other).1.Granted? {
      StillGranted(h, Free(h', g.off), other);
    }
  }

  lemma StillGranted(h: Heap, h': Heap, total: nat)
    requires Absorbed(h.free, h'.free) && Alloc(h, total).1.Granted?
    ensures Alloc(h', total).1.Granted?
  {
    hide Coalesce;
    var i := FirstFit(h.free, total);
    assert Holds(h'.free, h.free[i]);
  }

  // ---------------------------------------------------------------- last in, first out

  /** The sizes requested in turn; the result lists the blocks granted. */
  function AllocAll(h: Heap, totals: seq<nat>): (r: (Heap, seq<nat>))
    decreases |totals|
  {
    if totals == [] then (h, [])
    else
      var (h1, g) := Alloc(h, totals[0]);
      var (h2, offs) := AllocAll(h1, totals[1..]);
      (h2, if g.Granted? then [g.off] + offs else offs)
  }

  /** The blocks freed in reverse order; a block that is not in use is passed over. */
  function FreeAll(h: Heap, offs: seq<nat>): Heap
  {
    if offs == [] then h
    else
      var h1 := FreeAll(h, offs[1..]);
      if offs[0] in h1.live then Free(h1, offs[0]) else h1
  }

  lemma CoalescePair(b: Block, c: Block)
    requires b.End() == c.off
    ensures Coalesce([b] + [c]) == [Merged(b, c)]
  {
    var s := [b] + [c];
    assert [Merged(s[0], s[1])] + s[2..] == [Merged(b, c)];
  }

  lemma CoalesceOne(b: Block)
    ensures Coalesce([b] + []) == [b]
  {
  }

  /** With one free block or none, a block given back restores the heap exactly. */
  lemma SingleRestored(h: Heap, total: nat)
    requires HeapOk(h) && |h.free| <= 1 && 0 < total && total % 8 == 0
    ensures var (h', g) := Alloc(h, total);
      && |h'.free| <= 1 && (g.Granted? ==> g.off in h'.live && Free(h', g.off) == h)
  {
    var (h', g) := Alloc(h, total);
    if g.Granted? {
      AllocFreeBytes(h, total, 0);
      hide ListOk, LiveOk, Covers, LiveCovers, Coalesce, FirstFit;
      var b := h.free[0];
      var n := Taken(b, total);
      assert h.free == [b] && Drop(h.free, 0) == [];
      if n < b.size {
        var frag := Block(b.off + n, b.size - n);
        CoalesceOne(frag);
        CoalescePair(Block(b.off, n), frag);
      } else {
        CoalesceOne(b);
      }
    }
  }

  /** From any heap with one free block or none, freeing the granted blocks in reverse order
      restores the heap. */
  lemma {:induction false} ReversalFrom(h: Heap, totals: seq<nat>)
    requires HeapOk(h) && |h.free| <= 1
    requires forall i :: 0 <= i < |totals| ==> 0 < totals[i] && totals[i] % 8 == 0
    ensures FreeAll(AllocAll(h, totals).0, AllocAll(h, totals).1) == h
    decreases |totals|
  {
    if totals != [] {
      SingleRestored(h, totals[0]);
      AllocKeepsHeap(h, totals[0]);
      var (h1, g) := Alloc(h, totals[0]);
      var (h2, offs) := AllocAll(h1, totals[1..]);
      ReversalFrom(h1, totals[1..]);
      if g.Granted? {
        assert ([g.off] + offs)[1..] == offs;
      }
    }
  }

  lemma FreshOk()
    ensures HeapOk(Fresh)
  {
    assert Fresh.free[0] == Block(0, POOL_SIZE);
    forall x | 0 <= x < POOL_SIZE
      ensures Covers(Fresh.free, x)
    {
      assert Inside(x, Fresh.free[0]);
    }
  }

  /** Any requests made of a fresh heap, freed in reverse order, leave the one free block. */
  lemma Reversal(sizes: seq<nat>)
    requires forall i :: 0 <= i < |sizes| ==> 0 < sizes[i] < U32_MOD && 0 < Total(sizes[i])
    ensures var totals := seq(|sizes|, i requires 0 <= i < |sizes| => Total(sizes[i]));
      FreeAll(AllocAll(Fresh, totals).0, AllocAll(Fresh, totals).1) == Fresh
  {
    var totals := seq(|sizes|, i requires 0 <= i < |sizes| => Total(sizes[i]));
    forall i | 0 <= i < |totals|
      ensures 0 < totals[i] && totals[i] % 8 == 0
    {
      TotalIsEnough(sizes[i]);
    }
    FreshOk();
    ReversalFrom(Fresh, totals);
  }

  lemma SplitSingle(b: Block, live: map<nat, nat>, total: nat)
    requires 0 < total && total + HEADER + 8 <= b.size
    ensures Alloc(Heap([b], live), total)
         == (Heap([Block(b.off + total, b.size - total)], live[b.off := total]), Granted(b.off))
  {
    hide Coalesce;
    assert FirstFit([b], total) == 0;
    assert Drop([b], 0) == [];
    CoalesceOne(Block(b.off + total, b.size - total));
  }

  lemma CoalesceParted(b: Block, s: seq<Block>)
    requires s != [] && b.End() != s[0].off && Coalesce(s) == s
    ensures Coalesce([b] + s) == [b] + s
  {
    assert ([b] + s)[1..] == s;
  }

  /** In the order of allocation it does not: neighbours are merged only when the list has them
      in address order.  Two blocks freed first-in-first-out leave the pool in three pieces. */
  lemma ForwardFreesFragment()
    ensures var (h, offs) := AllocAll(Fresh, [16, 16]);
      && offs == [0, 16] && offs[0] in h.live && offs[1] in Free(h, offs[0]).live
      && Free(Free(h, offs[0]), offs[1]) == Heap([Block(16, 16), Block(0, 16), Block(32, POOL_SIZE - 32)], map[])
  {
    hide Alloc, Coalesce;
    var last := Block(32, POOL_SIZE - 32);
    SplitSingle(Block(0, POOL_SIZE), map[], 16);
    SplitSingle(Block(16, POOL_SIZE - 16), map[0 := 16], 16);
    var h := Heap([last], map[0 := 16, 16 := 16]);
    var once, twice: seq<nat> := [16], [16, 16];
    assert twice[1..] == once && once[1..] == [];
    var h1 := Heap([Block(16, POOL_SIZE - 16)], map[0 := 16]);
    assert map[0 := 16][16 := 16] == h.live;
    assert Alloc(h1, once[0]) == (h, Granted(16));
    assert [16] + AllocAll(h, once[1..]).1 == once;
    assert AllocAll(h1, once) == (h, once);
    assert Alloc(Fresh, twice[0]) == (h1, Granted(0));
    assert AllocAll(Fresh, twice) == (h, [0] + [16]);
    CoalesceOne(last);
    assert [last] + [] == [last];
    CoalesceParted(Block(0, 16), [last]);
    assert [Block(0, 16)] + [last] == [Block(0, 16), last];
    CoalesceParted(Block(16, 16), [Block(0, 16), last]);
    assert [Block(16, 16)] + [Block(0, 16), last] == [Block(16, 16), Block(0, 16), last];
    assert h.live - {0} == map[16 := 16] && map[16 := 16] - {16} == map[];
  }

  // ---------------------------------------------------------------- any use of the heap

  lemma TakeKeepsHeap(h: Heap, size: nat)
    requires HeapOk(h) && RequestOk(h, size)
    ensures HeapOk(Take(h, size).0)
  {
    hide HeapOk, Alloc;
    if size > 0 {
      TotalIsEnough(size);
      AllocKeepsHeap(h, Total(size));
    }
  }

  datatype Use = Request(size: nat) | Release(off: nat)

  ghost predicate UseLegal(h: Heap, u: Use) {
    match u
    case Request(size) => RequestOk(h, size)
    case Release(off) => off in h.live
  }

  function UseStep(h: Heap, u: Use): (h': Heap)
    requires HeapOk(h) && UseLegal(h, u)
    ensures HeapOk(h')
  {
    match u
    case Request(size) => TakeKeepsHeap(h, size); Take(h, size).0
    case Release(off) => FreeKeepsHeap(h, off); Free(h, off)
  }

  ghost predicate LegalUses(h: Heap, uses: seq<Use>)
    requires HeapOk(h)
    decreases |uses|
  {
    uses != [] ==> UseLegal(h, uses[0]) && LegalUses(UseStep(h, uses[0]), uses[1..])
  }

  /** The heap after any use of it; the blocks still tile the pool. */
  function AfterUses(h: Heap, uses: seq<Use>): (h': Heap)
    requires HeapOk(h) && LegalUses(h, uses)
    ensures HeapOk(h')
    decreases |uses|
  {
    if uses == [] then h else AfterUses(UseStep(h, uses[0]), uses[1..])
  }
}
