/** Rings and lists as links in memory: a link field is a map from the address of a task control
    block to the address it holds, and a sequence is what the links spell out. */
module Links {
  import opened Types
  import opened Lists

  type LinkField = map<Addr, Addr>

  /** The circular list of `ring`, entered at head; head is NULL when it is empty. */
  ghost predicate RingLinked(next: LinkField, head: Addr, ring: seq<Addr>) {
    && NULL !in ring && NoDup(ring)
    && head == (if ring == [] then NULL else ring[0])
    && (forall i :: 0 <= i < |ring| ==> ring[i] in next)
    && (forall i :: 0 <= i < |ring| - 1 ==> next[ring[i]] == ring[i + 1])
    && (ring != [] ==> next[ring[|ring| - 1]] == ring[0])
  }

  /** The NULL-terminated list of `list` with its head and tail pointers. */
  ghost predicate ListLinked(next: LinkField, head: Addr, tail: Addr, list: seq<Addr>) {
    && NULL !in list && NoDup(list)
    && head == (if list == [] then NULL else list[0])
    && tail == (if list == [] then NULL else list[|list| - 1])
    && (forall i :: 0 <= i < |list| ==> list[i] in next)
    && (forall i :: 0 <= i < |list| - 1 ==> next[list[i]] == list[i + 1])
    && (list != [] ==> next[list[|list| - 1]] == NULL)
  }

  lemma RingFrame(next: LinkField, next': LinkField, head: Addr, ring: seq<Addr>)
    requires RingLinked(next, head, ring)
    requires forall t :: t in ring ==> t in next' && next'[t] == next[t]
    ensures RingLinked(next', head, ring)
  {
  }

  lemma ListFrame(next: LinkField, next': LinkField, head: Addr, tail: Addr, list: seq<Addr>)
    requires ListLinked(next, head, tail, list)
    requires forall t :: t in list ==> t in next' && next'[t] == next[t]
    ensures ListLinked(next', head, tail, list)
  {
  }

  /** Only the last node of a ring points back at its head. */
  lemma RingEnd(next: LinkField, head: Addr, ring: seq<Addr>, i: nat)
    requires RingLinked(next, head, ring) && i < |ring|
    ensures ring[i] in next && (next[ring[i]] == head <==> i == |ring| - 1)
    ensures i < |ring| - 1 ==> next[ring[i]] == ring[i + 1]
  {
    if i < |ring| - 1 {
      assert ring[0] != ring[i + 1];
    }
  }

  lemma RingInserted(next: LinkField, head: Addr, ring: seq<Addr>, t: Addr)
    requires RingLinked(next, head, ring) && ring != [] && t !in ring && t != NULL
    ensures RingLinked(next[ring[|ring| - 1] := t][t := head], head, ring + [t])
  {
    AppendMembers(ring, t);
  }

  /** Inserting a node that is in the ring already leaves the ring up to that node. */
  lemma RingReinserted(next: LinkField, head: Addr, ring: seq<Addr>, i: nat)
    requires RingLinked(next, head, ring) && i < |ring|
    ensures RingLinked(next[ring[|ring| - 1] := ring[i]][ring[i] := head], head, ring[..i + 1])
  {
  }

  /** In particular the node is not in the ring twice: no links make such a ring. */
  lemma NoRingHoldsTwice(next: LinkField, head: Addr, ring: seq<Addr>, t: Addr)
    requires t in ring
    ensures !RingLinked(next, head, ring + [t])
  {
    var i :| 0 <= i < |ring| && ring[i] == t;
    assert (ring + [t])[i] == (ring + [t])[|ring|];
  }

  lemma RingSingle(next: LinkField, t: Addr)
    requires t != NULL
    ensures RingLinked(next[t := t], t, [t])
  {
  }

  /** Unlinking a node other than the head: its predecessor skips it. */
  lemma RingSkipped(next: LinkField, head: Addr, ring: seq<Addr>, i: nat)
    requires RingLinked(next, head, ring) && 0 < i < |ring|
    ensures RingLinked(next[ring[i - 1] := next[ring[i]]][ring[i] := NULL], head, Without(ring, ring[i]))
  {
    WithoutAt(ring, i);
    WithoutMembers(ring, ring[i]);
  }

  /** Unlinking the head of a ring of two or more: the last node points at the new head. */
  lemma RingBeheaded(next: LinkField, head: Addr, ring: seq<Addr>)
    requires RingLinked(next, head, ring) && |ring| > 1
    ensures RingLinked(next[ring[|ring| - 1] := next[head]][head := NULL], next[head], Without(ring, head))
  {
    WithoutHead(ring);
    WithoutMembers(ring, head);
  }

  /** Moving the entry point one node on. */
  lemma RingRotated(next: LinkField, head: Addr, ring: seq<Addr>)
    requires RingLinked(next, head, ring) && ring != []
    ensures RingLinked(next, next[head], ring[1..] + [ring[0]])
  {
    var r := ring[1..] + [ring[0]];
    assert forall i :: 0 <= i < |ring| - 1 ==> r[i] == ring[i + 1];
  }

  lemma ListSingle(next: LinkField, t: Addr)
    requires t != NULL
    ensures ListLinked(next[t := NULL], t, t, [t])
  {
  }

  lemma ListAppended(next: LinkField, head: Addr, tail: Addr, list: seq<Addr>, t: Addr)
    requires ListLinked(next, head, tail, list) && list != [] && t !in list && t != NULL
    ensures ListLinked(next[t := NULL][tail := t], head, t, list + [t])
  {
    AppendMembers(list, t);
  }

  lemma ListSkipped(next: LinkField, head: Addr, tail: Addr, list: seq<Addr>, i: nat)
    requires ListLinked(next, head, tail, list) && 0 < i < |list|
    ensures ListLinked(next[list[i - 1] := next[list[i]]][list[i] := NULL], head,
                       if list[i] == tail then list[i - 1] else tail, Without(list, list[i]))
  {
    WithoutAt(list, i);
    WithoutMembers(list, list[i]);
  }

  lemma ListBeheaded(next: LinkField, head: Addr, tail: Addr, list: seq<Addr>)
    requires ListLinked(next, head, tail, list) && list != []
    ensures ListLinked(next[head := NULL], next[head], if next[head] == NULL then NULL else tail, Without(list, head))
  {
    WithoutHead(list);
    WithoutMembers(list, head);
  }

  // ---------------------------------------------------------------- families that share a link field

  /** Rings that share one link field and no node. */
  ghost predicate AllRings(next: LinkField, heads: seq<Addr>, rings: seq<seq<Addr>>) {
    && |heads| == |rings|
    && (forall p :: 0 <= p < |rings| ==> RingLinked(next, heads[p], rings[p]))
    && (forall p, q, t :: 0 <= p < q < |rings| && t in rings[p] ==> t !in rings[q])
  }

  /** Lists that share one link field and no node. */
  ghost predicate AllLists<K>(next: LinkField, heads: map<K, Addr>, tails: map<K, Addr>, lists: map<K, seq<Addr>>) {
    && heads.Keys == tails.Keys == lists.Keys
    && (forall w :: w in lists ==> ListLinked(next, heads[w], tails[w], lists[w]))
    && (forall v, w, t :: v in lists && w in lists && v != w && t in lists[v] ==> t !in lists[w])
  }

  /** next' differs from next at most at x and y. */
  ghost predicate WritesOnly(next: LinkField, next': LinkField, x: Addr, y: Addr) {
    forall t :: t in next && t != x && t != y ==> t in next' && next'[t] == next[t]
  }

  ghost predicate InNoRing(rings: seq<seq<Addr>>, t: Addr) {
    forall p :: 0 <= p < |rings| ==> t !in rings[p]
  }

  ghost predicate InNoOtherRing(rings: seq<seq<Addr>>, b: nat, t: Addr) {
    forall p :: 0 <= p < |rings| && p != b ==> t !in rings[p]
  }

  lemma InNone(rings: seq<seq<Addr>>, b: nat, t: Addr)
    requires InNoRing(rings, t)
    ensures InNoOtherRing(rings, b, t) && (b < |rings| ==> t !in rings[b])
  {
  }

  ghost predicate InNoList<K>(lists: map<K, seq<Addr>>, t: Addr) {
    forall w :: w in lists ==> t !in lists[w]
  }

  /** Replacing ring b by one made of its nodes and of x and y, which no other ring has. */
  lemma RingReplaced(next: LinkField, heads: seq<Addr>, rings: seq<seq<Addr>>, b: nat,
                     next': LinkField, head: Addr, ring: seq<Addr>, x: Addr, y: Addr)
    requires AllRings(next, heads, rings) && b < |rings|
    requires RingLinked(next', head, ring) && WritesOnly(next, next', x, y)
    requires forall t :: t in ring ==> t in rings[b] || t == x || t == y
    requires forall p :: 0 <= p < |rings| && p != b ==> x !in rings[p] && y !in rings[p]
    ensures AllRings(next', heads[b := head], rings[b := ring])
  {
    forall p | 0 <= p < |rings| && p != b
      ensures RingLinked(next', heads[p], rings[p])
    {
      RingFrame(next, next', heads[p], rings[p]);
    }
  }

  lemma ListReplaced<K>(next: LinkField, heads: map<K, Addr>, tails: map<K, Addr>, lists: map<K, seq<Addr>>, b: K,
                        next': LinkField, head: Addr, tail: Addr, list: seq<Addr>, x: Addr, y: Addr)
    requires AllLists(next, heads, tails, lists) && b in lists
    requires ListLinked(next', head, tail, list) && WritesOnly(next, next', x, y)
    requires forall t :: t in list ==> t in lists[b] || t == x || t == y
    requires forall w :: w in lists && w != b ==> x !in lists[w] && y !in lists[w]
    ensures AllLists(next', heads[b := head], tails[b := tail], lists[b := list])
  {
    forall w | w in lists
      ensures ListLinked(next', heads[b := head][w], tails[b := tail][w], lists[b := list][w])
    {
      if w != b {
        ListFrame(next, next', heads[w], tails[w], lists[w]);
      }
    }
  }

  lemma RingHead(next: LinkField, heads: seq<Addr>, rings: seq<seq<Addr>>, p: nat)
    requires AllRings(next, heads, rings) && p < |rings|
    ensures p < |heads| && RingLinked(next, heads[p], rings[p])
    ensures heads[p] == NULL <==> rings[p] == []
    ensures rings[p] != [] ==> heads[p] == rings[p][0] && heads[p] in next
  {
    assert RingLinked(next, heads[p], rings[p]);
  }

  lemma RingApart(next: LinkField, heads: seq<Addr>, rings: seq<seq<Addr>>, b: nat, t: Addr)
    requires AllRings(next, heads, rings) && b < |rings| && t in rings[b]
    ensures forall p :: 0 <= p < |rings| && p != b ==> t !in rings[p]
  {
  }

  /** A node taken out of its ring is in none. */
  lemma LeavesAllRings(next: LinkField, heads: seq<Addr>, rings: seq<seq<Addr>>, b: nat, t: Addr)
    requires AllRings(next, heads, rings) && b < |rings| && t in rings[b]
    ensures InNoRing(rings[b := Without(rings[b], t)], t)
  {
    assert RingLinked(next, heads[b], rings[b]);
    WithoutMembers(rings[b], t);
  }

  lemma ListAt<K>(next: LinkField, heads: map<K, Addr>, tails: map<K, Addr>, lists: map<K, seq<Addr>>, b: K)
    requires AllLists(next, heads, tails, lists) && b in lists
    ensures b in heads && b in tails && ListLinked(next, heads[b], tails[b], lists[b])
  {
  }

  lemma ListApart<K>(next: LinkField, heads: map<K, Addr>, tails: map<K, Addr>, lists: map<K, seq<Addr>>, b: K, t: Addr)
    requires AllLists(next, heads, tails, lists) && b in lists && t in lists[b]
    ensures forall w :: w in lists && w != b ==> t !in lists[w]
  {
  }

  lemma NoLists<K>(next: LinkField, keys: set<K>)
    ensures AllLists(next, map w | w in keys :: NULL, map w | w in keys :: NULL, map w | w in keys :: [])
  {
  }

  lemma ListParts(next: LinkField, head: Addr, tail: Addr, list: seq<Addr>)
    requires ListLinked(next, head, tail, list)
    ensures NULL !in list && NoDup(list)
    ensures head == NULL <==> list == []
    ensures list != [] ==> head == list[0] && tail == list[|list| - 1]
    ensures forall t :: t in list ==> t in next
  {
  }

  /** Appending to one of the lists. */
  lemma AppendedAll<K>(next: LinkField, heads: map<K, Addr>, tails: map<K, Addr>, lists: map<K, seq<Addr>>, b: K, t: Addr)
    requires AllLists(next, heads, tails, lists) && b in lists && t != NULL && InNoList(lists, t)
    ensures b in heads && b in tails && (heads[b] == NULL <==> lists[b] == [])
    ensures var next' := if heads[b] == NULL then next[t := NULL] else next[t := NULL][tails[b] := t];
      AllLists(next', heads[b := if heads[b] == NULL then t else heads[b]], tails[b := t], lists[b := lists[b] + [t]])
  {
    hide AllLists, ListLinked, NoDup;
    ListAt(next, heads, tails, lists, b);
    ListParts(next, heads[b], tails[b], lists[b]);
    if heads[b] == NULL {
      assert lists[b] + [t] == [t];
      ListSingle(next, t);
      ListReplaced(next, heads, tails, lists, b, next[t := NULL], t, t, [t], t, t);
    } else {
      ListAppended(next, heads[b], tails[b], lists[b], t);
      ListApart(next, heads, tails, lists, b, tails[b]);
      ListReplaced(next, heads, tails, lists, b, next[t := NULL][tails[b] := t], heads[b], t, lists[b] + [t], tails[b], t);
    }
  }

  /** Taking the first node off one of the lists. */
  lemma BeheadedAll<K>(next: LinkField, heads: map<K, Addr>, tails: map<K, Addr>, lists: map<K, seq<Addr>>, b: K)
    requires AllLists(next, heads, tails, lists) && b in lists && lists[b] != []
    ensures b in heads && b in tails && heads[b] == lists[b][0] && heads[b] in next
    ensures AllLists(next[heads[b] := NULL], heads[b := next[heads[b]]],
                     tails[b := if next[heads[b]] == NULL then NULL else tails[b]],
                     lists[b := Without(lists[b], heads[b])])
  {
    hide AllLists, ListLinked, NoDup, Without;
    ListAt(next, heads, tails, lists, b);
    var t := heads[b];
    ListParts(next, t, tails[b], lists[b]);
    ListBeheaded(next, t, tails[b], lists[b]);
    WithoutMembers(lists[b], t);
    ListApart(next, heads, tails, lists, b, t);
    ListReplaced(next, heads, tails, lists, b, next[t := NULL], next[t],
                 if next[t] == NULL then NULL else tails[b], Without(lists[b], t), t, t);
  }

  /** Taking another node off one of the lists. */
  lemma SkippedAll<K>(next: LinkField, heads: map<K, Addr>, tails: map<K, Addr>, lists: map<K, seq<Addr>>, b: K, t: Addr)
    requires AllLists(next, heads, tails, lists) && b in lists && t in lists[b] && t != lists[b][0]
    ensures t in next && b in tails
    ensures var prev := lists[b][IndexOf(lists[b], t) - 1];
      AllLists(next[prev := next[t]][t := NULL], heads, tails[b := if t == tails[b] then prev else tails[b]],
               lists[b := Without(lists[b], t)])
  {
    hide AllLists, ListLinked, NoDup, Without, IndexOf;
    ListAt(next, heads, tails, lists, b);
    ListParts(next, heads[b], tails[b], lists[b]);
    SkippedAt(next, heads, tails, lists, b, IndexOf(lists[b], t));
  }

  lemma SkippedAt<K>(next: LinkField, heads: map<K, Addr>, tails: map<K, Addr>, lists: map<K, seq<Addr>>, b: K, i: nat)
    requires AllLists(next, heads, tails, lists) && b in lists && 0 < i < |lists[b]|
    ensures lists[b][i] in next && b in tails
    ensures var prev, t := lists[b][i - 1], lists[b][i];
      AllLists(next[prev := next[t]][t := NULL], heads, tails[b := if t == tails[b] then prev else tails[b]],
               lists[b := Without(lists[b], t)])
  {
    hide AllLists, ListLinked, NoDup, Without;
    ListAt(next, heads, tails, lists, b);
    ListParts(next, heads[b], tails[b], lists[b]);
    var list, prev, t := lists[b], lists[b][i - 1], lists[b][i];
    ListSkipped(next, heads[b], tails[b], list, i);
    WithoutMembers(list, t);
    ListApart(next, heads, tails, lists, b, t);
    ListApart(next, heads, tails, lists, b, prev);
    ListReplaced(next, heads, tails, lists, b, next[prev := next[t]][t := NULL], heads[b],
                 if t == tails[b] then prev else tails[b], Without(list, t), prev, t);
    assert heads[b := heads[b]] == heads;
  }

  /** The walk to the last node of a ring. */
  method RingTail(next: LinkField, head: Addr, ghost ring: seq<Addr>) returns (tail: Addr)
    requires RingLinked(next, head, ring) && ring != []
    ensures tail == ring[|ring| - 1]
  {
    tail := head;
    ghost var i := 0;
    RingEnd(next, head, ring, 0);
    while next[tail] != head
      invariant 0 <= i < |ring| && tail == ring[i] && tail in next
      decreases |ring| - i
    {
      RingEnd(next, head, ring, i);
      tail := next[tail];
      i := i + 1;
      RingEnd(next, head, ring, i);
    }
    RingEnd(next, head, ring, i);
  }

  /** The walk that looks for t in a ring, as scheduler_remove_task makes it: prev is the node
      before t, or NULL when t is the head. */
  method RingFind(next: LinkField, head: Addr, t: Addr, ghost ring: seq<Addr>) returns (found: bool, prev: Addr)
    requires RingLinked(next, head, ring) && ring != []
    ensures found == (t in ring)
    ensures found ==> prev == (if t == ring[0] then NULL else ring[IndexOf(ring, t) - 1])
  {
    prev := NULL;
    var walk := head;
    ghost var i := 0;
    while walk != t
      invariant 0 <= i < |ring| && walk == ring[i]
      invariant prev == (if i == 0 then NULL else ring[i - 1])
      invariant forall j :: 0 <= j < i ==> ring[j] != t
      decreases |ring| - i
    {
      RingEnd(next, head, ring, i);
      prev := walk;
      walk := next[walk];
      if walk == head {
        return false, prev;
      }
      i := i + 1;
    }
    assert IndexOf(ring, t) == i;
    found := true;
  }

  /** The walk that looks for t in a wait list. */
  method ListFind(next: LinkField, head: Addr, ghost tail: Addr, t: Addr, ghost list: seq<Addr>)
    returns (found: bool, prev: Addr)
    requires ListLinked(next, head, tail, list) && t != NULL
    ensures found == (t in list)
    ensures found ==> prev == (if t == list[0] then NULL else list[IndexOf(list, t) - 1])
  {
    prev := NULL;
    var walk := head;
    ghost var i := 0;
    while walk != NULL
      invariant 0 <= i <= |list| && walk == (if i == |list| then NULL else list[i])
      invariant prev == (if i == 0 then NULL else list[i - 1])
      invariant forall j :: 0 <= j < i ==> list[j] != t
      decreases |list| - i
    {
      if walk == t {
        assert IndexOf(list, t) == i;
        return true, prev;
      }
      prev := walk;
      walk := next[walk];
      i := i + 1;
    }
    found := false;
  }
}
