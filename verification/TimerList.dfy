/** The timer service in its own form: timer objects threaded through their link field. */
module TimerList {
  import opened Types
  import opened Lists
  import opened Links
  import opened TimerModel
  import opened TimerTick

  ghost function LastOf(list: seq<Addr>): Addr {
    if list == [] then NULL else list[|list| - 1]
  }

  ghost function At(list: seq<Addr>, i: nat): Addr {
    if i < |list| then list[i] else NULL
  }

  lemma InsertedFirst(next: LinkField, head: Addr, list: seq<Addr>, t: Addr)
    requires ListLinked(next, head, LastOf(list), list) && t !in list && t != NULL
    ensures ListLinked(next[t := head], t, LastOf([t] + list), [t] + list)
  {
    var r := [t] + list;
    assert forall i :: 1 <= i < |r| ==> r[i] == list[i - 1];
  }

  /** Between the nodes at i - 1 and i. */
  lemma InsertedAfter(next: LinkField, head: Addr, list: seq<Addr>, i: nat, t: Addr)
    requires ListLinked(next, head, LastOf(list), list) && t !in list && t != NULL && 0 < i <= |list|
    ensures var r := list[..i] + [t] + list[i..];
      ListLinked(next[t := At(list, i)][list[i - 1] := t], head, LastOf(r), r)
  {
    var r, next' := list[..i] + [t] + list[i..], next[t := At(list, i)][list[i - 1] := t];
    assert forall j :: 0 <= j < |r| && j != i ==> r[j] == list[if j < i then j else j - 1];
    assert r[i] == t && |r| == |list| + 1;
    InsertedNoDup(list, i, t);
    forall j | 0 <= j < |r|
      ensures r[j] in next' && next'[r[j]] == At(r, j + 1)
    {
      var l := if j < i then j else j - 1;
      if j != i && j != i - 1 {
        assert next'[r[j]] == next[list[l]] == At(list, l + 1);
      }
    }
  }

  lemma InsertedNoDup(list: seq<Addr>, i: nat, t: Addr)
    requires NoDup(list) && t !in list && i <= |list|
    ensures NoDup(list[..i] + [t] + list[i..])
  {
    var r := list[..i] + [t] + list[i..];
    assert forall j :: 0 <= j < |r| && j != i ==> r[j] == list[if j < i then j else j - 1];
  }

  // ---------------------------------------------------------------- what a start writes

  /** The nodes that the walk of _insert_sorted can reach once the link of t is cleared. */
  ghost function Walkable(list: seq<Addr>, t: Addr): seq<Addr> {
    if t in list then list[..IndexOf(list, t) + 1] else list
  }

  /** The links _insert_sorted writes when its walk stops between prev and curr, and the new head. */
  function InsertedLinks(next: LinkField, head: Addr, prev: Addr, curr: Addr, t: Addr): (LinkField, Addr) {
    if prev == NULL then (next[t := head], t) else (next[t := curr][prev := t], head)
  }

  /** The links after a start of t: its link is cleared, the walk goes over the nodes `walk` and
      stops where t belongs by expiry. */
  ghost function StartedLinks(next: LinkField, head: Addr, mem: map<Addr, Timer>, walk: seq<Addr>, t: Addr): (LinkField, Addr)
    requires InMem(mem, walk) && t in mem
  {
    var i := Place(mem, walk, t);
    InsertedLinks(next[t := NULL], head, if i == 0 then NULL else walk[i - 1], At(walk, i), t)
  }

  lemma WalkableIs(list: seq<Addr>, t: Addr)
    ensures t !in list ==> Walkable(list, t) == list
    ensures t in list ==> t in Walkable(list, t)
  {
    if t in list {
      assert Walkable(list, t)[IndexOf(list, t)] == t;
    }
  }

  /** Clearing the link of t leaves a list that ends at t. */
  lemma ClearedIsLinked(next: LinkField, head: Addr, list: seq<Addr>, t: Addr)
    requires ListLinked(next, head, LastOf(list), list)
    ensures ListLinked(next[t := NULL], head, LastOf(Walkable(list, t)), Walkable(list, t))
  {
    var walk := Walkable(list, t);
    assert forall i :: 0 <= i < |walk| ==> walk[i] == list[i];
  }

  /** Every node leads to a node. */
  ghost predicate Closed(next: LinkField, nodes: seq<Addr>) {
    NULL !in nodes && forall x :: x in nodes ==> x in next && next[x] in nodes
  }

  /** From such nodes no list starts, as it would have to end. */
  lemma ClosedHasNoList(next: LinkField, nodes: seq<Addr>, head: Addr, tail: Addr, list: seq<Addr>)
    requires Closed(next, nodes) && head in nodes
    ensures !ListLinked(next, head, tail, list)
  {
    if ListLinked(next, head, tail, list) {
      StaysClosed(next, nodes, head, tail, list, |list| - 1);
      assert false;
    }
  }

  lemma {:induction false} StaysClosed(next: LinkField, nodes: seq<Addr>, head: Addr, tail: Addr, list: seq<Addr>, i: nat)
    requires Closed(next, nodes) && head in nodes && ListLinked(next, head, tail, list) && i < |list|
    ensures list[i] in nodes
  {
    if i > 0 {
      StaysClosed(next, nodes, head, tail, list, i - 1);
      assert next[list[i - 1]] == list[i];
    }
  }

  /** When the walk passes over t itself, the links written make a cycle of the nodes up to t:
      through the head, in the middle, or at t alone. */
  lemma ArmedIsClosed(next: LinkField, head: Addr, mem: map<Addr, Timer>, walk: seq<Addr>, t: Addr)
    requires ListLinked(next[t := NULL], head, LastOf(walk), walk) && walk != [] && LastOf(walk) == t
    requires InMem(mem, walk) && t in mem
    ensures var (next', head') := StartedLinks(next, head, mem, walk, t); Closed(next', walk) && head' in walk
  {
    hide Place, ListLinked;
    var n, i, cleared := |walk| - 1, Place(mem, walk, t), next[t := NULL];
    ListParts(cleared, head, LastOf(walk), walk);
    assert i < n || i == n + 1;
    var (next', head') := StartedLinks(next, head, mem, walk, t);
    forall j | 0 <= j <= n
      ensures walk[j] in next' && next'[walk[j]] in walk
    {
      LinkOf(cleared, head, walk, j);
      if j < n && j + 1 != i {
        assert next'[walk[j]] == walk[j + 1];
      } else if j == n {
        assert next'[walk[j]] == if i == 0 then walk[0] else if i < n then walk[i] else t;
      } else {
        assert next'[walk[j]] == t;
      }
    }
  }

  lemma LinkOf(next: LinkField, head: Addr, list: seq<Addr>, j: nat)
    requires ListLinked(next, head, LastOf(list), list) && j < |list|
    ensures list[j] in next && next[list[j]] == At(list, j + 1)
    ensures j < |list| - 1 ==> list[j] != LastOf(list)
  {
  }

  /** The links after a start of t spell out some list if and only if t was not armed: for any list
      and any t, wherever the walk stops. */
  lemma StartKeepsLinksIff(next: LinkField, head: Addr, list: seq<Addr>, mem: map<Addr, Timer>, t: Addr)
    requires ListLinked(next, head, LastOf(list), list) && InMem(mem, list) && t in mem && t != NULL
    ensures InMem(mem, Walkable(list, t))
    ensures var (next', head') := StartedLinks(next, head, mem, Walkable(list, t), t);
      (exists tail, l :: ListLinked(next', head', tail, l)) <==> t !in list
  {
    hide ListLinked, Place, Insert;
    ClearedIsLinked(next, head, list, t);
    var walk := Walkable(list, t);
    var (next', head') := StartedLinks(next, head, mem, walk, t);
    if t in list {
      ArmedIsClosed(next, head, mem, walk, t);
      forall tail, l
        ensures !ListLinked(next', head', tail, l)
      {
        ClosedHasNoList(next', walk, head', tail, l);
      }
    } else {
      NewIsLinked(next[t := NULL], head, list, mem, t);
    }
  }

  /** A timer that was not in the list is linked in where it belongs. */
  lemma NewIsLinked(next: LinkField, head: Addr, list: seq<Addr>, mem: map<Addr, Timer>, t: Addr)
    requires ListLinked(next, head, LastOf(list), list) && InMem(mem, list) && t in mem && t != NULL && t !in list
    ensures var i, r := Place(mem, list, t), Insert(mem, list, t);
      var (next', head') := InsertedLinks(next, head, if i == 0 then NULL else list[i - 1], At(list, i), t);
      ListLinked(next', head', LastOf(r), r)
  {
    hide ListLinked, Place, Insert;
    ListParts(next, head, LastOf(list), list);
    InsertIs(mem, list, t);
    var i := Place(mem, list, t);
    if i == 0 {
      InsertedFirst(next, head, list, t);
      assert list[..0] + [t] + list[0..] == [t] + list;
    } else {
      InsertedAfter(next, head, list, i, t);
    }
  }

  class TimerService {
    var mem: map<Addr, Timer>
    var next: LinkField
    var head: Addr

    // What the links spell out.
    ghost var list: seq<Addr>

    ghost predicate Linked()
      reads this
    {
      ListLinked(next, head, LastOf(list), list)
    }

    ghost function Abs(): Timers
      reads this
    {
      Timers(mem, list)
    }

    ghost predicate Valid()
      reads this
    {
      Linked() && TimersOk(Abs())
    }

    /** sw_timer_init. */
    constructor ()
      ensures Valid() && Abs() == Timers(map[], [])
    {
      mem, next, head, list := map[], map[], NULL, [];
    }

    /** The walk of _insert_sorted. */
    method FindPlace(t: Addr) returns (prev: Addr, curr: Addr)
      requires Linked() && InMem(mem, list) && t in mem
      ensures var i := Place(mem, list, t); curr == At(list, i) && prev == if i == 0 then NULL else list[i - 1]
    {
      prev, curr := NULL, head;
      ghost var i := 0;
      while curr != NULL && mem[curr].expiry <= mem[t].expiry
        invariant 0 <= i <= |list| && curr == At(list, i) && prev == (if i == 0 then NULL else list[i - 1])
        invariant forall j :: 0 <= j < i ==> mem[list[j]].expiry <= mem[t].expiry
        decreases |list| - i
      {
        prev, curr := curr, next[curr];
        i := i + 1;
      }
      assert Place(mem, list, t) == i;
    }

    /** _insert_sorted, for any timer: what it writes, and the list when t was not in it. */
    method InsertSorted(t: Addr)
      requires Linked() && InMem(mem, list) && t in mem && t != NULL
      modifies `next, `head, `list
      ensures var i := Place(mem, old(list), t);
        (next, head) == InsertedLinks(old(next), old(head), if i == 0 then NULL else old(list)[i - 1], At(old(list), i), t)
      ensures t !in old(list) ==> Linked() && list == Insert(mem, old(list), t)
    {
      hide ListLinked, Insert, Place;
      if t !in list {
        NewIsLinked(next, head, list, mem, t);
      }
      ListParts(next, head, LastOf(list), list);
      var prev, curr := FindPlace(t);
      if prev == NULL {
        next := next[t := head];
        head := t;
      } else {
        next := next[t := curr];
        next := next[prev := t];
      }
      list := Insert(mem, list, t);
    }

    /** sw_timer_start_once and sw_timer_start_periodic, for any timer and any number of ticks.  The
        links spell out a list afterwards exactly when the timer was not armed. */
    method StartTimer(t: Addr, ticks: nat, periodic: bool, hasCallback: bool, now: nat) returns (r: Status)
      requires Valid() && now < U32_MOD && ticks < U32_MOD
      modifies this
      ensures r == if t == NULL || !hasCallback || ticks == 0 then ErrParam else Ok
      ensures r != Ok ==> Valid() && Abs() == old(Abs())
      ensures r == Ok && t !in old(list) ==> Valid() && Abs() == Start(old(Abs()), t, ticks, periodic, now)
      ensures r == Ok && t in old(list) ==> forall tail, l :: !ListLinked(next, head, tail, l)
    {
      hide ListLinked, Insert, Sorted, NoDup, Place, Walkable;
      if t == NULL || !hasCallback || ticks == 0 {
        return ErrParam;
      }
      if t !in list {
        StartIsOk(Abs(), t, ticks, periodic, now);
      }
      mem := mem[t := Timer((now + ticks) % U32_MOD, if periodic then ticks else 0, periodic, true)];
      LinkIn(t);
      r := Ok;
    }

    /** The cleared link and the insertion of a start. */
    method LinkIn(t: Addr)
      requires Linked() && InMem(mem, list) && t in mem && t != NULL
      modifies `next, `head, `list
      ensures t !in old(list) ==> Linked() && list == Insert(mem, old(list), t)
      ensures t in old(list) ==> forall tail, l :: !ListLinked(next, head, tail, l)
    {
      hide ListLinked, Insert, Place, Walkable;
      ghost var next0, head0 := next, head;
      StartKeepsLinksIff(next, head, list, mem, t);
      ClearedIsLinked(next, head, list, t);
      WalkableIs(list, t);
      next := next[t := NULL];
      list := Walkable(list, t);
      ghost var walk := list;
      InsertSorted(t);
      assert (next, head) == StartedLinks(next0, head0, mem, walk, t);
    }

    /** sw_timer_stop. */
    method StopTimer(t: Addr)
      requires Valid()
      modifies this
      ensures Valid() && Abs() == if t == NULL then old(Abs()) else Stop(old(Abs()), t)
    {
      hide Sorted, Without;
      if t == NULL {
        return;
      }
      StopKeeps(Abs(), t, 0);
      var found, prev := ListFind(next, head, LastOf(list), t, list);
      if found {
        mem := mem[t := mem[t].(active := false)];
        Unlink(t, prev);
      }
    }

    /** Takes t out of the list, once the node before it is found. */
    method Unlink(t: Addr, prev: Addr)
      requires Linked() && t in list
      requires prev == if t == list[0] then NULL else list[IndexOf(list, t) - 1]
      modifies `next, `head, `list
      ensures Linked() && list == Without(old(list), t)
    {
      hide ListLinked, Without;
      ListParts(next, head, LastOf(list), list);
      ghost var r := Without(list, t);
      if prev == NULL {
        ListBeheaded(next, head, LastOf(list), list);
        head := next[t];
        next := next[t := NULL];
        TailIsLast(next, head, r);
      } else {
        ListSkipped(next, head, LastOf(list), list, IndexOf(list, t));
        next := next[prev := next[t]];
        next := next[t := NULL];
        TailIsLast(next, head, r);
      }
      list := r;
    }

    /** sw_timer_tick_process; fired lists the callbacks in the order they run. */
    method TickProcess(now: nat) returns (fired: seq<Addr>)
      requires Valid() && NoWrap(Abs(), now)
      modifies this
      ensures Valid() && Settled(Abs(), now)
      ensures Abs() == Process(old(Abs()), now).0 && fired == Process(old(Abs()), now).1
    {
      hide ListLinked, Sorted, NoDup, Turn, NumDue;
      fired := [];
      ghost var ts0 := Abs();
      ListParts(next, head, LastOf(list), list);
      while head != NULL && mem[head].active && mem[head].expiry <= now
        invariant Valid() && NoWrap(Abs(), now) && head == At(list, 0)
        invariant Process(Abs(), now).0 == Process(ts0, now).0
        invariant fired + Process(Abs(), now).1 == Process(ts0, now).1
        decreases NumDue(mem, list, now)
      {
        TurnShrinks(Abs(), now);
        fired := fired + [head];
        FireHead(now);
        ListParts(next, head, LastOf(list), list);
      }
      ListParts(next, head, LastOf(list), list);
      NoneDue(Abs(), now);
    }

    /** One turn of the loop of sw_timer_tick_process. */
    method FireHead(now: nat)
      requires Valid() && HeadDue(Abs(), now)
      modifies this
      ensures Linked() && Abs() == Turn(old(Abs()), now)
    {
      hide ListLinked, Sorted, Insert, Without;
      ghost var rest := list[1..];
      TailOk(Abs());
      ListParts(next, head, LastOf(list), list);
      var due := head;
      WithoutHead(list);
      Unlink(due, NULL);
      mem := mem[due := Fired(mem[due], now)];
      if mem[due].periodic {
        InsertSorted(due);
      }
    }
  }

  lemma TailIsLast(next: LinkField, head: Addr, list: seq<Addr>)
    requires exists tail :: ListLinked(next, head, tail, list)
    ensures ListLinked(next, head, LastOf(list), list)
  {
  }
}
