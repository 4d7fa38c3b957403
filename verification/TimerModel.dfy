/** Software timers as values: a list sorted by expiry, the loop that consumes and refills it on
    each tick, and the schedule it gives. */
module TimerModel {
  import opened Types
  import opened Lists

  datatype Timer = Timer(expiry: nat, period: nat, periodic: bool, active: bool)

  /** Every timer object the program has, and the list of armed ones. */
  datatype Timers = Timers(mem: map<Addr, Timer>, list: seq<Addr>)

  // ---------------------------------------------------------------- the sorted list

  ghost predicate InMem(mem: map<Addr, Timer>, list: seq<Addr>) {
    forall i :: 0 <= i < |list| ==> list[i] in mem
  }

  ghost predicate Sorted(mem: map<Addr, Timer>, list: seq<Addr>)
    requires InMem(mem, list)
  {
    forall i, j :: 0 <= i < j < |list| ==> mem[list[i]].expiry <= mem[list[j]].expiry
  }

  /** _insert_sorted: after every timer that expires no later. */
  function Insert(mem: map<Addr, Timer>, list: seq<Addr>, t: Addr): (r: seq<Addr>)
    requires InMem(mem, list) && t in mem
  {
    if list == [] || mem[t].expiry < mem[list[0]].expiry then [t] + list
    else [list[0]] + Insert(mem, list[1..], t)
  }

  /** Where it goes. */
  function Place(mem: map<Addr, Timer>, list: seq<Addr>, t: Addr): (i: nat)
    requires InMem(mem, list) && t in mem
    ensures i <= |list|
    ensures forall j :: 0 <= j < i ==> mem[list[j]].expiry <= mem[t].expiry
    ensures i < |list| ==> mem[t].expiry < mem[list[i]].expiry
  {
    if list == [] || mem[t].expiry < mem[list[0]].expiry then 0
    else 1 + Place(mem, list[1..], t)
  }

  lemma {:induction false} InsertIs(mem: map<Addr, Timer>, list: seq<Addr>, t: Addr)
    requires InMem(mem, list) && t in mem
    ensures var i := Place(mem, list, t); Insert(mem, list, t) == list[..i] + [t] + list[i..]
    decreases |list|
  {
    if list != [] && mem[list[0]].expiry <= mem[t].expiry {
      InsertIs(mem, list[1..], t);
      var i := Place(mem, list[1..], t);
      assert list[1..][..i] == list[1..i + 1] && list[1..][i..] == list[i + 1..];
      assert [list[0]] + list[1..i + 1] == list[..i + 1];
    }
  }

  lemma InsertAt(mem: map<Addr, Timer>, list: seq<Addr>, t: Addr)
    requires InMem(mem, list) && t in mem
    ensures var i, r := Place(mem, list, t), Insert(mem, list, t);
      && |r| == |list| + 1 && r[i] == t
      && (forall j :: 0 <= j < |r| && j != i ==> r[j] == list[if j < i then j else j - 1])
  {
    hide Insert, Place;
    InsertIs(mem, list, t);
  }

  lemma InsertMembers(mem: map<Addr, Timer>, list: seq<Addr>, t: Addr)
    requires InMem(mem, list) && t in mem
    ensures InMem(mem, Insert(mem, list, t)) && |Insert(mem, list, t)| == |list| + 1
    ensures forall u :: u in Insert(mem, list, t) <==> u in list || u == t
  {
    hide Insert, Place;
    InsertAt(mem, list, t);
    var i, r := Place(mem, list, t), Insert(mem, list, t);
    forall u | u in list
      ensures u in r
    {
      var j :| 0 <= j < |list| && list[j] == u;
      assert r[if j < i then j else j + 1] == u;
    }
  }

  /** The list stays sorted, and timers with the same expiry stay in insertion order. */
  lemma InsertSorts(mem: map<Addr, Timer>, list: seq<Addr>, t: Addr)
    requires InMem(mem, list) && t in mem && Sorted(mem, list)
    ensures InMem(mem, Insert(mem, list, t)) && Sorted(mem, Insert(mem, list, t))
  {
    hide Insert, Place;
    InsertAt(mem, list, t);
    InsertMembers(mem, list, t);
    var i, r := Place(mem, list, t), Insert(mem, list, t);
    forall j, l | 0 <= j < l < |r|
      ensures mem[r[j]].expiry <= mem[r[l]].expiry
    {
      var j', l' := if j < i then j else j - 1, if l < i then l else l - 1;
      if j == i {
        assert i == l' || mem[list[i]].expiry <= mem[list[l']].expiry;
      } else if l != i {
        assert mem[list[j']].expiry <= mem[list[l']].expiry;
      }
    }
  }

  lemma InsertNoDup(mem: map<Addr, Timer>, list: seq<Addr>, t: Addr)
    requires InMem(mem, list) && t in mem && NoDup(list) && t !in list
    ensures NoDup(Insert(mem, list, t))
  {
    hide Insert, Place;
    InsertAt(mem, list, t);
  }

  /** Timers that expire no later than t are passed over. */
  lemma {:induction false} InsertPasses(mem: map<Addr, Timer>, front: seq<Addr>, back: seq<Addr>, t: Addr)
    requires InMem(mem, front) && InMem(mem, back) && t in mem
    requires forall i :: 0 <= i < |front| ==> mem[front[i]].expiry <= mem[t].expiry
    ensures InMem(mem, front + back) && Insert(mem, front + back, t) == front + Insert(mem, back, t)
    decreases |front|
  {
    if front == [] {
      assert front + back == back;
    } else {
      InsertPasses(mem, front[1..], back, t);
      assert (front + back)[1..] == front[1..] + back;
      assert [front[0]] + (front[1..] + Insert(mem, back, t)) == front + Insert(mem, back, t);
    }
  }

  // ---------------------------------------------------------------- states

  /** Armed timers are in the list once each, in order of expiry; a periodic one has a period.  A timer is
      active exactly while it is in the list. */
  ghost predicate TimersOk(ts: Timers) {
    && InMem(ts.mem, ts.list) && NoDup(ts.list) && Sorted(ts.mem, ts.list)
    && (forall t :: t in ts.list ==> ts.mem[t].periodic ==> 0 < ts.mem[t].period < U32_MOD)
    && (forall t :: t in ts.mem ==> (ts.mem[t].active <==> t in ts.list))
  }

  /** Between ticks nothing in the list is due. */
  ghost predicate Settled(ts: Timers, now: nat)
    requires InMem(ts.mem, ts.list)
  {
    forall i :: 0 <= i < |ts.list| ==> now < ts.mem[ts.list[i]].expiry
  }

  /** sw_timer_start_once and sw_timer_start_periodic. */
  function Start(ts: Timers, t: Addr, ticks: nat, periodic: bool, now: nat): Timers
    requires InMem(ts.mem, ts.list)
  {
    if ticks == 0 then ts
    else
      var mem := ts.mem[t := Timer((now + ticks) % U32_MOD, if periodic then ticks else 0, periodic, true)];
      Timers(mem, Insert(mem, ts.list, t))
  }

  function Stop(ts: Timers, t: Addr): Timers
    requires InMem(ts.mem, ts.list)
  {
    if t in ts.list then Timers(ts.mem[t := ts.mem[t].(active := false)], Without(ts.list, t)) else ts
  }

  /** Starting a timer that is not armed keeps the list in order, whatever its expiry. */
  lemma StartIsOk(ts: Timers, t: Addr, ticks: nat, periodic: bool, now: nat)
    requires TimersOk(ts) && t !in ts.list && ticks < U32_MOD
    ensures TimersOk(Start(ts, t, ticks, periodic, now))
    ensures ticks > 0 ==> forall u :: u in Start(ts, t, ticks, periodic, now).list <==> u in ts.list || u == t
  {
    hide Insert;
    if ticks > 0 {
      var ts' := Start(ts, t, ticks, periodic, now);
      InsertMembers(ts'.mem, ts.list, t);
      InsertSorts(ts'.mem, ts.list, t);
      InsertNoDup(ts'.mem, ts.list, t);
    }
  }

  /** It leaves every expiry ahead if and only if its own does not pass 32 bits. */
  lemma StartSettlesIff(ts: Timers, t: Addr, ticks: nat, periodic: bool, now: nat)
    requires TimersOk(ts) && Settled(ts, now) && t !in ts.list && 0 < ticks < U32_MOD && now < U32_MOD
    ensures TimersOk(Start(ts, t, ticks, periodic, now))
    ensures Settled(Start(ts, t, ticks, periodic, now), now) <==> now + ticks < U32_MOD
  {
    hide Insert, Sorted;
    StartIsOk(ts, t, ticks, periodic, now);
    var ts' := Start(ts, t, ticks, periodic, now);
    assert t in ts'.list;
    var j :| 0 <= j < |ts'.list| && ts'.list[j] == t;
    forall i | 0 <= i < |ts'.list| && ts'.list[i] != t
      ensures now < ts'.mem[ts'.list[i]].expiry
    {
      assert ts'.list[i] in ts'.list;
      var l :| 0 <= l < |ts.list| && ts.list[l] == ts'.list[i];
    }
  }

  lemma StartKeeps(ts: Timers, t: Addr, ticks: nat, periodic: bool, now: nat)
    requires TimersOk(ts) && Settled(ts, now) && t !in ts.list && now + ticks < U32_MOD
    ensures var ts' := Start(ts, t, ticks, periodic, now);
      && TimersOk(ts') && Settled(ts', now)
      && (ticks > 0 ==> t in ts'.list && ts'.mem[t].expiry == now + ticks && ts'.mem[t].periodic == periodic
                        && (periodic ==> ts'.mem[t].period == ticks))
      && (forall u :: u != t ==> (u in ts'.list <==> u in ts.list) && (u in ts.mem ==> u in ts'.mem && ts'.mem[u] == ts.mem[u]))
  {
    hide Insert, Sorted;
    StartIsOk(ts, t, ticks, periodic, now);
    if ticks > 0 {
      StartSettlesIff(ts, t, ticks, periodic, now);
    }
  }

  lemma WithoutIs(list: seq<Addr>, t: Addr)
    requires t in list
    ensures var i, r := IndexOf(list, t), Without(list, t);
      |r| == |list| - 1 && forall j :: 0 <= j < |r| ==> r[j] == list[if j < i then j else j + 1]
  {
    hide IndexOf;
  }

  lemma WithoutSorted(mem: map<Addr, Timer>, list: seq<Addr>, t: Addr)
    requires InMem(mem, list) && Sorted(mem, list) && t in list
    ensures InMem(mem, Without(list, t)) && Sorted(mem, Without(list, t))
  {
    hide Without, IndexOf;
    WithoutIs(list, t);
  }

  lemma SortedFrame(mem: map<Addr, Timer>, mem': map<Addr, Timer>, list: seq<Addr>)
    requires InMem(mem, list) && Sorted(mem, list) && InMem(mem', list)
    requires forall i :: 0 <= i < |list| ==> mem'[list[i]].expiry == mem[list[i]].expiry
    ensures Sorted(mem', list)
  {
  }

  lemma StopKeeps(ts: Timers, t: Addr, now: nat)
    requires TimersOk(ts)
    ensures var ts' := Stop(ts, t);
      && TimersOk(ts') && (Settled(ts, now) ==> Settled(ts', now))
      && (forall u :: u in ts'.list <==> u in ts.list && u != t)
      && (forall u :: u != t && u in ts.mem ==> u in ts'.mem && ts'.mem[u] == ts.mem[u])
  {
    hide Without, IndexOf, Sorted;
    if t in ts.list {
      var r := Without(ts.list, t);
      WithoutMembers(ts.list, t);
      WithoutSorted(ts.mem, ts.list, t);
      SortedFrame(ts.mem, Stop(ts, t).mem, r);
      forall i | Settled(ts, now) && 0 <= i < |r|
        ensures now < ts.mem[r[i]].expiry
      {
        assert r[i] in r;
        var j :| 0 <= j < |ts.list| && ts.list[j] == r[i];
      }
    }
  }
}
