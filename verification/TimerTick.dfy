/** sw_timer_tick_process: a loop that takes due timers off the front of the list and puts periodic
    ones back into it. */
module TimerTick {
  import opened Types
  import opened Lists
  import opened TimerModel

  predicate Due(mem: map<Addr, Timer>, t: Addr, now: nat)
    requires t in mem
  {
    mem[t].expiry <= now
  }

  /** The condition of the loop. */
  predicate HeadDue(ts: Timers, now: nat)
    requires InMem(ts.mem, ts.list)
  {
    ts.list != [] && ts.mem[ts.list[0]].active && Due(ts.mem, ts.list[0], now)
  }

  /** What firing does to a timer. */
  function Fired(c: Timer, now: nat): Timer {
    if c.periodic then c.(expiry := (now + c.period) % U32_MOD) else c.(active := false)
  }

  /** One turn of the loop. */
  function Turn(ts: Timers, now: nat): Timers
    requires InMem(ts.mem, ts.list) && HeadDue(ts, now)
  {
    var due, rest := ts.list[0], ts.list[1..];
    var mem := ts.mem[due := Fired(ts.mem[due], now)];
    Timers(mem, if ts.mem[due].periodic then Insert(mem, rest, due) else rest)
  }

  /** No due periodic timer has its next expiry past 32 bits. */
  ghost predicate NoWrap(ts: Timers, now: nat)
    requires InMem(ts.mem, ts.list)
  {
    forall t :: t in ts.list && Due(ts.mem, t, now) && ts.mem[t].periodic ==> now + ts.mem[t].period < U32_MOD
  }

  function NumDue(mem: map<Addr, Timer>, list: seq<Addr>, now: nat): nat
    requires InMem(mem, list)
  {
    if list == [] then 0 else (if Due(mem, list[0], now) then 1 else 0) + NumDue(mem, list[1..], now)
  }

  // ---------------------------------------------------------------- one turn

  lemma TailOk(ts: Timers)
    requires TimersOk(ts) && ts.list != []
    ensures InMem(ts.mem, ts.list[1..]) && NoDup(ts.list[1..]) && Sorted(ts.mem, ts.list[1..])
    ensures ts.list[0] !in ts.list[1..] && forall t :: t in ts.list <==> t == ts.list[0] || t in ts.list[1..]
  {
    assert ts.list == [ts.list[0]] + ts.list[1..];
  }

  lemma TurnFacts(ts: Timers, now: nat)
    requires TimersOk(ts) && HeadDue(ts, now)
    ensures var ts', due := Turn(ts, now), ts.list[0];
      && TimersOk(ts') && due in ts.mem && ts'.mem == ts.mem[due := Fired(ts.mem[due], now)]
      && (forall t :: t in ts'.list <==> t in ts.list && (t != due || ts.mem[t].periodic))
  {
    hide Insert, Sorted, NoDup;
    TailOk(ts);
    var due, rest, mem := ts.list[0], ts.list[1..], Turn(ts, now).mem;
    SortedFrame(ts.mem, mem, rest);
    if ts.mem[due].periodic {
      InsertMembers(mem, rest, due);
      InsertSorts(mem, rest, due);
      InsertNoDup(mem, rest, due);
    }
  }

  lemma {:induction false} NumDueFrame(mem: map<Addr, Timer>, mem': map<Addr, Timer>, list: seq<Addr>, now: nat)
    requires InMem(mem, list) && InMem(mem', list)
    requires forall i :: 0 <= i < |list| ==> mem'[list[i]].expiry == mem[list[i]].expiry
    ensures NumDue(mem', list, now) == NumDue(mem, list, now)
    decreases |list|
  {
    if list != [] {
      NumDueFrame(mem, mem', list[1..], now);
    }
  }

  lemma {:induction false} NumDueInsert(mem: map<Addr, Timer>, list: seq<Addr>, t: Addr, now: nat)
    requires InMem(mem, list) && t in mem
    ensures InMem(mem, Insert(mem, list, t))
    ensures NumDue(mem, Insert(mem, list, t), now) == NumDue(mem, list, now) + if Due(mem, t, now) then 1 else 0
    decreases |list|
  {
    InsertMembers(mem, list, t);
    if list == [] || mem[t].expiry < mem[list[0]].expiry {
      assert ([t] + list)[1..] == list;
    } else {
      NumDueInsert(mem, list[1..], t, now);
      assert Insert(mem, list, t)[1..] == Insert(mem, list[1..], t);
    }
  }

  /** The measure of the loop: each turn leaves one due timer fewer. */
  lemma TurnShrinks(ts: Timers, now: nat)
    requires TimersOk(ts) && HeadDue(ts, now) && NoWrap(ts, now)
    ensures TimersOk(Turn(ts, now)) && NoWrap(Turn(ts, now), now)
    ensures NumDue(Turn(ts, now).mem, Turn(ts, now).list, now) == NumDue(ts.mem, ts.list, now) - 1
  {
    hide Insert, Sorted, NoDup;
    TurnFacts(ts, now);
    TailOk(ts);
    var due, rest, mem := ts.list[0], ts.list[1..], Turn(ts, now).mem;
    NumDueFrame(ts.mem, mem, rest, now);
    if ts.mem[due].periodic {
      NumDueInsert(mem, rest, due, now);
    }
  }

  // ---------------------------------------------------------------- the loop

  /** The whole loop, with the timers whose callbacks it runs, in order. */
  function Process(ts: Timers, now: nat): (r: (Timers, seq<Addr>))
    requires TimersOk(ts) && NoWrap(ts, now)
    decreases NumDue(ts.mem, ts.list, now)
  {
    if !HeadDue(ts, now) then (ts, [])
    else
      TurnShrinks(ts, now);
      var (ts', fired) := Process(Turn(ts, now), now);
      (ts', [ts.list[0]] + fired)
  }

  /** How many timers at the front of the list are due. */
  function DuePrefix(mem: map<Addr, Timer>, list: seq<Addr>, now: nat): (d: nat)
    requires InMem(mem, list)
    ensures d <= |list|
    ensures forall i :: 0 <= i < d ==> Due(mem, list[i], now)
    ensures d < |list| ==> !Due(mem, list[d], now)
  {
    if list == [] || !Due(mem, list[0], now) then 0 else 1 + DuePrefix(mem, list[1..], now)
  }

  /** In a sorted list the due timers are the ones in front. */
  lemma PrefixMembers(ts: Timers, now: nat, t: Addr)
    requires TimersOk(ts)
    ensures var front := ts.list[..DuePrefix(ts.mem, ts.list, now)];
      NoDup(front) && (t in front <==> t in ts.list && Due(ts.mem, t, now))
  {
    var l, d := ts.list, DuePrefix(ts.mem, ts.list, now);
    if t in l && Due(ts.mem, t, now) {
      var i :| 0 <= i < |l| && l[i] == t;
      assert l[..d][i] == t;
    }
  }

  lemma PrefixIs(mem: map<Addr, Timer>, front: seq<Addr>, back: seq<Addr>, now: nat)
    requires InMem(mem, front) && InMem(mem, back)
    requires forall i :: 0 <= i < |front| ==> Due(mem, front[i], now)
    requires back != [] ==> !Due(mem, back[0], now)
    ensures InMem(mem, front + back) && DuePrefix(mem, front + back, now) == |front|
  {
    var list := front + back;
    assert forall i :: 0 <= i < |front| ==> list[i] == front[i];
    assert back != [] ==> list[|front|] == back[0];
  }

  /** What is left of the list behind the due timers. */
  function BackOf(mem: map<Addr, Timer>, back: seq<Addr>, due: Addr): seq<Addr>
    requires InMem(mem, back) && due in mem
  {
    if mem[due].periodic then Insert(mem, back, due) else back
  }

  lemma BackNotDue(mem: map<Addr, Timer>, back: seq<Addr>, due: Addr, now: nat)
    requires InMem(mem, back) && due in mem
    requires (back != [] ==> !Due(mem, back[0], now)) && (mem[due].periodic ==> !Due(mem, due, now))
    ensures var r := BackOf(mem, back, due); InMem(mem, r) && (r != [] ==> !Due(mem, r[0], now))
  {
    InsertAt(mem, back, due);
  }

  lemma TurnBack(ts: Timers, now: nat, front: seq<Addr>, back: seq<Addr>)
    requires TimersOk(ts) && HeadDue(ts, now) && NoWrap(ts, now) && ts.list[1..] == front + back
    requires InMem(ts.mem, front) && InMem(ts.mem, back)
    requires forall i :: 0 <= i < |front| ==> Due(ts.mem, front[i], now)
    ensures var mem, due := Turn(ts, now).mem, ts.list[0];
      && InMem(mem, front) && InMem(mem, back) && due in mem && (mem[due].periodic ==> !Due(mem, due, now))
      && Turn(ts, now).list == front + BackOf(mem, back, due)
  {
    hide Sorted, NoDup, Insert;
    TailOk(ts);
    assert forall i :: 0 <= i < |front| ==> front[i] == ts.list[1..][i];
    var mem, due := Turn(ts, now).mem, ts.list[0];
    if ts.mem[due].periodic {
      InsertPasses(mem, front, back, due);
    }
  }

  /** The list behind its head: the other due timers, then the rest. */
  lemma CutTail(ts: Timers, now: nat)
    requires TimersOk(ts) && HeadDue(ts, now)
    ensures var d, l := DuePrefix(ts.mem, ts.list, now), ts.list;
      && 0 < d <= |l| && l[1..] == l[1..d] + l[d..] && InMem(ts.mem, l[1..d]) && InMem(ts.mem, l[d..])
      && (forall i :: 0 <= i < |l[1..d]| ==> l[1..d][i] != l[0] && Due(ts.mem, l[1..d][i], now))
      && (l[d..] != [] ==> l[d..][0] != l[0] && !Due(ts.mem, l[d..][0], now))
  {
    hide Sorted;
    var d, l := DuePrefix(ts.mem, ts.list, now), ts.list;
    assert forall i :: 0 <= i < |l[1..d]| ==> l[1..d][i] == l[i + 1];
    assert forall i :: 0 <= i < |l[d..]| ==> l[d..][i] == l[i + d];
  }

  /** The timers that were due stay in front, in their order, and one of them is gone. */
  lemma TurnPrefix(ts: Timers, now: nat)
    requires TimersOk(ts) && HeadDue(ts, now) && NoWrap(ts, now)
    ensures InMem(Turn(ts, now).mem, Turn(ts, now).list)
    ensures var d, ts' := DuePrefix(ts.mem, ts.list, now), Turn(ts, now);
      && 0 < d <= |ts.list| && DuePrefix(ts'.mem, ts'.list, now) == d - 1 <= |ts'.list|
      && ts'.list[..d - 1] == ts.list[1..d]
  {
    hide Sorted, NoDup, Turn, DuePrefix, BackOf;
    CutTail(ts, now);
    var d := DuePrefix(ts.mem, ts.list, now);
    var front, back := ts.list[1..d], ts.list[d..];
    TurnBack(ts, now, front, back);
    TurnFacts(ts, now);
    var mem, due := Turn(ts, now).mem, ts.list[0];
    BackNotDue(mem, back, due, now);
    PrefixIs(mem, front, BackOf(mem, back, due), now);
  }

  /** Once the loop ends nothing in the list is due. */
  lemma NoneDue(ts: Timers, now: nat)
    requires TimersOk(ts) && !HeadDue(ts, now)
    ensures Settled(ts, now)
  {
    if ts.list != [] {
      assert ts.list[0] in ts.list;
    }
  }

  /** What the loop leaves of timer t. */
  function Left(ts: Timers, t: Addr, now: nat): Timer
    requires t in ts.mem
  {
    if t in ts.list && Due(ts.mem, t, now) then Fired(ts.mem[t], now) else ts.mem[t]
  }

  lemma SettledPrefix(ts: Timers, now: nat)
    requires InMem(ts.mem, ts.list) && Settled(ts, now)
    ensures DuePrefix(ts.mem, ts.list, now) == 0
    ensures forall t :: t in ts.list ==> t in ts.mem && !Due(ts.mem, t, now)
  {
  }

  /** A turn settles the timer it fires and leaves the others as they were. */
  lemma LeftStep(ts: Timers, now: nat)
    requires TimersOk(ts) && HeadDue(ts, now) && NoWrap(ts, now)
    ensures var ts1 := Turn(ts, now);
      && ts1.mem.Keys == ts.mem.Keys && InMem(ts1.mem, ts1.list)
      && (forall t :: t in ts.mem ==> Left(ts1, t, now) == Left(ts, t, now))
      && (forall t :: t in ts1.list && (!Due(ts1.mem, t, now) || ts1.mem[t].periodic)
            <==> t in ts.list && (!Due(ts.mem, t, now) || ts.mem[t].periodic))
  {
    hide Sorted, NoDup, Insert;
    TurnFacts(ts, now);
    assert ts.list[0] in ts.list;
  }

  /** The loop fires each due timer once, in list order, keeps exactly the timers that are periodic
      or not yet due, and re-arms the periodic ones. */
  lemma {:induction false} ProcessIs(ts: Timers, now: nat)
    requires TimersOk(ts) && NoWrap(ts, now)
    ensures var (ts', fired) := Process(ts, now);
      && fired == ts.list[..DuePrefix(ts.mem, ts.list, now)]
      && TimersOk(ts') && Settled(ts', now)
      && (forall t :: t in ts'.list <==> t in ts.list && (!Due(ts.mem, t, now) || ts.mem[t].periodic))
      && ts'.mem.Keys == ts.mem.Keys && (forall t :: t in ts.mem ==> ts'.mem[t] == Left(ts, t, now))
    decreases NumDue(ts.mem, ts.list, now)
  {
    hide Sorted, NoDup, Insert, Turn, DuePrefix;
    if !HeadDue(ts, now) {
      NoneDue(ts, now);
      SettledPrefix(ts, now);
    } else {
      TurnShrinks(ts, now);
      TurnFacts(ts, now);
      TurnPrefix(ts, now);
      var ts1 := Turn(ts, now);
      ProcessIs(ts1, now);
      var d := DuePrefix(ts.mem, ts.list, now);
      assert ts.list[..d] == [ts.list[0]] + ts.list[1..d];
      LeftStep(ts, now);
    }
  }

  // ---------------------------------------------------------------- when the loop ends

  /** The first n turns, or fewer when the loop ends before. */
  function Turns(ts: Timers, now: nat, n: nat): (r: Timers)
    requires TimersOk(ts)
    ensures TimersOk(r)
    decreases n
  {
    if n == 0 || !HeadDue(ts, now) then ts
    else
      TurnFacts(ts, now);
      Turns(Turn(ts, now), now, n - 1)
  }

  lemma {:induction false} EndsAfterAll(ts: Timers, now: nat)
    requires TimersOk(ts) && NoWrap(ts, now)
    ensures !HeadDue(Turns(ts, now, NumDue(ts.mem, ts.list, now)), now)
    decreases NumDue(ts.mem, ts.list, now)
  {
    hide Turn, Sorted, NoDup;
    if HeadDue(ts, now) {
      TurnShrinks(ts, now);
      EndsAfterAll(Turn(ts, now), now);
    }
  }

  /** Timer t is due, and firing it makes it due again. */
  ghost predicate Stuck(ts: Timers, now: nat, t: Addr)
    requires InMem(ts.mem, ts.list)
  {
    t in ts.list && t in ts.mem && Due(ts.mem, t, now) && ts.mem[t].periodic && now + ts.mem[t].period >= U32_MOD
  }

  lemma StuckTurn(ts: Timers, now: nat, t: Addr)
    requires TimersOk(ts) && now < U32_MOD && Stuck(ts, now, t)
    ensures HeadDue(ts, now) && TimersOk(Turn(ts, now)) && Stuck(Turn(ts, now), now, t)
  {
    hide Turn;
    assert ts.list[0] in ts.list && ts.mem[ts.list[0]].expiry <= ts.mem[t].expiry;
    TurnFacts(ts, now);
  }

  lemma {:induction false} NeverEnds(ts: Timers, now: nat, t: Addr, n: nat)
    requires TimersOk(ts) && now < U32_MOD && Stuck(ts, now, t)
    ensures HeadDue(Turns(ts, now, n), now)
    decreases n
  {
    hide Turn, Sorted, NoDup;
    StuckTurn(ts, now, t);
    if n > 0 {
      NeverEnds(Turn(ts, now), now, t, n - 1);
    }
  }

  /** The loop ends exactly when no due periodic timer has its next expiry past 32 bits. */
  lemma EndsIff(ts: Timers, now: nat)
    requires TimersOk(ts) && now < U32_MOD
    ensures (exists n: nat :: !HeadDue(Turns(ts, now, n), now)) <==> NoWrap(ts, now)
  {
    hide Turn, Sorted, NoDup, Turns, HeadDue;
    if NoWrap(ts, now) {
      EndsAfterAll(ts, now);
    } else {
      var t :| t in ts.list && Due(ts.mem, t, now) && ts.mem[t].periodic && now + ts.mem[t].period >= U32_MOD;
      forall n: nat
        ensures HeadDue(Turns(ts, now, n), now)
      {
        NeverEnds(ts, now, t, n);
      }
    }
  }
}
