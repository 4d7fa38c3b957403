/** Runs of the timer service: ticks, starts and stops in any order, and when each timer fires. */
module TimerRuns {
  import opened Types
  import opened Lists
  import opened TimerModel
  import opened TimerTick

  datatype Action = Tick | StartTimer(t: Addr, ticks: nat, periodic: bool) | StopTimer(t: Addr)

  datatype Clock = Clock(ts: Timers, now: nat)

  ghost predicate ClockOk(c: Clock) {
    TimersOk(c.ts) && Settled(c.ts, c.now)
  }

  /** A timer is started only while it is not armed, and no tick or expiry passes 32 bits. */
  ghost predicate Legal(c: Clock, a: Action)
    requires ClockOk(c)
  {
    match a
    case Tick => c.now + 1 < U32_MOD && NoWrap(c.ts, c.now + 1)
    case StartTimer(t, ticks, _) => t !in c.ts.list && c.now + ticks < U32_MOD
    case StopTimer(_) => true
  }

  function TickOf(c: Clock): (c': Clock)
    requires ClockOk(c) && Legal(c, Tick)
    ensures ClockOk(c')
  {
    hide Sorted, NoDup, Process, DuePrefix, Left;
    ProcessIs(c.ts, c.now + 1);
    Clock(Process(c.ts, c.now + 1).0, c.now + 1)
  }

  function StartOf(c: Clock, t: Addr, ticks: nat, periodic: bool): (c': Clock)
    requires ClockOk(c) && Legal(c, StartTimer(t, ticks, periodic))
    ensures ClockOk(c')
  {
    hide Sorted, NoDup, Start;
    StartKeeps(c.ts, t, ticks, periodic, c.now);
    Clock(Start(c.ts, t, ticks, periodic, c.now), c.now)
  }

  function StopOf(c: Clock, t: Addr): (c': Clock)
    requires ClockOk(c)
    ensures ClockOk(c')
  {
    hide Sorted, NoDup, Stop;
    StopKeeps(c.ts, t, c.now);
    Clock(Stop(c.ts, t), c.now)
  }

  /** Every step keeps the list sorted, with every expiry still to come. */
  function Step(c: Clock, a: Action): (c': Clock)
    requires ClockOk(c) && Legal(c, a)
    ensures ClockOk(c') && c.now <= c'.now
  {
    hide ClockOk, Legal;
    match a
    case Tick => TickOf(c)
    case StartTimer(t, ticks, periodic) => StartOf(c, t, ticks, periodic)
    case StopTimer(t) => StopOf(c, t)
  }

  /** The timers whose callbacks run in a step. */
  function FiredIn(c: Clock, a: Action): seq<Addr>
    requires ClockOk(c) && Legal(c, a)
  {
    if a.Tick? then Process(c.ts, c.now + 1).1 else []
  }

  ghost predicate LegalRun(c: Clock, acts: seq<Action>)
    requires ClockOk(c)
    decreases |acts|
  {
    acts != [] ==> Legal(c, acts[0]) && LegalRun(Step(c, acts[0]), acts[1..])
  }

  function Exec(c: Clock, acts: seq<Action>): (c': Clock)
    requires ClockOk(c) && LegalRun(c, acts)
    ensures ClockOk(c') && c.now <= c'.now
    decreases |acts|
  {
    if acts == [] then c else Exec(Step(c, acts[0]), acts[1..])
  }

  /** The ticks at which the callback of t runs. */
  function FireTimes(c: Clock, acts: seq<Action>, t: Addr): seq<nat>
    requires ClockOk(c) && LegalRun(c, acts)
    decreases |acts|
  {
    if acts == [] then []
    else
      (if t in FiredIn(c, acts[0]) then [Step(c, acts[0]).now] else []) + FireTimes(Step(c, acts[0]), acts[1..], t)
  }

  /** On a tick exactly the timers whose expiry has come fire, each once. */
  lemma TickFires(c: Clock, t: Addr)
    requires ClockOk(c) && Legal(c, Tick)
    ensures t in FiredIn(c, Tick) <==> t in c.ts.list && t in c.ts.mem && c.ts.mem[t].expiry == c.now + 1
    ensures NoDup(FiredIn(c, Tick))
  {
    hide Sorted, Process, DuePrefix;
    ProcessIs(c.ts, c.now + 1);
    PrefixMembers(c.ts, c.now + 1, t);
    if t in c.ts.list {
      var i :| 0 <= i < |c.ts.list| && c.ts.list[i] == t;
      assert c.now < c.ts.mem[c.ts.list[i]].expiry;
    }
  }

  /** t is armed and will fire at e. */
  ghost predicate Armed(c: Clock, t: Addr, e: nat, period: nat) {
    && t in c.ts.list && t in c.ts.mem && c.ts.mem[t].expiry == e
    && (if period > 0 then c.ts.mem[t].periodic && c.ts.mem[t].period == period else !c.ts.mem[t].periodic)
  }

  lemma ArmedStep(c: Clock, a: Action, t: Addr, e: nat, period: nat)
    requires ClockOk(c) && Legal(c, a) && Armed(c, t, e, period) && a != StopTimer(t)
    ensures c.now < e
    ensures t in FiredIn(c, a) <==> a == Tick && e == c.now + 1
    ensures var c' := Step(c, a);
      if a == Tick && e == c.now + 1 then
        (if period > 0 then Armed(c', t, e + period, period) else t !in c'.ts.list)
      else Armed(c', t, e, period)
  {
    hide Process, Start, Stop, Sorted;
    match a
    case Tick =>
      TickFires(c, t);
      ProcessIs(c.ts, c.now + 1);
    case StartTimer(u, ticks, periodic) => StartKeeps(c.ts, u, ticks, periodic, c.now);
    case StopTimer(u) => StopKeeps(c.ts, u, c.now);
  }

  lemma SilentStep(c: Clock, a: Action, t: Addr)
    requires ClockOk(c) && Legal(c, a) && t !in c.ts.list && !(a.StartTimer? && a.t == t)
    ensures t !in FiredIn(c, a) && t !in Step(c, a).ts.list
  {
    hide Process, Start, Stop, Sorted;
    match a
    case Tick =>
      TickFires(c, t);
      ProcessIs(c.ts, c.now + 1);
    case StartTimer(u, ticks, periodic) => StartKeeps(c.ts, u, ticks, periodic, c.now);
    case StopTimer(u) => StopKeeps(c.ts, u, c.now);
  }

  /** e, e + period, e + 2 * period, ... up to end. */
  function Multiples(e: nat, period: nat, end: nat): (s: seq<nat>)
    requires period > 0
    ensures forall i :: 0 <= i < |s| ==> s[i] == e + i * period
    ensures e + |s| * period > end && (|s| > 0 ==> e + (|s| - 1) * period <= end)
    decreases end + 1 - e
  {
    if e > end then []
    else
      var rest := Multiples(e + period, period, end);
      assert forall i :: 0 < i <= |rest| ==> (i - 1) * period + period == i * period;
      [e] + rest
  }

  /** A periodic timer fires at its expiry and then every period, and at no other tick, for as long
      as it is not stopped, whatever else the run does. */
  lemma {:induction false} PeriodicSchedule(c: Clock, acts: seq<Action>, t: Addr, e: nat, period: nat)
    requires ClockOk(c) && LegalRun(c, acts) && StopTimer(t) !in acts
    requires period > 0 && Armed(c, t, e, period)
    ensures FireTimes(c, acts, t) == Multiples(e, period, Exec(c, acts).now)
    decreases |acts|
  {
    hide ClockOk, Legal, Step, FiredIn, Armed;
    if acts == [] {
      ArmedLater(c, t, e, period);
    } else {
      ArmedStep(c, acts[0], t, e, period);
      NextNow(c, acts[0]);
      assert StopTimer(t) !in acts[1..];
      var fires := acts[0] == Tick && e == c.now + 1;
      PeriodicSchedule(Step(c, acts[0]), acts[1..], t, if fires then e + period else e, period);
    }
  }

  lemma ArmedLater(c: Clock, t: Addr, e: nat, period: nat)
    requires ClockOk(c) && Armed(c, t, e, period)
    ensures c.now < e
  {
    var i :| 0 <= i < |c.ts.list| && c.ts.list[i] == t;
  }

  lemma NextNow(c: Clock, a: Action)
    requires ClockOk(c) && Legal(c, a)
    ensures Step(c, a).now == if a.Tick? then c.now + 1 else c.now
  {
  }

  /** A timer that is not armed and not started stays silent. */
  lemma {:induction false} Silence(c: Clock, acts: seq<Action>, t: Addr)
    requires ClockOk(c) && LegalRun(c, acts) && t !in c.ts.list
    requires forall i :: 0 <= i < |acts| ==> !(acts[i].StartTimer? && acts[i].t == t)
    ensures FireTimes(c, acts, t) == []
    decreases |acts|
  {
    hide ClockOk, Legal, Step, FiredIn;
    if acts != [] {
      SilentStep(c, acts[0], t);
      Silence(Step(c, acts[0]), acts[1..], t);
    }
  }

  /** A one-shot timer fires once, at its expiry. */
  lemma {:induction false} OneShotSchedule(c: Clock, acts: seq<Action>, t: Addr, e: nat)
    requires ClockOk(c) && LegalRun(c, acts) && Armed(c, t, e, 0) && StopTimer(t) !in acts
    requires forall i :: 0 <= i < |acts| ==> !(acts[i].StartTimer? && acts[i].t == t)
    ensures FireTimes(c, acts, t) == if e <= Exec(c, acts).now then [e] else []
    decreases |acts|
  {
    hide ClockOk, Legal, Step, FiredIn, Armed;
    if acts == [] {
      ArmedLater(c, t, e, 0);
    } else {
      ArmedStep(c, acts[0], t, e, 0);
      NextNow(c, acts[0]);
      assert StopTimer(t) !in acts[1..];
      if acts[0] == Tick && e == c.now + 1 {
        Silence(Step(c, acts[0]), acts[1..], t);
      } else {
        OneShotSchedule(Step(c, acts[0]), acts[1..], t, e);
      }
    }
  }

  lemma StartArms(c: Clock, t: Addr, ticks: nat, periodic: bool)
    requires ClockOk(c) && ticks > 0 && Legal(c, StartTimer(t, ticks, periodic))
    ensures Armed(Step(c, StartTimer(t, ticks, periodic)), t, c.now + ticks, if periodic then ticks else 0)
  {
    hide Start;
    StartKeeps(c.ts, t, ticks, periodic, c.now);
  }

  /** Started at tick T, a periodic timer fires at exactly T + k * period for k >= 1, and a one-shot
      once at T + delay, until stopped. */
  lemma StartedSchedule(c: Clock, t: Addr, ticks: nat, periodic: bool, acts: seq<Action>)
    requires ClockOk(c) && ticks > 0 && Legal(c, StartTimer(t, ticks, periodic))
    requires LegalRun(Step(c, StartTimer(t, ticks, periodic)), acts) && StopTimer(t) !in acts
    requires forall i :: 0 <= i < |acts| ==> !(acts[i].StartTimer? && acts[i].t == t)
    ensures var c' := Step(c, StartTimer(t, ticks, periodic));
      var end := Exec(c', acts).now;
      FireTimes(c', acts, t) ==
        if periodic then Multiples(c.now + ticks, ticks, end)
        else if c.now + ticks <= end then [c.now + ticks] else []
  {
    hide ClockOk, Legal, Step, Armed, FireTimes, Multiples, LegalRun, Exec;
    StartArms(c, t, ticks, periodic);
    var c' := Step(c, StartTimer(t, ticks, periodic));
    if periodic {
      PeriodicSchedule(c', acts, t, c.now + ticks, ticks);
    } else {
      OneShotSchedule(c', acts, t, c.now + ticks);
    }
  }

  /** A stopped timer fires no more until it is started again. */
  lemma StoppedIsSilent(c: Clock, t: Addr, acts: seq<Action>)
    requires ClockOk(c) && LegalRun(Step(c, StopTimer(t)), acts)
    requires forall i :: 0 <= i < |acts| ==> !(acts[i].StartTimer? && acts[i].t == t)
    ensures FireTimes(Step(c, StopTimer(t)), acts, t) == []
  {
    hide Stop;
    StopKeeps(c.ts, t, c.now);
    Silence(Step(c, StopTimer(t)), acts, t);
  }
}
