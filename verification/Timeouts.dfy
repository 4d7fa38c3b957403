/** Time: the registry scan wakes exactly the due tasks, and a delay ends exactly on time. */
module Timeouts {
  import opened Types
  import opened Lists
  import opened KernelState
  import opened Steps
  import opened Runs

  // ---------------------------------------------------------------- the scan

  predicate IsDue(k: Kernel, t: Addr) {
    t in k.tasks && Due(k, t)
  }

  /** What waking does to a due task's record. */
  function Awake(c: Tcb): Tcb {
    c.(state := Ready, block := NotBlocked, wakeStatus := if c.block == Sleeping then c.wakeStatus else ErrTimeout)
  }

  /** The due tasks of ts that belong to ring p, in order. */
  function DueOf(k: Kernel, ts: seq<Addr>, p: nat): seq<Addr> {
    if ts == [] then []
    else (if IsDue(k, ts[0]) && k.tasks[ts[0]].bucket == p then [ts[0]] else []) + DueOf(k, ts[1..], p)
  }

  /** Two states that agree on which of ts are due, and on their buckets. */
  ghost predicate SameDue(k: Kernel, k': Kernel, ts: seq<Addr>) {
    forall t :: t in ts ==> IsDue(k, t) == IsDue(k', t) && (IsDue(k, t) ==> k.tasks[t].bucket == k'.tasks[t].bucket)
  }

  lemma {:induction false} DueOfSame(k: Kernel, k': Kernel, ts: seq<Addr>, p: nat)
    requires SameDue(k, k', ts)
    ensures DueOf(k, ts, p) == DueOf(k', ts, p)
  {
    if ts != [] {
      assert ts[0] in ts;
      assert forall t :: t in ts[1..] ==> t in ts;
      DueOfSame(k, k', ts[1..], p);
    }
  }

  /** The list without the tasks in `gone`, in order. */
  function Remaining(ws: seq<Addr>, gone: set<Addr>): seq<Addr> {
    if ws == [] then [] else (if ws[0] in gone then [] else [ws[0]]) + Remaining(ws[1..], gone)
  }

  function DueSet(k: Kernel, ts: seq<Addr>): set<Addr> {
    set t | t in ts && IsDue(k, t)
  }

  lemma {:induction false} RemainingAbsent(ws: seq<Addr>, gone: set<Addr>, u: Addr)
    requires u !in ws
    ensures Remaining(ws, gone + {u}) == Remaining(ws, gone)
  {
    if ws != [] {
      RemainingAbsent(ws[1..], gone, u);
    }
  }

  lemma {:induction false} RemainingAll(ws: seq<Addr>)
    ensures Remaining(ws, {}) == ws
  {
    if ws != [] {
      RemainingAll(ws[1..]);
    }
  }

  lemma {:induction false} RemainingWithout(ws: seq<Addr>, gone: set<Addr>, u: Addr)
    requires NoDup(ws)
    ensures Remaining(Without(ws, u), gone) == Remaining(ws, gone + {u})
  {
    if u !in ws {
      RemainingAbsent(ws, gone, u);
    } else if ws[0] == u {
      WithoutHead(ws);
      RemainingAbsent(ws[1..], gone, u);
    } else {
      RemainingWithout(ws[1..], gone, u);
      WithoutTail(ws, u);
      assert Without(ws, u)[1..] == Without(ws[1..], u);
    }
  }

  lemma IndexTail(ws: seq<Addr>, u: Addr)
    requires u in ws && ws[0] != u
    ensures u in ws[1..] && IndexOf(ws, u) == 1 + IndexOf(ws[1..], u)
  {
  }

  lemma WithoutTail(ws: seq<Addr>, u: Addr)
    requires u in ws && ws[0] != u
    ensures Without(ws, u) == [ws[0]] + Without(ws[1..], u)
  {
    hide IndexOf;
    IndexTail(ws, u);
    var t, i := ws[1..], IndexOf(ws[1..], u);
    var l, r := Without(ws, u), [ws[0]] + Without(t, u);
    assert |l| == |r|;
    forall x | 0 <= x < |l|
      ensures l[x] == r[x]
    {
      assert l[x] == if x <= i then ws[x] else ws[x + 1];
      assert x > 0 ==> r[x] == if x - 1 < i then t[x - 1] else t[x];
    }
  }

  /** The scan from position i on, described without the loop: what becomes of the tasks, of the
      rings and of the wait lists. */
  ghost predicate ScannedTasks(k: Kernel, i: nat, tasks': map<Addr, Tcb>)
    requires i <= |k.registry|
  {
    && tasks'.Keys == k.tasks.Keys
    && (forall t :: t in k.tasks ==>
          tasks'[t] == if t in k.registry[i..] && Due(k, t) then Awake(k.tasks[t]) else k.tasks[t])
  }

  ghost predicate ScannedRings(k: Kernel, i: nat, rings': seq<seq<Addr>>)
    requires i <= |k.registry|
  {
    && |rings'| == |k.rings|
    && (forall p :: 0 <= p < |k.rings| ==> rings'[p] == k.rings[p] + DueOf(k, k.registry[i..], p))
  }

  ghost predicate ScannedWaits(k: Kernel, i: nat, waits': map<WaitKey, seq<Addr>>)
    requires i <= |k.registry|
  {
    && waits'.Keys == k.waits.Keys
    && (forall w :: w in k.waits ==> waits'[w] == Remaining(k.waits[w], DueSet(k, k.registry[i..])))
  }

  lemma WakeIfDueFrame(k: Kernel, u: Addr, rest: seq<Addr>)
    requires u in k.tasks && k.tasks[u].bucket < |k.rings| && u !in rest
    ensures SameDue(k, WakeIfDue(k, u), rest)
    ensures forall t :: t in k.tasks && t != u ==> Due(WakeIfDue(k, u), t) == Due(k, t)
    ensures WakeIfDue(k, u).tasks == if Due(k, u) then k.tasks[u := Awake(k.tasks[u])] else k.tasks
    ensures WakeIfDue(k, u).rings == if Due(k, u) then RingAdd(k.rings, k.tasks[u].bucket, u) else k.rings
  {
  }

  lemma WakeIfDueWaits(k: Kernel, u: Addr)
    requires WaitsPlaced(k.waits, k.tasks) && u in k.tasks && k.tasks[u].bucket < |k.rings|
    ensures var k1 := WakeIfDue(k, u);
      && k1.waits.Keys == k.waits.Keys
      && (forall w :: w in k.waits ==> NoDup(k.waits[w]))
      && (forall w :: w in k.waits ==> k1.waits[w] == if Due(k, u) then Without(k.waits[w], u) else k.waits[w])
  {
    hide IndexOf, RingAdd;
    var k1 := WakeIfDue(k, u);
    forall w | w in k.waits
      ensures w in k1.waits && k1.waits[w] == if Due(k, u) then Without(k.waits[w], u) else k.waits[w]
    {
      assert k.tasks[u].block != Waiting(w) ==> u !in k.waits[w];
    }
  }

  lemma ScanEnd(k: Kernel)
    ensures var n := |k.registry|; ScannedTasks(k, n, k.tasks) && ScannedRings(k, n, k.rings) && ScannedWaits(k, n, k.waits)
  {
    var n := |k.registry|;
    assert k.registry[n..] == [] && DueSet(k, []) == {};
    forall w | w in k.waits
      ensures Remaining(k.waits[w], {}) == k.waits[w]
    {
      RemainingAll(k.waits[w]);
    }
  }

  /** The scan wakes exactly the due tasks it meets, appends each once to its ring and takes each off
      the list it waits in. */
  lemma {:induction false} ScanIsExact(k: Kernel, i: nat)
    requires Inv(k) && i <= |k.registry|
    ensures var k' := ScanFrom(k, i);
      ScannedTasks(k, i, k'.tasks) && ScannedRings(k, i, k'.rings) && ScannedWaits(k, i, k'.waits)
    decreases |k.registry| - i
  {
    hide RingsPlaced, WaitsPlaced, TasksOk, RegistryOk, CallsOk, MutexesOk, HandoffsOk;
    hide ScannedTasks, ScannedRings, ScannedWaits, WakeIfDue;
    if i == |k.registry| {
      ScanEnd(k);
    } else {
      var u := k.registry[i];
      RegistryEntry(k, i);
      var k1 := WakeIfDue(k, u);
      WakeIfDueKeepsInv(k, u);
      WakeIfDueRegistry(k, u);
      ScanIsExact(k1, i + 1);
      var k' := ScanFrom(k, i);
      ScanStepTasks(k, i, k1, k'.tasks);
      ScanStepRings(k, i, k1, k'.rings);
      ScanStepWaits(k, i, k1, k'.waits);
    }
  }

  /** One turn of the scan, at a task that the rest of the scan does not meet again. */
  ghost predicate ScanTurn(k: Kernel, i: nat, k1: Kernel) {
    && i < |k.registry| && k1.registry == k.registry && k.registry[i] in k.tasks
    && k.tasks[k.registry[i]].bucket < |k.rings| && k.registry[i] !in k.registry[i + 1..]
    && k1 == WakeIfDue(k, k.registry[i])
  }

  lemma ScanStepTasks(k: Kernel, i: nat, k1: Kernel, tasks': map<Addr, Tcb>)
    requires ScanTurn(k, i, k1) && ScannedTasks(k1, i + 1, tasks')
    ensures ScannedTasks(k, i, tasks')
  {
    hide WakeIfDue, Awake, DueOf;
    var u, rest := k.registry[i], k.registry[i + 1..];
    assert k.registry[i..] == [u] + rest;
    WakeIfDueFrame(k, u, rest);
    hide Due;
  }

  lemma ScanStepRings(k: Kernel, i: nat, k1: Kernel, rings': seq<seq<Addr>>)
    requires ScanTurn(k, i, k1) && ScannedRings(k1, i + 1, rings')
    ensures ScannedRings(k, i, rings')
  {
    hide WakeIfDue, Awake, DueOf, Due;
    var u, rest := k.registry[i], k.registry[i + 1..];
    assert k.registry[i..] == [u] + rest;
    WakeIfDueFrame(k, u, rest);
    forall p | 0 <= p < |k.rings|
      ensures rings'[p] == k.rings[p] + DueOf(k, k.registry[i..], p)
    {
      DueOfSame(k, k1, rest, p);
      DueOfCons(k, u, rest, p);
    }
  }

  lemma DueOfCons(k: Kernel, u: Addr, rest: seq<Addr>, p: nat)
    requires u in k.tasks
    ensures DueOf(k, [u] + rest, p) == (if Due(k, u) && k.tasks[u].bucket == p then [u] else []) + DueOf(k, rest, p)
  {
    hide Due;
    assert ([u] + rest)[1..] == rest;
  }

  lemma ScanStepWaits(k: Kernel, i: nat, k1: Kernel, waits': map<WaitKey, seq<Addr>>)
    requires WaitsPlaced(k.waits, k.tasks) && ScanTurn(k, i, k1) && ScannedWaits(k1, i + 1, waits')
    ensures ScannedWaits(k, i, waits')
  {
    hide WaitsPlaced, WakeIfDue, Awake, Without, NoDup, Remaining;
    var u, rest := k.registry[i], k.registry[i + 1..];
    assert k.registry[i..] == [u] + rest;
    WakeIfDueFrame(k, u, rest);
    WakeIfDueWaits(k, u);
    hide Due;
    assert DueSet(k1, rest) == DueSet(k, rest);
    assert DueSet(k, [u] + rest) == if Due(k, u) then DueSet(k, rest) + {u} else DueSet(k, rest);
    forall w | w in k.waits
      ensures waits'[w] == Remaining(k.waits[w], DueSet(k, k.registry[i..]))
    {
      RemainingWithout(k.waits[w], DueSet(k, rest), u);
    }
  }

  /** One tick, from the state before it: the due tasks and no others are woken; each goes to the tail
      of its ring, in registry order, and leaves its wait list, which keeps the others in order. */
  lemma TickIsExact(k: Kernel)
    requires Inv(k)
    ensures var now, k' := NextTick(k), TickStep(k);
      && k'.tick == now.tick && k'.tasks.Keys == k.tasks.Keys && |k'.rings| == |k.rings|
      && (forall t :: t in k.tasks ==>
            k'.tasks[t] == if Due(now, t) then Awake(k.tasks[t]) else k.tasks[t])
      && (forall p :: 0 <= p < |k.rings| ==> k'.rings[p] == k.rings[p] + DueOf(now, k.registry, p))
      && k'.waits.Keys == k.waits.Keys
      && (forall w :: w in k.waits ==> k'.waits[w] == Remaining(k.waits[w], DueSet(now, k.registry)))
  {
    var now := NextTick(k);
    assert forall t :: t in k.tasks ==> t in k.registry;
    hide RingsPlaced, WaitsPlaced, TasksOk, RegistryOk, CallsOk, MutexesOk, HandoffsOk;
    ScanIsExact(now, 0);
    assert now.registry[0..] == k.registry;
  }

  // ---------------------------------------------------------------- what other steps do to waits

  ghost predicate SameWait(c: Tcb, c': Tcb) {
    c'.state == c.state && c'.block == c.block && c'.wakeTime == c.wakeTime
  }

  /** Nobody new is blocked, and if `sleeper` sleeps it goes on sleeping. */
  ghost predicate Still(k: Kernel, k': Kernel, sleeper: Addr) {
    && k'.tick == k.tick
    && (forall t :: t in k'.tasks && k'.tasks[t].state == Blocked ==> t in k.tasks && SameWait(k.tasks[t], k'.tasks[t]))
    && (sleeper in k.tasks && k.tasks[sleeper].block == Sleeping ==>
          sleeper in k'.tasks && SameWait(k.tasks[sleeper], k'.tasks[sleeper]))
  }

  lemma StillTrans(k: Kernel, k1: Kernel, k2: Kernel, sleeper: Addr)
    requires Still(k, k1, sleeper) && Still(k1, k2, sleeper)
    ensures Still(k, k2, sleeper)
  {
  }

  lemma StillUpdate(k: Kernel, t: Addr, c: Tcb, sleeper: Addr)
    requires t in k.tasks && (SameWait(k.tasks[t], c) || (c.state != Blocked && k.tasks[t].block != Sleeping))
    ensures Still(k, SetTask(k, t, c), sleeper)
  {
  }

  lemma StillWake(k: Kernel, t: Addr, status: Status, sleeper: Addr)
    requires t in k.tasks && k.tasks[t].bucket < |k.rings| && k.tasks[t].block != Sleeping
    ensures Still(k, Wake(k, t, status), sleeper)
  {
  }

  lemma StillWakeHead(k: Kernel, w: WaitKey, sleeper: Addr)
    requires Placed(k) && w in k.waits
    ensures Still(k, WakeHead(k, w), sleeper)
  {
    if k.waits[w] != [] {
      var t := k.waits[w][0];
      WaiterFacts(k, w, t);
      hide RingsPlaced, WaitsPlaced, TasksOk, RegistryOk;
      StillWake(k, t, k.tasks[t].wakeStatus, sleeper);
    }
  }

  lemma StillPriority(k: Kernel, t: Addr, p: nat, sleeper: Addr)
    requires t in k.tasks && |k.rings| == NUM_PRIORITIES && k.tasks[t].bucket < NUM_PRIORITIES
    ensures Still(k, SetPriority(k, t, p), sleeper) && Still(k, Boost(k, t, p), sleeper)
  {
  }

  lemma StillDispatch(k: Kernel, sleeper: Addr)
    requires Inv(k)
    ensures Still(k, KernelState.Dispatch(k), sleeper)
  {
    DispatchSelects(k);
    var k1, p := Preempt(k), FirstOccupied(k.rings);
    assert k1.rings[p][0] in k1.rings[p];
    assert TcbOk(k1.tasks[k1.rings[p][0]]);
    assert k.current in k.tasks && k.tasks[k.current].state == Running ==> TcbOk(k.tasks[k.current]);
    hide WaitsPlaced, TasksOk, RegistryOk, CallsOk, MutexesOk, HandoffsOk;
    StillPreempt(k, sleeper);
    StillSelect(k1, p, sleeper);
    hide Still;
    StillTrans(k, k1, Select(k1, p), sleeper);
  }

  lemma StillPreempt(k: Kernel, sleeper: Addr)
    requires k.current in k.tasks ==> TcbOk(k.tasks[k.current])
    ensures Still(k, Preempt(k), sleeper)
  {
  }

  lemma StillSelect(k: Kernel, p: nat, sleeper: Addr)
    requires p < |k.rings| && k.rings[p] != [] && k.rings[p][0] in k.tasks
    requires k.tasks[k.rings[p][0]].block != Sleeping
    ensures Still(k, Select(k, p), sleeper)
  {
  }

  /** At most the caller is newly blocked, with the deadline of its timeout. */
  ghost predicate Timely(k: Kernel, k': Kernel, timeout: nat, sleeper: Addr) {
    && k'.tick == k.tick
    && (forall t :: t in k'.tasks && k'.tasks[t].state == Blocked ==>
          || (t in k.tasks && SameWait(k.tasks[t], k'.tasks[t]))
          || (t == k.current && k'.tasks[t].wakeTime == Deadline(k.tick, timeout)))
    && (sleeper in k.tasks && k.tasks[sleeper].block == Sleeping ==>
          sleeper in k'.tasks && SameWait(k.tasks[sleeper], k'.tasks[sleeper]))
  }

  lemma BlockTimely(k: Kernel, k1: Kernel, b: BlockOn, timeout: nat, call: Call, sleeper: Addr)
    requires Still(k, k1, sleeper) && k1.current == k.current && k.current in k1.tasks && k.current in k.tasks
    requires k.tasks[k.current].block != Sleeping && k1.tasks[k.current].bucket < |k1.rings|
    ensures Timely(k, BlockCurrent(k1, b, timeout, call), timeout, sleeper)
  {
  }

  lemma WaitTimely(k: Kernel, w: WaitKey, timeout: nat, call: Call, sleeper: Addr)
    requires k.current in k.tasks && k.tasks[k.current].block != Sleeping && w in k.waits
    requires k.tasks[k.current].bucket < |k.rings|
    ensures Timely(k, BlockCurrent(Enqueue(k, w, k.current), Waiting(w), timeout, call), timeout, sleeper)
  {
    BlockTimely(k, Enqueue(k, w, k.current), Waiting(w), timeout, call, sleeper);
  }

  lemma LockTimely(k: Kernel, m: nat, timeout: nat, msg: seq<Byte>, sleeper: Addr)
    requires Inv(k) && CanRun(k) && m in k.mutexes
    ensures Timely(k, Lock(k, m, timeout, msg), timeout, sleeper)
  {
    assert TcbOk(k.tasks[k.current]);
    hide MinPrio, RingsPlaced, WaitsPlaced, TasksOk, RegistryOk, CallsOk, MutexesOk, HandoffsOk;
    LockFacts(k, m);
    var mu := k.mutexes[m];
    if !mu.locked || mu.owner == k.current {
      StillUpdate(k, k.current, k.tasks[k.current].(call := NoCall), sleeper);
    } else {
      LockWaitTimely(k, m, mu.owner, Demand(k, m), timeout, InCall(MutexQ(m), timeout, msg), sleeper);
    }
  }

  lemma LockWaitTimely(k: Kernel, m: nat, owner: Addr, p: nat, timeout: nat, call: Call, sleeper: Addr)
    requires k.current in k.tasks && k.tasks[k.current].block != Sleeping && MutexQ(m) in k.waits
    requires owner in k.tasks && owner != k.current && |k.rings| == NUM_PRIORITIES
    requires k.tasks[owner].bucket < NUM_PRIORITIES && k.tasks[k.current].bucket < NUM_PRIORITIES
    ensures var k1 := Boost(k, owner, p);
      Timely(k, BlockCurrent(Enqueue(k1, MutexQ(m), k.current), Waiting(MutexQ(m)), timeout, call), timeout, sleeper)
  {
    var k1 := Boost(k, owner, p);
    StillPriority(k, owner, p, sleeper);
    BlockTimely(k, Enqueue(k1, MutexQ(m), k.current), Waiting(MutexQ(m)), timeout, call, sleeper);
  }

  lemma UnlockStill(k: Kernel, m: nat, sleeper: Addr)
    requires Inv(k) && CanRun(k) && m in k.mutexes
    ensures Still(k, KernelState.Unlock(k, m), sleeper)
  {
    if k.mutexes[m].owner == k.current {
      RunnerUnlocks(k, m);
      hide RingsPlaced, TasksOk, RegistryOk, CallsOk, MutexesOk, HandoffsOk;
      var k1 := SetPriority(k, k.current, k.tasks[k.current].base);
      StillPriority(k, k.current, k.tasks[k.current].base, sleeper);
      PassOnStill(k1, m, sleeper);
      hide Still;
      StillTrans(k, k1, PassOn(k1, m), sleeper);
    }
  }

  lemma PassOnStill(k: Kernel, m: nat, sleeper: Addr)
    requires WaitsPlaced(k.waits, k.tasks) && MutexQ(m) in k.waits
    requires forall t :: t in k.waits[MutexQ(m)] ==> k.tasks[t].bucket < |k.rings|
    ensures Still(k, PassOn(k, m), sleeper)
  {
    hide Best;
    var ws := k.waits[MutexQ(m)];
    if ws != [] {
      var next := ws[Best(k.tasks, ws)];
      assert next in ws;
      StillWake(k, next, k.tasks[next].wakeStatus, sleeper);
    }
  }

  lemma EnterTimely(k: Kernel, w: WaitKey, timeout: nat, msg: seq<Byte>, sleeper: Addr)
    requires Inv(k) && CanRun(k) && CallOk(InCall(w, timeout, msg), k.waits, k.queues)
    ensures Timely(k, Enter(k, w, timeout, msg), timeout, sleeper)
  {
    hide RingsPlaced, WaitsPlaced, TasksOk, RegistryOk, CallsOk, MutexesOk, HandoffsOk, Lock, SemWait, WakeHead, BlockCurrent;
    TaskFacts(k, k.current);
    match w
    case MutexQ(m) => LockTimely(k, m, timeout, msg, sleeper);
    case SemQ(s) => SemTimely(k, s, timeout, msg, sleeper);
    case SendQ(q) => QueueTimely(k, SendQ(q), RecvQ(q), timeout, InCall(w, timeout, msg), sleeper);
    case RecvQ(q) => QueueTimely(k, RecvQ(q), SendQ(q), timeout, InCall(w, timeout, msg), sleeper);
  }

  lemma SemTimely(k: Kernel, s: nat, timeout: nat, msg: seq<Byte>, sleeper: Addr)
    requires Inv(k) && CanRun(k) && s in k.sems
    ensures Timely(k, SemWait(k, s, timeout, msg), timeout, sleeper)
  {
    assert TcbOk(k.tasks[k.current]) && k.tasks[k.current].bucket < |k.rings|;
    hide RingsPlaced, WaitsPlaced, TasksOk, RegistryOk, CallsOk, MutexesOk, HandoffsOk;
    if k.sems[s].count > 0 {
      StillUpdate(k, k.current, k.tasks[k.current].(call := NoCall), sleeper);
    } else {
      hide Timely;
      WaitTimely(k, SemQ(s), timeout, InCall(SemQ(s), timeout, msg), sleeper);
    }
  }

  lemma QueueTimely(k: Kernel, w: WaitKey, other: WaitKey, timeout: nat, call: Call, sleeper: Addr)
    requires Placed(k) && CanRun(k) && w in k.waits && other in k.waits
    ensures Timely(k, BlockCurrent(Enqueue(k, w, k.current), Waiting(w), timeout, call), timeout, sleeper)
    ensures var k1 := WakeHead(k, other); k.current in k1.tasks && Still(k, Return(k1), sleeper)
  {
    assert TcbOk(k.tasks[k.current]) && k.tasks[k.current].bucket < |k.rings|;
    WaitTimely(k, w, timeout, call, sleeper);
    StillWakeHead(k, other, sleeper);
    WakeHeadSparesRunner(k, other);
    hide RingsPlaced, WaitsPlaced, TasksOk, RegistryOk;
    var k1 := WakeHead(k, other);
    StillUpdate(k1, k.current, k1.tasks[k.current].(call := NoCall), sleeper);
    StillTrans(k, k1, Return(k1), sleeper);
  }

  function TimeoutOf(k: Kernel, a: Action): nat {
    match a
    case Invoke(_, timeout, _) => timeout
    case Resume => if k.current in k.tasks && k.tasks[k.current].call.InCall? then k.tasks[k.current].call.timeout else 0
    case Delay(n) => n
    case _ => 0
  }

  lemma ResumeTimely(k: Kernel, sleeper: Addr)
    requires Inv(k) && CanRun(k)
    ensures Timely(k, KernelState.Resume(k), TimeoutOf(k, Action.Resume), sleeper)
  {
    var c := k.tasks[k.current];
    assert CallOk(c.call, k.waits, k.queues) && TcbOk(c);
    hide RingsPlaced, WaitsPlaced, TasksOk, RegistryOk, CallsOk, MutexesOk, HandoffsOk, Enter;
    if c.call.InCall? && c.wakeStatus != ErrTimeout {
      EnterTimely(k, c.call.on, c.call.timeout, c.call.msg, sleeper);
    } else {
      StillUpdate(k, k.current, c.(call := NoCall), sleeper);
    }
  }

  lemma CreateStill(k: Kernel, t: Addr, prio: nat, sleeper: Addr)
    requires t !in k.tasks && |k.rings| == NUM_PRIORITIES
    ensures Still(k, KernelState.Create(k, t, prio), sleeper)
  {
  }

  lemma DeleteStill(k: Kernel, t: Addr, sleeper: Addr)
    requires t in k.tasks && k.tasks[t].bucket < |k.rings| && t != sleeper
    ensures Still(k, KernelState.Delete(k, t), sleeper)
  {
  }

  lemma PostStill(k: Kernel, s: nat, sleeper: Addr)
    requires Inv(k) && s in k.sems
    ensures Still(k, KernelState.Post(k, s), sleeper)
  {
    hide RingsPlaced, WaitsPlaced, TasksOk, RegistryOk, CallsOk, MutexesOk, HandoffsOk, WakeHead;
    StillWakeHead(k, SemQ(s), sleeper);
  }

  lemma DelayTimely(k: Kernel, n: nat, sleeper: Addr)
    requires k.current in k.tasks && k.tasks[k.current].bucket < |k.rings| && k.tasks[k.current].block != Sleeping
    ensures Timely(k, KernelState.Delay(k, n), n, sleeper)
  {
    if n != 0 {
      BlockTimely(k, k, Sleeping, n, InDelay, sleeper);
    }
  }

  lemma StepTimely(k: Kernel, a: Action, sleeper: Addr)
    requires Inv(k) && Legal(k, a) && !a.Tick? && a != Action.Delete(sleeper)
    ensures Timely(k, Step(k, a), TimeoutOf(k, a), sleeper)
  {
    assert |k.rings| == NUM_PRIORITIES && forall t :: t in k.tasks ==> k.tasks[t].bucket < NUM_PRIORITIES && TcbOk(k.tasks[t]);
    hide RingsPlaced, WaitsPlaced, TasksOk, RegistryOk, CallsOk, MutexesOk, HandoffsOk, Still, Timely;
    if a.Invoke? {
      EnterTimely(k, a.on, a.timeout, a.msg, sleeper);
    } else if a.Resume? {
      ResumeTimely(k, sleeper);
    } else if a.Delay? {
      DelayTimely(k, a.ticks, sleeper);
    } else {
      StepStill(k, a, sleeper);
      StillIsTimely(k, Step(k, a), sleeper);
    }
  }

  lemma StillIsTimely(k: Kernel, k': Kernel, sleeper: Addr)
    requires Still(k, k', sleeper)
    ensures Timely(k, k', 0, sleeper)
  {
  }

  lemma StepStill(k: Kernel, a: Action, sleeper: Addr)
    requires Inv(k) && Legal(k, a) && a != Action.Delete(sleeper)
    requires !a.Tick? && !a.Invoke? && !a.Resume? && !a.Delay?
    ensures Still(k, Step(k, a), sleeper)
  {
    assert |k.rings| == NUM_PRIORITIES && forall t :: t in k.tasks ==> k.tasks[t].bucket < NUM_PRIORITIES;
    hide RingsPlaced, WaitsPlaced, TasksOk, RegistryOk, CallsOk, MutexesOk, HandoffsOk, Still;
    match a
    case Unlock(m) => UnlockStill(k, m, sleeper);
    case Post(s) => PostStill(k, s, sleeper);
    case Dispatch => StillDispatch(k, sleeper);
    case Create(t, prio) => CreateStill(k, t, prio, sleeper);
    case Delete(t) => DeleteStill(k, t, sleeper);
  }

  // ---------------------------------------------------------------- deadlines over runs

  /** The tick counter does not wrap, and no deadline wraps or hits the "forever" value. */
  ghost predicate OnTime(k: Kernel, a: Action) {
    if a.Tick? then k.tick < U32_MAX
    else TimeoutOf(k, a) == 0 || k.tick + TimeoutOf(k, a) < U32_MAX
  }

  /** Nobody is blocked past its deadline. */
  ghost predicate NotOverdue(k: Kernel) {
    forall t :: t in k.tasks && k.tasks[t].state == Blocked ==>
      k.tasks[t].wakeTime == U32_MAX || k.tick < k.tasks[t].wakeTime
  }

  lemma BlockedFacts(k: Kernel, t: Addr)
    requires Placed(k) && t in k.tasks && k.tasks[t].state == Blocked
    ensures t != k.idle && k.tasks[t].wakeStatus == Ok
  {
    assert IdleOk(k.tasks[k.idle]) && TcbOk(k.tasks[t]);
  }

  /** What a tick does to one task. */
  lemma TickTask(k: Kernel, t: Addr)
    requires Inv(k) && t in k.tasks
    ensures var now, k' := NextTick(k), Step(k, Action.Tick);
      && k'.tick == now.tick && k'.tasks.Keys == k.tasks.Keys
      && k'.tasks[t] == (if Due(now, t) then Awake(k.tasks[t]) else k.tasks[t])
      && (k.tasks[t].state == Blocked ==> t != k.idle && k.tasks[t].wakeStatus == Ok)
  {
    hide RingsPlaced, WaitsPlaced, TasksOk, RegistryOk, CallsOk, MutexesOk, HandoffsOk, TickStep, DueOf;
    TickIsExact(k);
    if k.tasks[t].state == Blocked {
      BlockedFacts(k, t);
    }
  }

  lemma TickNotOverdue(k: Kernel)
    requires Inv(k) && k.tick < U32_MAX
    ensures NotOverdue(Step(k, Action.Tick))
  {
    assert k.idle in k.tasks;
    hide Inv, Step;
    var k' := Step(k, Action.Tick);
    TickTask(k, k.idle);
    forall t | t in k'.tasks && k'.tasks[t].state == Blocked
      ensures k'.tasks[t].wakeTime == U32_MAX || k'.tick < k'.tasks[t].wakeTime
    {
      TickTask(k, t);
    }
  }

  lemma DeleteNeedsTask(k: Kernel, a: Action)
    requires Inv(k) && Legal(k, a)
    ensures a != Action.Delete(NULL)
  {
    hide RingsPlaced, WaitsPlaced, RegistryOk, CallsOk, MutexesOk, HandoffsOk;
  }

  lemma StepNotOverdue(k: Kernel, a: Action)
    requires Inv(k) && Legal(k, a) && OnTime(k, a) && NotOverdue(k)
    ensures NotOverdue(Step(k, a))
  {
    hide Step, Inv, Legal;
    DeleteNeedsTask(k, a);
    if a.Tick? {
      TickNotOverdue(k);
    } else {
      StepTimely(k, a, NULL);
    }
  }

  ghost predicate OnTimeRun(k: Kernel, acts: seq<Action>)
    requires Inv(k) && LegalRun(k, acts)
    decreases |acts|
  {
    hide Inv, Legal, Step;
    acts != [] ==> OnTime(k, acts[0]) && OnTimeRun(Step(k, acts[0]), acts[1..])
  }

  /** In every run no task stays blocked past its deadline. */
  lemma {:induction false} NobodyOversleeps(k: Kernel, acts: seq<Action>)
    requires Inv(k) && LegalRun(k, acts) && OnTimeRun(k, acts) && NotOverdue(k)
    ensures NotOverdue(Exec(k, acts))
    decreases |acts|
  {
    hide Inv, Legal, Step, NotOverdue, OnTime;
    if acts != [] {
      StepNotOverdue(k, acts[0]);
      NobodyOversleeps(Step(k, acts[0]), acts[1..]);
    }
  }

  ghost predicate SleepsUntil(k: Kernel, t: Addr, d: nat) {
    && t in k.tasks && k.tasks[t].state == Blocked && k.tasks[t].block == Sleeping
    && k.tasks[t].wakeTime == d && k.tick < d < U32_MAX
  }

  /** What task_delay leaves of its caller. */
  lemma DelayedTask(k: Kernel, n: nat)
    requires Inv(k) && Legal(k, Action.Delay(n)) && n > 0
    ensures var k1 := Step(k, Action.Delay(n));
      && k1.tick == k.tick && k.current in k1.tasks && k1.tasks[k.current].state == Blocked
      && k1.tasks[k.current].block == Sleeping && k1.tasks[k.current].wakeTime == Deadline(k.tick, n)
  {
    assert k.tasks[k.current].bucket < |k.rings|;
    hide RingsPlaced, WaitsPlaced, TasksOk, RegistryOk, CallsOk, MutexesOk, HandoffsOk, Deadline, RingRemove;
  }

  /** task_delay(n) at tick T puts the caller to sleep until T + n, if and only if that stays below the
      "forever" value. */
  lemma DelayStartsSleep(k: Kernel, n: nat)
    requires Inv(k) && Legal(k, Action.Delay(n)) && k.tick <= U32_MAX && 0 < n <= U32_MAX
    ensures SleepsUntil(Step(k, Action.Delay(n)), k.current, k.tick + n) <==> k.tick + n < U32_MAX
  {
    hide Inv, Legal, Step;
    DelayedTask(k, n);
  }

  ghost predicate SleepOver(k: Kernel, t: Addr) {
    t in k.tasks && k.tasks[t].state == Ready && k.tasks[t].wakeStatus == Ok
  }

  /** Only the tick that reaches the deadline ends the sleep. */
  lemma SleepStep(k: Kernel, a: Action, t: Addr, d: nat)
    requires Inv(k) && Legal(k, a) && SleepsUntil(k, t, d) && a != Action.Delete(t)
    ensures var k' := Step(k, a);
      && k'.tick == k.tick + (if a.Tick? then 1 else 0)
      && if a.Tick? && k.tick + 1 == d then SleepOver(k', t) else SleepsUntil(k', t, d)
  {
    hide Step, Inv, Legal;
    if a.Tick? {
      TickTask(k, t);
    } else {
      StepTimely(k, a, t);
    }
  }

  ghost function DelayThenTick(k: Kernel, n: nat): Kernel
    requires Inv(k) && Legal(k, Action.Delay(n))
  {
    hide Inv, Step;
    Step(Step(k, Action.Delay(n)), Action.Tick)
  }

  /** A delay is over right after the next tick if and only if it was for one tick or its deadline
      wrapped: a wrapped deadline is already past. */
  lemma DelayOverAtOnceIff(k: Kernel, n: nat)
    requires Inv(k) && Legal(k, Action.Delay(n)) && k.tick < U32_MAX && 0 < n <= U32_MAX
    ensures SleepOver(DelayThenTick(k, n), k.current)
       <==> (n == 1 && k.tick + 1 < U32_MAX) || k.tick + n >= U32_MOD
  {
    hide Inv, Step;
    DelayedTask(k, n);
    TickTask(Step(k, Action.Delay(n)), k.current);
  }

  ghost predicate SleepsForever(k: Kernel, t: Addr) {
    t in k.tasks && k.tasks[t].state == Blocked && k.tasks[t].block == Sleeping && k.tasks[t].wakeTime == U32_MAX
  }

  /** A delay whose deadline is exactly UINT32_MAX never ends: no run in which the task is not deleted
      wakes it, however many ticks it has. */
  lemma {:induction false} NeverWakes(k: Kernel, acts: seq<Action>, t: Addr)
    requires Inv(k) && LegalRun(k, acts) && SleepsForever(k, t) && Action.Delete(t) !in acts
    ensures SleepsForever(Exec(k, acts), t)
    decreases |acts|
  {
    hide Inv, Legal, Step;
    if acts != [] {
      if acts[0].Tick? {
        TickTask(k, t);
      } else {
        StepTimely(k, acts[0], t);
      }
      NeverWakes(Step(k, acts[0]), acts[1..], t);
    }
  }

  lemma DelayNeverEnds(k: Kernel, n: nat, acts: seq<Action>)
    requires Inv(k) && Legal(k, Action.Delay(n)) && n > 0 && k.tick + n == U32_MAX
    requires LegalRun(Step(k, Action.Delay(n)), acts) && Action.Delete(k.current) !in acts
    ensures SleepsForever(Exec(Step(k, Action.Delay(n)), acts), k.current)
  {
    hide Inv, Legal, Step, LegalRun;
    DelayedTask(k, n);
    NeverWakes(Step(k, Action.Delay(n)), acts, k.current);
  }

  function Ticks(acts: seq<Action>): nat {
    if acts == [] then 0 else (if acts[0].Tick? then 1 else 0) + Ticks(acts[1..])
  }

  /** A sleeping task that nobody deletes sleeps through any run that stops short of its deadline,
      and is READY right after the tick that reaches it. */
  lemma {:induction false} SleepEndsExactlyOnTime(k: Kernel, acts: seq<Action>, t: Addr, d: nat)
    requires Inv(k) && LegalRun(k, acts) && SleepsUntil(k, t, d) && Action.Delete(t) !in acts
    ensures k.tick + Ticks(acts) < d ==> SleepsUntil(Exec(k, acts), t, d)
    ensures k.tick + Ticks(acts) == d && acts != [] && acts[|acts| - 1].Tick? ==> SleepOver(Exec(k, acts), t)
    decreases |acts|
  {
    hide Inv, Legal, Step, SleepsUntil, SleepOver;
    SleepLiesAhead(k, t, d);
    if acts != [] {
      SleepStep(k, acts[0], t, d);
      LastTickCounts(acts[1..]);
      assert acts[1..] == [] || acts[1..][|acts[1..]| - 1] == acts[|acts| - 1];
      if !(acts[0].Tick? && k.tick + 1 == d) {
        SleepEndsExactlyOnTime(Step(k, acts[0]), acts[1..], t, d);
      }
    }
  }

  lemma SleepLiesAhead(k: Kernel, t: Addr, d: nat)
    requires SleepsUntil(k, t, d)
    ensures k.tick < d
  {
  }

  lemma {:induction false} LastTickCounts(acts: seq<Action>)
    ensures acts != [] && acts[|acts| - 1].Tick? ==> Ticks(acts) > 0
  {
    if |acts| > 1 {
      LastTickCounts(acts[1..]);
    }
  }

  ghost predicate IsBlocked(k: Kernel, t: Addr) {
    t in k.tasks && k.tasks[t].state == Blocked
  }

  ghost predicate StaysBlocked(k: Kernel, acts: seq<Action>, t: Addr)
    requires Inv(k) && LegalRun(k, acts)
    decreases |acts|
  {
    hide Inv, Legal, Step;
    IsBlocked(k, t) && (acts != [] ==> StaysBlocked(Step(k, acts[0]), acts[1..], t))
  }

  lemma RunnerActs(k: Kernel, a: Action, t: Addr)
    requires Inv(k) && Legal(k, a) && IsBlocked(k, t) && (a.Invoke? || a.Resume? || a.Delay?)
    ensures t != k.current
  {
    hide RingsPlaced, WaitsPlaced, TasksOk, RegistryOk, CallsOk, MutexesOk, HandoffsOk;
  }

  /** A task that is blocked before and after a step waits for the same deadline. */
  lemma DeadlineStays(k: Kernel, a: Action, t: Addr)
    requires Inv(k) && Legal(k, a) && IsBlocked(k, t) && IsBlocked(Step(k, a), t)
    ensures Step(k, a).tasks[t].wakeTime == k.tasks[t].wakeTime
  {
    hide Inv, Legal, Step, Still, Timely, Due;
    if a.Tick? {
      TickTask(k, t);
    } else {
      OtherDeadlineStays(k, a, t);
    }
  }

  lemma OtherDeadlineStays(k: Kernel, a: Action, t: Addr)
    requires Inv(k) && Legal(k, a) && IsBlocked(k, t) && IsBlocked(Step(k, a), t) && !a.Tick?
    ensures Step(k, a).tasks[t].wakeTime == k.tasks[t].wakeTime
  {
    hide Inv, Legal, Step;
    DeleteNeedsTask(k, a);
    if a.Invoke? || a.Resume? || a.Delay? {
      RunnerActs(k, a, t);
      StepTimely(k, a, NULL);
    } else {
      StepStill(k, a, NULL);
    }
  }

  lemma {:induction false} DeadlineStaysOverRun(k: Kernel, acts: seq<Action>, t: Addr)
    requires Inv(k) && LegalRun(k, acts) && StaysBlocked(k, acts, t)
    ensures IsBlocked(Exec(k, acts), t) && Exec(k, acts).tasks[t].wakeTime == k.tasks[t].wakeTime
    decreases |acts|
  {
    hide Inv, Legal, Step;
    if acts != [] {
      DeadlineStays(k, acts[0], t);
      DeadlineStaysOverRun(Step(k, acts[0]), acts[1..], t);
    }
  }

  /** A timed wait, on a mutex or anything else, ends no later than its deadline: a run through
      which the task stays blocked stops short of it. */
  lemma TimedWaitEnds(k: Kernel, acts: seq<Action>, t: Addr, d: nat)
    requires Inv(k) && LegalRun(k, acts) && OnTimeRun(k, acts) && NotOverdue(k)
    requires StaysBlocked(k, acts, t) && t in k.tasks && k.tasks[t].wakeTime == d < U32_MAX
    ensures Exec(k, acts).tick < d
  {
    hide Inv, LegalRun, OnTimeRun, StaysBlocked;
    NobodyOversleeps(k, acts);
    DeadlineStaysOverRun(k, acts, t);
  }

  /** A call that blocks its caller. */
  lemma CallSetsDeadline(k: Kernel, w: WaitKey, n: nat, msg: seq<Byte>)
    requires Inv(k) && Legal(k, Invoke(w, n, msg))
    ensures var k1 := Step(k, Invoke(w, n, msg));
      && k1.tick == k.tick
      && (IsBlocked(k1, k.current) ==>
            k1.tasks[k.current].wakeTime == if n == 0 then U32_MAX else (k.tick + n) % U32_MOD)
  {
    hide Inv, Step;
    StepTimely(k, Invoke(w, n, msg), NULL);
    assert k.tasks[k.current].state == Running;
  }

  /** Its deadline is the finite T + n if and only if that stays below the "forever" value. */
  lemma CallDeadlineIff(k: Kernel, w: WaitKey, n: nat, msg: seq<Byte>)
    requires Inv(k) && Legal(k, Invoke(w, n, msg)) && k.tick <= U32_MAX && 0 < n <= U32_MAX
    requires IsBlocked(Step(k, Invoke(w, n, msg)), k.current)
    ensures var d := Step(k, Invoke(w, n, msg)).tasks[k.current].wakeTime;
      && (d == k.tick + n && k.tick < d < U32_MAX <==> k.tick + n < U32_MAX)
      && (d == U32_MAX <==> k.tick + n == U32_MAX)
  {
    hide Inv, Legal, Step;
    CallSetsDeadline(k, w, n, msg);
  }

  ghost function CallThenTick(k: Kernel, w: WaitKey, n: nat, msg: seq<Byte>): Kernel
    requires Inv(k) && Legal(k, Invoke(w, n, msg))
  {
    hide Inv, Step;
    Step(Step(k, Invoke(w, n, msg)), Action.Tick)
  }

  /** A call that blocks is over right after the next tick if and only if it was for one tick or its
      deadline wrapped. */
  lemma CallOverAtOnceIff(k: Kernel, w: WaitKey, n: nat, msg: seq<Byte>)
    requires Inv(k) && Legal(k, Invoke(w, n, msg)) && k.tick < U32_MAX && 0 < n <= U32_MAX
    requires IsBlocked(Step(k, Invoke(w, n, msg)), k.current)
    ensures var k2 := CallThenTick(k, w, n, msg);
      k.current in k2.tasks && (k2.tasks[k.current].state == Ready
                                <==> (n == 1 && k.tick + 1 < U32_MAX) || k.tick + n >= U32_MOD)
  {
    hide Inv, Step;
    CallSetsDeadline(k, w, n, msg);
    TickTask(Step(k, Invoke(w, n, msg)), k.current);
  }

  /** A tick does not touch the task. */
  ghost predicate TickLeaves(k: Kernel, t: Addr)
    requires Inv(k)
  {
    hide Inv, Step;
    var k' := Step(k, Action.Tick);
    t in k.tasks && t in k'.tasks && k'.tasks[t] == k.tasks[t]
  }

  /** With timeout 0, or with T + n == UINT32_MAX, no tick ends the wait: as long as nothing else has woken
      the task, a tick leaves it as it is. */
  lemma CallNeverTimesOut(k: Kernel, w: WaitKey, n: nat, msg: seq<Byte>, acts: seq<Action>)
    requires Inv(k) && Legal(k, Invoke(w, n, msg)) && (n == 0 || k.tick + n == U32_MAX)
    requires LegalRun(Step(k, Invoke(w, n, msg)), acts) && StaysBlocked(Step(k, Invoke(w, n, msg)), acts, k.current)
    ensures TickLeaves(Exec(Step(k, Invoke(w, n, msg)), acts), k.current)
  {
    hide Inv, Legal, Step, LegalRun;
    var k1 := Step(k, Invoke(w, n, msg));
    CallSetsDeadline(k, w, n, msg);
    StartsBlocked(k1, acts, k.current);
    DeadlineStaysOverRun(k1, acts, k.current);
    TickTask(Exec(k1, acts), k.current);
  }

  lemma StartsBlocked(k: Kernel, acts: seq<Action>, t: Addr)
    requires Inv(k) && LegalRun(k, acts) && StaysBlocked(k, acts, t)
    ensures IsBlocked(k, t)
  {
    hide Inv, LegalRun;
  }

  /** A call made at tick T with a timeout of n that blocks its caller leaves it blocked at no tick
      from T + n on, whatever the rest of the run: a mutex is acquired or given up by then. */
  lemma CallBlocksNoLonger(k: Kernel, w: WaitKey, n: nat, msg: seq<Byte>, acts: seq<Action>)
    requires Inv(k) && NotOverdue(k) && Legal(k, Invoke(w, n, msg)) && n > 0 && k.tick + n < U32_MAX
    requires LegalRun(Step(k, Invoke(w, n, msg)), acts) && OnTimeRun(Step(k, Invoke(w, n, msg)), acts)
    requires StaysBlocked(Step(k, Invoke(w, n, msg)), acts, k.current)
    ensures Exec(Step(k, Invoke(w, n, msg)), acts).tick < k.tick + n
  {
    hide Inv, Legal, Step, NotOverdue, OnTimeRun, LegalRun;
    CallSetsDeadline(k, w, n, msg);
    StepNotOverdue(k, Invoke(w, n, msg));
    StartsBlocked(Step(k, Invoke(w, n, msg)), acts, k.current);
    TimedWaitEnds(Step(k, Invoke(w, n, msg)), acts, k.current, k.tick + n);
  }
}
