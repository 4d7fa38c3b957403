/** No wakeup is lost: a semaphore or queue never has something to give and somebody waiting for it
    without enough tasks already woken and about to retry. */
module Wakeups {
  import opened Types
  import opened MessageQueue
  import opened KernelState
  import opened Steps
  import opened Runs

  /** Woken inside the call that waits on w, without a timeout, and yet to retry. */
  ghost predicate IsWoken(c: Tcb, w: WaitKey) {
    c.call.InCall? && c.call.on == w && c.state != Blocked && c.wakeStatus == Ok
  }

  ghost function Woken(tasks: map<Addr, Tcb>, w: WaitKey): set<Addr> {
    set t | t in tasks && IsWoken(tasks[t], w)
  }

  /** How many calls waiting on w could complete: units, messages or free slots. */
  ghost function Available(k: Kernel, w: WaitKey): int {
    match w
    case MutexQ(_) => 0
    case SemQ(s) => if s in k.sems then k.sems[s].count else 0
    case SendQ(q) => if q in k.queues then k.queues[q].depth - k.queues[q].count else 0
    case RecvQ(q) => if q in k.queues then k.queues[q].count else 0
  }

  ghost predicate NoLoss(k: Kernel, w: WaitKey) {
    w in k.waits && k.waits[w] != [] ==> Available(k, w) <= |Woken(k.tasks, w)|
  }

  ghost predicate NothingLost(k: Kernel) {
    forall w :: w in k.waits ==> NoLoss(k, w)
  }

  // ---------------------------------------------------------------- steps that give nothing

  ghost predicate WokenStay(tasks: map<Addr, Tcb>, tasks': map<Addr, Tcb>, w: WaitKey) {
    forall t :: t in tasks && IsWoken(tasks[t], w) ==> t in tasks' && IsWoken(tasks'[t], w)
  }

  /** Nothing more becomes available on w, nobody starts to wait, no woken task goes away. */
  ghost predicate Calm(k: Kernel, k': Kernel, w: WaitKey) {
    && Available(k', w) <= Available(k, w)
    && (w in k'.waits && k'.waits[w] != [] ==> w in k.waits && k.waits[w] != [])
    && WokenStay(k.tasks, k'.tasks, w)
  }

  lemma SubsetSize(a: set<Addr>, b: set<Addr>)
    requires a <= b
    ensures |a| <= |b|
  {
    assert b == a + (b - a);
  }

  lemma CalmKeeps(k: Kernel, k': Kernel, w: WaitKey)
    requires NoLoss(k, w) && Calm(k, k', w)
    ensures NoLoss(k', w)
  {
    SubsetSize(Woken(k.tasks, w), Woken(k'.tasks, w));
  }

  lemma CalmSame(k: Kernel, w: WaitKey)
    ensures Calm(k, k, w)
  {
  }

  lemma CalmTrans(k: Kernel, k1: Kernel, k2: Kernel, w: WaitKey)
    requires Calm(k, k1, w) && Calm(k1, k2, w)
    ensures Calm(k, k2, w)
  {
  }

  lemma CalmWake(k: Kernel, t: Addr, status: Status, w: WaitKey)
    requires WaitsPlaced(k.waits, k.tasks) && t in k.tasks && k.tasks[t].state == Blocked
    requires k.tasks[t].bucket < |k.rings|
    ensures Calm(k, Wake(k, t, status), w)
  {
    UnlinkShrinks(k, t);
    var k' := Wake(k, t, status);
    if w in k'.waits && k'.waits[w] != [] {
      assert k'.waits[w][0] in k'.waits[w];
      assert k'.waits[w][0] in k.waits[w];
    }
  }

  lemma WokenPlus(tasks: map<Addr, Tcb>, t: Addr, c: Tcb, w: WaitKey)
    requires t in tasks && !IsWoken(tasks[t], w) && IsWoken(c, w)
    ensures |Woken(tasks[t := c], w)| == |Woken(tasks, w)| + 1
  {
    assert Woken(tasks[t := c], w) == Woken(tasks, w) + {t};
  }

  lemma WokenMinus(tasks: map<Addr, Tcb>, t: Addr, c: Tcb, w: WaitKey)
    requires t in tasks && !IsWoken(c, w)
    ensures |Woken(tasks[t := c], w)| >= |Woken(tasks, w)| - 1
  {
    assert Woken(tasks[t := c], w) == Woken(tasks, w) - {t};
  }

  /** What gives: one more available, and the first waiter woken. */
  lemma GiveKeeps(k: Kernel, w: WaitKey, k': Kernel)
    requires Placed(k) && w in k.waits && NoLoss(k, w)
    requires k'.tasks == WakeHead(k, w).tasks && k'.waits == WakeHead(k, w).waits
    requires Available(k', w) <= Available(k, w) + 1
    ensures NoLoss(k', w)
  {
    if k.waits[w] != [] {
      var t := k.waits[w][0];
      assert t in k.waits[w];
      hide RingsPlaced, WaitsPlaced, TasksOk, RegistryOk;
      WaiterFacts(k, w, t);
      WokenPlus(k.tasks, t, k'.tasks[t], w);
    }
  }

  lemma CalmUpdate(k: Kernel, t: Addr, c: Tcb, w: WaitKey)
    requires t in k.tasks && (IsWoken(k.tasks[t], w) ==> IsWoken(c, w))
    ensures Calm(k, SetTask(k, t, c), w)
  {
  }

  lemma CalmWakeHead(k: Kernel, w: WaitKey, other: WaitKey)
    requires Placed(k) && other in k.waits
    ensures Calm(k, WakeHead(k, other), w)
  {
    if k.waits[other] != [] {
      var t := k.waits[other][0];
      assert t in k.waits[other];
      WaiterFacts(k, other, t);
      CalmWake(k, t, k.tasks[t].wakeStatus, w);
    }
  }

  /** What takes: one fewer available, and at most one woken task, the taker, gone. */
  lemma TakeKeeps(k: Kernel, w: WaitKey, c: Tcb, k': Kernel)
    requires NoLoss(k, w) && k.current in k.tasks && !IsWoken(c, w)
    requires k'.tasks == k.tasks[k.current := c] && k'.waits == k.waits
    requires Available(k', w) <= Available(k, w) - 1
    ensures NoLoss(k', w)
  {
    WokenMinus(k.tasks, k.current, c, w);
  }

  /** A task that joins the wait list found nothing available. */
  lemma JoinKeeps(k: Kernel, w: WaitKey, timeout: nat, call: Call)
    requires w in k.waits && k.current in k.tasks && k.tasks[k.current].bucket < |k.rings|
    requires Available(k, w) <= 0
    ensures NoLoss(BlockCurrent(Enqueue(k, w, k.current), Waiting(w), timeout, call), w)
  {
  }

  lemma CalmJoin(k: Kernel, on: WaitKey, timeout: nat, call: Call, w: WaitKey)
    requires on in k.waits && k.current in k.tasks && k.tasks[k.current].bucket < |k.rings|
    requires w != on && !IsWoken(k.tasks[k.current], w)
    ensures Calm(k, BlockCurrent(Enqueue(k, on, k.current), Waiting(on), timeout, call), w)
  {
  }

  /** The running task is outside any call, or back in the one that waits on w. */
  ghost predicate CallsFrom(k: Kernel, w: WaitKey) {
    k.current in k.tasks && (k.tasks[k.current].call.InCall? ==> k.tasks[k.current].call.on == w)
  }

  lemma WaitLosesNothing(k: Kernel, on: WaitKey, timeout: nat, call: Call)
    requires NothingLost(k) && CallsFrom(k, on) && on in k.waits
    requires k.tasks[k.current].bucket < |k.rings| && Available(k, on) <= 0
    ensures NothingLost(BlockCurrent(Enqueue(k, on, k.current), Waiting(on), timeout, call))
  {
    var k' := BlockCurrent(Enqueue(k, on, k.current), Waiting(on), timeout, call);
    forall w | w in k'.waits
      ensures NoLoss(k', w)
    {
      if w == on {
        JoinKeeps(k, on, timeout, call);
      } else {
        CalmJoin(k, on, timeout, call, w);
        CalmKeeps(k, k', w);
      }
    }
  }

  lemma CalmCounts(k: Kernel, k': Kernel, w: WaitKey)
    requires k'.tasks == k.tasks && k'.waits == k.waits && Available(k', w) <= Available(k, w)
    ensures Calm(k, k', w)
  {
  }

  /** Giving on one key, with the rest of the state and the other keys' counts as they were. */
  lemma GiveLosesNothing(k: Kernel, on: WaitKey, k': Kernel)
    requires Placed(k) && NothingLost(k) && on in k.waits
    requires k'.tasks == WakeHead(k, on).tasks && k'.waits == WakeHead(k, on).waits
    requires Available(k', on) <= Available(k, on) + 1
    requires forall w :: w != on ==> Available(k', w) <= Available(k, w)
    ensures NothingLost(k')
  {
    hide RingsPlaced, WaitsPlaced, TasksOk, RegistryOk, Calm, NoLoss;
    var k1 := WakeHead(k, on);
    WakeHeadFrame(k, on);
    forall w | w in k'.waits
      ensures NoLoss(k', w)
    {
      if w == on {
        GiveKeeps(k, w, k');
      } else {
        CalmWakeHead(k, w, on);
        assert Available(k', w) <= Available(k1, w);
        CalmCounts(k1, k', w);
        CalmTrans(k, k1, k', w);
        CalmKeeps(k, k', w);
      }
    }
  }

  lemma PostLosesNothing(k: Kernel, s: nat)
    requires Inv(k) && s in k.sems && NothingLost(k)
    ensures NothingLost(KernelState.Post(k, s))
  {
    hide RingsPlaced, WaitsPlaced, TasksOk, RegistryOk, CallsOk, MutexesOk, HandoffsOk, NothingLost;
    if k.sems[s].count < k.sems[s].maxCount {
      WakeHeadFrame(k, SemQ(s));
      GiveLosesNothing(k, SemQ(s), KernelState.Post(k, s));
    }
  }

  lemma TakeLosesNothing(k: Kernel, on: WaitKey, k1: Kernel)
    requires NothingLost(k) && CallsFrom(k, on) && k1.tasks == k.tasks && k1.waits == k.waits && k1.current == k.current
    requires Available(k1, on) <= Available(k, on) - 1
    requires forall w :: w != on ==> Available(k1, w) <= Available(k, w)
    ensures NothingLost(Return(k1))
  {
    var k' := Return(k1);
    var c := k'.tasks[k.current];
    assert forall w :: Available(k', w) == Available(k1, w);
    forall w | w in k'.waits
      ensures NoLoss(k', w)
    {
      if w == on {
        TakeKeeps(k, w, c, k');
      } else {
        CalmCounts(k, k1, w);
        CalmUpdate(k1, k.current, c, w);
        CalmTrans(k, k1, k', w);
        CalmKeeps(k, k', w);
      }
    }
  }

  lemma SemWaitLosesNothing(k: Kernel, s: nat, timeout: nat, msg: seq<Byte>)
    requires Inv(k) && CanRun(k) && s in k.sems && NothingLost(k) && CallsFrom(k, SemQ(s))
    ensures NothingLost(SemWait(k, s, timeout, msg))
  {
    assert k.tasks[k.current].bucket < |k.rings|;
    hide RingsPlaced, WaitsPlaced, TasksOk, RegistryOk, CallsOk, MutexesOk, HandoffsOk, NothingLost;
    if k.sems[s].count == 0 {
      WaitLosesNothing(k, SemQ(s), timeout, InCall(SemQ(s), timeout, msg));
    } else {
      TakeLosesNothing(k, SemQ(s), k.(sems := k.sems[s := k.sems[s].(count := k.sems[s].count - 1)]));
    }
  }

  /** Completing a queue operation takes on one side of the queue and gives on the other. */
  ghost predicate Exchange(k: Kernel, taken: WaitKey, given: WaitKey, k1: Kernel) {
    && Placed(k) && CallsFrom(k, taken) && CanRun(k) && taken != given && given in k.waits
    && k1.tasks == WakeHead(k, given).tasks && k1.waits == WakeHead(k, given).waits && k1.current == k.current
    && Available(k1, taken) <= Available(k, taken) - 1 && Available(k1, given) <= Available(k, given) + 1
    && (forall w :: w != taken && w != given ==> Available(k1, w) <= Available(k, w))
  }

  lemma ExchangeFrame(k: Kernel, taken: WaitKey, given: WaitKey, k1: Kernel)
    requires Exchange(k, taken, given, k1)
    ensures k.current in k1.tasks && k1.tasks[k.current] == k.tasks[k.current]
    ensures forall w :: Available(Return(k1), w) == Available(k1, w)
    ensures forall w :: Available(WakeHead(k, given), w) == Available(k, w)
  {
    WakeHeadFrame(k, given);
    WakeHeadSparesRunner(k, given);
  }

  lemma ExchangeGiven(k: Kernel, taken: WaitKey, given: WaitKey, k1: Kernel)
    requires Exchange(k, taken, given, k1) && NoLoss(k, given)
    ensures k1.current in k1.tasks && NoLoss(Return(k1), given)
  {
    ExchangeFrame(k, taken, given, k1);
    hide RingsPlaced, WaitsPlaced, TasksOk, RegistryOk, Calm, NoLoss, WakeHead, Available;
    GiveKeeps(k, given, k1);
    CalmUpdate(k1, k.current, Return(k1).tasks[k.current], given);
    CalmKeeps(k1, Return(k1), given);
  }

  lemma ExchangeTaken(k: Kernel, taken: WaitKey, given: WaitKey, k1: Kernel)
    requires Exchange(k, taken, given, k1) && NoLoss(k, taken)
    ensures k1.current in k1.tasks && NoLoss(Return(k1), taken)
  {
    ExchangeFrame(k, taken, given, k1);
    WakeHeadFrame(k, given);
    hide RingsPlaced, WaitsPlaced, TasksOk, RegistryOk, Calm, NoLoss, WakeHead, Available;
    CalmWakeHead(k, taken, given);
    CalmKeeps(k, WakeHead(k, given), taken);
    TakeKeeps(WakeHead(k, given), taken, Return(k1).tasks[k.current], Return(k1));
  }

  lemma ExchangeOther(k: Kernel, taken: WaitKey, given: WaitKey, k1: Kernel, w: WaitKey)
    requires Exchange(k, taken, given, k1) && NoLoss(k, w) && w != taken && w != given
    ensures k1.current in k1.tasks && NoLoss(Return(k1), w)
  {
    ExchangeFrame(k, taken, given, k1);
    hide RingsPlaced, WaitsPlaced, TasksOk, RegistryOk, Calm, NoLoss, WakeHead, Available;
    var ka, k' := WakeHead(k, given), Return(k1);
    CalmWakeHead(k, w, given);
    CalmCounts(ka, k1, w);
    CalmUpdate(k1, k.current, k'.tasks[k.current], w);
    CalmTrans(k, ka, k1, w);
    CalmTrans(k, k1, k', w);
    CalmKeeps(k, k', w);
  }

  lemma ExchangeLosesNothing(k: Kernel, taken: WaitKey, given: WaitKey, k1: Kernel)
    requires Exchange(k, taken, given, k1) && NothingLost(k)
    ensures k1.current in k1.tasks && NothingLost(Return(k1))
  {
    WakeHeadFrame(k, given);
    ExchangeFrame(k, taken, given, k1);
    hide RingsPlaced, WaitsPlaced, TasksOk, RegistryOk, NoLoss, WakeHead, Available;
    forall w | w in Return(k1).waits
      ensures NoLoss(Return(k1), w)
    {
      if w == given {
        ExchangeGiven(k, taken, given, k1);
      } else if w == taken {
        ExchangeTaken(k, taken, given, k1);
      } else {
        ExchangeOther(k, taken, given, k1, w);
      }
    }
  }

  lemma SendIsExchange(k: Kernel, q: nat, msg: seq<Byte>)
    requires Placed(k) && CanRun(k) && CallsFrom(k, SendQ(q)) && RecvQ(q) in k.waits && q in k.queues
    requires QueueOk(k.queues[q]) && |msg| == k.queues[q].msgSize && k.queues[q].count < k.queues[q].depth
    ensures Exchange(k, SendQ(q), RecvQ(q), WakeHead(k, RecvQ(q)).(queues := k.queues[q := Put(k.queues[q], msg)]))
  {
    hide RingsPlaced, WaitsPlaced, TasksOk, RegistryOk, WakeHead;
    WakeHeadFrame(k, RecvQ(q));
  }

  lemma RecvIsExchange(k: Kernel, q: nat)
    requires Placed(k) && CanRun(k) && CallsFrom(k, RecvQ(q)) && SendQ(q) in k.waits && q in k.queues
    requires QueueOk(k.queues[q]) && k.queues[q].count > 0
    ensures Exchange(k, RecvQ(q), SendQ(q), WakeHead(k, SendQ(q)).(queues := k.queues[q := Get(k.queues[q]).1]))
  {
    hide RingsPlaced, WaitsPlaced, TasksOk, RegistryOk, WakeHead;
    WakeHeadFrame(k, SendQ(q));
  }

  lemma SendLosesNothing(k: Kernel, q: nat, timeout: nat, msg: seq<Byte>)
    requires Inv(k) && CanRun(k) && q in k.queues && |msg| == k.queues[q].msgSize
    requires NothingLost(k) && CallsFrom(k, SendQ(q))
    ensures NothingLost(Send(k, q, timeout, msg))
  {
    assert k.tasks[k.current].bucket < |k.rings|;
    hide RingsPlaced, WaitsPlaced, TasksOk, RegistryOk, CallsOk, MutexesOk, HandoffsOk, NothingLost, Exchange;
    if k.queues[q].count < k.queues[q].depth {
      SendIsExchange(k, q, msg);
      ExchangeLosesNothing(k, SendQ(q), RecvQ(q),
        WakeHead(k, RecvQ(q)).(queues := k.queues[q := Put(k.queues[q], msg)]));
    } else {
      WaitLosesNothing(k, SendQ(q), timeout, InCall(SendQ(q), timeout, msg));
    }
  }

  lemma RecvLosesNothing(k: Kernel, q: nat, timeout: nat, msg: seq<Byte>)
    requires Inv(k) && CanRun(k) && q in k.queues
    requires NothingLost(k) && CallsFrom(k, RecvQ(q))
    ensures NothingLost(Recv(k, q, timeout, msg))
  {
    assert k.tasks[k.current].bucket < |k.rings|;
    hide RingsPlaced, WaitsPlaced, TasksOk, RegistryOk, CallsOk, MutexesOk, HandoffsOk, NothingLost, Exchange;
    if k.queues[q].count > 0 {
      RecvIsExchange(k, q);
      ExchangeLosesNothing(k, RecvQ(q), SendQ(q),
        WakeHead(k, SendQ(q)).(queues := k.queues[q := Get(k.queues[q]).1]));
    } else {
      WaitLosesNothing(k, RecvQ(q), timeout, InCall(RecvQ(q), timeout, msg));
    }
  }

  lemma CalmPriority(k: Kernel, t: Addr, p: nat, w: WaitKey)
    requires t in k.tasks && |k.rings| == NUM_PRIORITIES && k.tasks[t].bucket < NUM_PRIORITIES
    ensures Calm(k, SetPriority(k, t, p), w) && Calm(k, Boost(k, t, p), w)
  {
  }

  lemma CalmLock(k: Kernel, m: nat, timeout: nat, msg: seq<Byte>, w: WaitKey)
    requires Inv(k) && CanRun(k) && m in k.mutexes && CallsFrom(k, MutexQ(m)) && !w.MutexQ?
    ensures Calm(k, Lock(k, m, timeout, msg), w)
  {
    hide MinPrio, RingsPlaced, WaitsPlaced, TasksOk, RegistryOk, CallsOk, MutexesOk, HandoffsOk;
    LockFacts(k, m);
    var mu := k.mutexes[m];
    if !mu.locked || mu.owner == k.current {
      CalmUpdate(k, k.current, k.tasks[k.current].(call := NoCall), w);
    } else {
      CalmLockWaits(k, m, mu.owner, Demand(k, m), timeout, InCall(MutexQ(m), timeout, msg), w);
    }
  }

  lemma CalmLockWaits(k: Kernel, m: nat, owner: Addr, p: nat, timeout: nat, call: Call, w: WaitKey)
    requires MutexQ(m) in k.waits && CallsFrom(k, MutexQ(m)) && !w.MutexQ? && owner in k.tasks && owner != k.current
    requires |k.rings| == NUM_PRIORITIES
    requires k.tasks[owner].bucket < NUM_PRIORITIES && k.tasks[k.current].bucket < NUM_PRIORITIES
    ensures var k1 := Boost(k, owner, p);
      Calm(k, BlockCurrent(Enqueue(k1, MutexQ(m), k.current), Waiting(MutexQ(m)), timeout, call), w)
  {
    hide Calm;
    var k1 := Boost(k, owner, p);
    CalmPriority(k, owner, p, w);
    CalmJoin(k1, MutexQ(m), timeout, call, w);
    CalmTrans(k, k1, BlockCurrent(Enqueue(k1, MutexQ(m), k.current), Waiting(MutexQ(m)), timeout, call), w);
  }

  lemma CalmPassOn(k: Kernel, m: nat, w: WaitKey)
    requires WaitsPlaced(k.waits, k.tasks) && MutexQ(m) in k.waits && !w.MutexQ?
    requires forall t :: t in k.waits[MutexQ(m)] ==> k.tasks[t].bucket < |k.rings| && k.tasks[t].state == Blocked
    ensures Calm(k, PassOn(k, m), w)
  {
    hide Best;
    var ws := k.waits[MutexQ(m)];
    if ws != [] {
      var next := ws[Best(k.tasks, ws)];
      assert next in ws;
      CalmWake(k, next, k.tasks[next].wakeStatus, w);
    }
  }

  lemma CalmUnlock(k: Kernel, m: nat, w: WaitKey)
    requires Inv(k) && CanRun(k) && m in k.mutexes && !w.MutexQ?
    ensures Calm(k, KernelState.Unlock(k, m), w)
  {
    if k.mutexes[m].owner == k.current {
      var base := k.tasks[k.current].base;
      var k1 := SetPriority(k, k.current, base);
      RunnerUnlocks(k, m);
      hide RingsPlaced, WaitsPlaced, TasksOk, RegistryOk, CallsOk, MutexesOk, HandoffsOk, Calm;
      CalmPriority(k, k.current, base, w);
      CalmPassOn(k1, m, w);
      CalmTrans(k, k1, PassOn(k1, m), w);
    }
  }

  lemma CalmPreempt(k: Kernel, w: WaitKey)
    ensures Calm(k, Preempt(k), w)
  {
  }

  lemma CalmSelect(k: Kernel, p: nat, w: WaitKey)
    requires p < |k.rings| && k.rings[p] != [] && k.rings[p][0] in k.tasks
    ensures Calm(k, Select(k, p), w)
  {
  }

  lemma CalmDispatch(k: Kernel, w: WaitKey)
    requires Inv(k)
    ensures Calm(k, KernelState.Dispatch(k), w)
  {
    hide WaitsPlaced, RegistryOk, KeysOk, CallsOk, MutexesOk, HandoffsOk, CountsOk, Calm, Select, Preempt, FirstOccupied;
    DispatchSelects(k);
    CalmPreempt(k, w);
    CalmSelect(Preempt(k), FirstOccupied(k.rings), w);
    CalmTrans(k, Preempt(k), KernelState.Dispatch(k), w);
  }

  lemma CalmScan(k: Kernel, i: nat, w: WaitKey)
    requires Inv(k) && i <= |k.registry|
    ensures Calm(k, ScanFrom(k, i), w)
    decreases |k.registry| - i
  {
    hide RingsPlaced, WaitsPlaced, TasksOk, RegistryOk, KeysOk, CallsOk, MutexesOk, HandoffsOk, CountsOk, Calm, WakeIfDue;
    CalmSame(k, w);
    if i < |k.registry| {
      var t := k.registry[i];
      RegistryEntry(k, i);
      var k1 := WakeIfDue(k, t);
      WakeIfDueKeepsInv(k, t);
      WakeIfDueRegistry(k, t);
      CalmDue(k, t, w);
      CalmScan(k1, i + 1, w);
      CalmTrans(k, k1, ScanFrom(k1, i + 1), w);
    }
  }

  lemma CalmDue(k: Kernel, t: Addr, w: WaitKey)
    requires Placed(k) && t in k.tasks
    ensures Calm(k, WakeIfDue(k, t), w)
  {
    if Due(k, t) {
      CalmWake(k, t, if k.tasks[t].block == Sleeping then k.tasks[t].wakeStatus else ErrTimeout, w);
    }
  }

  lemma CalmDelete(k: Kernel, t: Addr, w: WaitKey)
    requires Placed(k) && t in k.tasks && !IsWoken(k.tasks[t], w)
    ensures Calm(k, KernelState.Delete(k, t), w)
  {
    UnlinkShrinks(k, t);
    var k' := KernelState.Delete(k, t);
    if w in k'.waits && k'.waits[w] != [] {
      assert k'.waits[w][0] in k'.waits[w];
      assert k'.waits[w][0] in k.waits[w];
    }
  }

  lemma CalmDelay(k: Kernel, ticks: nat, w: WaitKey)
    requires k.current in k.tasks && k.tasks[k.current].bucket < |k.rings| && k.tasks[k.current].call == NoCall
    ensures Calm(k, KernelState.Delay(k, ticks), w)
  {
  }

  lemma CalmCreate(k: Kernel, t: Addr, prio: nat, w: WaitKey)
    requires t !in k.tasks && |k.rings| == NUM_PRIORITIES
    ensures Calm(k, KernelState.Create(k, t, prio), w)
  {
  }

  lemma EnterLosesNothing(k: Kernel, w: WaitKey, timeout: nat, msg: seq<Byte>)
    requires Inv(k) && CanRun(k) && CallOk(InCall(w, timeout, msg), k.waits, k.queues)
    requires NothingLost(k) && CallsFrom(k, w)
    ensures NothingLost(Enter(k, w, timeout, msg))
  {
    match w
    case MutexQ(m) => LockLosesNothing(k, m, timeout, msg);
    case SemQ(s) => SemWaitLosesNothing(k, s, timeout, msg);
    case SendQ(q) => SendLosesNothing(k, q, timeout, msg);
    case RecvQ(q) => RecvLosesNothing(k, q, timeout, msg);
  }

  lemma LockLosesNothing(k: Kernel, m: nat, timeout: nat, msg: seq<Byte>)
    requires Inv(k) && CanRun(k) && m in k.mutexes && CallsFrom(k, MutexQ(m)) && NothingLost(k)
    ensures NothingLost(Lock(k, m, timeout, msg))
  {
    hide MinPrio, RingsPlaced, WaitsPlaced, TasksOk, RegistryOk, CallsOk, MutexesOk, HandoffsOk, Calm;
    LockFacts(k, m);
    var k' := Lock(k, m, timeout, msg);
    forall w | w in k'.waits
      ensures NoLoss(k', w)
    {
      if !w.MutexQ? {
        CalmLock(k, m, timeout, msg, w);
        assert w in k.waits;
        CalmKeeps(k, k', w);
      }
    }
  }

  // ---------------------------------------------------------------- runs

  /** No woken task is deleted before it has retried. */
  ghost predicate SparesWoken(k: Kernel, a: Action) {
    a.Delete? && a.t in k.tasks ==>
      !(k.tasks[a.t].call.InCall? && k.tasks[a.t].state != Blocked && k.tasks[a.t].wakeStatus == Ok)
  }

  lemma CalmStep(k: Kernel, a: Action, w: WaitKey)
    requires Inv(k) && Legal(k, a) && SparesWoken(k, a) && !a.Invoke? && !a.Resume? && !a.Post? && !w.MutexQ?
    ensures Calm(k, Step(k, a), w)
  {
    hide RingsPlaced, WaitsPlaced, TasksOk, RegistryOk, KeysOk, CallsOk, MutexesOk, HandoffsOk, CountsOk, Calm;
    hide KernelState.Unlock, KernelState.Delay, TickStep, KernelState.Dispatch, KernelState.Create, KernelState.Delete;
    Buckets(k);
    match a
    case Unlock(m) => CalmUnlock(k, m, w);
    case Delay(n) => CalmDelay(k, n, w);
    case Tick => CalmTick(k, w);
    case Dispatch => CalmDispatch(k, w);
    case Create(t, prio) => CalmCreate(k, t, prio, w);
    case Delete(t) => CalmDelete(k, t, w);
  }

  lemma CalmTick(k: Kernel, w: WaitKey)
    requires Inv(k)
    ensures Calm(k, TickStep(k), w)
  {
    hide RingsPlaced, WaitsPlaced, TasksOk, RegistryOk, CallsOk, MutexesOk, HandoffsOk;
    CalmScan(NextTick(k), 0, w);
  }

  lemma ResumeLosesNothing(k: Kernel)
    requires Inv(k) && CanRun(k) && NothingLost(k)
    ensures NothingLost(KernelState.Resume(k))
  {
    var c := k.tasks[k.current];
    assert CallOk(c.call, k.waits, k.queues);
    hide RingsPlaced, WaitsPlaced, TasksOk, RegistryOk, CallsOk, MutexesOk, HandoffsOk;
    if c.call.InCall? && c.wakeStatus != ErrTimeout {
      EnterLosesNothing(k, c.call.on, c.call.timeout, c.call.msg);
    } else {
      hide Calm;
      forall w | w in k.waits
        ensures NoLoss(Return(k), w)
      {
        CalmUpdate(k, k.current, c.(call := NoCall), w);
        CalmKeeps(k, Return(k), w);
      }
    }
  }

  lemma StepLosesNothing(k: Kernel, a: Action)
    requires Inv(k) && Legal(k, a) && SparesWoken(k, a) && NothingLost(k)
    ensures NothingLost(Step(k, a))
  {
    hide RingsPlaced, WaitsPlaced, TasksOk, RegistryOk, CallsOk, MutexesOk, HandoffsOk;
    match a
    case Invoke(w, timeout, msg) => EnterLosesNothing(k, w, timeout, msg);
    case Resume => ResumeLosesNothing(k);
    case Post(s) => PostLosesNothing(k, s);
    case _ => QuietLosesNothing(k, a);
  }

  lemma QuietLosesNothing(k: Kernel, a: Action)
    requires Inv(k) && Legal(k, a) && SparesWoken(k, a) && !a.Invoke? && !a.Resume? && !a.Post? && NothingLost(k)
    ensures NothingLost(Step(k, a))
  {
    hide Inv, Legal, SparesWoken, Step, Calm;
    forall w | w in Step(k, a).waits
      ensures NoLoss(Step(k, a), w)
    {
      if !w.MutexQ? {
        CalmStep(k, a, w);
        assert NoLoss(k, w);
        CalmKeeps(k, Step(k, a), w);
      }
    }
  }

  ghost predicate SparingRun(k: Kernel, acts: seq<Action>)
    requires Inv(k) && LegalRun(k, acts)
    decreases |acts|
  {
    hide Inv, Legal, Step;
    acts != [] ==> SparesWoken(k, acts[0]) && SparingRun(Step(k, acts[0]), acts[1..])
  }

  /** In no run is a wakeup lost, under barging, timeouts and re-enqueuing. */
  lemma {:induction false} NoWakeupIsLost(k: Kernel, acts: seq<Action>)
    requires Inv(k) && LegalRun(k, acts) && SparingRun(k, acts) && NothingLost(k)
    ensures NothingLost(Exec(k, acts))
    decreases |acts|
  {
    hide Inv, Legal, Step, NothingLost, SparesWoken;
    if acts != [] {
      StepLosesNothing(k, acts[0]);
      NoWakeupIsLost(Step(k, acts[0]), acts[1..]);
    }
  }

  /** Hence senders and receivers never wait on the same queue with nobody on the way. */
  lemma NeverBothStuck(k: Kernel, q: nat)
    requires Inv(k) && NothingLost(k) && q in k.queues
    requires k.waits[SendQ(q)] != [] && k.waits[RecvQ(q)] != []
    ensures Woken(k.tasks, SendQ(q)) != {} || Woken(k.tasks, RecvQ(q)) != {}
  {
    assert NoLoss(k, SendQ(q)) && NoLoss(k, RecvQ(q));
    assert QueueOk(k.queues[q]);
  }
}
