/** Priority inheritance over whole runs: how high an owner's priority is, exactly, and what that
    buys the waiters. */
module Inheritance {
  import opened Types
  import opened KernelState
  import opened Placement
  import opened Steps
  import opened Runs

  /** For each mutex, the priorities of all tasks that have waited on it since its present owner
      acquired it. */
  type History = map<nat, set<nat>>

  ghost predicate IsMin(p: nat, base: nat, others: set<nat>) {
    && p <= base && (forall x :: x in others ==> p <= x)
    && (p == base || p in others)
  }

  /** An owner's priority is exactly the minimum of its base priority and the history. */
  ghost predicate OwnersExact(mutexes: map<nat, Mutex>, tasks: map<Addr, Tcb>, h: History) {
    forall m :: m in mutexes && m in h && mutexes[m].owner in tasks ==>
      IsMin(tasks[mutexes[m].owner].prio, tasks[mutexes[m].owner].base, h[m])
  }

  /** Present waiters are part of the history, and own nothing themselves. */
  ghost predicate WaitersKnown(
    mutexes: map<nat, Mutex>, waits: map<WaitKey, seq<Addr>>, tasks: map<Addr, Tcb>, h: History)
  {
    forall m, t :: m in h && MutexQ(m) in waits && t in waits[MutexQ(m)] && t in tasks ==>
      tasks[t].prio in h[m] && OwnsNothing(mutexes, t)
  }

  ghost predicate OthersBase(mutexes: map<nat, Mutex>, tasks: map<Addr, Tcb>) {
    forall t :: t in tasks && OwnsNothing(mutexes, t) ==> tasks[t].prio == tasks[t].base
  }

  ghost predicate OneMutexEach(mutexes: map<nat, Mutex>) {
    forall m, n :: m in mutexes && n in mutexes && mutexes[m].owner == mutexes[n].owner != NULL ==> m == n
  }

  ghost predicate Exact(mutexes: map<nat, Mutex>, waits: map<WaitKey, seq<Addr>>, tasks: map<Addr, Tcb>, h: History) {
    && h.Keys == mutexes.Keys
    && OwnersExact(mutexes, tasks, h)
    && WaitersKnown(mutexes, waits, tasks, h)
    && OthersBase(mutexes, tasks)
    && OneMutexEach(mutexes)
  }

  // ---------------------------------------------------------------- steps that change no priority

  /** No priority, owner or mutex changes, and nobody joins a mutex's wait list. */
  ghost predicate Quiet(k: Kernel, k': Kernel) {
    && k'.mutexes == k.mutexes
    && (forall m, t :: MutexQ(m) in k'.waits && t in k'.waits[MutexQ(m)] ==>
          MutexQ(m) in k.waits && t in k.waits[MutexQ(m)])
    && (forall t :: t in k'.tasks ==>
          if t in k.tasks then k'.tasks[t].prio == k.tasks[t].prio && k'.tasks[t].base == k.tasks[t].base
          else k'.tasks[t].prio == k'.tasks[t].base && OwnsNothing(k.mutexes, t))
    && (forall m, t :: MutexQ(m) in k'.waits && t in k'.waits[MutexQ(m)] && t in k'.tasks ==> t in k.tasks)
  }

  lemma QuietKeepsExact(k: Kernel, k': Kernel, h: History)
    requires Exact(k.mutexes, k.waits, k.tasks, h) && Quiet(k, k')
    ensures Exact(k'.mutexes, k'.waits, k'.tasks, h)
  {
  }

  lemma QuietSame(k: Kernel)
    ensures Quiet(k, k)
  {
  }

  lemma QuietWake(k: Kernel, t: Addr, status: Status)
    requires Placed(k) && t in k.tasks
    ensures Quiet(k, Wake(k, t, status))
  {
    UnlinkShrinks(k, t);
  }

  lemma QuietWakeHead(k: Kernel, w: WaitKey)
    requires Placed(k) && w in k.waits
    ensures Quiet(k, WakeHead(k, w))
  {
    if k.waits[w] != [] {
      var t := k.waits[w][0];
      assert t in k.waits[w];
      QuietWake(k, t, k.tasks[t].wakeStatus);
    }
  }

  lemma QuietUpdate(k: Kernel, t: Addr, c: Tcb)
    requires t in k.tasks && c.prio == k.tasks[t].prio && c.base == k.tasks[t].base
    requires WaitsPlaced(k.waits, k.tasks)
    ensures Quiet(k, SetTask(k, t, c))
  {
  }

  lemma QuietTrans(k: Kernel, k1: Kernel, k2: Kernel)
    requires Quiet(k, k1) && Quiet(k1, k2) && k1.tasks.Keys == k.tasks.Keys
    ensures Quiet(k, k2)
  {
  }

  lemma QuietWait(k: Kernel, w: WaitKey, timeout: nat, call: Call)
    requires Placed(k) && CanRun(k) && w in k.waits && !w.MutexQ?
    ensures Quiet(k, BlockCurrent(Enqueue(k, w, k.current), Waiting(w), timeout, call))
  {
  }

  lemma QuietDue(k: Kernel, t: Addr)
    requires Placed(k) && t in k.tasks
    ensures Quiet(k, WakeIfDue(k, t)) && WakeIfDue(k, t).tasks.Keys == k.tasks.Keys
  {
    hide Quiet, WaitsPlaced, RegistryOk, Unlink, RingAdd;
    QuietSame(k);
    if Due(k, t) {
      QuietWake(k, t, if k.tasks[t].block == Sleeping then k.tasks[t].wakeStatus else ErrTimeout);
    }
  }

  lemma QuietScan(k: Kernel, i: nat)
    requires Inv(k) && i <= |k.registry|
    ensures Quiet(k, ScanFrom(k, i))
    decreases |k.registry| - i
  {
    hide RingsPlaced, WaitsPlaced, TasksOk, RegistryOk, KeysOk, CallsOk, MutexesOk, HandoffsOk, CountsOk, Quiet, WakeIfDue;
    QuietSame(k);
    if i < |k.registry| {
      var t := k.registry[i];
      RegistryEntry(k, i);
      var k1 := WakeIfDue(k, t);
      WakeIfDueKeepsInv(k, t);
      WakeIfDueRegistry(k, t);
      QuietDue(k, t);
      QuietScan(k1, i + 1);
      QuietTrans(k, k1, ScanFrom(k1, i + 1));
    }
  }

  lemma QuietPreempt(k: Kernel)
    requires WaitsPlaced(k.waits, k.tasks)
    ensures Quiet(k, Preempt(k)) && Preempt(k).tasks.Keys == k.tasks.Keys
  {
  }

  lemma QuietSelect(k: Kernel, p: nat)
    requires WaitsPlaced(k.waits, k.tasks) && p < |k.rings| && k.rings[p] != [] && k.rings[p][0] in k.tasks
    ensures Quiet(k, Select(k, p))
  {
  }

  lemma QuietDispatch(k: Kernel)
    requires Inv(k)
    ensures Quiet(k, KernelState.Dispatch(k))
  {
    hide WaitsPlaced, RegistryOk, KeysOk, CallsOk, MutexesOk, HandoffsOk, CountsOk, Quiet, Select, FirstOccupied;
    DispatchSelects(k);
    QuietPreempt(k);
    QuietSelect(Preempt(k), FirstOccupied(k.rings));
    QuietTrans(k, Preempt(k), KernelState.Dispatch(k));
  }

  lemma QuietDelete(k: Kernel, t: Addr)
    requires Placed(k) && t in k.tasks
    ensures Quiet(k, KernelState.Delete(k, t))
  {
    UnlinkShrinks(k, t);
  }

  lemma QuietSend(k: Kernel, q: nat, timeout: nat, msg: seq<Byte>)
    requires Inv(k) && CanRun(k) && q in k.queues && |msg| == k.queues[q].msgSize
    ensures Quiet(k, Send(k, q, timeout, msg))
  {
    if k.queues[q].count < k.queues[q].depth {
      QuietWakeHead(k, RecvQ(q));
    } else {
      QuietWait(k, SendQ(q), timeout, InCall(SendQ(q), timeout, msg));
    }
  }

  lemma QuietRecv(k: Kernel, q: nat, timeout: nat, msg: seq<Byte>)
    requires Inv(k) && CanRun(k) && q in k.queues
    ensures Quiet(k, Recv(k, q, timeout, msg))
  {
    if k.queues[q].count > 0 {
      QuietWakeHead(k, SendQ(q));
    } else {
      QuietWait(k, RecvQ(q), timeout, InCall(RecvQ(q), timeout, msg));
    }
  }

  lemma QuietSemWait(k: Kernel, s: nat, timeout: nat, msg: seq<Byte>)
    requires Inv(k) && CanRun(k) && s in k.sems
    ensures Quiet(k, SemWait(k, s, timeout, msg))
  {
    if k.sems[s].count == 0 {
      QuietWait(k, SemQ(s), timeout, InCall(SemQ(s), timeout, msg));
    }
  }

  // ---------------------------------------------------------------- locking and unlocking

  ghost function RecordLock(k: Kernel, m: nat, h: History): History
    requires m in k.mutexes && m in h && k.current in k.tasks
  {
    if k.mutexes[m].locked && k.mutexes[m].owner == k.current then h
    else if !k.mutexes[m].locked then h[m := {}]
    else h[m := h[m] + {k.tasks[k.current].prio}]
  }

  lemma AcquireExact(mutexes: map<nat, Mutex>, waits: map<WaitKey, seq<Addr>>, tasks: map<Addr, Tcb>,
                     h: History, m: nat, t: Addr)
    requires Exact(mutexes, waits, tasks, h) && m in mutexes && MutexQ(m) in waits
    requires mutexes[m].owner !in tasks && waits[MutexQ(m)] == []
    requires t in tasks && t != NULL && OwnsNothing(mutexes, t)
    requires forall n :: MutexQ(n) in waits ==> t !in waits[MutexQ(n)]
    ensures Exact(mutexes[m := Mutex(true, t)], waits, tasks, h[m := {}])
  {
    var after := mutexes[m := Mutex(true, t)];
    assert after[m].owner == t;
    forall u | u in tasks && u != t && OwnsNothing(after, u)
      ensures OwnsNothing(mutexes, u)
    {
      assert forall n :: n in mutexes && n != m ==> after[n] == mutexes[n];
    }
  }

  /** The owner takes over the caller's priority if that is higher, as the caller starts to wait. */
  lemma JoinExact(mutexes: map<nat, Mutex>, waits: map<WaitKey, seq<Addr>>, tasks: map<Addr, Tcb>,
                  h: History, m: nat, t: Addr, c: Tcb)
    requires Exact(mutexes, waits, tasks, h) && m in mutexes && MutexQ(m) in waits
    requires mutexes[m].owner in tasks && t in tasks && t != mutexes[m].owner && OwnsNothing(mutexes, t)
    requires mutexes[m].owner != NULL
    requires c.base == tasks[mutexes[m].owner].base
    requires c.prio == if tasks[t].prio < tasks[mutexes[m].owner].prio then tasks[t].prio
                       else tasks[mutexes[m].owner].prio
    ensures Exact(mutexes, waits[MutexQ(m) := waits[MutexQ(m)] + [t]], tasks[mutexes[m].owner := c],
                  h[m := h[m] + {tasks[t].prio}])
  {
  }

  /** The old owner falls back to its base priority; the new one, if any, is the best of the
      waiters and so needs no boost. */
  lemma PassOnExact(mutexes: map<nat, Mutex>, waits: map<WaitKey, seq<Addr>>, tasks: map<Addr, Tcb>, h: History,
                    m: nat, mu: Mutex, waits': map<WaitKey, seq<Addr>>, c: Tcb, rest: set<nat>)
    requires Exact(mutexes, waits, tasks, h) && m in mutexes && MutexQ(m) in waits'
    requires mutexes[m].owner in tasks && mutexes[m].owner != NULL && c.prio == c.base
    requires forall n, t :: MutexQ(n) in waits' && t in waits'[MutexQ(n)] ==>
               MutexQ(n) in waits && t in waits[MutexQ(n)] && t != mu.owner
    requires mu.owner !in tasks ||
             (mu.owner != mutexes[m].owner && OwnsNothing(mutexes, mu.owner) && mu.owner != NULL
              && forall x :: x in rest ==> tasks[mu.owner].prio <= x)
    requires mu.owner !in tasks ==> mu.owner == NULL
    requires forall t :: t in waits'[MutexQ(m)] && t in tasks ==> tasks[t].prio in rest
    ensures Exact(mutexes[m := mu], waits', tasks[mutexes[m].owner := c], h[m := rest])
  {
    var after, tasks' := mutexes[m := mu], tasks[mutexes[m].owner := c];
    assert after[m].owner == mu.owner;
    forall u | u in tasks && u != mutexes[m].owner && OwnsNothing(after, u)
      ensures OwnsNothing(mutexes, u)
    {
      assert forall n :: n in mutexes && n != m ==> after[n] == mutexes[n];
    }
    assert mutexes[m].owner in tasks && !OwnsNothing(mutexes, mutexes[m].owner);
  }

  lemma RunnerWaitsNowhere(k: Kernel)
    requires Placed(k) && k.current in k.tasks && k.tasks[k.current].state == Running
    ensures forall w :: w in k.waits ==> k.current !in k.waits[w]
  {
    assert TcbOk(k.tasks[k.current]);
  }

  /** Where the boost ends up: the smaller of the owner's priority and the caller's. */
  lemma BoostTarget(k: Kernel, m: nat, h: History)
    requires WaitsPlaced(k.waits, k.tasks) && OwnersExact(k.mutexes, k.tasks, h)
    requires WaitersKnown(k.mutexes, k.waits, k.tasks, h)
    requires k.current in k.tasks && m in k.mutexes && m in h && MutexQ(m) in k.waits && k.mutexes[m].owner in k.tasks
    ensures var o, s := k.tasks[k.mutexes[m].owner].prio, k.tasks[k.current].prio;
      if Demand(k, m) < o then Demand(k, m) == s else o <= s
  {
    hide MinPrio;
    var ws := k.waits[MutexQ(m)] + [k.current];
    assert forall t :: t in ws ==> t in k.tasks;
    var t :| t in ws && k.tasks[t].prio == MinPrio(k.tasks, ws);
    assert k.current in ws;
    if t != k.current {
      assert t in k.waits[MutexQ(m)];
      assert k.tasks[t].prio in h[m];
    }
  }

  lemma LockExact(k: Kernel, m: nat, timeout: nat, msg: seq<Byte>, h: History)
    requires Inv(k) && CanRun(k) && m in k.mutexes && Exact(k.mutexes, k.waits, k.tasks, h)
    requires k.mutexes[m].owner == k.current || OwnsNothing(k.mutexes, k.current)
    ensures var k' := Lock(k, m, timeout, msg);
      Exact(k'.mutexes, k'.waits, k'.tasks, RecordLock(k, m, h))
  {
    var mu := k.mutexes[m];
    OwnerOk(k, m);
    RunnerWaitsNowhere(k);
    hide RingsPlaced, TasksOk, RegistryOk, CallsOk, MutexesOk, HandoffsOk;
    if mu.locked && mu.owner == k.current {
      QuietUpdate(k, k.current, k.tasks[k.current].(call := NoCall));
      QuietKeepsExact(k, Return(k), h);
    } else if !mu.locked {
      AcquireQuietly(k, m, h);
    } else {
      WaitExact(k, m, timeout, msg, h);
    }
  }

  lemma AcquireQuietly(k: Kernel, m: nat, h: History)
    requires Exact(k.mutexes, k.waits, k.tasks, h) && m in k.mutexes && MutexQ(m) in k.waits
    requires WaitsPlaced(k.waits, k.tasks) && NULL !in k.tasks && k.mutexes[m].owner == NULL && k.waits[MutexQ(m)] == []
    requires k.current in k.tasks && OwnsNothing(k.mutexes, k.current)
    requires forall w :: w in k.waits ==> k.current !in k.waits[w]
    ensures Exact(k.mutexes[m := Mutex(true, k.current)], k.waits, Return(k).tasks, h[m := {}])
  {
    hide WaitsPlaced;
    AcquireExact(k.mutexes, k.waits, k.tasks, h, m, k.current);
    var k1 := k.(mutexes := k.mutexes[m := Mutex(true, k.current)]);
    hide Exact;
    QuietUpdate(k1, k.current, k.tasks[k.current].(call := NoCall));
    QuietKeepsExact(k1, Return(k1), h[m := {}]);
  }

  lemma ExactKeys(mutexes: map<nat, Mutex>, waits: map<WaitKey, seq<Addr>>, tasks: map<Addr, Tcb>, h: History)
    requires Exact(mutexes, waits, tasks, h)
    ensures h.Keys == mutexes.Keys
  {
  }

  lemma EnqueuedExact(k: Kernel, m: nat, p: nat, h: History)
    requires Exact(k.mutexes, k.waits, k.tasks, h) && m in k.mutexes && MutexQ(m) in k.waits
    requires k.current in k.tasks && k.mutexes[m].owner in k.tasks && k.mutexes[m].owner != NULL
    requires k.mutexes[m].owner != k.current && OwnsNothing(k.mutexes, k.current)
    requires |k.rings| == NUM_PRIORITIES && k.tasks[k.mutexes[m].owner].bucket < NUM_PRIORITIES
    requires var o, s := k.tasks[k.mutexes[m].owner].prio, k.tasks[k.current].prio;
      if p < o then p == s else o <= s
    ensures var k2 := Enqueue(Boost(k, k.mutexes[m].owner, p), MutexQ(m), k.current);
      Exact(k2.mutexes, k2.waits, k2.tasks, h[m := h[m] + {k.tasks[k.current].prio}])
  {
    hide Exact, RingAdd, RingRemove, Bucket;
    var o := k.mutexes[m].owner;
    var k1 := Boost(k, o, p);
    ExactKeys(k.mutexes, k.waits, k.tasks, h);
    JoinExact(k.mutexes, k.waits, k.tasks, h, m, k.current, k1.tasks[o]);
    assert k1.tasks == k.tasks[o := k1.tasks[o]];
  }

  lemma BlockExact(k: Kernel, b: BlockOn, timeout: nat, call: Call, h: History)
    requires Exact(k.mutexes, k.waits, k.tasks, h)
    requires k.current in k.tasks && k.tasks[k.current].bucket < |k.rings|
    ensures var k' := BlockCurrent(k, b, timeout, call);
      Exact(k'.mutexes, k'.waits, k'.tasks, h)
  {
  }

  lemma WaitExact(k: Kernel, m: nat, timeout: nat, msg: seq<Byte>, h: History)
    requires Inv(k) && CanRun(k) && m in k.mutexes && Exact(k.mutexes, k.waits, k.tasks, h)
    requires k.mutexes[m].locked && k.mutexes[m].owner != k.current && OwnsNothing(k.mutexes, k.current)
    ensures var k' := Lock(k, m, timeout, msg);
      Exact(k'.mutexes, k'.waits, k'.tasks, h[m := h[m] + {k.tasks[k.current].prio}])
  {
    hide MinPrio;
    OwnerOk(k, m);
    BoostTarget(k, m, h);
    var o, p := k.mutexes[m].owner, Demand(k, m);
    assert m in h && |k.rings| == NUM_PRIORITIES;
    assert k.tasks[o].bucket < NUM_PRIORITIES && k.tasks[k.current].bucket < NUM_PRIORITIES;
    hide RingsPlaced, WaitsPlaced, TasksOk, RegistryOk, CallsOk, MutexesOk, HandoffsOk, Exact;
    EnqueuedExact(k, m, p, h);
    BlockExact(Enqueue(Boost(k, o, p), MutexQ(m), k.current), Waiting(MutexQ(m)), timeout,
               InCall(MutexQ(m), timeout, msg), h[m := h[m] + {k.tasks[k.current].prio}]);
  }

  ghost function Pressure(k: Kernel, m: nat): set<nat> {
    if MutexQ(m) in k.waits then set t | t in k.waits[MutexQ(m)] && t in k.tasks :: k.tasks[t].prio else {}
  }

  /** A task other than the two involved keeps its priority, and the new owner is woken as it is. */
  lemma WakeExact(mutexes: map<nat, Mutex>, waits: map<WaitKey, seq<Addr>>, tasks: map<Addr, Tcb>,
                  h: History, t: Addr, c: Tcb)
    requires Exact(mutexes, waits, tasks, h) && t in tasks && c.prio == tasks[t].prio && c.base == tasks[t].base
    ensures Exact(mutexes, waits, tasks[t := c], h)
  {
  }

  lemma ReleaseExact(k: Kernel, m: nat, c: Tcb, h: History)
    requires Exact(k.mutexes, k.waits, k.tasks, h) && m in k.mutexes && MutexQ(m) in k.waits
    requires k.current in k.tasks && NULL !in k.tasks && k.mutexes[m].owner == k.current
    requires forall w, t :: w in k.waits && t in k.waits[w] ==> t in k.tasks
    requires k.waits[MutexQ(m)] == [] && c.prio == c.base
    ensures Exact(k.mutexes[m := Mutex(false, NULL)], k.waits, k.tasks[k.current := c], h[m := {}])
  {
    PassOnExact(k.mutexes, k.waits, k.tasks, h, m, Mutex(false, NULL), k.waits, c, {});
  }

  lemma HandoffExact(k: Kernel, m: nat, next: Addr, waits': map<WaitKey, seq<Addr>>, c: Tcb, rest: set<nat>, h: History)
    requires Exact(k.mutexes, k.waits, k.tasks, h) && m in k.mutexes && MutexQ(m) in k.waits
    requires k.current in k.tasks && NULL !in k.tasks && k.mutexes[m].owner == k.current && c.prio == c.base
    requires next in k.waits[MutexQ(m)] && next in k.tasks
    requires forall t :: t in k.waits[MutexQ(m)] && t in k.tasks ==> k.tasks[next].prio <= k.tasks[t].prio
    requires waits'.Keys == k.waits.Keys
    requires forall w, t :: w in k.waits ==> (t in waits'[w] <==> t in k.waits[w] && t != next)
    requires rest == set t | t in waits'[MutexQ(m)] && t in k.tasks :: k.tasks[t].prio
    ensures Exact(k.mutexes[m := Mutex(true, next)], waits', k.tasks[k.current := c], h[m := rest])
  {
    PassOnExact(k.mutexes, k.waits, k.tasks, h, m, Mutex(true, next), waits', c, rest);
  }

  lemma RestoreFacts(k: Kernel)
    requires Placed(k) && CanRun(k)
    ensures k.tasks[k.current].bucket < |k.rings| == NUM_PRIORITIES && NULL !in k.tasks
    ensures var k1 := SetPriority(k, k.current, k.tasks[k.current].base);
      && k1.tasks == k.tasks[k.current := k1.tasks[k.current]]
      && |k1.rings| == NUM_PRIORITIES && WaitsPlaced(k1.waits, k1.tasks)
      && (forall w, t :: w in k.waits && t in k.waits[w] ==>
            t in k.tasks && t != k.current && k.tasks[t].bucket < NUM_PRIORITIES)
  {
    RunnerWaitsNowhere(k);
    var k1 := SetPriority(k, k.current, k.tasks[k.current].base);
    WaitsKept(k.waits, k.tasks, k.current, k1.tasks[k.current]);
  }

  lemma UnlockExact(k: Kernel, m: nat, h: History)
    requires Inv(k) && CanRun(k) && m in k.mutexes && k.mutexes[m].owner == k.current
    requires Exact(k.mutexes, k.waits, k.tasks, h)
    ensures var k' := KernelState.Unlock(k, m);
      Exact(k'.mutexes, k'.waits, k'.tasks, h[m := Pressure(k', m)])
  {
    hide RingsPlaced, WaitsPlaced, TasksOk, RegistryOk, CallsOk, MutexesOk, HandoffsOk, Exact;
    RestoreFacts(k);
    var k1 := SetPriority(k, k.current, k.tasks[k.current].base);
    var k' := PassOn(k1, m);
    if k.waits[MutexQ(m)] == [] {
      ReleaseExact(k, m, k1.tasks[k.current], h);
      assert Pressure(k', m) == {};
    } else {
      PassOnHandsOver(k, k1, m, k1.tasks[k.current], h);
    }
  }

  lemma PassOnHandsOver(k: Kernel, k1: Kernel, m: nat, c: Tcb, h: History)
    requires Exact(k.mutexes, k.waits, k.tasks, h) && m in k.mutexes && MutexQ(m) in k.waits
    requires k.current in k.tasks && NULL !in k.tasks && k.mutexes[m].owner == k.current && c.prio == c.base
    requires k1.mutexes == k.mutexes && k1.waits == k.waits && k1.tasks == k.tasks[k.current := c]
    requires forall w, t :: w in k.waits && t in k.waits[w] ==> t in k.tasks && t != k.current
    requires WaitsPlaced(k1.waits, k1.tasks) && k.waits[MutexQ(m)] != []
    requires forall t :: t in k.waits[MutexQ(m)] ==> k1.tasks[t].bucket < |k1.rings|
    ensures var k' := PassOn(k1, m);
      Exact(k'.mutexes, k'.waits, k'.tasks, h[m := Pressure(k', m)])
  {
    hide Exact, Best, WaitsPlaced, Unlink, RingAdd;
    var k' := PassOn(k1, m);
    var next := k1.waits[MutexQ(m)][Best(k1.tasks, k1.waits[MutexQ(m)])];
    assert next in k.waits[MutexQ(m)];
    UnlinkShrinks(k1, next);
    assert Pressure(k', m) == set t | t in k'.waits[MutexQ(m)] && t in k.tasks :: k.tasks[t].prio;
    HandoffExact(k, m, next, k'.waits, c, Pressure(k', m), h);
    WakeExact(k'.mutexes, k'.waits, k1.tasks, h[m := Pressure(k', m)], next, k'.tasks[next]);
  }

  // ---------------------------------------------------------------- runs

  ghost predicate ExactIn(k: Kernel, h: History) {
    Exact(k.mutexes, k.waits, k.tasks, h)
  }

  /** A task asks for a mutex only when it owns none, or owns that very one. */
  ghost predicate NonNested(k: Kernel, a: Action) {
    a.Invoke? && a.on.MutexQ? && a.on.id in k.mutexes ==>
      k.mutexes[a.on.id].owner == k.current || OwnsNothing(k.mutexes, k.current)
  }

  /** How a step extends the history of each mutex. */
  ghost function Record(k: Kernel, a: Action, h: History): History
    requires Inv(k) && Legal(k, a) && h.Keys == k.mutexes.Keys
  {
    match a
    case Invoke(MutexQ(m), _, _) => RecordLock(k, m, h)
    case Unlock(m) =>
      if k.mutexes[m].owner == k.current then h[m := Pressure(KernelState.Unlock(k, m), m)] else h
    case _ => h
  }

  lemma EnterExact(k: Kernel, w: WaitKey, timeout: nat, msg: seq<Byte>, h: History)
    requires Inv(k) && CanRun(k) && CallOk(InCall(w, timeout, msg), k.waits, k.queues) && ExactIn(k, h)
    requires w.MutexQ? ==> k.mutexes[w.id].owner == k.current || OwnsNothing(k.mutexes, k.current)
    ensures ExactIn(Enter(k, w, timeout, msg), if w.MutexQ? then RecordLock(k, w.id, h) else h)
  {
    hide RingsPlaced, WaitsPlaced, TasksOk, RegistryOk, CallsOk, MutexesOk, HandoffsOk, Exact, Quiet;
    match w
    case MutexQ(m) => LockExact(k, m, timeout, msg, h);
    case SemQ(s) =>
      QuietSemWait(k, s, timeout, msg);
      QuietKeepsExact(k, SemWait(k, s, timeout, msg), h);
    case SendQ(q) =>
      QuietSend(k, q, timeout, msg);
      QuietKeepsExact(k, Send(k, q, timeout, msg), h);
    case RecvQ(q) =>
      QuietRecv(k, q, timeout, msg);
      QuietKeepsExact(k, Recv(k, q, timeout, msg), h);
  }

  lemma ResumeExact(k: Kernel, h: History)
    requires Inv(k) && CanRun(k) && ExactIn(k, h)
    ensures ExactIn(KernelState.Resume(k), h)
  {
    var c := k.tasks[k.current];
    assert HandoffOk(k.mutexes, k.current, c) && CallOk(c.call, k.waits, k.queues);
    assert c.call.InCall? && c.call.on.MutexQ? && c.wakeStatus == Ok ==>
      k.mutexes[c.call.on.id].owner == k.current && k.mutexes[c.call.on.id].locked;
    assert TcbOk(c);
    hide RingsPlaced, TasksOk, RegistryOk, CallsOk, MutexesOk, HandoffsOk, Exact, Quiet;
    if c.call.InCall? && c.wakeStatus != ErrTimeout {
      EnterExact(k, c.call.on, c.call.timeout, c.call.msg, h);
    } else {
      QuietUpdate(k, k.current, c.(call := NoCall));
      QuietKeepsExact(k, Return(k), h);
    }
  }

  lemma QuietDelay(k: Kernel, ticks: nat)
    requires WaitsPlaced(k.waits, k.tasks) && k.current in k.tasks && k.tasks[k.current].bucket < |k.rings|
    ensures Quiet(k, KernelState.Delay(k, ticks))
  {
  }

  lemma OwnersExist(k: Kernel)
    requires KeysOk(k) && MutexesOk(k.mutexes, k.waits, k.tasks, k.idle)
    ensures forall m :: m in k.mutexes ==> k.mutexes[m].owner == NULL || k.mutexes[m].owner in k.tasks
  {
    forall m | m in k.mutexes
      ensures k.mutexes[m].owner == NULL || k.mutexes[m].owner in k.tasks
    {
      assert MutexOk(k.mutexes[m], k.waits[MutexQ(m)], k.tasks, k.idle);
    }
  }

  lemma QuietCreate(k: Kernel, t: Addr, prio: nat)
    requires WaitsPlaced(k.waits, k.tasks) && OwnsNothing(k.mutexes, t) && t !in k.tasks && |k.rings| == NUM_PRIORITIES
    ensures Quiet(k, KernelState.Create(k, t, prio))
  {
  }

  lemma QuietTick(k: Kernel)
    requires Inv(k)
    ensures Quiet(k, TickStep(k))
  {
    hide RingsPlaced, WaitsPlaced, TasksOk, RegistryOk, CallsOk, MutexesOk, HandoffsOk;
    QuietScan(NextTick(k), 0);
  }

  lemma QuietPost(k: Kernel, s: nat)
    requires Inv(k) && s in k.sems
    ensures Quiet(k, KernelState.Post(k, s))
  {
    QuietWakeHead(k, SemQ(s));
  }

  lemma QuietStep(k: Kernel, a: Action)
    requires Inv(k) && Legal(k, a) && !a.Invoke? && !a.Resume? && !a.Unlock?
    ensures Quiet(k, Step(k, a))
  {
    hide RingsPlaced, WaitsPlaced, TasksOk, RegistryOk, KeysOk, CallsOk, MutexesOk, HandoffsOk, CountsOk, Quiet;
    hide KernelState.Post, KernelState.Delay, TickStep, KernelState.Dispatch, KernelState.Create, KernelState.Delete;
    Buckets(k);
    match a
    case Post(s) => QuietPost(k, s);
    case Delay(n) => QuietDelay(k, n);
    case Tick => QuietTick(k);
    case Dispatch => QuietDispatch(k);
    case Create(t, prio) => OwnersExist(k); QuietCreate(k, t, prio);
    case Delete(t) => QuietDelete(k, t);
  }

  lemma StepExact(k: Kernel, a: Action, h: History)
    requires Inv(k) && Legal(k, a) && NonNested(k, a) && ExactIn(k, h)
    ensures ExactIn(Step(k, a), Record(k, a, h))
  {
    hide RingsPlaced, WaitsPlaced, TasksOk, RegistryOk, CallsOk, MutexesOk, HandoffsOk, Exact, Quiet;
    match a
    case Invoke(w, timeout, msg) => EnterExact(k, w, timeout, msg, h);
    case Resume => ResumeExact(k, h);
    case Unlock(m) =>
      if k.mutexes[m].owner == k.current {
        UnlockExact(k, m, h);
      }
    case _ =>
      QuietStep(k, a);
      QuietKeepsExact(k, Step(k, a), h);
  }

  ghost predicate NonNestedRun(k: Kernel, acts: seq<Action>)
    requires Inv(k) && LegalRun(k, acts)
    decreases |acts|
  {
    hide Inv, Legal, Step;
    acts != [] ==> NonNested(k, acts[0]) && NonNestedRun(Step(k, acts[0]), acts[1..])
  }

  ghost function HistoryAfter(k: Kernel, acts: seq<Action>, h: History): History
    requires Inv(k) && LegalRun(k, acts) && NonNestedRun(k, acts) && ExactIn(k, h)
    decreases |acts|
  {
    hide Inv, Legal, Step, Record, ExactIn;
    if acts == [] then h
    else
      StepExact(k, acts[0], h);
      HistoryAfter(Step(k, acts[0]), acts[1..], Record(k, acts[0], h))
  }

  /** At every point of every run without nested locking, inheritance is exact. */
  lemma {:induction false} InheritanceIsExact(k: Kernel, acts: seq<Action>, h: History)
    requires Inv(k) && LegalRun(k, acts) && NonNestedRun(k, acts) && ExactIn(k, h)
    ensures ExactIn(Exec(k, acts), HistoryAfter(k, acts, h))
    decreases |acts|
  {
    assert h.Keys == k.mutexes.Keys;
    hide Inv, Legal, Step, Record, ExactIn, NonNested;
    if acts != [] {
      StepExact(k, acts[0], h);
      InheritanceIsExact(Step(k, acts[0]), acts[1..], Record(k, acts[0], h));
    }
  }

  lemma OwnerOutranksWaiters(k: Kernel, h: History, m: nat, owner: Addr, waiter: Addr)
    requires ExactIn(k, h) && m in k.mutexes && MutexQ(m) in k.waits && waiter in k.waits[MutexQ(m)]
    requires owner == k.mutexes[m].owner && owner in k.tasks && waiter in k.tasks
    requires TcbOk(k.tasks[owner]) && TcbOk(k.tasks[waiter])
    ensures k.tasks[owner].prio <= k.tasks[waiter].prio && k.tasks[owner].bucket <= k.tasks[waiter].bucket
  {
    assert k.tasks[waiter].prio in h[m];
    assert IsMin(k.tasks[owner].prio, k.tasks[owner].base, h[m]);
    BucketMonotone(k.tasks[owner].prio, k.tasks[waiter].prio);
  }

  /** A dispatch passes over no runnable task of a higher-priority bucket. */
  lemma DispatchPrefers(k: Kernel, t: Addr)
    requires Inv(k) && t in k.tasks && k.tasks[t].state != Blocked
    ensures var k' := KernelState.Dispatch(k);
      k'.current in k'.tasks && k'.tasks[k'.current].bucket <= k.tasks[t].bucket
  {
    DispatchSelects(k);
    var p := FirstOccupied(k.rings);
    assert t in k.rings[k.tasks[t].bucket];
    assert p <= k.tasks[t].bucket;
    assert k.rings[p][0] in k.rings[p];
    assert k.tasks[k.rings[p][0]].bucket == p;
    hide RingsPlaced, WaitsPlaced, TasksOk, RegistryOk, CallsOk, MutexesOk, HandoffsOk;
    assert Select(Preempt(k), p).current == k.rings[p][0];
  }

  /** While a task waits for a mutex whose owner is runnable, no task of a lower-priority bucket
      than the waiter's is dispatched. */
  lemma NoInversion(k: Kernel, h: History, m: nat, owner: Addr, waiter: Addr)
    requires Inv(k) && ExactIn(k, h) && m in k.mutexes
    requires owner == k.mutexes[m].owner && owner in k.tasks && k.tasks[owner].state != Blocked
    requires waiter in k.tasks && k.tasks[waiter].block == Waiting(MutexQ(m))
    ensures var k' := KernelState.Dispatch(k);
      k'.current in k'.tasks && k'.tasks[k'.current].bucket <= k.tasks[waiter].bucket
  {
    assert TcbOk(k.tasks[owner]) && TcbOk(k.tasks[waiter]) && waiter in k.waits[MutexQ(m)];
    hide RingsPlaced, WaitsPlaced, TasksOk, RegistryOk, CallsOk, MutexesOk, HandoffsOk;
    OwnerOutranksWaiters(k, h, m, owner, waiter);
    DispatchPrefers(k, owner);
  }
}
