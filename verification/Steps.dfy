/** Every critical section keeps the kernel invariant. */
module Steps {
  import opened Types
  import opened Lists
  import opened MessageQueue
  import opened KernelState
  import opened Placement

  // ---------------------------------------------------------------- frames

  lemma TasksUpdated(tasks: map<Addr, Tcb>, current: Addr, idle: Addr, t: Addr, c: Tcb)
    requires TasksOk(tasks, current, idle) && t != NULL && TcbOk(c)
    requires c.state == Running ==> t == current
    requires t == idle ==> IdleOk(c)
    ensures TasksOk(tasks[t := c], current, idle)
  {
  }

  lemma CallsUpdated(tasks: map<Addr, Tcb>, waits: map<WaitKey, seq<Addr>>, queues: map<nat, Queue>, t: Addr, c: Tcb)
    requires CallsOk(tasks, waits, queues) && CallOk(c.call, waits, queues)
    ensures CallsOk(tasks[t := c], waits, queues)
  {
  }

  lemma CallsKept(tasks: map<Addr, Tcb>, waits: map<WaitKey, seq<Addr>>, queues: map<nat, Queue>,
                  tasks': map<Addr, Tcb>, waits': map<WaitKey, seq<Addr>>, queues': map<nat, Queue>)
    requires CallsOk(tasks, waits, queues)
    requires forall t :: t in tasks' ==> t in tasks && tasks'[t].call == tasks[t].call
    requires waits'.Keys == waits.Keys && queues'.Keys == queues.Keys
    requires forall q :: q in queues ==> queues'[q].msgSize == queues[q].msgSize
    ensures CallsOk(tasks', waits', queues')
  {
  }

  lemma HandoffsUpdated(mutexes: map<nat, Mutex>, tasks: map<Addr, Tcb>, t: Addr, c: Tcb)
    requires HandoffsOk(mutexes, tasks) && HandoffOk(mutexes, t, c)
    ensures HandoffsOk(mutexes, tasks[t := c])
  {
  }

  /** Wait lists that lose members, and tasks that stay, leave the mutexes consistent. */
  lemma MutexesKept(mutexes: map<nat, Mutex>, waits: map<WaitKey, seq<Addr>>, tasks: map<Addr, Tcb>,
                    waits': map<WaitKey, seq<Addr>>, tasks': map<Addr, Tcb>, idle: Addr)
    requires MutexesOk(mutexes, waits, tasks, idle)
    requires waits'.Keys == waits.Keys
    requires forall w, t :: w in waits && t in waits'[w] ==> t in waits[w]
    requires forall m :: m in mutexes && mutexes[m].owner in tasks ==> mutexes[m].owner in tasks'
    ensures MutexesOk(mutexes, waits', tasks', idle)
  {
    forall m | m in mutexes && MutexQ(m) in waits'
      ensures MutexOk(mutexes[m], waits'[MutexQ(m)], tasks', idle)
    {
      var w := MutexQ(m);
      assert MutexOk(mutexes[m], waits[w], tasks, idle);
      if waits'[w] != [] {
        assert waits'[w][0] in waits[w];
      }
    }
  }

  // ---------------------------------------------------------------- waking

  lemma UnlinkShrinks(k: Kernel, t: Addr)
    requires WaitsPlaced(k.waits, k.tasks) && t in k.tasks
    ensures Unlink(k, t).Keys == k.waits.Keys
    ensures forall w, u :: w in k.waits ==> (u in Unlink(k, t)[w] <==> u in k.waits[w] && u != t)
  {
    var b := k.tasks[t].block;
    if b.Waiting? {
      WithoutMembers(k.waits[b.on], t);
    }
  }

  lemma WakePlaced(k: Kernel, t: Addr, status: Status)
    requires Placed(k) && t in k.tasks && k.tasks[t].state == Blocked
    requires status == Ok || status == ErrTimeout
    ensures Placed(Wake(k, t, status))
  {
    var c := k.tasks[t].(state := Ready, block := NotBlocked, wakeStatus := status);
    RingsAdded(k.rings, k.tasks, t, c);
    TasksUpdated(k.tasks, k.current, k.idle, t, c);
    RegistryKept(k.registry, k.tasks, t, c);
    if k.tasks[t].block.Waiting? {
      WaitsRemoved(k.waits, k.tasks, t, c);
    } else {
      WaitsNewTask(k.waits, k.tasks, t, c);
    }
  }

  lemma WakeLists(k: Kernel, t: Addr, status: Status)
    requires WaitsPlaced(k.waits, k.tasks) && t in k.tasks && k.tasks[t].bucket < |k.rings|
    requires CallsOk(k.tasks, k.waits, k.queues) && MutexesOk(k.mutexes, k.waits, k.tasks, k.idle) && KeysOk(k)
    ensures var k' := Wake(k, t, status);
      && KeysOk(k')
      && CallsOk(k'.tasks, k'.waits, k'.queues)
      && MutexesOk(k'.mutexes, k'.waits, k'.tasks, k'.idle)
  {
    var k' := Wake(k, t, status);
    UnlinkShrinks(k, t);
    CallsKept(k.tasks, k.waits, k.queues, k'.tasks, k'.waits, k'.queues);
    MutexesKept(k.mutexes, k.waits, k.tasks, k'.waits, k'.tasks, k.idle);
  }

  /** A waiter of a mutex is not its owner. */
  lemma WaiterIsNotOwner(k: Kernel, t: Addr)
    requires WaitsPlaced(k.waits, k.tasks) && MutexesOk(k.mutexes, k.waits, k.tasks, k.idle)
    requires t in k.tasks && k.tasks[t].block.Waiting? && k.tasks[t].block.on.MutexQ?
    requires k.tasks[t].block.on.id in k.mutexes
    ensures k.mutexes[k.tasks[t].block.on.id].owner != t
  {
    var w := k.tasks[t].block.on;
    assert MutexOk(k.mutexes[w.id], k.waits[w], k.tasks, k.idle);
  }

  /** A wake that is not a mutex handoff: a timeout, or the end of another wait. */
  lemma WakeKeepsInv(k: Kernel, t: Addr, status: Status)
    requires Inv(k) && t in k.tasks && k.tasks[t].state == Blocked
    requires status == ErrTimeout || (status == Ok && !(k.tasks[t].call.InCall? && k.tasks[t].call.on.MutexQ?))
    ensures Inv(Wake(k, t, status))
  {
    WakePlaced(k, t, status);
    WakeLists(k, t, status);
    var k' := Wake(k, t, status);
    assert TcbOk(k.tasks[t]);
    assert HandoffOk(k.mutexes, t, k'.tasks[t]) by {
      if k.tasks[t].call.InCall? && k.tasks[t].call.on.MutexQ? && k.tasks[t].call.on.id in k.mutexes {
        WaiterIsNotOwner(k, t);
      }
    }
    HandoffsUpdated(k.mutexes, k.tasks, t, k'.tasks[t]);
  }

  lemma WakeHeadKeepsInv(k: Kernel, w: WaitKey)
    requires Inv(k) && w in k.waits && !w.MutexQ?
    ensures Inv(WakeHead(k, w))
  {
    if k.waits[w] != [] {
      var t := k.waits[w][0];
      assert t in k.waits[w];
      assert TcbOk(k.tasks[t]);
      WakeKeepsInv(k, t, k.tasks[t].wakeStatus);
    }
  }

  lemma WakeHeadFrame(k: Kernel, w: WaitKey)
    requires Placed(k) && w in k.waits
    ensures var k' := WakeHead(k, w);
      && k'.waits.Keys == k.waits.Keys && k'.sems == k.sems && k'.queues == k.queues && k'.current == k.current
  {
    if k.waits[w] != [] {
      WaiterFacts(k, w, k.waits[w][0]);
    }
  }

  lemma WakeHeadSparesRunner(k: Kernel, w: WaitKey)
    requires Placed(k) && CanRun(k) && w in k.waits
    ensures var k' := WakeHead(k, w);
      k.current in k'.tasks && k'.tasks[k.current] == k.tasks[k.current]
  {
    if k.waits[w] != [] {
      WaiterFacts(k, w, k.waits[w][0]);
    }
  }

  // ---------------------------------------------------------------- updates of one task

  /** A change that leaves the task in the ring or wait list it is in. */
  lemma UpdateKeepsInv(k: Kernel, t: Addr, c: Tcb)
    requires Inv(k) && t in k.tasks && TcbOk(c)
    requires c.block == k.tasks[t].block && c.bucket == k.tasks[t].bucket
    requires c.state == Running ==> t == k.current
    requires t == k.idle ==> IdleOk(c)
    requires CallOk(c.call, k.waits, k.queues) && HandoffOk(k.mutexes, t, c)
    ensures Inv(SetTask(k, t, c))
  {
    assert TcbOk(k.tasks[t]);
    RingsKept(k.rings, k.tasks, t, c);
    WaitsKept(k.waits, k.tasks, t, c);
    TasksUpdated(k.tasks, k.current, k.idle, t, c);
    RegistryKept(k.registry, k.tasks, t, c);
    CallsUpdated(k.tasks, k.waits, k.queues, t, c);
    MutexesKept(k.mutexes, k.waits, k.tasks, k.waits, k.tasks[t := c], k.idle);
    HandoffsUpdated(k.mutexes, k.tasks, t, c);
  }

  lemma ReturnKeepsInv(k: Kernel)
    requires Inv(k) && CanRun(k)
    ensures Inv(Return(k)) && CanRun(Return(k))
  {
    assert TcbOk(k.tasks[k.current]);
    UpdateKeepsInv(k, k.current, k.tasks[k.current].(call := NoCall));
  }

  lemma SetPriorityKeepsInv(k: Kernel, t: Addr, p: nat)
    requires Inv(k) && t in k.tasks && t != k.idle && p < PRIORITY_LIMIT
    requires k.tasks[t].state == Running ==> Bucket(p) == k.tasks[t].bucket
    ensures Inv(SetPriority(k, t, p))
  {
    var c := k.tasks[t].(prio := p, bucket := Bucket(p));
    assert TcbOk(k.tasks[t]);
    assert HandoffOk(k.mutexes, t, k.tasks[t]);
    if k.tasks[t].bucket != c.bucket && c.state == Ready {
      RingsMoved(k.rings, k.tasks, t, c);
    } else {
      RingsKept(k.rings, k.tasks, t, c);
    }
    WaitsKept(k.waits, k.tasks, t, c);
    TasksUpdated(k.tasks, k.current, k.idle, t, c);
    RegistryKept(k.registry, k.tasks, t, c);
    CallsUpdated(k.tasks, k.waits, k.queues, t, c);
    MutexesKept(k.mutexes, k.waits, k.tasks, k.waits, k.tasks[t := c], k.idle);
    HandoffsUpdated(k.mutexes, k.tasks, t, c);
  }

  // ---------------------------------------------------------------- blocking

  lemma MutexesJoined(k: Kernel, w: WaitKey, c: Tcb)
    requires MutexesOk(k.mutexes, k.waits, k.tasks, k.idle) && w in k.waits && k.current in k.tasks
    requires w.MutexQ? && w.id in k.mutexes ==> k.mutexes[w.id].locked && k.mutexes[w.id].owner != k.current
    ensures MutexesOk(k.mutexes, k.waits[w := k.waits[w] + [k.current]], k.tasks[k.current := c], k.idle)
  {
    forall m | m in k.mutexes && MutexQ(m) in k.waits
      ensures MutexOk(k.mutexes[m], k.waits[w := k.waits[w] + [k.current]][MutexQ(m)],
                      k.tasks[k.current := c], k.idle)
    {
      assert MutexOk(k.mutexes[m], k.waits[MutexQ(m)], k.tasks, k.idle);
    }
  }

  lemma CallsJoined(k: Kernel, w: WaitKey, c: Tcb)
    requires CallsOk(k.tasks, k.waits, k.queues) && w in k.waits && CallOk(c.call, k.waits, k.queues)
    ensures CallsOk(k.tasks[k.current := c], k.waits[w := k.waits[w] + [k.current]], k.queues)
  {
  }

  lemma WaitKeepsInv(k: Kernel, w: WaitKey, timeout: nat, msg: seq<Byte>)
    requires Inv(k) && CanRun(k) && w in k.waits && CallOk(InCall(w, timeout, msg), k.waits, k.queues)
    requires w.MutexQ? && w.id in k.mutexes ==> k.mutexes[w.id].locked && k.mutexes[w.id].owner != k.current
    ensures Inv(BlockCurrent(Enqueue(k, w, k.current), Waiting(w), timeout, InCall(w, timeout, msg)))
  {
    var t := k.current;
    var k' := BlockCurrent(Enqueue(k, w, t), Waiting(w), timeout, InCall(w, timeout, msg));
    var c := k'.tasks[t];
    assert TcbOk(k.tasks[t]);
    RingsRemoved(k.rings, k.tasks, t, c);
    WaitsAdded(k.waits, k.tasks, w, t, c);
    TasksUpdated(k.tasks, k.current, k.idle, t, c);
    RegistryKept(k.registry, k.tasks, t, c);
    CallsJoined(k, w, c);
    MutexesJoined(k, w, c);
    HandoffsUpdated(k.mutexes, k.tasks, t, c);
  }

  lemma DelayKeepsInv(k: Kernel, ticks: nat)
    requires Inv(k) && CanRun(k)
    ensures Inv(Delay(k, ticks))
  {
    if ticks != 0 {
      var t := k.current;
      var c := Delay(k, ticks).tasks[t];
      assert TcbOk(k.tasks[t]);
      RingsRemoved(k.rings, k.tasks, t, c);
      WaitsNewTask(k.waits, k.tasks, t, c);
      TasksUpdated(k.tasks, k.current, k.idle, t, c);
      RegistryKept(k.registry, k.tasks, t, c);
      CallsUpdated(k.tasks, k.waits, k.queues, t, c);
      MutexesKept(k.mutexes, k.waits, k.tasks, k.waits, k.tasks[t := c], k.idle);
      HandoffsUpdated(k.mutexes, k.tasks, t, c);
    }
  }

  // ---------------------------------------------------------------- mutex

  lemma OwnerOk(k: Kernel, m: nat)
    requires Inv(k) && m in k.mutexes
    ensures MutexQ(m) in k.waits && MutexOk(k.mutexes[m], k.waits[MutexQ(m)], k.tasks, k.idle)
  {
  }

  lemma RegistryEntry(k: Kernel, i: nat)
    requires Placed(k) && i < |k.registry|
    ensures k.registry[i] in k.tasks && k.tasks[k.registry[i]].bucket < |k.rings| == NUM_PRIORITIES
    ensures k.registry[i] !in k.registry[i + 1..]
  {
    assert k.registry[i] in k.registry;
  }

  lemma InvPlaces(k: Kernel)
    requires Inv(k)
    ensures Placed(k)
  {
  }

  lemma BlockedOffRings(k: Kernel, t: Addr)
    requires Placed(k) && t in k.tasks && k.tasks[t].state == Blocked
    ensures forall p :: 0 <= p < |k.rings| ==> t !in k.rings[p]
  {
  }

  lemma TaskFacts(k: Kernel, t: Addr)
    requires Placed(k) && t in k.tasks
    ensures TcbOk(k.tasks[t]) && k.tasks[t].bucket < |k.rings| == NUM_PRIORITIES
  {
  }

  /** What mutex_lock may take for granted about its mutex and the ring array. */
  lemma LockFacts(k: Kernel, m: nat)
    requires Inv(k) && CanRun(k) && m in k.mutexes
    ensures MutexQ(m) in k.waits && |k.rings| == NUM_PRIORITIES && k.tasks[k.current].bucket < NUM_PRIORITIES
    ensures k.mutexes[m].locked ==>
      k.mutexes[m].owner in k.tasks && k.tasks[k.mutexes[m].owner].bucket < NUM_PRIORITIES
  {
    OwnerOk(k, m);
  }

  lemma LockKeepsInv(k: Kernel, m: nat, timeout: nat, msg: seq<Byte>)
    requires Inv(k) && CanRun(k) && m in k.mutexes
    ensures Inv(Lock(k, m, timeout, msg))
  {
    hide MinPrio, RingsPlaced, WaitsPlaced, TasksOk, RegistryOk, CallsOk, MutexesOk, HandoffsOk;
    var mu := k.mutexes[m];
    LockFacts(k, m);
    if mu.locked && mu.owner == k.current {
      ReturnKeepsInv(k);
    } else if !mu.locked {
      ReturnKeepsInv(k);
      AcquireKeepsInv(Return(k), m);
    } else {
      var p := Demand(k, m);
      LockBoosts(k, m, p);
      WaitKeepsInv(Boost(k, mu.owner, p), MutexQ(m), timeout, msg);
    }
  }

  lemma LockBoosts(k: Kernel, m: nat, p: nat)
    requires Inv(k) && CanRun(k) && m in k.mutexes && k.mutexes[m].locked && k.mutexes[m].owner != k.current
    ensures var owner := k.mutexes[m].owner;
      && owner in k.tasks && k.tasks[owner].bucket < NUM_PRIORITIES && |k.rings| == NUM_PRIORITIES
      && Inv(Boost(k, owner, p)) && CanRun(Boost(k, owner, p))
  {
    OwnerOk(k, m);
    assert k.tasks[k.mutexes[m].owner].state != Running;
    hide RingsPlaced, WaitsPlaced, TasksOk, RegistryOk, CallsOk, MutexesOk, HandoffsOk;
    BoostKeepsInv(k, k.mutexes[m].owner, p);
  }

  lemma AcquireKeepsInv(k: Kernel, m: nat)
    requires Inv(k) && CanRun(k) && m in k.mutexes && !k.mutexes[m].locked && k.tasks[k.current].call == NoCall
    ensures Inv(k.(mutexes := k.mutexes[m := Mutex(true, k.current)]))
  {
    hide RingsPlaced, WaitsPlaced, RegistryOk;
    OwnerOk(k, m);
  }

  lemma BoostKeepsInv(k: Kernel, owner: Addr, p: nat)
    requires Inv(k) && owner in k.tasks && owner != k.idle && k.tasks[owner].state != Running
    ensures k.tasks[owner].bucket < NUM_PRIORITIES && |k.rings| == NUM_PRIORITIES
    ensures Inv(Boost(k, owner, p))
  {
    assert TcbOk(k.tasks[owner]);
    assert |k.rings| == NUM_PRIORITIES;
    hide RingsPlaced, WaitsPlaced, TasksOk, RegistryOk, CallsOk, MutexesOk, HandoffsOk;
    if p < k.tasks[owner].prio {
      SetPriorityKeepsInv(k, owner, p);
    }
  }

  lemma RunnerUnlocks(k: Kernel, m: nat)
    requires Placed(k) && CanRun(k) && MutexQ(m) in k.waits
    ensures k.tasks[k.current].bucket < |k.rings| == NUM_PRIORITIES
    ensures var k1 := SetPriority(k, k.current, k.tasks[k.current].base);
      && WaitsPlaced(k1.waits, k1.tasks) && |k1.rings| == NUM_PRIORITIES
      && (forall t :: t in k.waits[MutexQ(m)] ==>
            t in k1.tasks && k1.tasks[t].bucket < NUM_PRIORITIES && k1.tasks[t].state == Blocked)
  {
    var k1 := SetPriority(k, k.current, k.tasks[k.current].base);
    WaitsKept(k.waits, k.tasks, k.current, k1.tasks[k.current]);
    forall t | t in k.waits[MutexQ(m)]
      ensures t in k1.tasks && k1.tasks[t].bucket < NUM_PRIORITIES && k1.tasks[t].state == Blocked
    {
      WaiterFacts(k, MutexQ(m), t);
    }
  }

  lemma UnlockKeepsInv(k: Kernel, m: nat)
    requires Inv(k) && CanRun(k) && m in k.mutexes && k.tasks[k.current].call == NoCall
    requires k.mutexes[m].owner == k.current ==> Bucket(k.tasks[k.current].base) == k.tasks[k.current].bucket
    ensures Inv(Unlock(k, m))
  {
    if k.mutexes[m].owner == k.current {
      assert TcbOk(k.tasks[k.current]);
      assert k.tasks[k.current].bucket < |k.rings| == NUM_PRIORITIES;
      hide RingsPlaced, WaitsPlaced, TasksOk, RegistryOk, CallsOk, MutexesOk, HandoffsOk;
      SetPriorityKeepsInv(k, k.current, k.tasks[k.current].base);
      PassOnKeepsInv(SetPriority(k, k.current, k.tasks[k.current].base), m);
    }
  }

  lemma PassOnKeepsInv(k: Kernel, m: nat)
    requires Inv(k) && CanRun(k) && m in k.mutexes && k.tasks[k.current].call == NoCall
    requires k.mutexes[m].owner == k.current
    ensures forall t :: t in k.waits[MutexQ(m)] ==> t in k.tasks && k.tasks[t].bucket < |k.rings|
    ensures Inv(PassOn(k, m))
  {
    var ws := k.waits[MutexQ(m)];
    assert forall t :: t in ws ==> t in k.tasks && k.tasks[t].bucket < |k.rings|;
    hide RingsPlaced, WaitsPlaced, TasksOk, RegistryOk, CallsOk, MutexesOk, HandoffsOk;
    if ws == [] {
      ReleaseKeepsInv(k, m);
    } else {
      HandoffKeepsInv(k, m, ws[Best(k.tasks, ws)]);
    }
  }

  lemma ReleaseKeepsInv(k: Kernel, m: nat)
    requires Inv(k) && CanRun(k) && m in k.mutexes && k.tasks[k.current].call == NoCall
    requires k.mutexes[m].owner == k.current && k.waits[MutexQ(m)] == []
    ensures Inv(k.(mutexes := k.mutexes[m := Mutex(false, NULL)]))
  {
    hide RingsPlaced, WaitsPlaced, RegistryOk;
  }

  lemma WaiterFacts(k: Kernel, w: WaitKey, t: Addr)
    requires Placed(k) && w in k.waits && t in k.waits[w]
    ensures t in k.tasks && k.tasks[t].bucket < |k.rings| && TcbOk(k.tasks[t])
    ensures k.tasks[t].state == Blocked && k.tasks[t].block == Waiting(w)
  {
  }

  lemma HandoffKeepsInv(k: Kernel, m: nat, next: Addr)
    requires Inv(k) && CanRun(k) && m in k.mutexes && k.tasks[k.current].call == NoCall
    requires k.mutexes[m].owner == k.current && next in k.waits[MutexQ(m)]
    ensures next in k.tasks && k.tasks[next].bucket < |k.rings|
    ensures Inv(Wake(k, next, k.tasks[next].wakeStatus).(mutexes := k.mutexes[m := Mutex(true, next)]))
  {
    hide RingsPlaced, WaitsPlaced, TasksOk, RegistryOk, CallsOk, MutexesOk, HandoffsOk;
    WaiterFacts(k, MutexQ(m), next);
    WakePlaced(k, next, k.tasks[next].wakeStatus);
    WakeLists(k, next, k.tasks[next].wakeStatus);
    HandoffMutexes(k, m, next);
    HandoffTasks(k, m, next);
  }

  lemma HandoffMutexes(k: Kernel, m: nat, next: Addr)
    requires Placed(k) && MutexesOk(k.mutexes, k.waits, k.tasks, k.idle)
    requires m in k.mutexes && MutexQ(m) in k.waits && next in k.waits[MutexQ(m)]
    ensures var k' := Wake(k, next, k.tasks[next].wakeStatus);
      MutexesOk(k.mutexes[m := Mutex(true, next)], k'.waits, k'.tasks, k.idle)
  {
    var k' := Wake(k, next, k.tasks[next].wakeStatus);
    UnlinkShrinks(k, next);
    MutexesKept(k.mutexes, k.waits, k.tasks, k'.waits, k'.tasks, k.idle);
    assert TcbOk(k.tasks[next]);
    assert MutexOk(Mutex(true, next), k'.waits[MutexQ(m)], k'.tasks, k.idle);
  }

  lemma HandoffTasks(k: Kernel, m: nat, next: Addr)
    requires HandoffsOk(k.mutexes, k.tasks) && k.current in k.tasks && k.tasks[k.current].call == NoCall
    requires m in k.mutexes && k.mutexes[m].owner == k.current
    requires next in k.tasks && TcbOk(k.tasks[next]) && k.tasks[next].block == Waiting(MutexQ(m))
    requires k.tasks[next].bucket < |k.rings|
    ensures HandoffsOk(k.mutexes[m := Mutex(true, next)], Wake(k, next, k.tasks[next].wakeStatus).tasks)
  {
    var k' := Wake(k, next, k.tasks[next].wakeStatus);
    forall t | t in k'.tasks
      ensures HandoffOk(k.mutexes[m := Mutex(true, next)], t, k'.tasks[t])
    {
      assert HandoffOk(k.mutexes, t, k.tasks[t]);
    }
  }

  // ---------------------------------------------------------------- semaphore and queue

  lemma SemWaitKeepsInv(k: Kernel, s: nat, timeout: nat, msg: seq<Byte>)
    requires Inv(k) && CanRun(k) && s in k.sems
    ensures Inv(SemWait(k, s, timeout, msg))
  {
    hide RingsPlaced, WaitsPlaced, TasksOk, RegistryOk, CallsOk, MutexesOk, HandoffsOk;
    if k.sems[s].count > 0 {
      ReturnKeepsInv(k.(sems := k.sems[s := k.sems[s].(count := k.sems[s].count - 1)]));
    } else {
      WaitKeepsInv(k, SemQ(s), timeout, msg);
    }
  }

  lemma PostKeepsInv(k: Kernel, s: nat)
    requires Inv(k) && s in k.sems
    ensures Inv(Post(k, s))
  {
    hide RingsPlaced, WaitsPlaced, TasksOk, RegistryOk, CallsOk, MutexesOk, HandoffsOk;
    WakeHeadKeepsInv(k, SemQ(s));
  }

  /** Replacing a queue by one of the same message size. */
  lemma QueueKeepsInv(k: Kernel, q: nat, r: Queue)
    requires Inv(k) && q in k.queues && QueueOk(r) && r.msgSize == k.queues[q].msgSize
    ensures Inv(k.(queues := k.queues[q := r]))
  {
    hide RingsPlaced, WaitsPlaced, TasksOk, RegistryOk, CallsOk, MutexesOk, HandoffsOk;
    CallsKept(k.tasks, k.waits, k.queues, k.tasks, k.waits, k.queues[q := r]);
  }

  lemma WakeHeadRuns(k: Kernel, w: WaitKey)
    requires Inv(k) && CanRun(k) && w in k.waits
    ensures CanRun(WakeHead(k, w)) && WakeHead(k, w).queues == k.queues
  {
    if k.waits[w] != [] {
      assert k.waits[w][0] in k.waits[w];
      assert TcbOk(k.tasks[k.waits[w][0]]);
    }
  }

  lemma SendKeepsInv(k: Kernel, q: nat, timeout: nat, msg: seq<Byte>)
    requires Inv(k) && CanRun(k) && q in k.queues && |msg| == k.queues[q].msgSize
    ensures Inv(Send(k, q, timeout, msg))
  {
    hide RingsPlaced, WaitsPlaced, TasksOk, RegistryOk, CallsOk, MutexesOk, HandoffsOk;
    if k.queues[q].count < k.queues[q].depth {
      WakeHeadKeepsInv(k, RecvQ(q));
      WakeHeadRuns(k, RecvQ(q));
      QueueKeepsInv(WakeHead(k, RecvQ(q)), q, Put(k.queues[q], msg));
      ReturnKeepsInv(WakeHead(k, RecvQ(q)).(queues := k.queues[q := Put(k.queues[q], msg)]));
    } else {
      WaitKeepsInv(k, SendQ(q), timeout, msg);
    }
  }

  lemma RecvKeepsInv(k: Kernel, q: nat, timeout: nat, msg: seq<Byte>)
    requires Inv(k) && CanRun(k) && q in k.queues
    ensures Inv(Recv(k, q, timeout, msg))
  {
    hide RingsPlaced, WaitsPlaced, TasksOk, RegistryOk, CallsOk, MutexesOk, HandoffsOk;
    if k.queues[q].count > 0 {
      WakeHeadKeepsInv(k, SendQ(q));
      WakeHeadRuns(k, SendQ(q));
      QueueKeepsInv(WakeHead(k, SendQ(q)), q, Get(k.queues[q]).1);
      ReturnKeepsInv(WakeHead(k, SendQ(q)).(queues := k.queues[q := Get(k.queues[q]).1]));
    } else {
      WaitKeepsInv(k, RecvQ(q), timeout, msg);
    }
  }

  lemma EnterKeepsInv(k: Kernel, w: WaitKey, timeout: nat, msg: seq<Byte>)
    requires Inv(k) && CanRun(k) && CallOk(InCall(w, timeout, msg), k.waits, k.queues)
    ensures Inv(Enter(k, w, timeout, msg))
  {
    hide Placed, CallsOk, MutexesOk, HandoffsOk, CountsOk, Lock, SemWait, Send, Recv;
    match w
    case MutexQ(m) => LockKeepsInv(k, m, timeout, msg);
    case SemQ(s) => SemWaitKeepsInv(k, s, timeout, msg);
    case SendQ(q) => SendKeepsInv(k, q, timeout, msg);
    case RecvQ(q) => RecvKeepsInv(k, q, timeout, msg);
  }

  lemma ResumeKeepsInv(k: Kernel)
    requires Inv(k) && CanRun(k)
    ensures Inv(Resume(k))
  {
    var c := k.tasks[k.current];
    ReturnKeepsInv(k);
    if c.call.InCall? && c.wakeStatus != ErrTimeout {
      assert CallOk(c.call, k.waits, k.queues);
      EnterKeepsInv(k, c.call.on, c.call.timeout, c.call.msg);
    }
  }

  // ---------------------------------------------------------------- dispatch

  lemma PreemptKeepsInv(k: Kernel)
    requires Inv(k)
    ensures Inv(Preempt(k))
    ensures forall t :: t in Preempt(k).tasks ==> Preempt(k).tasks[t].state != Running
  {
    if k.current in k.tasks && k.tasks[k.current].state == Running {
      var c := k.tasks[k.current];
      assert TcbOk(c) && HandoffOk(k.mutexes, k.current, c) && CallOk(c.call, k.waits, k.queues);
      UpdateKeepsInv(k, k.current, c.(state := Ready));
    }
  }

  lemma SelectKeepsInv(k: Kernel, p: nat)
    requires Inv(k) && p < NUM_PRIORITIES && k.rings[p] != []
    requires forall t :: t in k.tasks ==> k.tasks[t].state != Running
    ensures k.rings[p][0] in k.tasks && Inv(Select(k, p))
  {
    var sel := k.rings[p][0];
    assert sel in k.rings[p];
    var c := k.tasks[sel];
    assert TcbOk(c) && HandoffOk(k.mutexes, sel, c) && CallOk(c.call, k.waits, k.queues);
    var k1 := k.(rings := k.rings[p := k.rings[p][1..] + [sel]], current := sel);
    RingsRotated(k.rings, k.tasks, p);
    hide RingsPlaced, WaitsPlaced, RegistryOk, CallsOk, MutexesOk, HandoffsOk;
    UpdateKeepsInv(k1, sel, c.(state := Running));
  }

  /** The idle task is always in the last ring, so some ring is occupied. */
  lemma RingOccupied(k: Kernel)
    requires Placed(k)
    ensures FirstOccupied(k.rings) < NUM_PRIORITIES
    ensures k.idle in k.rings[NUM_PRIORITIES - 1]
  {
    assert TcbOk(k.tasks[k.idle]);
    assert k.rings[NUM_PRIORITIES - 1] != [];
  }

  /** Dispatch never falls back: it takes the head of the lowest-numbered occupied ring. */
  lemma DispatchSelects(k: Kernel)
    requires Inv(k)
    ensures var k1, p := Preempt(k), FirstOccupied(k.rings);
      && p < NUM_PRIORITIES == |k1.rings| && k1.rings[p] != [] && k1.rings[p][0] in k1.tasks
      && (forall t :: t in k1.tasks ==> k1.tasks[t].state != Running)
      && Select(k1, p) == Dispatch(k)
    ensures Inv(Preempt(k))
  {
    hide WaitsPlaced, RegistryOk, KeysOk, CallsOk, MutexesOk, HandoffsOk, CountsOk, FirstOccupied;
    PreemptKeepsInv(k);
    RingOccupied(k);
    assert Preempt(k).rings == k.rings;
    assert k.rings[FirstOccupied(k.rings)][0] in k.rings[FirstOccupied(k.rings)];
  }

  lemma DispatchKeepsInv(k: Kernel)
    requires Inv(k)
    ensures Inv(Dispatch(k))
  {
    DispatchSelects(k);
    hide RingsPlaced, WaitsPlaced, TasksOk, RegistryOk, CallsOk, MutexesOk, HandoffsOk;
    SelectKeepsInv(Preempt(k), FirstOccupied(k.rings));
  }

  // ---------------------------------------------------------------- time

  lemma WakeIfDueKeepsInv(k: Kernel, t: Addr)
    requires Inv(k) && t in k.tasks
    ensures Inv(WakeIfDue(k, t))
  {
    assert TcbOk(k.tasks[t]);
    if Due(k, t) {
      WakeKeepsInv(k, t, if k.tasks[t].block == Sleeping then k.tasks[t].wakeStatus else ErrTimeout);
    }
  }

  lemma WakeIfDueRegistry(k: Kernel, u: Addr)
    requires u in k.tasks && k.tasks[u].bucket < |k.rings|
    ensures WakeIfDue(k, u).registry == k.registry
  {
  }

  lemma MembersFacts(k: Kernel)
    requires Placed(k)
    ensures k.idle in k.tasks
    ensures forall p, t :: 0 <= p < |k.rings| && t in k.rings[p] ==> t in k.tasks
  {
  }

  lemma RunnerInRing(k: Kernel)
    requires Placed(k) && CanRun(k)
    ensures k.tasks[k.current].bucket < |k.rings| && k.current in k.rings[k.tasks[k.current].bucket]
  {
  }

  lemma Buckets(k: Kernel)
    requires Placed(k)
    ensures |k.rings| == NUM_PRIORITIES && forall t :: t in k.tasks ==> k.tasks[t].bucket < NUM_PRIORITIES
  {
  }

  // ---------------------------------------------------------------- tasks

  lemma CreateKeepsInv(k: Kernel, t: Addr, prio: nat)
    requires Inv(k) && t !in k.tasks && t != NULL && prio < PRIORITY_LIMIT
    ensures Inv(Create(k, t, prio))
  {
    if |k.registry| < MAX_TASKS {
      var c := NewTcb(prio);
      RingsAdded(k.rings, k.tasks, t, c);
      WaitsNewTask(k.waits, k.tasks, t, c);
      TasksUpdated(k.tasks, k.current, k.idle, t, c);
      RegistryAdded(k.registry, k.tasks, t, c);
      CallsUpdated(k.tasks, k.waits, k.queues, t, c);
      MutexesKept(k.mutexes, k.waits, k.tasks, k.waits, k.tasks[t := c], k.idle);
      HandoffsUpdated(k.mutexes, k.tasks, t, c);
    }
  }

  lemma DeleteWaits(k: Kernel, t: Addr)
    requires WaitsPlaced(k.waits, k.tasks) && t in k.tasks && TcbOk(k.tasks[t])
    ensures WaitsPlaced(if k.tasks[t].state == Blocked then Unlink(k, t) else k.waits, k.tasks - {t})
  {
    if k.tasks[t].block.Waiting? {
      var c := k.tasks[t].(block := NotBlocked);
      WaitsRemoved(k.waits, k.tasks, t, c);
      WaitsForgot(Unlink(k, t), k.tasks[t := c], t);
      assert k.tasks[t := c] - {t} == k.tasks - {t};
    } else {
      WaitsForgot(k.waits, k.tasks, t);
    }
  }

  lemma DeleteKeepsInv(k: Kernel, t: Addr)
    requires Inv(k) && t in k.tasks
    requires forall m :: m in k.mutexes ==> k.mutexes[m].owner != t
    ensures Inv(Delete(k, t))
  {
    if t != k.idle && t != k.current {
      var k' := Delete(k, t);
      assert TcbOk(k.tasks[t]);
      RingsDeleted(k.rings, k.tasks, t);
      DeleteWaits(k, t);
      RegistryRemoved(k.registry, k.tasks, t);
      UnlinkShrinks(k, t);
      CallsKept(k.tasks, k.waits, k.queues, k'.tasks, k'.waits, k'.queues);
      MutexesKept(k.mutexes, k.waits, k.tasks, k'.waits, k'.tasks, k.idle);
    }
  }
}
