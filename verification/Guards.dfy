/** What mutexes and wait lists promise their callers, and what each guard on runs keeps out: for each
    one, exactly when the step it restricts does keep the promise. */
module Guards {
  import opened Types
  import opened Lists
  import opened KernelState
  import opened Placement
  import opened Steps
  import opened Runs
  import opened Inheritance
  import opened Wakeups

  // ---------------------------------------------------------------- mutual exclusion and handoff

  /** A task that comes back from its wait in mutex_lock owns the mutex and returns at once, or
      timed out and is neither owner nor waiter.  Either way it blocks at most once. */
  lemma LockBlocksAtMostOnce(k: Kernel, m: nat)
    requires Inv(k) && CanRun(k) && k.tasks[k.current].call.InCall? && k.tasks[k.current].call.on == MutexQ(m)
    ensures m in k.mutexes && MutexQ(m) in k.waits && k.current !in k.waits[MutexQ(m)]
    ensures k.tasks[k.current].wakeStatus == Ok <==> k.mutexes[m].owner == k.current
    ensures k.tasks[k.current].wakeStatus == ErrTimeout <==> k.mutexes[m].owner != k.current
    ensures KernelState.Resume(k) == Return(k)
  {
    var c := k.tasks[k.current];
    assert CallOk(c.call, k.waits, k.queues) && HandoffOk(k.mutexes, k.current, c) && TcbOk(c);
    RunnerWaitsNowhere(k);
    OwnerOk(k, m);
    hide RingsPlaced, WaitsPlaced, TasksOk, RegistryOk, CallsOk, MutexesOk, HandoffsOk;
  }

  /** Nobody overtakes a waiter: while somebody waits, a newcomer leaves the owner in place and
      joins the end of the list. */
  lemma NoOvertaking(k: Kernel, m: nat, timeout: nat)
    requires Inv(k) && CanRun(k) && m in k.mutexes && k.waits[MutexQ(m)] != [] && k.mutexes[m].owner != k.current
    ensures var k' := Lock(k, m, timeout, []);
      && k'.mutexes == k.mutexes && MutexQ(m) in k'.waits
      && k'.waits[MutexQ(m)] == k.waits[MutexQ(m)] + [k.current]
      && k.current in k'.tasks && k'.tasks[k.current].state == Blocked
  {
    hide MinPrio, RingsPlaced, WaitsPlaced, TasksOk, RegistryOk, CallsOk, MutexesOk, HandoffsOk;
    OwnerOk(k, m);
    LockFacts(k, m);
    assert Boost(k, k.mutexes[m].owner, Demand(k, m)).waits == k.waits;
  }

  /** An unlock hands the mutex to the earliest-enqueued waiter of least priority value, which is
      READY from then on; the others keep waiting in their order.  With no waiter it is free. */
  lemma HandoffPicksBest(k: Kernel, m: nat)
    requires Inv(k) && CanRun(k) && m in k.mutexes && k.mutexes[m].owner == k.current
    ensures MutexQ(m) in k.waits && forall u :: u in k.waits[MutexQ(m)] ==> u in k.tasks
    ensures var k', ws := KernelState.Unlock(k, m), k.waits[MutexQ(m)];
      && m in k'.mutexes && MutexQ(m) in k'.waits
      && if ws == [] then k'.mutexes[m] == Mutex(false, NULL)
         else var next := k'.mutexes[m].owner;
           && k'.mutexes[m].locked && next in ws && next in k'.tasks && k'.tasks[next].state == Ready
           && (forall u :: u in ws ==> k.tasks[next].prio <= k.tasks[u].prio)
           && (forall j :: 0 <= j < IndexOf(ws, next) ==> k.tasks[next].prio < k.tasks[ws[j]].prio)
           && k'.waits[MutexQ(m)] == Without(ws, next)
  {
    hide RingsPlaced, RegistryOk, CallsOk, MutexesOk, HandoffsOk, RingAdd, Bucket, Without, SetPriority;
    OwnerOk(k, m);
    RunnerUnlocks(k, m);
    RunnerWaitsNowhere(k);
    RestoredOthers(k);
    var k1, ws := SetPriority(k, k.current, k.tasks[k.current].base), k.waits[MutexQ(m)];
    if ws != [] {
      BestIsFirst(k.tasks, k1.tasks, ws);
      WaiterFacts(k, MutexQ(m), ws[Best(k1.tasks, ws)]);
    }
  }

  lemma RestoredOthers(k: Kernel)
    requires k.current in k.tasks && |k.rings| == NUM_PRIORITIES && k.tasks[k.current].bucket < NUM_PRIORITIES
    ensures var k1 := SetPriority(k, k.current, k.tasks[k.current].base);
      && k1.waits == k.waits && k1.mutexes == k.mutexes && |k1.rings| == NUM_PRIORITIES
      && k1.tasks.Keys == k.tasks.Keys && forall t :: t in k.tasks && t != k.current ==> k1.tasks[t] == k.tasks[t]
  {
  }

  lemma BestIsFirst(tasks: map<Addr, Tcb>, tasks': map<Addr, Tcb>, ws: seq<Addr>)
    requires ws != [] && NoDup(ws) && forall t :: t in ws ==> t in tasks && t in tasks' && tasks'[t] == tasks[t]
    ensures var b := ws[Best(tasks', ws)];
      && b in ws && (forall u :: u in ws ==> tasks[b].prio <= tasks[u].prio)
      && (forall j :: 0 <= j < IndexOf(ws, b) ==> tasks[b].prio < tasks[ws[j]].prio)
  {
    var i := Best(tasks', ws);
    assert ws[i] in ws && IndexOf(ws, ws[i]) == i;
    forall j | 0 <= j < |ws|
      ensures tasks[ws[i]].prio <= tasks[ws[j]].prio && (j < i ==> tasks[ws[i]].prio < tasks[ws[j]].prio)
    {
      assert ws[j] in ws;
    }
  }

  // ---------------------------------------------------------------- first come, first woken

  /** A post, a send or a receive that finds waiters wakes the one that has waited longest: it goes
      to the tail of its ring, the others wait on in their order, and nobody else is touched. */
  lemma WakesLongestWaiting(k: Kernel, w: WaitKey)
    requires Placed(k) && w in k.waits && k.waits[w] != []
    ensures var k', ws := WakeHead(k, w), k.waits[w];
      && w in k'.waits && k'.waits[w] == ws[1..] && ws[0] in k.tasks && ws[0] in k'.tasks
      && k'.tasks[ws[0]].state == Ready && k'.tasks[ws[0]].wakeStatus == k.tasks[ws[0]].wakeStatus
      && var p := k.tasks[ws[0]].bucket;
        && p < |k.rings| == |k'.rings| && k'.rings[p] == k.rings[p] + [ws[0]]
        && (forall q :: 0 <= q < |k.rings| && q != p ==> k'.rings[q] == k.rings[q])
        && (forall v :: v in k.waits && v != w ==> v in k'.waits && k'.waits[v] == k.waits[v])
        && (forall u :: u in k.tasks && u != ws[0] ==> u in k'.tasks && k'.tasks[u] == k.tasks[u])
  {
    hide RingsPlaced, WaitsPlaced, TasksOk, RegistryOk, Without;
    assert k.waits[w][0] in k.waits[w];
    WaiterFacts(k, w, k.waits[w][0]);
    WithoutHead(k.waits[w]);
  }

  // ---------------------------------------------------------------- unlock and the buckets

  /** An unlock leaves its caller in the right ring if and only if the caller's base priority is
      in the bucket it already has: a RUNNING task is relabelled but not moved. */
  lemma UnlockPlacesCallerIff(k: Kernel, m: nat)
    requires Inv(k) && CanRun(k) && m in k.mutexes && k.mutexes[m].owner == k.current
    requires k.tasks[k.current].call == NoCall
    ensures var k' := KernelState.Unlock(k, m);
      RingsPlaced(k'.rings, k'.tasks) <==> Bucket(k.tasks[k.current].base) == k.tasks[k.current].bucket
  {
    if Bucket(k.tasks[k.current].base) == k.tasks[k.current].bucket {
      hide RingsPlaced, WaitsPlaced, TasksOk, RegistryOk, CallsOk, MutexesOk, HandoffsOk;
      UnlockKeepsInv(k, m);
    } else {
      UnlockMisplaces(k, m);
    }
  }

  lemma UnlockMisplaces(k: Kernel, m: nat)
    requires Inv(k) && CanRun(k) && m in k.mutexes && k.mutexes[m].owner == k.current
    requires Bucket(k.tasks[k.current].base) != k.tasks[k.current].bucket
    ensures var k' := KernelState.Unlock(k, m);
      !RingsPlaced(k'.rings, k'.tasks)
  {
    hide WaitsPlaced, TasksOk, RegistryOk, KeysOk, CallsOk, MutexesOk, HandoffsOk, CountsOk, Bucket, KernelState.Unlock;
    RunnerInRing(k);
    UnlockedRings(k, m);
    assert k.current in KernelState.Unlock(k, m).rings[k.tasks[k.current].bucket];
  }

  /** Whatever its bucket, an unlock keeps every other part of the invariant; and the rings are wrong, if
      at all, at the caller alone: they are the rings of a state in which its bucket is the old one. */
  lemma UnlockKeepsTheRest(k: Kernel, m: nat)
    requires Inv(k) && CanRun(k) && m in k.mutexes && k.mutexes[m].owner == k.current
    requires k.tasks[k.current].call == NoCall
    ensures var k' := KernelState.Unlock(k, m);
      && k.current in k'.tasks && RingsPlaced(k'.rings, Relabelled(k'.tasks, k.current, k.tasks[k.current].bucket))
      && WaitsPlaced(k'.waits, k'.tasks) && TasksOk(k'.tasks, k'.current, k'.idle) && RegistryOk(k'.registry, k'.tasks)
      && KeysOk(k') && CallsOk(k'.tasks, k'.waits, k'.queues) && MutexesOk(k'.mutexes, k'.waits, k'.tasks, k'.idle)
      && HandoffsOk(k'.mutexes, k'.tasks) && CountsOk(k'.sems, k'.queues)
  {
    hide Inv, RingsPlaced, WaitsPlaced, TasksOk, RegistryOk, KeysOk, CallsOk, MutexesOk, HandoffsOk, CountsOk;
    hide KernelState.Unlock, CallOk, HandoffOk;
    InvPlaces(k);
    var c := k.tasks[k.current];
    TaskFacts(k, k.current);
    CallerFits(k);
    var even := c.(base := c.prio);
    var ke := SetTask(k, k.current, even);
    EvenCaller(k);
    UnlockUpTo(k, m);
    CallerStays(ke, m);
    RelabelKeepsTheRest(KernelState.Unlock(ke, m), Restored(even, c.base));
  }

  function Relabelled(tasks: map<Addr, Tcb>, t: Addr, b: nat): map<Addr, Tcb>
    requires t in tasks
  {
    tasks[t := tasks[t].(bucket := b)]
  }

  function Restored(c: Tcb, base: nat): Tcb {
    c.(prio := base, base := base, bucket := Bucket(base))
  }

  lemma CallerFits(k: Kernel)
    requires Inv(k) && CanRun(k) && k.tasks[k.current].call == NoCall
    ensures var c := k.tasks[k.current];
      && CallOk(c.call, k.waits, k.queues) && HandoffOk(k.mutexes, k.current, c)
      && TcbOk(c) && TcbOk(c.(base := c.prio)) && TcbOk(Restored(c, c.base))
  {
    TaskFacts(k, k.current);
  }

  /** The same state with the caller's boost made its base priority. */
  lemma EvenCaller(k: Kernel)
    requires Inv(k) && CanRun(k) && k.tasks[k.current].call == NoCall
    ensures var c := k.tasks[k.current];
      var ke := SetTask(k, k.current, c.(base := c.prio));
      Inv(ke) && CanRun(ke) && Bucket(c.prio) == c.bucket
  {
    hide RingsPlaced, WaitsPlaced, TasksOk, RegistryOk, KeysOk, CallsOk, MutexesOk, HandoffsOk, CountsOk;
    TaskFacts(k, k.current);
    CallerFits(k);
    UpdateKeepsInv(k, k.current, k.tasks[k.current].(base := k.tasks[k.current].prio));
  }

  /** An unlock that changes no priority keeps the invariant and leaves its caller as it was. */
  lemma CallerStays(k: Kernel, m: nat)
    requires Inv(k) && CanRun(k) && m in k.mutexes && k.mutexes[m].owner == k.current
    requires var c := k.tasks[k.current]; c.call == NoCall && c.base == c.prio && Bucket(c.prio) == c.bucket
    ensures var k' := KernelState.Unlock(k, m);
      && Inv(k') && k'.current == k.current && k'.idle == k.idle
      && k.current in k'.tasks && k'.tasks[k.current] == k.tasks[k.current]
  {
    hide RingsPlaced, WaitsPlaced, TasksOk, RegistryOk, KeysOk, CallsOk, MutexesOk, HandoffsOk, CountsOk;
    hide Best, RingAdd, Without, Bucket;
    UnlockKeepsInv(k, m);
    OwnerOk(k, m);
    RunnerUnlocks(k, m);
    RunnerWaitsNowhere(k);
    RestoredTo(k);
    var ws := k.waits[MutexQ(m)];
    if ws != [] {
      assert ws[Best(k.tasks, ws)] in ws;
    }
  }

  /** Restoring a RUNNING task's priority changes its record alone. */
  lemma RestoredTo(k: Kernel)
    requires CanRun(k) && k.tasks[k.current].bucket < NUM_PRIORITIES && |k.rings| == NUM_PRIORITIES
    ensures var c := k.tasks[k.current];
      && SetPriority(k, k.current, c.base) == SetTask(k, k.current, Restored(c, c.base))
      && (c.base == c.prio && Bucket(c.prio) == c.bucket ==> SetPriority(k, k.current, c.base) == k)
  {
    hide Bucket;
    var c := k.tasks[k.current];
    assert k.tasks[k.current := c] == k.tasks;
  }

  /** An unlock is an unlock without a boost, and then the caller's own priority. */
  lemma UnlockUpTo(k: Kernel, m: nat)
    requires Inv(k) && CanRun(k) && m in k.mutexes && k.mutexes[m].owner == k.current && k.tasks[k.current].call == NoCall
    requires var c := k.tasks[k.current];
      Inv(SetTask(k, k.current, c.(base := c.prio))) && CanRun(SetTask(k, k.current, c.(base := c.prio)))
    ensures var c := k.tasks[k.current];
      var u := KernelState.Unlock(SetTask(k, k.current, c.(base := c.prio)), m);
      KernelState.Unlock(k, m) == SetTask(u, k.current, Restored(c.(base := c.prio), c.base))
  {
    hide RingsPlaced, WaitsPlaced, TasksOk, RegistryOk, KeysOk, CallsOk, MutexesOk, HandoffsOk, CountsOk;
    hide Best, RingAdd, Without, Bucket, PassOn;
    var c := k.tasks[k.current];
    var ke := SetTask(k, k.current, c.(base := c.prio));
    OwnerOk(k, m);
    EvenCaller(k);
    RunnerUnlocks(k, m);
    RunnerUnlocks(ke, m);
    RunnerWaitsNowhere(k);
    RestoredTo(k);
    RestoredTo(ke);
    var r := Restored(c.(base := c.prio), c.base);
    assert k.tasks[k.current := Restored(c, c.base)] == ke.tasks[k.current := r];
    PassOnUpTo(ke, m, k.current, r);
  }

  /** A handoff does not depend on a task that does not wait for the mutex. */
  lemma PassOnUpTo(k: Kernel, m: nat, t: Addr, c: Tcb)
    requires MutexQ(m) in k.waits && t in k.tasks && t !in k.waits[MutexQ(m)]
    requires forall u :: u in k.waits[MutexQ(m)] ==> u in k.tasks && k.tasks[u].bucket < |k.rings|
    ensures PassOn(SetTask(k, t, c), m) == SetTask(PassOn(k, m), t, c)
  {
    hide RingAdd, Without, Best;
    var ws, tasks := k.waits[MutexQ(m)], k.tasks[t := c];
    if ws != [] {
      SameBest(k.tasks, tasks, ws);
      var next := ws[Best(k.tasks, ws)];
      assert next in ws;
      assert next != t && tasks[next] == k.tasks[next];
      var woken := k.tasks[next].(state := Ready, block := NotBlocked);
      assert k.tasks[t := c][next := woken] == k.tasks[next := woken][t := c];
    }
  }

  lemma SameBest(tasks: map<Addr, Tcb>, tasks': map<Addr, Tcb>, ws: seq<Addr>)
    requires ws != [] && forall t :: t in ws ==> t in tasks && t in tasks' && tasks'[t] == tasks[t]
    ensures Best(tasks', ws) == Best(tasks, ws)
  {
    var a, b := Best(tasks, ws), Best(tasks', ws);
    assert ws[a] in ws && ws[b] in ws;
  }

  lemma RelabelFacts(k: Kernel, c: Tcb)
    requires Inv(k) && CanRun(k) && TcbOk(c)
    requires var o := k.tasks[k.current]; c == o.(prio := c.prio, base := c.base, bucket := c.bucket) && c.call == NoCall
    ensures var o := k.tasks[k.current];
      && k.current != NULL && k.current != k.idle && c.block == o.block && c.state == o.state == Running
      && CallOk(c.call, k.waits, k.queues) && HandoffOk(k.mutexes, k.current, c) && KeysOk(k)
      && KeysOk(k.(tasks := k.tasks[k.current := c]))
  {
    hide RingsPlaced, WaitsPlaced, RegistryOk, CallsOk, MutexesOk, HandoffsOk, CountsOk, TcbOk;
  }

  /** A new priority for the RUNNING task touches nothing but the rings, and them only at that task. */
  lemma RelabelKeepsTheRest(k: Kernel, c: Tcb)
    requires Inv(k) && CanRun(k) && TcbOk(c)
    requires var o := k.tasks[k.current]; c == o.(prio := c.prio, base := c.base, bucket := c.bucket) && c.call == NoCall
    ensures var tasks, t := k.tasks[k.current := c], k.current;
      && RingsPlaced(k.rings, Relabelled(tasks, t, k.tasks[t].bucket))
      && WaitsPlaced(k.waits, tasks) && TasksOk(tasks, t, k.idle) && RegistryOk(k.registry, tasks)
      && KeysOk(k.(tasks := tasks)) && CallsOk(tasks, k.waits, k.queues) && MutexesOk(k.mutexes, k.waits, tasks, k.idle)
      && HandoffsOk(k.mutexes, tasks) && CountsOk(k.sems, k.queues)
  {
    hide RingsPlaced, WaitsPlaced, TasksOk, RegistryOk, KeysOk, CallsOk, MutexesOk, HandoffsOk, CountsOk, TcbOk;
    var t := k.current;
    var tasks := k.tasks[t := c];
    InvPlaces(k);
    TaskFacts(k, t);
    RelabelFacts(k, c);
    RingsKept(k.rings, k.tasks, t, c.(bucket := k.tasks[t].bucket));
    assert Relabelled(tasks, t, k.tasks[t].bucket) == k.tasks[t := c.(bucket := k.tasks[t].bucket)];
    WaitsKept(k.waits, k.tasks, t, c);
    TasksUpdated(k.tasks, k.current, k.idle, t, c);
    RegistryKept(k.registry, k.tasks, t, c);
    CallsUpdated(k.tasks, k.waits, k.queues, t, c);
    HandoffsUpdated(k.mutexes, k.tasks, t, c);
    MutexesKept(k.mutexes, k.waits, k.tasks, k.waits, tasks, k.idle);
  }

  /** What that costs: with the caller alone in its ring, and every waiter in that bucket or a
      higher-numbered one, the next dispatch takes the de-boosted caller again, ahead of the task it has just
      handed the mutex to. */
  lemma MisplacedCallerRunsAgain(k: Kernel, m: nat)
    requires Inv(k) && CanRun(k) && m in k.mutexes && k.mutexes[m].owner == k.current
    requires var b := k.tasks[k.current].bucket;
      && Bucket(k.tasks[k.current].base) != b && b < |k.rings| && k.rings[b] == [k.current]
      && (forall q :: 0 <= q < b ==> k.rings[q] == [])
      && MutexQ(m) in k.waits && (forall u :: u in k.waits[MutexQ(m)] ==> u in k.tasks && b <= k.tasks[u].bucket)
    ensures var k' := KernelState.Unlock(k, m);
      && k'.idle in k'.tasks && (forall p, t :: 0 <= p < |k'.rings| && t in k'.rings[p] ==> t in k'.tasks)
      && KernelState.Dispatch(k').current == k.current && k.current in k'.tasks
      && k'.tasks[k.current].bucket == Bucket(k.tasks[k.current].base)
  {
    hide Inv, Placed, Bucket, KernelState.Unlock, KernelState.Dispatch;
    var b := k.tasks[k.current].bucket;
    InvPlaces(k);
    MembersFacts(k);
    UnlockedRings(k, m);
    var k' := KernelState.Unlock(k, m);
    assert k'.rings[b][0] == k.current && forall q :: 0 <= q < b ==> k'.rings[q] == [];
    DispatchTakesHead(k', b);
  }

  lemma DispatchTakesHead(k: Kernel, b: nat)
    requires k.idle in k.tasks && forall p, t :: 0 <= p < |k.rings| && t in k.rings[p] ==> t in k.tasks
    requires b < |k.rings| && k.rings[b] != [] && forall q :: 0 <= q < b ==> k.rings[q] == []
    ensures var k' := KernelState.Dispatch(k);
      k'.current == k.rings[b][0] && k'.rings == k.rings[b := k.rings[b][1..] + [k.rings[b][0]]]
  {
    assert FirstOccupied(k.rings) == b;
  }

  /** An unlock at most appends the new owner to its ring. */
  lemma UnlockedRings(k: Kernel, m: nat)
    requires Inv(k) && CanRun(k) && m in k.mutexes && k.mutexes[m].owner == k.current
    ensures |k.rings| == NUM_PRIORITIES && MutexQ(m) in k.waits
    ensures var k', ws := KernelState.Unlock(k, m), k.waits[MutexQ(m)];
      && k'.idle == k.idle && k'.current == k.current && k'.tasks.Keys == k.tasks.Keys && |k'.rings| == NUM_PRIORITIES
      && (k'.rings == k.rings ||
          exists u :: u in ws && u in k.tasks && k.tasks[u].bucket < |k.rings|
                      && k'.rings == RingAdd(k.rings, k.tasks[u].bucket, u))
      && k'.tasks[k.current].bucket == Bucket(k.tasks[k.current].base)
  {
    hide RegistryOk, CallsOk, MutexesOk, HandoffsOk, Best, Bucket, Without, RingAdd, RingsPlaced;
    OwnerOk(k, m);
    RunnerUnlocks(k, m);
    RunnerWaitsNowhere(k);
    RestoredOthers(k);
    var k1, ws := SetPriority(k, k.current, k.tasks[k.current].base), k.waits[MutexQ(m)];
    assert k1.rings == k.rings;
    if ws != [] {
      var next := ws[Best(k1.tasks, ws)];
      assert next in ws && next != k.current;
      assert KernelState.Unlock(k, m).rings == RingAdd(k.rings, k.tasks[next].bucket, next);
    }
  }

  /** And if the caller then blocks, it is taken out of the ring of its new bucket, where it is not,
      and stays in the old one. */
  lemma MisplacedCallerBlocksInRing(k: Kernel, m: nat, ticks: nat)
    requires Inv(k) && CanRun(k) && m in k.mutexes && k.mutexes[m].owner == k.current && ticks > 0
    requires Bucket(k.tasks[k.current].base) != k.tasks[k.current].bucket
    ensures var k1, t, b := KernelState.Unlock(k, m), k.current, k.tasks[k.current].bucket;
      && k1.current in k1.tasks && k1.tasks[k1.current].bucket < |k1.rings|
      && var k2 := KernelState.Delay(k1, ticks);
        t in k2.tasks && k2.tasks[t].state == Blocked && b < |k2.rings| && t in k2.rings[b]
  {
    hide Inv, KernelState.Unlock, Without;
    InvPlaces(k);
    RunnerInRing(k);
    UnlockedRings(k, m);
    hide Placed;
  }

  // ---------------------------------------------------------------- inheritance is not nested

  lemma UnlockLeavesOthers(k: Kernel, m: nat, n: nat)
    requires Inv(k) && CanRun(k) && m in k.mutexes && n in k.mutexes && m != n && k.mutexes[m].owner == k.current
    ensures MutexQ(n) in k.waits
    ensures var k' := KernelState.Unlock(k, m);
      && n in k'.mutexes && k'.mutexes[n] == k.mutexes[n]
      && MutexQ(n) in k'.waits && k'.waits[MutexQ(n)] == k.waits[MutexQ(n)]
      && k'.tasks.Keys == k.tasks.Keys && k'.tasks[k.current].prio == k.tasks[k.current].base
      && (forall u :: u in k.waits[MutexQ(n)] ==> u in k.tasks && u != k.current && k'.tasks[u].prio == k.tasks[u].prio)
  {
    hide RingsPlaced, WaitsPlaced, TasksOk, RegistryOk, CallsOk, MutexesOk, HandoffsOk;
    hide Best, RingAdd, Bucket, Without, SetPriority;
    OwnerOk(k, m);
    OwnerOk(k, n);
    RunnerUnlocks(k, m);
    RunnerWaitsNowhere(k);
    RestoredOthers(k);
    RestoredSelf(k);
    var k1, ws := SetPriority(k, k.current, k.tasks[k.current].base), k.waits[MutexQ(m)];
    forall u | u in k.waits[MutexQ(n)]
      ensures u in k.tasks && k.tasks[u].block == Waiting(MutexQ(n))
    {
      WaiterFacts(k, MutexQ(n), u);
    }
    if ws != [] {
      var next := ws[Best(k1.tasks, ws)];
      assert next in ws;
      WaiterFacts(k, MutexQ(m), next);
    }
  }

  lemma RestoredSelf(k: Kernel)
    requires k.current in k.tasks && |k.rings| == NUM_PRIORITIES && k.tasks[k.current].bucket < NUM_PRIORITIES
    ensures SetPriority(k, k.current, k.tasks[k.current].base).tasks[k.current].prio == k.tasks[k.current].base
  {
  }

  /** A task that owns two mutexes and unlocks one still outranks every waiter of the other if and
      only if its base priority does: the first unlock drops the whole boost. */
  lemma NestedUnlockIff(k: Kernel, m: nat, n: nat)
    requires Inv(k) && CanRun(k) && m in k.mutexes && n in k.mutexes && m != n
    requires k.mutexes[m].owner == k.mutexes[n].owner == k.current
    ensures MutexQ(n) in k.waits && forall u :: u in k.waits[MutexQ(n)] ==> u in k.tasks
    ensures var k' := KernelState.Unlock(k, m);
      && n in k'.mutexes && k'.mutexes[n].owner == k.current
      && MutexQ(n) in k'.waits && k'.waits[MutexQ(n)] == k.waits[MutexQ(n)] && k'.tasks.Keys == k.tasks.Keys
      && ((forall u :: u in k'.waits[MutexQ(n)] ==> k'.tasks[k.current].prio <= k'.tasks[u].prio)
          <==> (forall u :: u in k.waits[MutexQ(n)] ==> k.tasks[k.current].base <= k.tasks[u].prio))
  {
    hide Inv, KernelState.Unlock;
    UnlockLeavesOthers(k, m, n);
  }

  /** Inheritance stops at the owner.  When the owner o of m itself waits on n, a newcomer on m raises
      o but not the owner p of n: p still outranks its waiter o if and only if it outranks the
      newcomer. */
  lemma InheritanceStopsAtOwner(k: Kernel, m: nat, n: nat, o: Addr, p: Addr, timeout: nat)
    requires Inv(k) && CanRun(k) && m in k.mutexes && n in k.mutexes && m != n
    requires o == k.mutexes[m].owner && p == k.mutexes[n].owner && o != k.current
    requires o in k.tasks && k.tasks[o].block == Waiting(MutexQ(n)) && p in k.tasks
    requires k.tasks[p].prio <= k.tasks[o].prio && MutexQ(m) in k.waits
    requires forall u :: u in k.waits[MutexQ(m)] ==> u in k.tasks && k.tasks[o].prio <= k.tasks[u].prio
    ensures var k' := Lock(k, m, timeout, []);
      && o in k'.tasks && k'.tasks[o].block == Waiting(MutexQ(n)) && p in k'.tasks && k'.tasks[p].prio == k.tasks[p].prio
      && (k'.tasks[p].prio <= k'.tasks[o].prio <==> k.tasks[p].prio <= k.tasks[k.current].prio)
  {
    hide RingsPlaced, RegistryOk, KeysOk, CallsOk, HandoffsOk, CountsOk, RingAdd, RingRemove, Bucket;
    OwnerOk(k, m);
    OwnerOk(k, n);
    LockFacts(k, m);
    assert TcbOk(k.tasks[o]) && o in k.waits[MutexQ(n)] && p != o;
    hide WaitsPlaced, TasksOk, MutexesOk;
    DemandIs(k, m, k.tasks[o].prio);
  }

  /** The demand on a mutex whose waiters are all at q or above. */
  lemma DemandIs(k: Kernel, m: nat, q: nat)
    requires WaitsPlaced(k.waits, k.tasks) && k.current in k.tasks && MutexQ(m) in k.waits
    requires forall u :: u in k.waits[MutexQ(m)] ==> u in k.tasks && q <= k.tasks[u].prio
    ensures var d, c := Demand(k, m), k.tasks[k.current].prio;
      (d < q <==> c < q) && (d < q ==> d == c)
  {
    var ws := k.waits[MutexQ(m)] + [k.current];
    assert ws[|ws| - 1] == k.current;
    var u :| u in ws && k.tasks[u].prio == Demand(k, m);
  }

  // ---------------------------------------------------------------- deletion

  /** Deleting a task keeps the invariant if and only if the task owns no mutex: otherwise its mutex
      stays locked by a task that no longer exists. */
  lemma DeleteKeepsInvIff(k: Kernel, t: Addr)
    requires Inv(k) && t in k.tasks && t != k.idle && t != k.current
    ensures Inv(KernelState.Delete(k, t)) <==> OwnsNothing(k.mutexes, t)
  {
    if OwnsNothing(k.mutexes, t) {
      hide Inv;
      DeleteKeepsInv(k, t);
    } else {
      var m :| m in k.mutexes && k.mutexes[m].owner == t;
      DeletedOwnerKeepsMutex(k, m, t);
    }
  }

  lemma DeletedOwnerKeepsMutex(k: Kernel, m: nat, t: Addr)
    requires Inv(k) && m in k.mutexes && k.mutexes[m].owner == t && t in k.tasks && t != k.idle && t != k.current
    ensures var k' := KernelState.Delete(k, t);
      k'.mutexes[m] == Mutex(true, t) && t !in k'.tasks && !Inv(k')
  {
    assert k.tasks[t].bucket < |k.rings|;
    hide RingsPlaced, RegistryOk, CallsOk, HandoffsOk, CountsOk, Without;
    OwnerOk(k, m);
    var k' := KernelState.Delete(k, t);
    assert MutexQ(m) in k'.waits;
    assert !MutexOk(k'.mutexes[m], k'.waits[MutexQ(m)], k'.tasks, k'.idle);
  }

  /** Deleting a woken task loses no wake-up if and only if nobody waits or more tasks are woken than
      there is to take. */
  lemma DeleteWokenIff(k: Kernel, w: WaitKey, t: Addr)
    requires Inv(k) && w in k.waits && t in k.tasks && IsWoken(k.tasks[t], w) && t != k.current
    ensures w in KernelState.Delete(k, t).waits
    ensures NoLoss(KernelState.Delete(k, t), w) <==> k.waits[w] == [] || Available(k, w) < |Woken(k.tasks, w)|
  {
    hide Inv, Placed, RingRemove, Unlink, Available;
    InvPlaces(k);
    IdleCalls(k);
    TaskFacts(k, t);
    DeleteAvails(k, t, w);
    var k' := KernelState.Delete(k, t);
    assert t in Woken(k.tasks, w);
    assert Woken(k'.tasks, w) == Woken(k.tasks, w) - {t};
  }

  lemma IdleCalls(k: Kernel)
    requires Placed(k)
    ensures k.idle in k.tasks && k.tasks[k.idle].call == NoCall
  {
  }

  lemma DeleteAvails(k: Kernel, t: Addr, w: WaitKey)
    requires t in k.tasks && k.tasks[t].bucket < |k.rings|
    ensures Available(KernelState.Delete(k, t), w) == Available(k, w)
  {
  }
}
