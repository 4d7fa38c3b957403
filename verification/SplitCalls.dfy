/** What happens when something comes between the two critical sections of a blocking call: the one
    that joins the wait list and the one in rtos_block_current. */
module SplitCalls {
  import opened Types
  import opened Lists
  import opened KernelState
  import opened Placement
  import opened Steps
  import opened Inheritance

  /** What semaphore_post and _wake_head do with the first waiter, as they find it: take it off the
      list, mark it READY and put it into its ring. */
  function PopHead(k: Kernel, w: WaitKey): Kernel
    requires w in k.waits && k.waits[w] != [] && k.waits[w][0] in k.tasks
    requires k.tasks[k.waits[w][0]].bucket < |k.rings|
  {
    var t := k.waits[w][0];
    SetTask(k, t, k.tasks[t].(state := Ready, block := NotBlocked))
    .(waits := k.waits[w := k.waits[w][1..]], rings := RingInsert(k.rings, k.tasks[t].bucket, t))
  }

  /** In a good state that is the wake-up of the model. */
  lemma PopHeadWakes(k: Kernel, w: WaitKey)
    requires Placed(k) && w in k.waits && k.waits[w] != []
    ensures k.waits[w][0] in k.tasks && k.tasks[k.waits[w][0]].bucket < |k.rings|
    ensures PopHead(k, w) == WakeHead(k, w)
  {
    hide RingsPlaced, WaitsPlaced, TasksOk, RegistryOk, Without, RingAdd;
    assert k.waits[w][0] in k.waits[w];
    WaiterFacts(k, w, k.waits[w][0]);
    BlockedOffRings(k, k.waits[w][0]);
    WithoutHead(k.waits[w]);
  }

  /** A wake-up on w between the current task's enqueue on w and its block. */
  function SplitWait(k: Kernel, w: WaitKey, timeout: nat, msg: seq<Byte>): Kernel
    requires Inv(k) && CanRun(k) && w in k.waits
  {
    SplitFacts(k, w);
    BlockCurrent(PopHead(Enqueue(k, w, k.current), w), Waiting(w), timeout, InCall(w, timeout, msg))
  }

  lemma SplitFacts(k: Kernel, w: WaitKey)
    requires Placed(k) && CanRun(k) && w in k.waits
    ensures var k1 := Enqueue(k, w, k.current);
      && k1.waits[w] != [] && k1.waits[w][0] in k1.tasks && k1.tasks[k1.waits[w][0]].bucket < |k1.rings|
      && k.current in PopHead(k1, w).tasks && PopHead(k1, w).tasks[k.current].bucket < |k1.rings|
      && PopHead(k1, w).current == k.current
  {
    if k.waits[w] != [] {
      assert k.waits[w][0] in k.waits[w];
    }
  }

  /** If a post, a send or a receive falls between a task's enqueue and its block, every task is where
      it belongs afterwards if and only if somebody else was waiting already: otherwise the task
      itself is woken before it blocks. */
  lemma SplitWaitPlacedIff(k: Kernel, w: WaitKey, timeout: nat, msg: seq<Byte>)
    requires Inv(k) && CanRun(k) && w in k.waits && !w.MutexQ? && CallOk(InCall(w, timeout, msg), k.waits, k.queues)
    ensures Placed(SplitWait(k, w, timeout, msg)) <==> k.waits[w] != []
  {
    hide Inv, Placed, RingAdd, RingInsert, Without;
    InvPlaces(k);
    if k.waits[w] == [] {
      SplitWaitMisplaces(k, w, timeout, msg);
    } else {
      PopHeadCommutes(k, w);
      WakeHeadKeepsInv(k, w);
      WakeHeadRuns(k, w);
      WakeHeadSame(k, w);
      WaitKeepsInv(WakeHead(k, w), w, timeout, msg);
      InvPlaces(BlockCurrent(Enqueue(WakeHead(k, w), w, k.current), Waiting(w), timeout, InCall(w, timeout, msg)));
    }
  }

  lemma WakeHeadSame(k: Kernel, w: WaitKey)
    requires Placed(k) && w in k.waits
    ensures WakeHead(k, w).waits.Keys == k.waits.Keys && WakeHead(k, w).queues == k.queues
    ensures WakeHead(k, w).current == k.current && WakeHead(k, w).mutexes == k.mutexes
  {
    hide RingsPlaced, TasksOk, RegistryOk, Without, RingAdd;
    if k.waits[w] != [] {
      assert k.waits[w][0] in k.waits[w];
    }
  }

  lemma PopHeadCommutes(k: Kernel, w: WaitKey)
    requires Placed(k) && CanRun(k) && w in k.waits && k.waits[w] != []
    ensures w in WakeHead(k, w).waits && k.waits[w][0] in k.tasks && k.tasks[k.waits[w][0]].bucket < |k.rings|
    ensures PopHead(Enqueue(k, w, k.current), w) == Enqueue(WakeHead(k, w), w, k.current)
  {
    hide Placed, RingAdd, RingInsert, WakeHead;
    PopHeadWakes(k, w);
    var ws := k.waits[w];
    assert (ws + [k.current])[0] == ws[0] && (ws + [k.current])[1..] == ws[1..] + [k.current];
  }

  /** The task is then BLOCKED on w, in no wait list and in no ring; and the tasks that were behind it
      in its ring, all READY, are in no ring either. */
  lemma SplitWaitMisplaces(k: Kernel, w: WaitKey, timeout: nat, msg: seq<Byte>)
    requires Inv(k) && CanRun(k) && w in k.waits && k.waits[w] == []
    ensures var k', t, b := SplitWait(k, w, timeout, msg), k.current, k.tasks[k.current].bucket;
      && t in k'.tasks && k'.tasks[t].state == Blocked && k'.tasks[t].block == Waiting(w)
      && (forall v :: v in k'.waits ==> t !in k'.waits[v])
      && b < |k.rings| == |k'.rings| && t in k.rings[b]
      && k'.rings == k.rings[b := k.rings[b][..IndexOf(k.rings[b], t)]]
      && (forall p :: 0 <= p < |k'.rings| ==> t !in k'.rings[p])
      && (forall u :: u in k.rings[b][IndexOf(k.rings[b], t) + 1..] ==> LostReady(k', u))
      && !Placed(k')
  {
    hide WaitsPlaced, TasksOk, RegistryOk, KeysOk, CallsOk, MutexesOk, HandoffsOk, CountsOk, Without, IndexOf;
    var t, b := k.current, k.tasks[k.current].bucket;
    var ring := k.rings[b];
    RunnerInRing(k);
    RunnerWaitsNowhere(k);
    CutRing(ring, t);
    var k' := SplitWait(k, w, timeout, msg);
    assert k.waits[w] + [t] == [t];
    NotInList(k'.waits, k'.tasks, t, w);
    RunnerIsAlone(k);
    forall u | u in ring[IndexOf(ring, t) + 1..]
      ensures LostReady(k', u)
    {
      assert u in ring && u != t;
      assert k.tasks[u].bucket == b && k.tasks[u].state == Ready;
    }
  }

  ghost predicate LostReady(k: Kernel, u: Addr) {
    u in k.tasks && k.tasks[u].state == Ready && forall p :: 0 <= p < |k.rings| ==> u !in k.rings[p]
  }

  lemma RunnerIsAlone(k: Kernel)
    requires Placed(k)
    ensures forall u :: u in k.tasks && u != k.current && k.tasks[u].state != Blocked ==> k.tasks[u].state == Ready
  {
  }

  /** A ring cut behind t, and t then taken out. */
  lemma CutRing(ring: seq<Addr>, t: Addr)
    requires NoDup(ring) && t in ring
    ensures Without(Inserted(ring, t), t) == ring[..IndexOf(ring, t)]
    ensures t !in ring[..IndexOf(ring, t)] && t !in ring[IndexOf(ring, t) + 1..]
    ensures forall u :: u in ring[IndexOf(ring, t) + 1..] ==> u !in ring[..IndexOf(ring, t)] && u in ring
  {
    var i := IndexOf(ring, t);
    var r := Inserted(ring, t);
    assert r[i] == t && NoDup(r);
    WithoutAt(r, i);
    assert r[..i] + r[i + 1..] == ring[..i];
  }

  lemma NotInList(waits: map<WaitKey, seq<Addr>>, tasks: map<Addr, Tcb>, t: Addr, w: WaitKey)
    requires t in tasks && tasks[t].block == Waiting(w) && w in waits && t !in waits[w]
    ensures !WaitsPlaced(waits, tasks)
  {
  }

  // ---------------------------------------------------------------- an unlock in between

  /** Nothing but dispatches lies between the two states. */
  ghost predicate OnlyDispatched(k: Kernel, k': Kernel) {
    && k'.waits == k.waits && k'.mutexes == k.mutexes && k'.idle == k.idle && |k'.rings| == |k.rings|
    && k'.tasks.Keys == k.tasks.Keys
    && (forall t :: t in k.tasks ==> SameButState(k.tasks[t], k'.tasks[t]))
  }

  ghost predicate SameButState(c: Tcb, c': Tcb) {
    c' == c.(state := c'.state)
  }

  lemma PreemptOnly(k: Kernel)
    ensures OnlyDispatched(k, Preempt(k)) && Preempt(k).rings == k.rings
  {
  }

  lemma SelectOnly(k: Kernel, p: nat)
    requires p < |k.rings| && k.rings[p] != [] && k.rings[p][0] in k.tasks
    ensures OnlyDispatched(k, Select(k, p))
  {
  }

  lemma DispatchOnly(k: Kernel)
    requires k.idle in k.tasks && forall p, t :: 0 <= p < |k.rings| && t in k.rings[p] ==> t in k.tasks
    ensures OnlyDispatched(k, KernelState.Dispatch(k))
  {
    hide Select, OnlyDispatched, FirstOccupied, Preempt;
    PreemptOnly(k);
    var k1 := Preempt(k);
    PreemptTasks(k);
    var p := FirstOccupied(k1.rings);
    if p < |k1.rings| {
      assert k1.rings[p][0] in k.rings[p];
      SelectOnly(k1, p);
      OnlyDispatchedTrans(k, k1, Select(k1, p));
    } else {
      FallbackOnly(k1);
      OnlyDispatchedTrans(k, k1, KernelState.Dispatch(k));
    }
  }

  lemma PreemptTasks(k: Kernel)
    ensures Preempt(k).tasks.Keys == k.tasks.Keys && Preempt(k).idle == k.idle
  {
  }

  lemma FallbackOnly(k: Kernel)
    requires k.idle in k.tasks
    ensures OnlyDispatched(k, SetTask(k, k.idle, k.tasks[k.idle].(state := Running)).(current := k.idle))
  {
  }

  lemma OnlyDispatchedTrans(k: Kernel, k1: Kernel, k2: Kernel)
    requires OnlyDispatched(k, k1) && OnlyDispatched(k1, k2)
    ensures OnlyDispatched(k, k2)
  {
  }

  /** What mutex_unlock does with the best waiter, as it finds it. */
  function PopBest(k: Kernel, m: nat): Kernel
    requires HasWaiters(k, m)
  {
    var w := MutexQ(m);
    var next := k.waits[w][Best(k.tasks, k.waits[w])];
    SetTask(k, next, k.tasks[next].(state := Ready, block := NotBlocked))
    .(waits := k.waits[w := Without(k.waits[w], next)],
      rings := RingInsert(k.rings, k.tasks[next].bucket, next),
      mutexes := k.mutexes[m := Mutex(true, next)])
  }

  predicate HasWaiters(k: Kernel, m: nat) {
    && MutexQ(m) in k.waits && k.waits[MutexQ(m)] != []
    && forall t :: t in k.waits[MutexQ(m)] ==> t in k.tasks && k.tasks[t].bucket < |k.rings|
  }

  /** mutex_unlock by the current task, for a mutex somebody is in the list of. */
  function UnlockNow(k: Kernel, m: nat): Kernel
    requires k.current in k.tasks && k.tasks[k.current].bucket < |k.rings| == NUM_PRIORITIES && HasWaiters(k, m)
  {
    RestoreKeepsWaiters(k, m);
    PopBest(SetPriority(k, k.current, k.tasks[k.current].base), m)
  }

  lemma RestoreKeepsWaiters(k: Kernel, m: nat)
    requires k.current in k.tasks && k.tasks[k.current].bucket < |k.rings| == NUM_PRIORITIES && HasWaiters(k, m)
    ensures HasWaiters(SetPriority(k, k.current, k.tasks[k.current].base), m)
  {
  }

  /** In a good state that is the unlock of the model. */
  lemma UnlockNowIs(k: Kernel, m: nat)
    requires Inv(k) && CanRun(k) && m in k.mutexes && k.mutexes[m].owner == k.current
    requires MutexQ(m) in k.waits && k.waits[MutexQ(m)] != []
    ensures k.tasks[k.current].bucket < |k.rings| == NUM_PRIORITIES && HasWaiters(k, m)
    ensures UnlockNow(k, m) == KernelState.Unlock(k, m)
  {
    hide RingsPlaced, WaitsPlaced, TasksOk, RegistryOk, KeysOk, CallsOk, MutexesOk, HandoffsOk, CountsOk;
    hide Best, Without, RingAdd, SetPriority, Bucket;
    RunnerUnlocks(k, m);
    RestoredRunner(k);
    var w, k1 := MutexQ(m), SetPriority(k, k.current, k.tasks[k.current].base);
    forall t | t in k.waits[w]
      ensures t in k.tasks && k.tasks[t].bucket < |k.rings| && k.tasks[t].block == Waiting(w) && t != k.current
      ensures forall p :: 0 <= p < |k.rings| ==> t !in k.rings[p]
    {
      WaiterFacts(k, w, t);
      BlockedOffRings(k, t);
    }
    assert k1.waits[w][Best(k1.tasks, k1.waits[w])] in k.waits[w];
  }

  lemma RestoredRunner(k: Kernel)
    requires CanRun(k) && k.tasks[k.current].bucket < |k.rings| == NUM_PRIORITIES
    ensures var c := k.tasks[k.current];
      SetPriority(k, k.current, c.base) == SetTask(k, k.current, c.(prio := c.base, bucket := Bucket(c.base)))
  {
  }

  /** The first critical section of a contended mutex_lock. */
  function SplitJoin(k: Kernel, m: nat): Kernel
    requires Contended(k, m)
  {
    LockFacts(k, m);
    Enqueue(Boost(k, k.mutexes[m].owner, Demand(k, m)), MutexQ(m), k.current)
  }

  ghost predicate Contended(k: Kernel, m: nat) {
    Inv(k) && CanRun(k) && m in k.mutexes && k.mutexes[m].locked && k.mutexes[m].owner != k.current
  }

  /** The state in which the owner unlocks: the newcomer has joined, and the owner has been dispatched. */
  ghost predicate OwnerRuns(k: Kernel, m: nat, k2: Kernel) {
    Contended(k, m) && OnlyDispatched(SplitJoin(k, m), k2) && k2.current == k.mutexes[m].owner
  }

  /** What holds when the newcomer arrives. */
  lemma ArrivalFacts(k: Kernel, m: nat)
    requires Contended(k, m)
    ensures var c, o, w := k.current, k.mutexes[m].owner, MutexQ(m);
      && w in k.waits && c in k.tasks && o in k.tasks && o != c && c != k.idle
      && NoDup(k.waits[w]) && c !in k.waits[w] && o !in k.waits[w]
      && (forall u :: u in k.waits[w] ==> u in k.tasks && k.tasks[u].block == Waiting(w))
      && !k.tasks[c].block.Waiting? && WaitsPlaced(k.waits, k.tasks) && |k.rings| == NUM_PRIORITIES
      && (forall t :: t in k.tasks ==> k.tasks[t].bucket < NUM_PRIORITIES)
      && (forall v :: v in k.waits ==> c !in k.waits[v])
  {
    hide RegistryOk, KeysOk, CallsOk, HandoffsOk, CountsOk;
    LockFacts(k, m);
    OwnerOk(k, m);
    RunnerWaitsNowhere(k);
    TaskFacts(k, k.current);
    Buckets(k);
  }

  /** A boost changes the priority, the bucket and the ring of one task. */
  lemma BoostEffects(k: Kernel, o: Addr, p: nat)
    requires o in k.tasks && |k.rings| == NUM_PRIORITIES && k.tasks[o].bucket < NUM_PRIORITIES
    ensures OneRelabelled(k, Boost(k, o, p), o)
  {
    hide RingAdd, RingRemove, Bucket;
  }

  lemma RestoreEffects(k: Kernel)
    requires k.current in k.tasks && |k.rings| == NUM_PRIORITIES && k.tasks[k.current].bucket < NUM_PRIORITIES
    ensures OneRelabelled(k, SetPriority(k, k.current, k.tasks[k.current].base), k.current)
  {
    hide RingAdd, RingRemove, Bucket;
  }

  ghost predicate OneRelabelled(k: Kernel, k': Kernel, o: Addr) {
    && k'.waits == k.waits && k'.mutexes == k.mutexes && k'.idle == k.idle && |k'.rings| == |k.rings|
    && k'.current == k.current && k'.tasks.Keys == k.tasks.Keys && o in k.tasks
    && (forall t :: t in k.tasks && t != o ==> k'.tasks[t] == k.tasks[t])
    && k'.tasks[o].block == k.tasks[o].block && k'.tasks[o].base == k.tasks[o].base
    && k'.tasks[o].bucket < NUM_PRIORITIES
  }

  /** The first critical section changes the list of the mutex and relabels its owner. */
  lemma JoinFacts(k: Kernel, m: nat)
    requires Contended(k, m)
    ensures var k1, c, w := SplitJoin(k, m), k.current, MutexQ(m);
      && w in k.waits && k1.waits == k.waits[w := k.waits[w] + [c]]
      && OneRelabelled(k, k1.(waits := k.waits), k.mutexes[m].owner)
  {
    hide Inv, Boost, NoDup, WaitsPlaced, Demand, OneRelabelled;
    LockFacts(k, m);
    ArrivalFacts(k, m);
    BoostEffects(k, k.mutexes[m].owner, Demand(k, m));
    RelabelledWaits(k, Boost(k, k.mutexes[m].owner, Demand(k, m)), k.mutexes[m].owner);
  }

  lemma RelabelledWaits(k: Kernel, k': Kernel, o: Addr)
    requires OneRelabelled(k, k', o)
    ensures k'.waits == k.waits
    ensures forall waits :: k'.(waits := waits).(waits := k.waits) == k'
  {
  }

  lemma OwnerCanUnlock(k: Kernel, m: nat, k2: Kernel)
    requires OwnerRuns(k, m, k2)
    ensures k2.current in k2.tasks && k2.tasks[k2.current].bucket < |k2.rings| == NUM_PRIORITIES && HasWaiters(k2, m)
  {
    hide Contended, SplitJoin, NoDup, WaitsPlaced;
    ArrivalFacts(k, m);
    JoinFacts(k, m);
    var w := MutexQ(m);
    assert (k.waits[w] + [k.current])[|k.waits[w]|] == k.current;
  }

  /** The best of a list with a newcomer at its end is the newcomer if and only if its priority value is
      below everybody's. */
  lemma BestIsNewcomer(tasks: map<Addr, Tcb>, ws: seq<Addr>, c: Addr)
    requires c !in ws && forall t :: t in ws + [c] ==> t in tasks
    ensures var next := (ws + [c])[Best(tasks, ws + [c])];
      && next in ws + [c]
      && (next == c <==> forall u :: u in ws ==> tasks[c].prio < tasks[u].prio)
  {
    var all := ws + [c];
    var b := Best(tasks, all);
    assert all[|ws|] == c && c in all;
    forall u | u in ws
      ensures exists j :: 0 <= j < |ws| && all[j] == u
    {
      var j :| 0 <= j < |ws| && ws[j] == u;
      assert all[j] == u;
    }
    assert b < |ws| ==> all[b] in ws;
  }

  lemma SameBlocks(waits: map<WaitKey, seq<Addr>>, tasks: map<Addr, Tcb>, tasks': map<Addr, Tcb>)
    requires WaitsPlaced(waits, tasks) && tasks'.Keys == tasks.Keys
    requires forall t :: t in tasks ==> tasks'[t].block == tasks[t].block
    ensures WaitsPlaced(waits, tasks')
  {
  }

  /** What the unlock does to the waiters it finds. */
  lemma PopBestEffects(k: Kernel, m: nat)
    requires HasWaiters(k, m)
    ensures var k', w := PopBest(k, m), MutexQ(m);
      var next := k.waits[w][Best(k.tasks, k.waits[w])];
      && m in k'.mutexes && k'.mutexes[m] == Mutex(true, next) && next in k.tasks
      && k'.waits == k.waits[w := Without(k.waits[w], next)] && k'.idle == k.idle && |k'.rings| == |k.rings|
      && k.tasks[next].bucket < |k.rings| && k'.rings == RingInsert(k.rings, k.tasks[next].bucket, next)
      && k'.tasks.Keys == k.tasks.Keys
      && (forall t :: t in k.tasks ==>
            && k'.tasks[t].bucket == k.tasks[t].bucket
            && k'.tasks[t].block == if t == next then NotBlocked else k.tasks[t].block)
  {
    hide Without, RingInsert;
    assert k.waits[MutexQ(m)][Best(k.tasks, k.waits[MutexQ(m)])] in k.waits[MutexQ(m)];
  }

  /** The state after the owner's unlock, seen from the newcomer's arrival. */
  ghost predicate HandedOver(k: Kernel, m: nat, k3: Kernel) {
    var c, w := k.current, MutexQ(m);
    && w in k.waits && c in k.tasks && m in k3.mutexes && (forall u :: u in k.waits[w] ==> u in k.tasks)
    && k3.mutexes[m].owner in k.waits[w] + [c]
    && (k3.mutexes[m].owner == c <==> forall u :: u in k.waits[w] ==> k.tasks[c].prio < k.tasks[u].prio)
    && k3.waits == k.waits[w := Without(k.waits[w] + [c], k3.mutexes[m].owner)] && k3.idle == k.idle
    && |k3.rings| == NUM_PRIORITIES && k3.tasks.Keys == k.tasks.Keys
    && (forall t :: t in k.tasks ==>
          && k3.tasks[t].bucket < NUM_PRIORITIES
          && k3.tasks[t].block == if t == k3.mutexes[m].owner then NotBlocked else k.tasks[t].block)
  }

  lemma WaitersExist(k: Kernel, m: nat)
    requires HasWaiters(k, m)
    ensures MutexQ(m) in k.waits && k.waits[MutexQ(m)] != [] && forall t :: t in k.waits[MutexQ(m)] ==> t in k.tasks
  {
  }

  /** The state at the owner's unlock, seen from the newcomer's arrival. */
  ghost predicate Met(k: Kernel, m: nat, k2: Kernel) {
    var c, w := k.current, MutexQ(m);
    && w in k.waits && k2.waits == k.waits[w := k.waits[w] + [c]] && k2.idle == k.idle
    && |k2.rings| == NUM_PRIORITIES && k2.tasks.Keys == k.tasks.Keys && k2.current in k.tasks
    && (forall t :: t in k.tasks ==> k2.tasks[t].bucket < NUM_PRIORITIES && k2.tasks[t].block == k.tasks[t].block)
    && (forall t :: t in k.tasks && t != k2.current ==> k2.tasks[t].prio == k.tasks[t].prio)
  }

  lemma OwnerMeets(k: Kernel, m: nat, k2: Kernel)
    requires OwnerRuns(k, m, k2)
    ensures Met(k, m, k2)
  {
    hide Contended, SplitJoin, NoDup, WaitsPlaced;
    ArrivalFacts(k, m);
    JoinFacts(k, m);
  }

  lemma HandoffFacts(k: Kernel, m: nat, k2: Kernel)
    requires OwnerRuns(k, m, k2)
    ensures k2.current in k2.tasks && k2.tasks[k2.current].bucket < |k2.rings| == NUM_PRIORITIES && HasWaiters(k2, m)
    ensures HandedOver(k, m, UnlockNow(k2, m))
  {
    hide OwnerRuns, Contended, NoDup, WaitsPlaced, Best, Without, PopBest, SetPriority, HasWaiters, Bucket;
    OwnerCanUnlock(k, m, k2);
    OwnerMeets(k, m, k2);
    OwnerIsElse(k, m, k2);
    RestoreKeepsWaiters(k2, m);
    RestoreEffects(k2);
    var kr := SetPriority(k2, k2.current, k2.tasks[k2.current].base);
    PopBestEffects(kr, m);
    WaitersExist(kr, m);
    BestIsNewcomer(kr.tasks, k.waits[MutexQ(m)], k.current);
  }

  lemma OwnerIsElse(k: Kernel, m: nat, k2: Kernel)
    requires OwnerRuns(k, m, k2)
    ensures MutexQ(m) in k.waits && k2.current != k.current && k.current in k.tasks
    ensures k.current !in k.waits[MutexQ(m)] && k2.current !in k.waits[MutexQ(m)]
    ensures forall u :: u in k.waits[MutexQ(m)] ==> u in k.tasks
  {
    hide Contended, OnlyDispatched, NoDup, WaitsPlaced;
    ArrivalFacts(k, m);
  }

  /** The newcomer's second critical section, after the unlock and any number of dispatches. */
  ghost predicate NewcomerRuns(k: Kernel, m: nat, k2: Kernel, k4: Kernel) {
    && OwnerRuns(k, m, k2) && (OwnerCanUnlock(k, m, k2); OnlyDispatched(UnlockNow(k2, m), k4))
    && k4.current == k.current
  }

  lemma HandoffStays(k: Kernel, m: nat, k2: Kernel, k4: Kernel)
    requires NewcomerRuns(k, m, k2, k4)
    ensures HandedOver(k, m, k4)
  {
    hide OwnerRuns, UnlockNow, Without;
    HandoffFacts(k, m, k2);
  }

  function SplitLock(k: Kernel, m: nat, k2: Kernel, k4: Kernel, timeout: nat): Kernel
    requires NewcomerRuns(k, m, k2, k4)
  {
    HandoffStays(k, m, k2, k4);
    BlockCurrent(k4, Waiting(MutexQ(m)), timeout, InCall(MutexQ(m), timeout, []))
  }

  /** If the owner unlocks between a newcomer's two critical sections, the mutex goes to the newcomer if
      and only if every task that waited before has a larger priority value; and exactly then the
      newcomer blocks on the mutex without being in its list. */
  lemma SplitLockIff(k: Kernel, m: nat, k2: Kernel, k4: Kernel, timeout: nat)
    requires NewcomerRuns(k, m, k2, k4) && MutexQ(m) in k.waits
    requires forall u :: u in k.waits[MutexQ(m)] ==> u in k.tasks
    ensures k.current in k.tasks
    ensures var k5, c := SplitLock(k, m, k2, k4, timeout), k.current;
      var first := forall u :: u in k.waits[MutexQ(m)] ==> k.tasks[c].prio < k.tasks[u].prio;
      && m in k5.mutexes && (k5.mutexes[m].owner == c <==> first)
      && (WaitsPlaced(k5.waits, k5.tasks) <==> !first)
  {
    hide Contended, OnlyDispatched, UnlockNow, WaitsPlaced, Without, RingRemove, NoDup, Deadline;
    HandoffStays(k, m, k2, k4);
    ArrivalFacts(k, m);
    var k5, c, w := SplitLock(k, m, k2, k4, timeout), k.current, MutexQ(m);
    var ws, next := k.waits[w], k4.mutexes[m].owner;
    AppendMembers(ws, c);
    WithoutMembers(ws + [c], next);
    if next == c {
      NotInList(k5.waits, k5.tasks, c, w);
    } else {
      PoppedWaits(k.waits, k.tasks, w, c, next, k5.tasks);
    }
  }

  /** The newcomer joins and another waiter leaves. */
  lemma PoppedWaits(waits: map<WaitKey, seq<Addr>>, tasks: map<Addr, Tcb>, w: WaitKey, c: Addr, next: Addr,
                    tasks': map<Addr, Tcb>)
    requires WaitsPlaced(waits, tasks) && w in waits && c in tasks && !tasks[c].block.Waiting?
    requires next in waits[w] && next in tasks && next != c && tasks'.Keys == tasks.Keys
    requires forall t :: t in tasks ==>
      tasks'[t].block == if t == c then Waiting(w) else if t == next then NotBlocked else tasks[t].block
    ensures WaitsPlaced(waits[w := Without(waits[w] + [c], next)], tasks')
  {
    var joined := tasks[c].(block := Waiting(w));
    WaitsAdded(waits, tasks, w, c, joined);
    var waits1, tasks1 := waits[w := waits[w] + [c]], tasks[c := joined];
    assert tasks[next].block == Waiting(w);
    hide WaitsPlaced, Without;
    var popped := tasks1[next].(block := NotBlocked);
    WaitsRemoved(waits1, tasks1, next, popped);
    assert waits1[w := Without(waits[w] + [c], next)] == waits[w := Without(waits[w] + [c], next)];
    SameBlocks(waits[w := Without(waits[w] + [c], next)], tasks1[next := popped], tasks');
  }

  /** Then the owner of the mutex is BLOCKED on it, in no wait list, so that only its timeout can wake
      it; and that tells it that it does not have the mutex. */
  lemma OwnerLockedOut(k: Kernel, m: nat, k2: Kernel, k4: Kernel, timeout: nat, now: nat)
    requires NewcomerRuns(k, m, k2, k4) && MutexQ(m) in k.waits
    requires k.current in k.tasks
    requires forall u :: u in k.waits[MutexQ(m)] ==> u in k.tasks && k.tasks[k.current].prio < k.tasks[u].prio
    ensures var k5, c := SplitLock(k, m, k2, k4, timeout).(tick := now), k.current;
      && c in k5.tasks && k5.tasks[c].state == Blocked && m in k5.mutexes && k5.mutexes[m].owner == c
      && (forall v :: v in k5.waits ==> c !in k5.waits[v])
      && k5.tasks[c].bucket < |k5.rings|
      && (Due(k5, c) ==> WakeIfDue(k5, c).tasks[c].wakeStatus == ErrTimeout && WakeIfDue(k5, c).mutexes[m].owner == c)
  {
    hide Contended, OnlyDispatched, UnlockNow, WaitsPlaced, Without, RingRemove, NoDup, Deadline, WakeIfDue;
    HandoffStays(k, m, k2, k4);
    ArrivalFacts(k, m);
    var k5, c, w := SplitLock(k, m, k2, k4, timeout).(tick := now), k.current, MutexQ(m);
    AppendMembers(k.waits[w], c);
    WithoutMembers(k.waits[w] + [c], c);
    TimedOut(k5, c);
  }

  lemma TimedOut(k: Kernel, t: Addr)
    requires t in k.tasks && k.tasks[t].bucket < |k.rings| && k.tasks[t].block.Waiting?
    ensures WakeIfDue(k, t).mutexes == k.mutexes && t in WakeIfDue(k, t).tasks
    ensures Due(k, t) ==> WakeIfDue(k, t).tasks[t].wakeStatus == ErrTimeout
  {
  }

  // ---------------------------------------------------------------- a wake-up and dispatches in between

  /** The current task has joined w; after any number of dispatches somebody wakes the first of the
      list. */
  ghost predicate WakerRuns(k: Kernel, w: WaitKey, k2: Kernel) {
    Inv(k) && CanRun(k) && w in k.waits && OnlyDispatched(Enqueue(k, w, k.current), k2)
  }

  lemma FirstIsThere(k: Kernel, w: WaitKey, k2: Kernel)
    requires WakerRuns(k, w, k2)
    ensures w in k.waits && k.current in k.tasks && !k.tasks[k.current].block.Waiting? && k.current !in k.waits[w]
    ensures WaitsPlaced(k.waits, k.tasks) && NoDup(k.waits[w]) && k2.tasks.Keys == k.tasks.Keys
    ensures w in k2.waits && k2.waits == k.waits[w := k.waits[w] + [k.current]]
    ensures k2.waits[w] != [] && k2.waits[w][0] in k2.tasks && |k2.rings| == NUM_PRIORITIES
    ensures forall t :: t in k.tasks ==> k2.tasks[t].bucket < NUM_PRIORITIES && k2.tasks[t].block == k.tasks[t].block
  {
    hide RegistryOk, KeysOk, CallsOk, MutexesOk, HandoffsOk, CountsOk;
    TaskFacts(k, k.current);
    Buckets(k);
    RunnerWaitsNowhere(k);
    if k.waits[w] != [] {
      assert k.waits[w][0] in k.waits[w];
    }
  }

  /** And after any number of dispatches the task comes to its second critical section. */
  ghost predicate SleeperRuns(k: Kernel, w: WaitKey, k2: Kernel, k4: Kernel) {
    && WakerRuns(k, w, k2) && (FirstIsThere(k, w, k2); OnlyDispatched(PopHead(k2, w), k4))
    && k4.current == k.current
  }

  lemma PopHeadEffects(k: Kernel, w: WaitKey)
    requires w in k.waits && k.waits[w] != [] && k.waits[w][0] in k.tasks
    requires k.tasks[k.waits[w][0]].bucket < |k.rings|
    ensures var k', t := PopHead(k, w), k.waits[w][0];
      && k'.waits == k.waits[w := k.waits[w][1..]] && |k'.rings| == |k.rings| && k'.tasks.Keys == k.tasks.Keys
      && (forall u :: u in k.tasks ==>
            && k'.tasks[u].bucket == k.tasks[u].bucket
            && k'.tasks[u].block == if u == t then NotBlocked else k.tasks[u].block)
  {
    hide RingInsert;
  }

  lemma SleeperFacts(k: Kernel, w: WaitKey, k2: Kernel, k4: Kernel)
    requires SleeperRuns(k, w, k2, k4)
    ensures k4.current in k4.tasks && k4.tasks[k4.current].bucket < |k4.rings|
    ensures w in k.waits && k4.tasks.Keys == k.tasks.Keys
    ensures var ws := k.waits[w] + [k.current];
      && k4.waits == k.waits[w := ws[1..]]
      && (forall t :: t in k.tasks ==> k4.tasks[t].block == if t == ws[0] then NotBlocked else k.tasks[t].block)
  {
    hide WakerRuns, PopHead, WaitsPlaced, NoDup;
    FirstIsThere(k, w, k2);
    PopHeadEffects(k2, w);
  }

  function SplitWaitLater(k: Kernel, w: WaitKey, k2: Kernel, k4: Kernel, timeout: nat, msg: seq<Byte>): Kernel
    requires SleeperRuns(k, w, k2, k4)
  {
    SleeperFacts(k, w, k2, k4);
    BlockCurrent(k4, Waiting(w), timeout, InCall(w, timeout, msg))
  }

  /** With dispatches on either side of the wake-up the same condition decides: the wait lists are right
      afterwards if and only if somebody was waiting before. */
  lemma SplitWaitLaterIff(k: Kernel, w: WaitKey, k2: Kernel, k4: Kernel, timeout: nat, msg: seq<Byte>)
    requires SleeperRuns(k, w, k2, k4) && w in k.waits
    ensures var k5 := SplitWaitLater(k, w, k2, k4, timeout, msg);
      WaitsPlaced(k5.waits, k5.tasks) <==> k.waits[w] != []
  {
    hide WakerRuns, OnlyDispatched, PopHead, WaitsPlaced, Without, RingRemove, NoDup, Deadline;
    FirstIsThere(k, w, k2);
    SleeperFacts(k, w, k2, k4);
    var k5, c, ws := SplitWaitLater(k, w, k2, k4, timeout, msg), k.current, k.waits[w];
    if ws == [] {
      assert (ws + [c])[1..] == [];
      NotInList(k5.waits, k5.tasks, c, w);
    } else {
      var next := (ws + [c])[0];
      assert next == ws[0] && next in ws;
      WithoutHead(ws + [c]);
      WaiterExists(k.waits, k.tasks, w, next);
      PoppedWaits(k.waits, k.tasks, w, c, next, k5.tasks);
    }
  }

  lemma WaiterExists(waits: map<WaitKey, seq<Addr>>, tasks: map<Addr, Tcb>, w: WaitKey, t: Addr)
    requires WaitsPlaced(waits, tasks) && w in waits && t in waits[w]
    ensures t in tasks
  {
  }
}
