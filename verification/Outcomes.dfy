/** What each operation leaves behind, field by field: for its caller, for the tasks it wakes, and for
    everybody and everything else. */
module Outcomes {
  import opened Types
  import opened Lists
  import opened MessageQueue
  import opened KernelState
  import opened Steps
  import opened Runs
  import opened Inheritance
  import opened Guards

  // ---------------------------------------------------------------- the shapes of an outcome

  /** What no call of a task touches. */
  ghost predicate SameFrame(k: Kernel, k': Kernel) {
    k'.registry == k.registry && k'.current == k.current && k'.idle == k.idle && k'.tick == k.tick
  }

  /** The call is over: its caller runs on in its own code, and nobody else is touched. */
  ghost predicate Returns(k: Kernel, k': Kernel) {
    && SameFrame(k, k') && k'.rings == k.rings && k'.waits == k.waits && k'.tasks.Keys == k.tasks.Keys
    && k.current in k.tasks && k'.tasks[k.current] == k.tasks[k.current].(call := NoCall)
    && k'.tasks[k.current].state == Running
    && (forall t :: t in k.tasks && t != k.current ==> k'.tasks[t] == k.tasks[t])
  }

  /** The caller is BLOCKED on w, at the end of its list and in no ring, until its own timeout from now,
      or for ever when that is 0; and it will go on with the very call it made. */
  ghost predicate Blocks(k: Kernel, k': Kernel, w: WaitKey, timeout: nat, msg: seq<Byte>) {
    && SameFrame(k, k') && k'.tasks.Keys == k.tasks.Keys && k.current in k.tasks
    && w in k.waits && k'.waits == k.waits[w := k.waits[w] + [k.current]]
    && (var c, c' := k.tasks[k.current], k'.tasks[k.current];
        && c'.prio == c.prio && c'.base == c.base && c'.bucket == c.bucket
        && c'.state == Blocked && c'.block == Waiting(w) && c'.wakeStatus == Ok
        && c'.wakeTime == (if timeout == 0 then U32_MAX else (k.tick + timeout) % U32_MOD)
        && c'.call == InCall(w, timeout, msg))
    && (forall p :: 0 <= p < |k'.rings| ==> k.current !in k'.rings[p])
  }

  /** Nobody but the caller and `other` is touched. */
  ghost predicate OthersSame(k: Kernel, k': Kernel, other: Addr) {
    forall t :: t in k.tasks && t != k.current && t != other ==> t in k'.tasks && k'.tasks[t] == k.tasks[t]
  }

  ghost predicate OnlyCallerLeaves(k: Kernel, k': Kernel) {
    |k'.rings| == |k.rings| && forall p :: 0 <= p < |k.rings| ==> k'.rings[p] == Without(k.rings[p], k.current)
  }

  /** The first waiter of w, if there is one, goes to the tail of its ring; its place in the list is all
      that changes there. */
  ghost predicate WakesFirst(k: Kernel, k': Kernel, w: WaitKey) {
    && SameFrame(k, k') && k'.tasks.Keys == k.tasks.Keys && w in k.waits
    && (var ws := k.waits[w];
        if ws == [] then k'.waits == k.waits && k'.rings == k.rings
        else
          && k'.waits == k.waits[w := ws[1..]] && ws[0] in k.tasks && k.tasks[ws[0]].bucket < |k.rings|
          && k'.rings == k.rings[k.tasks[ws[0]].bucket := k.rings[k.tasks[ws[0]].bucket] + [ws[0]]])
  }

  /** How a wake-up changes the record of a task: in two fields. */
  ghost predicate Awoken(c: Tcb, c': Tcb) {
    && c'.prio == c.prio && c'.base == c.base && c'.bucket == c.bucket && c'.wakeTime == c.wakeTime
    && c'.state == Ready && c'.block == NotBlocked && c'.wakeStatus == c.wakeStatus && c'.call == c.call
  }

  ghost predicate FirstOf(k: Kernel, w: WaitKey, t: Addr) {
    w in k.waits && k.waits[w] != [] && t == k.waits[w][0]
  }

  // ---------------------------------------------------------------- mutex_lock

  /** A free mutex is taken. */
  lemma LockTakesFree(k: Kernel, m: nat, timeout: nat, msg: seq<Byte>)
    requires Inv(k) && CanRun(k) && m in k.mutexes && !k.mutexes[m].locked
    ensures var k' := Lock(k, m, timeout, msg);
      Returns(k, k') && k'.mutexes == k.mutexes[m := Mutex(true, k.current)] && k'.sems == k.sems && k'.queues == k.queues
  {
    hide Inv;
  }

  /** The owner's own lock changes nothing. */
  lemma LockByOwner(k: Kernel, m: nat, timeout: nat, msg: seq<Byte>)
    requires Inv(k) && CanRun(k) && m in k.mutexes && k.mutexes[m].owner == k.current
    ensures var k' := Lock(k, m, timeout, msg);
      Returns(k, k') && k'.mutexes == k.mutexes && k'.sems == k.sems && k'.queues == k.queues
  {
    hide RingsPlaced, WaitsPlaced, RegistryOk, KeysOk, CallsOk, MutexesOk, HandoffsOk, CountsOk;
    OwnerOk(k, m);
  }

  /** A boost changes priority and bucket, and never for the worse. */
  ghost predicate Boosted(c: Tcb, c': Tcb) {
    && c'.base == c.base && c'.state == c.state && c'.block == c.block && c'.wakeStatus == c.wakeStatus
    && c'.wakeTime == c.wakeTime && c'.call == c.call && c'.prio <= c.prio
  }

  /** What joining a list and blocking does, apart from the ring. */
  ghost predicate Joins(k: Kernel, k': Kernel, w: WaitKey, timeout: nat, msg: seq<Byte>) {
    && SameFrame(k, k') && k'.tasks.Keys == k.tasks.Keys && k.current in k.tasks
    && w in k.waits && k'.waits == k.waits[w := k.waits[w] + [k.current]]
    && k'.tasks[k.current] == k.tasks[k.current].(state := Blocked, block := Waiting(w), wakeStatus := Ok,
         wakeTime := if timeout == 0 then U32_MAX else (k.tick + timeout) % U32_MOD, call := InCall(w, timeout, msg))
    && k'.mutexes == k.mutexes && k'.sems == k.sems && k'.queues == k.queues
  }

  lemma WaitJoins(k: Kernel, w: WaitKey, timeout: nat, msg: seq<Byte>)
    requires k.current in k.tasks && k.tasks[k.current].bucket < |k.rings| && w in k.waits
    ensures var k' := BlockCurrent(Enqueue(k, w, k.current), Waiting(w), timeout, InCall(w, timeout, msg));
      && Joins(k, k', w, timeout, msg) && OthersSame(k, k', k.current)
      && k'.rings == RingRemove(k.rings, k.tasks[k.current].bucket, k.current)
  {
    hide RingRemove;
  }

  lemma BoostShape(k: Kernel, o: Addr, p: nat)
    requires o in k.tasks && |k.rings| == NUM_PRIORITIES && k.tasks[o].bucket < NUM_PRIORITIES && o != k.current
    ensures var k' := Boost(k, o, p);
      && SameFrame(k, k') && k'.waits == k.waits && k'.mutexes == k.mutexes && k'.sems == k.sems && k'.queues == k.queues
      && k'.tasks.Keys == k.tasks.Keys && |k'.rings| == |k.rings|
      && (forall t :: t in k.tasks && t != o ==> k'.tasks[t] == k.tasks[t]) && Boosted(k.tasks[o], k'.tasks[o])
  {
    hide RingAdd, RingRemove, Bucket;
  }

  /** Ring p once o has its new priority: a READY task moves from its old ring to the tail of its new one. */
  function MovedRing(ring: seq<Addr>, p: nat, o: Addr, c: Tcb, c': Tcb): seq<Addr> {
    if c.state != Ready || c'.bucket == c.bucket || (p != c.bucket && p != c'.bucket) then ring
    else if p == c.bucket then Without(ring, o)
    else ring + [o]
  }

  lemma BoostRings(k: Kernel, o: Addr, p: nat)
    requires o in k.tasks && |k.rings| == NUM_PRIORITIES && k.tasks[o].bucket < NUM_PRIORITIES
    ensures var k' := Boost(k, o, p);
      && o in k'.tasks && |k'.rings| == |k.rings|
      && (var c, c' := k.tasks[o], k'.tasks[o];
          && c'.prio == (if p < c.prio then p else c.prio) && c'.bucket == (if p < c.prio then Bucket(p) else c.bucket)
          && (forall q :: 0 <= q < |k.rings| ==> k'.rings[q] == MovedRing(k.rings[q], q, o, c, c')))
  {
    hide Without, Bucket;
  }

  /** The owner has the least of its own priority and those of all who wait for the mutex now. */
  ghost predicate Raised(k: Kernel, k': Kernel, o: Addr, w: WaitKey) {
    && o in k.tasks && o in k'.tasks && w in k'.waits && (forall u :: u in k'.waits[w] ==> u in k.tasks)
    && (var c, c' := k.tasks[o], k'.tasks[o];
        && (forall u :: u in k'.waits[w] ==> c'.prio <= k.tasks[u].prio)
        && (if c'.prio == c.prio then c'.bucket == c.bucket
            else c'.bucket == Bucket(c'.prio) && exists u :: u in k'.waits[w] && c'.prio == k.tasks[u].prio))
  }

  /** The owner moves if its new priority asks for that, and then the caller leaves its ring. */
  ghost predicate RingsAfterLock(k: Kernel, k': Kernel, o: Addr) {
    && o in k.tasks && o in k'.tasks && k.current in k.tasks && |k'.rings| == |k.rings|
    && forall p :: 0 <= p < |k.rings| ==>
         var r := MovedRing(k.rings[p], p, o, k.tasks[o], k'.tasks[o]);
         k'.rings[p] == if p == k.tasks[k.current].bucket then Without(r, k.current) else r
  }

  lemma DemandIsMin(k: Kernel, m: nat)
    requires WaitsPlaced(k.waits, k.tasks) && k.current in k.tasks && MutexQ(m) in k.waits
    ensures var ws := k.waits[MutexQ(m)] + [k.current];
      && (forall u :: u in ws ==> u in k.tasks && Demand(k, m) <= k.tasks[u].prio)
      && (exists u :: u in ws && Demand(k, m) == k.tasks[u].prio)
  {
    hide MinPrio;
  }

  lemma InvWaits(k: Kernel)
    requires Inv(k)
    ensures WaitsPlaced(k.waits, k.tasks)
  {
  }

  /** Off every ring, in a good state. */
  lemma JoinedBlocks(k: Kernel, k': Kernel, w: WaitKey, timeout: nat, msg: seq<Byte>)
    requires Joins(k, k', w, timeout, msg) && Inv(k')
    ensures Blocks(k, k', w, timeout, msg)
  {
    hide Inv;
    InvPlaces(k');
    BlockedOffRings(k', k.current);
  }

  /** Anybody else waits; only the owner can be touched, and only by a boost. */
  lemma LockWaits(k: Kernel, m: nat, timeout: nat, msg: seq<Byte>)
    requires Inv(k) && CanRun(k) && m in k.mutexes && k.mutexes[m].locked && k.mutexes[m].owner != k.current
    ensures var k', o := Lock(k, m, timeout, msg), k.mutexes[m].owner;
      && Blocks(k, k', MutexQ(m), timeout, msg) && OthersSame(k, k', o)
      && o in k.tasks && o in k'.tasks && Boosted(k.tasks[o], k'.tasks[o])
      && Raised(k, k', o, MutexQ(m)) && RingsAfterLock(k, k', o)
      && k'.mutexes == k.mutexes && k'.sems == k.sems && k'.queues == k.queues
  {
    hide Inv, Boost, BlockCurrent, Demand, WaitsPlaced, Bucket, Without, MovedRing;
    InvWaits(k);
    LockFacts(k, m);
    DemandIsMin(k, m);
    BoostRings(k, k.mutexes[m].owner, Demand(k, m));
    LockKeepsInv(k, m, timeout, msg);
    var o := k.mutexes[m].owner;
    var k1 := Boost(k, o, Demand(k, m));
    BoostShape(k, o, Demand(k, m));
    WaitJoins(k1, MutexQ(m), timeout, msg);
    JoinedBlocks(k, Lock(k, m, timeout, msg), MutexQ(m), timeout, msg);
  }

  // ---------------------------------------------------------------- semaphore_wait

  /** A unit is taken, and the call is over. */
  lemma SemWaitTakes(k: Kernel, s: nat, timeout: nat, msg: seq<Byte>)
    requires Inv(k) && CanRun(k) && s in k.sems && k.sems[s].count > 0
    ensures var k' := SemWait(k, s, timeout, msg);
      && Returns(k, k') && k'.mutexes == k.mutexes && k'.queues == k.queues
      && k'.sems == k.sems[s := Semaphore(k.sems[s].count - 1, k.sems[s].maxCount)]
  {
    hide Inv;
  }

  /** There is none: the caller waits. */
  lemma SemWaitWaits(k: Kernel, s: nat, timeout: nat, msg: seq<Byte>)
    requires Inv(k) && CanRun(k) && s in k.sems && k.sems[s].count == 0
    ensures var k' := SemWait(k, s, timeout, msg);
      && Blocks(k, k', SemQ(s), timeout, msg) && OthersSame(k, k', k.current) && OnlyCallerLeaves(k, k')
      && k'.mutexes == k.mutexes && k'.sems == k.sems && k'.queues == k.queues
  {
    SemWaitKeepsInv(k, s, timeout, msg);
    WaitOutcome(k, SemQ(s), timeout, msg, SemWait(k, s, timeout, msg));
  }

  lemma RemovedFromAll(k: Kernel)
    requires Placed(k) && CanRun(k)
    ensures k.tasks[k.current].bucket < |k.rings|
    ensures var r := RingRemove(k.rings, k.tasks[k.current].bucket, k.current);
      |r| == |k.rings| && forall p :: 0 <= p < |k.rings| ==> r[p] == Without(k.rings[p], k.current)
  {
    hide WaitsPlaced, TasksOk, RegistryOk;
  }

  /** The common end of every wait of the current task. */
  lemma WaitOutcome(k: Kernel, w: WaitKey, timeout: nat, msg: seq<Byte>, k': Kernel)
    requires Inv(k) && CanRun(k) && w in k.waits && Inv(k') && k.tasks[k.current].bucket < |k.rings|
    requires k' == BlockCurrent(Enqueue(k, w, k.current), Waiting(w), timeout, InCall(w, timeout, msg))
    ensures Blocks(k, k', w, timeout, msg) && OthersSame(k, k', k.current) && OnlyCallerLeaves(k, k')
    ensures k'.mutexes == k.mutexes && k'.sems == k.sems && k'.queues == k.queues
  {
    hide Inv, BlockCurrent, RingRemove, Without;
    InvPlaces(k);
    RemovedFromAll(k);
    WaitJoins(k, w, timeout, msg);
    JoinedBlocks(k, k', w, timeout, msg);
  }

  // ---------------------------------------------------------------- wake-ups by post, send and receive

  /** How a wake-up by another task changes the records of k: only the first waiter's, and that in two
      fields. */
  ghost predicate OnlyFirstReadied(k: Kernel, k': Kernel, w: WaitKey) {
    forall t :: t in k.tasks && t in k'.tasks ==>
      if FirstOf(k, w, t) then Awoken(k.tasks[t], k'.tasks[t]) else k'.tasks[t] == k.tasks[t]
  }

  lemma WakeHeadOutcome(k: Kernel, w: WaitKey)
    requires Placed(k) && w in k.waits
    ensures var k' := WakeHead(k, w);
      && WakesFirst(k, k', w) && OnlyFirstReadied(k, k', w)
      && k'.mutexes == k.mutexes && k'.sems == k.sems && k'.queues == k.queues
  {
    hide RingsPlaced, WaitsPlaced, TasksOk, RegistryOk, Without;
    if k.waits[w] != [] {
      assert k.waits[w][0] in k.waits[w];
      WaiterFacts(k, w, k.waits[w][0]);
      WithoutHead(k.waits[w]);
    }
  }

  /** A post adds a unit and wakes the first waiter; at the maximum it does nothing. */
  lemma PostOutcome(k: Kernel, s: nat)
    requires Inv(k) && s in k.sems
    ensures var k', c := KernelState.Post(k, s), k.sems[s];
      if c.count >= c.maxCount then k' == k
      else
        && WakesFirst(k, k', SemQ(s)) && OnlyFirstReadied(k, k', SemQ(s))
        && k'.sems == k.sems[s := Semaphore(c.count + 1, c.maxCount)]
        && k'.mutexes == k.mutexes && k'.queues == k.queues
  {
    hide Placed, CallsOk, MutexesOk, HandoffsOk, CountsOk, WakeHead;
    WakeHeadOutcome(k, SemQ(s));
  }

  /** A call that completes and wakes the first waiter of the other side: its caller runs on in its own
      code. */
  ghost predicate CompletesAndWakes(k: Kernel, k': Kernel, other: WaitKey) {
    && WakesFirst(k, k', other) && k.current in k.tasks && !FirstOf(k, other, k.current)
    && k'.tasks[k.current] == k.tasks[k.current].(call := NoCall) && k'.tasks[k.current].state == Running
    && (forall t :: t in k.tasks && t != k.current ==>
          if FirstOf(k, other, t) then Awoken(k.tasks[t], k'.tasks[t]) else k'.tasks[t] == k.tasks[t])
  }

  lemma CompletionOutcome(k: Kernel, other: WaitKey, queues: map<nat, Queue>)
    requires Placed(k) && CanRun(k) && other in k.waits
    ensures WakeHead(k, other).current in WakeHead(k, other).tasks
    ensures var k' := Return(WakeHead(k, other).(queues := queues));
      CompletesAndWakes(k, k', other) && k'.mutexes == k.mutexes && k'.sems == k.sems && k'.queues == queues
  {
    hide Placed, WakeHead;
    WakeHeadOutcome(k, other);
    RunnerWaitsNowhere(k);
  }

  /** With room, the message is appended and the first receiver woken. */
  lemma SendPuts(k: Kernel, q: nat, timeout: nat, msg: seq<Byte>)
    requires Inv(k) && CanRun(k) && q in k.queues && |msg| == k.queues[q].msgSize
    requires k.queues[q].count < k.queues[q].depth
    ensures var k' := Send(k, q, timeout, msg);
      && CompletesAndWakes(k, k', RecvQ(q)) && k'.mutexes == k.mutexes && k'.sems == k.sems
      && k'.queues.Keys == k.queues.Keys && QueueOk(k.queues[q]) && QueueOk(k'.queues[q])
      && Contents(k'.queues[q]) == Contents(k.queues[q]) + [msg]
      && (forall r :: r in k.queues && r != q ==> r in k'.queues && k'.queues[r] == k.queues[r])
  {
    hide Placed, CallsOk, MutexesOk, HandoffsOk, WakeHead, Put;
    PutAppends(k.queues[q], msg);
    CompletionOutcome(k, RecvQ(q), k.queues[q := Put(k.queues[q], msg)]);
  }

  /** Without, the caller waits, to send this very message. */
  lemma SendWaits(k: Kernel, q: nat, timeout: nat, msg: seq<Byte>)
    requires Inv(k) && CanRun(k) && q in k.queues && |msg| == k.queues[q].msgSize
    requires k.queues[q].count == k.queues[q].depth
    ensures var k' := Send(k, q, timeout, msg);
      && Blocks(k, k', SendQ(q), timeout, msg) && OthersSame(k, k', k.current) && OnlyCallerLeaves(k, k')
      && k'.mutexes == k.mutexes && k'.sems == k.sems && k'.queues == k.queues
  {
    SendKeepsInv(k, q, timeout, msg);
    WaitOutcome(k, SendQ(q), timeout, msg, Send(k, q, timeout, msg));
  }

  /** With a message there, the oldest is removed and the first sender woken. */
  lemma RecvGets(k: Kernel, q: nat, timeout: nat, msg: seq<Byte>)
    requires Inv(k) && CanRun(k) && q in k.queues && k.queues[q].count > 0
    ensures var k' := Recv(k, q, timeout, msg);
      && CompletesAndWakes(k, k', SendQ(q)) && k'.mutexes == k.mutexes && k'.sems == k.sems
      && k'.queues.Keys == k.queues.Keys && QueueOk(k.queues[q]) && QueueOk(k'.queues[q]) && Contents(k.queues[q]) != []
      && Contents(k'.queues[q]) == Contents(k.queues[q])[1..]
      && (forall r :: r in k.queues && r != q ==> r in k'.queues && k'.queues[r] == k.queues[r])
  {
    hide Placed, CallsOk, MutexesOk, HandoffsOk, WakeHead, Get;
    GetRemoves(k.queues[q]);
    CompletionOutcome(k, SendQ(q), k.queues[q := Get(k.queues[q]).1]);
  }

  /** Without, the caller waits. */
  lemma RecvWaits(k: Kernel, q: nat, timeout: nat, msg: seq<Byte>)
    requires Inv(k) && CanRun(k) && q in k.queues && k.queues[q].count == 0
    ensures var k' := Recv(k, q, timeout, msg);
      && Blocks(k, k', RecvQ(q), timeout, msg) && OthersSame(k, k', k.current) && OnlyCallerLeaves(k, k')
      && k'.mutexes == k.mutexes && k'.sems == k.sems && k'.queues == k.queues
  {
    RecvKeepsInv(k, q, timeout, msg);
    WaitOutcome(k, RecvQ(q), timeout, msg, Recv(k, q, timeout, msg));
  }

  // ---------------------------------------------------------------- mutex_unlock

  ghost predicate JoinsRing(k: Kernel, k': Kernel, t: Addr) {
    && t in k.tasks && k.tasks[t].bucket < |k.rings|
    && k'.rings == k.rings[k.tasks[t].bucket := k.rings[k.tasks[t].bucket] + [t]]
  }

  /** Giving up a mutex: the caller has its own priority again, the chosen waiter is READY and owns the
      mutex, and nobody else is touched. */
  lemma UnlockOutcome(k: Kernel, m: nat)
    requires Inv(k) && CanRun(k) && m in k.mutexes && k.mutexes[m].owner == k.current
    ensures var k', w := KernelState.Unlock(k, m), MutexQ(m);
      && SameFrame(k, k') && k'.tasks.Keys == k.tasks.Keys && k'.sems == k.sems && k'.queues == k.queues
      && w in k.waits && m in k'.mutexes && k'.mutexes == k.mutexes[m := k'.mutexes[m]]
      && (var c, c' := k.tasks[k.current], k'.tasks[k.current];
          && c'.prio == c'.base == c.base && c'.bucket == Bucket(c.base) && c'.state == Running
          && c'.block == c.block && c'.wakeStatus == c.wakeStatus && c'.wakeTime == c.wakeTime && c'.call == c.call)
      && (forall t :: t in k.tasks && t != k.current ==>
            if k.waits[w] != [] && t == k'.mutexes[m].owner then Awoken(k.tasks[t], k'.tasks[t])
            else k'.tasks[t] == k.tasks[t])
      && (if k.waits[w] == [] then k'.waits == k.waits && k'.mutexes[m] == Mutex(false, NULL)
          else k'.waits == k.waits[w := Without(k.waits[w], k'.mutexes[m].owner)] && k'.mutexes[m].locked)
  {
    hide RingsPlaced, WaitsPlaced, RegistryOk, KeysOk, CallsOk, MutexesOk, HandoffsOk, CountsOk;
    hide Best, RingAdd, Without, Bucket;
    OwnerOk(k, m);
    RunnerUnlocks(k, m);
    RunnerWaitsNowhere(k);
    RestoredTo(k);
    var ws, k1 := k.waits[MutexQ(m)], SetPriority(k, k.current, k.tasks[k.current].base);
    if ws != [] {
      var next := ws[Best(k1.tasks, ws)];
      assert next in ws;
      WaiterFacts(k, MutexQ(m), next);
    }
  }

  /** The new owner goes to the tail of its ring; nobody else changes place. */
  lemma UnlockRings(k: Kernel, m: nat)
    requires Inv(k) && CanRun(k) && m in k.mutexes && k.mutexes[m].owner == k.current
    ensures var k', w := KernelState.Unlock(k, m), MutexQ(m);
      && w in k.waits && m in k'.mutexes
      && (if k.waits[w] == [] then k'.rings == k.rings else JoinsRing(k, k', k'.mutexes[m].owner))
  {
    hide Placed, KeysOk, CallsOk, HandoffsOk, CountsOk, PassOn, SetPriority, JoinsRing, Bucket;
    OwnerOk(k, m);
    RunnerUnlocks(k, m);
    RunnerWaitsNowhere(k);
    RestoredTo(k);
    var k1 := SetPriority(k, k.current, k.tasks[k.current].base);
    PassedOn(k1, m);
    if k.waits[MutexQ(m)] != [] {
      JoinsAsBefore(k, k1, PassOn(k1, m), PassOn(k1, m).mutexes[m].owner);
    }
  }

  lemma PassedOn(k: Kernel, m: nat)
    requires MutexQ(m) in k.waits && m in k.mutexes
    requires forall t :: t in k.waits[MutexQ(m)] ==> t in k.tasks && k.tasks[t].bucket < |k.rings|
    ensures var k', ws := PassOn(k, m), k.waits[MutexQ(m)];
      && m in k'.mutexes
      && if ws == [] then k'.rings == k.rings else k'.mutexes[m].owner in ws && JoinsRing(k, k', k'.mutexes[m].owner)
  {
    hide Best;
    var ws := k.waits[MutexQ(m)];
    if ws != [] {
      assert ws[Best(k.tasks, ws)] in ws;
    }
  }

  lemma JoinsAsBefore(k: Kernel, k1: Kernel, k': Kernel, t: Addr)
    requires JoinsRing(k1, k', t) && t in k.tasks && k1.tasks[t] == k.tasks[t] && k1.rings == k.rings
    ensures JoinsRing(k, k', t)
  {
  }

  /** A call by anybody but the owner changes nothing. */
  lemma UnlockByOther(k: Kernel, m: nat)
    requires Inv(k) && CanRun(k) && m in k.mutexes && k.mutexes[m].owner != k.current
    ensures KernelState.Unlock(k, m) == k
  {
  }

  // ---------------------------------------------------------------- a turn of any blocking call

  /** A turn of the call on w completes: the mutex is free or the caller's, there is a unit, there is room,
      there is a message. */
  ghost predicate CanComplete(k: Kernel, w: WaitKey) {
    match w
    case MutexQ(m) => m in k.mutexes && (!k.mutexes[m].locked || k.mutexes[m].owner == k.current)
    case SemQ(s) => s in k.sems && k.sems[s].count > 0
    case SendQ(q) => q in k.queues && k.queues[q].count < k.queues[q].depth
    case RecvQ(q) => q in k.queues && k.queues[q].count > 0
  }

  /** The caller runs on in its own code. */
  ghost predicate BackInOwnCode(k: Kernel, k': Kernel) {
    && k'.current == k.current && k.current in k.tasks && k.current in k'.tasks
    && k'.tasks[k.current] == k.tasks[k.current].(call := NoCall) && k'.tasks[k.current].state == Running
  }

  /** A turn ends in one of two ways: the call is over, or its caller waits with that very call; and it
      touches no other task's call. */
  lemma EnterOutcome(k: Kernel, w: WaitKey, timeout: nat, msg: seq<Byte>)
    requires Inv(k) && CanRun(k) && CallOk(InCall(w, timeout, msg), k.waits, k.queues)
    ensures var k' := Enter(k, w, timeout, msg);
      && (if CanComplete(k, w) then BackInOwnCode(k, k') else Blocks(k, k', w, timeout, msg))
      && k'.tasks.Keys == k.tasks.Keys
      && (forall t :: t in k.tasks && t != k.current ==> k'.tasks[t].call == k.tasks[t].call)
  {
    hide Placed, CallsOk, MutexesOk, HandoffsOk, Lock, SemWait, Send, Recv;
    match w
    case MutexQ(m) =>
      if !k.mutexes[m].locked {
        LockTakesFree(k, m, timeout, msg);
      } else if k.mutexes[m].owner == k.current {
        LockByOwner(k, m, timeout, msg);
      } else {
        LockWaits(k, m, timeout, msg);
      }
    case SemQ(s) =>
      if k.sems[s].count > 0 {
        SemWaitTakes(k, s, timeout, msg);
      } else {
        SemWaitWaits(k, s, timeout, msg);
      }
    case SendQ(q) =>
      if k.queues[q].count < k.queues[q].depth {
        SendPuts(k, q, timeout, msg);
      } else {
        SendWaits(k, q, timeout, msg);
      }
    case RecvQ(q) =>
      if k.queues[q].count > 0 {
        RecvGets(k, q, timeout, msg);
      } else {
        RecvWaits(k, q, timeout, msg);
      }
  }

  /** What a call that completes has done for its caller, and to no other object. */
  ghost predicate Achieves(k: Kernel, k': Kernel, w: WaitKey, msg: seq<Byte>) {
    match w
    case MutexQ(m) => k'.mutexes == k.mutexes[m := Mutex(true, k.current)] && k'.sems == k.sems && k'.queues == k.queues
    case SemQ(s) =>
      && s in k.sems && k.sems[s].count > 0 && k'.sems == k.sems[s := Semaphore(k.sems[s].count - 1, k.sems[s].maxCount)]
      && k'.mutexes == k.mutexes && k'.queues == k.queues
    case SendQ(q) =>
      && OneQueue(k, k', q) && Contents(k'.queues[q]) == Contents(k.queues[q]) + [msg]
    case RecvQ(q) =>
      && OneQueue(k, k', q) && Contents(k.queues[q]) != [] && Contents(k'.queues[q]) == Contents(k.queues[q])[1..]
  }

  /** No object but the queue is touched. */
  ghost predicate OneQueue(k: Kernel, k': Kernel, q: nat) {
    && q in k.queues && q in k'.queues && QueueOk(k.queues[q]) && QueueOk(k'.queues[q])
    && k'.queues == k.queues[q := k'.queues[q]] && k'.mutexes == k.mutexes && k'.sems == k.sems
  }

  lemma CompletedTurn(k: Kernel, w: WaitKey, timeout: nat, msg: seq<Byte>)
    requires Inv(k) && CanRun(k) && CallOk(InCall(w, timeout, msg), k.waits, k.queues) && CanComplete(k, w)
    ensures Achieves(k, Enter(k, w, timeout, msg), w, msg)
  {
    hide Placed, CallsOk, HandoffsOk, Lock, SemWait, Send, Recv, QueueOk, Contents;
    match w
    case MutexQ(m) =>
      if !k.mutexes[m].locked {
        LockTakesFree(k, m, timeout, msg);
      } else {
        LockByOwner(k, m, timeout, msg);
      }
    case SemQ(s) => SemWaitTakes(k, s, timeout, msg);
    case SendQ(q) => SendPuts(k, q, timeout, msg);
    case RecvQ(q) => RecvGets(k, q, timeout, msg);
  }

  /** A task that comes back from a wait that timed out, or from a delay, returns; any other takes the
      next turn of the call it made. */
  lemma ResumeOutcome(k: Kernel)
    requires Inv(k) && CanRun(k)
    ensures var k', c := KernelState.Resume(k), k.tasks[k.current];
      && (!c.call.InCall? || c.wakeStatus == ErrTimeout ==>
            Returns(k, k') && k'.mutexes == k.mutexes && k'.sems == k.sems && k'.queues == k.queues)
      && (c.call.InCall? && c.wakeStatus != ErrTimeout ==>
            if CanComplete(k, c.call.on) then BackInOwnCode(k, k')
            else Blocks(k, k', c.call.on, c.call.timeout, c.call.msg))
      && k'.tasks.Keys == k.tasks.Keys
      && (forall t :: t in k.tasks && t != k.current ==> k'.tasks[t].call == k.tasks[t].call)
  {
    hide RingsPlaced, WaitsPlaced, TasksOk, RegistryOk, KeysOk, MutexesOk, HandoffsOk, CountsOk, Enter;
    var c := k.tasks[k.current];
    if c.call.InCall? && c.wakeStatus != ErrTimeout {
      EnterOutcome(k, c.call.on, c.call.timeout, c.call.msg);
    }
  }

  // ---------------------------------------------------------------- task_delay and the tick

  lemma DelayOutcome(k: Kernel, ticks: nat)
    requires Inv(k) && CanRun(k) && ticks > 0
    ensures k.tasks[k.current].bucket < |k.rings|
    ensures var k' := KernelState.Delay(k, ticks);
      && SameFrame(k, k') && k'.tasks.Keys == k.tasks.Keys && k'.waits == k.waits
      && (var c, c' := k.tasks[k.current], k'.tasks[k.current];
          && c'.prio == c.prio && c'.base == c.base && c'.bucket == c.bucket
          && c'.state == Blocked && c'.block == Sleeping && c'.wakeStatus == Ok && c'.call == InDelay
          && c'.wakeTime == (k.tick + ticks) % U32_MOD)
      && OthersSame(k, k', k.current) && OnlyCallerLeaves(k, k')
      && k'.mutexes == k.mutexes && k'.sems == k.sems && k'.queues == k.queues
  {
    hide Inv, RingRemove, Without;
    InvPlaces(k);
    RemovedFromAll(k);
  }

  /** A tick counts, and wakes tasks; it touches nothing else. */
  lemma TickOutcome(k: Kernel)
    requires Inv(k)
    ensures var k' := TickStep(k);
      && k'.tick == (k.tick + 1) % U32_MOD && k'.mutexes == k.mutexes && k'.sems == k.sems && k'.queues == k.queues
      && k'.registry == k.registry && k'.current == k.current && k'.idle == k.idle
  {
    hide Placed, KeysOk, CallsOk, MutexesOk, HandoffsOk, CountsOk;
  }

  // ---------------------------------------------------------------- scheduler_get_next

  /** A dispatch makes the head of the lowest-numbered occupied ring the running task and moves it to the
      tail; the task that was running is READY, unless it is the same. */
  lemma DispatchOutcome(k: Kernel)
    requires Inv(k)
    ensures var k', p := KernelState.Dispatch(k), FirstOccupied(k.rings);
      && p < |k.rings| && k.rings[p] != [] && k'.current == k.rings[p][0] && k'.current in k.tasks
      && k'.rings == k.rings[p := k.rings[p][1..] + [k'.current]] && k'.tasks.Keys == k.tasks.Keys
      && (forall t :: t in k.tasks ==> k'.tasks[t] == k.tasks[t].(state :=
            if t == k'.current then Running else if k.tasks[t].state == Running then Ready else k.tasks[t].state))
      && k'.waits == k.waits && k'.mutexes == k.mutexes && k'.sems == k.sems && k'.queues == k.queues
      && k'.registry == k.registry && k'.idle == k.idle && k'.tick == k.tick
  {
    hide Inv, Placed, FirstOccupied, Preempt, Select, KernelState.Dispatch;
    InvPlaces(k);
    MembersFacts(k);
    OneRunner(k);
    DispatchSelects(k);
    PreemptOutcome(k);
    SelectOutcome(Preempt(k), FirstOccupied(k.rings));
  }

  lemma OneRunner(k: Kernel)
    requires Placed(k)
    ensures forall t :: t in k.tasks && k.tasks[t].state == Running ==> t == k.current
  {
  }

  lemma PreemptOutcome(k: Kernel)
    requires forall t :: t in k.tasks && k.tasks[t].state == Running ==> t == k.current
    ensures var k' := Preempt(k);
      && k' == k.(tasks := k'.tasks) && k'.tasks.Keys == k.tasks.Keys
      && (forall t :: t in k.tasks ==>
            k'.tasks[t] == k.tasks[t].(state := if k.tasks[t].state == Running then Ready else k.tasks[t].state))
  {
  }

  lemma SelectOutcome(k: Kernel, p: nat)
    requires p < |k.rings| && k.rings[p] != [] && k.rings[p][0] in k.tasks
    ensures var k', t := Select(k, p), k.rings[p][0];
      && k' == k.(tasks := k.tasks[t := k.tasks[t].(state := Running)],
                  rings := k.rings[p := k.rings[p][1..] + [t]], current := t)
  {
  }

  // ---------------------------------------------------------------- task_create and task_delete

  /** A new task has the priority asked for, is READY at the tail of the ring of that priority, and has
      called nothing; nobody else is touched. */
  ghost predicate Created(k: Kernel, k': Kernel, t: Addr, prio: nat) {
    && t in k'.tasks && k'.tasks == k.tasks[t := k'.tasks[t]]
    && (var c := k'.tasks[t];
        && c.prio == prio && c.base == prio && c.bucket == Bucket(prio)
        && c.state == Ready && c.block == NotBlocked && c.wakeStatus == Ok && c.wakeTime == U32_MAX && c.call == NoCall)
    && Bucket(prio) < |k.rings| && k'.rings == k.rings[Bucket(prio) := k.rings[Bucket(prio)] + [t]]
    && k'.registry == k.registry + [t] && k'.waits == k.waits && k'.mutexes == k.mutexes && k'.sems == k.sems
    && k'.queues == k.queues && k'.current == k.current && k'.idle == k.idle && k'.tick == k.tick
  }

  lemma CreateOutcome(k: Kernel, t: Addr, prio: nat)
    requires Placed(k) && t !in k.tasks
    ensures |k.rings| == NUM_PRIORITIES
    ensures var k' := KernelState.Create(k, t, prio);
      if |k.registry| < MAX_TASKS then Created(k, k', t, prio) else k' == k
  {
    hide WaitsPlaced, TasksOk, RegistryOk, Bucket;
    Buckets(k);
  }

  /** Nothing is left of a deleted task, and nobody else is touched. */
  lemma DeleteOutcome(k: Kernel, t: Addr)
    requires Inv(k) && t in k.tasks && t != k.idle && t != k.current
    ensures k.tasks[t].bucket < |k.rings|
    ensures var k' := KernelState.Delete(k, t);
      && k'.tasks == k.tasks - {t} && k'.mutexes == k.mutexes && k'.sems == k.sems && k'.queues == k.queues
      && k'.current == k.current && k'.idle == k.idle && k'.tick == k.tick
  {
    hide Inv, Unlink, RingRemove;
    InvPlaces(k);
    TaskFacts(k, t);
  }
}
