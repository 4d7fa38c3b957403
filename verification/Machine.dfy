/** The kernel in its own form: heads, tails and link fields updated in place.  Every method is
    proved against the critical section of KernelState that it implements. */
module Machine {
  import opened Types
  import opened Lists
  import opened MessageQueue
  import opened KernelState
  import opened Steps
  import opened Runs
  import opened Links
  import opened Boot
  import opened SplitCalls
  import OC = Outcomes

  /** How a turn of a blocking call ends: the call returns, or its caller is blocked. */
  datatype Turn = Returned(status: Status) | Suspended

  ghost function TurnEnd(k: Kernel, w: WaitKey): Turn {
    match w
    case MutexQ(m) =>
      if m in k.mutexes && k.mutexes[m].locked && k.mutexes[m].owner != k.current then Suspended else Returned(Ok)
    case SemQ(s) => if s in k.sems && k.sems[s].count == 0 then Suspended else Returned(Ok)
    case SendQ(q) => if q in k.queues && k.queues[q].count == k.queues[q].depth then Suspended else Returned(Ok)
    case RecvQ(q) => if q in k.queues && k.queues[q].count == 0 then Suspended else Returned(Ok)
  }

  /** What the end of a turn tells: Suspended, that the caller is BLOCKED with the call it made; Ok, that it
      runs on in its own code and has what it called for. */
  ghost predicate Shows(k: Kernel, k': Kernel, w: WaitKey, timeout: nat, msg: seq<Byte>, r: Turn) {
    match r
    case Suspended => OC.Blocks(k, k', w, timeout, msg)
    case Returned(status) => status == Ok && OC.BackInOwnCode(k, k') && OC.Achieves(k, k', w, msg)
  }

  lemma TurnShows(k: Kernel, w: WaitKey, timeout: nat, msg: seq<Byte>)
    requires Inv(k) && CanRun(k) && CallOk(InCall(w, timeout, msg), k.waits, k.queues)
    ensures Shows(k, Enter(k, w, timeout, msg), w, timeout, msg, TurnEnd(k, w))
  {
    hide Placed, CallsOk, MutexesOk, HandoffsOk, Enter, QueueOk, OC.Blocks, OC.BackInOwnCode, OC.Achieves;
    KeysFacts(k);
    CountsFit(k, w);
    OC.EnterOutcome(k, w, timeout, msg);
    if OC.CanComplete(k, w) {
      OC.CompletedTurn(k, w, timeout, msg);
    }
  }

  /** out is the oldest message of the queue, and is gone from it. */
  ghost predicate Received(queues: map<nat, Queue>, q: nat, out: seq<Byte>, queues': map<nat, Queue>) {
    && q in queues && q in queues' && QueueOk(queues[q]) && QueueOk(queues'[q])
    && [out] + Contents(queues'[q]) == Contents(queues[q])
  }

  lemma CountsFit(k: Kernel, w: WaitKey)
    requires Inv(k)
    ensures w.SendQ? && w.id in k.queues ==> k.queues[w.id].count <= k.queues[w.id].depth
  {
  }

  // ---------------------------------------------------------------- facts about one task

  lemma OffRings(k: Kernel, t: Addr)
    requires Placed(k) && t in k.tasks && k.tasks[t].state == Blocked
    ensures t != NULL && k.tasks[t].bucket < |k.rings| == NUM_PRIORITIES && InNoRing(k.rings, t)
    ensures k.tasks[t].block.Waiting? ==> k.tasks[t].block.on in k.waits
  {
  }

  lemma RunnerFacts(k: Kernel)
    requires Placed(k) && CanRun(k)
    ensures k.current != NULL && k.tasks[k.current].bucket < |k.rings| == NUM_PRIORITIES
    ensures k.current in k.rings[k.tasks[k.current].bucket] && InNoList(k.waits, k.current)
  {
    assert TcbOk(k.tasks[k.current]);
  }

  lemma ReadyFacts(k: Kernel, t: Addr)
    requires Placed(k) && t in k.tasks
    ensures t != NULL && k.tasks[t].bucket < |k.rings| == NUM_PRIORITIES
    ensures k.tasks[t].state == Ready ==> t in k.rings[k.tasks[t].bucket]
  {
  }

  lemma WaitersAreTasks(k: Kernel, w: WaitKey)
    requires Placed(k) && w in k.waits
    ensures NoDup(k.waits[w])
    ensures forall t :: t in k.waits[w] ==>
      t in k.tasks && k.tasks[t].state == Blocked && k.tasks[t].block == Waiting(w)
  {
    forall t | t in k.waits[w]
      ensures k.tasks[t].state == Blocked
    {
      assert TcbOk(k.tasks[t]);
    }
  }

  lemma FirstIsInOneRing(k: Kernel, w: WaitKey)
    requires Placed(k) && CanRun(k) && w in k.waits
    ensures |k.rings| == NUM_PRIORITIES
    ensures var t := (k.waits[w] + [k.current])[0]; t in k.tasks && InNoOtherRing(k.rings, k.tasks[t].bucket, t)
  {
    if k.waits[w] != [] {
      assert k.waits[w][0] in k.waits[w];
    }
  }

  lemma KeysFacts(k: Kernel)
    requires Inv(k)
    ensures forall m :: m in k.mutexes ==> MutexQ(m) in k.waits
    ensures forall s :: s in k.sems ==> SemQ(s) in k.waits
    ensures forall q :: q in k.queues ==> SendQ(q) in k.waits && RecvQ(q) in k.waits && QueueOk(k.queues[q])
  {
  }

  /** Joining a wait list and raising a priority touch different things. */
  lemma BoostCommutes(k: Kernel, w: WaitKey, t: Addr, owner: Addr, p: nat)
    requires w in k.waits && owner in k.tasks && k.tasks[owner].bucket < NUM_PRIORITIES && |k.rings| == NUM_PRIORITIES
    ensures Boost(Enqueue(k, w, t), owner, p) == Enqueue(Boost(k, owner, p), w, t)
    ensures t in k.tasks && t != owner ==> t in Boost(k, owner, p).tasks && Boost(k, owner, p).tasks[t] == k.tasks[t]
  {
    hide RingAdd, RingRemove, Bucket;
    if p < k.tasks[owner].prio {
      var ws := k.waits[w := k.waits[w] + [t]];
      assert Enqueue(Boost(k, owner, p), w, t) == SetPriority(k, owner, p).(waits := ws);
      assert Boost(Enqueue(k, w, t), owner, p) == SetPriority(k.(waits := ws), owner, p);
    }
  }

  /** Waking the first waiter touches no count and no buffer. */
  lemma WakeHeadCommutes(k: Kernel, w: WaitKey, sems: map<nat, Semaphore>, queues: map<nat, Queue>)
    requires w in k.waits && Placed(k)
    ensures WakeHead(k.(sems := sems, queues := queues), w) == WakeHead(k, w).(sems := sems, queues := queues)
    ensures WakeHead(k, w).sems == k.sems && WakeHead(k, w).queues == k.queues
  {
    hide RingsPlaced, WaitsPlaced, TasksOk, RegistryOk, RingAdd, Without;
    WaitersAreTasks(k, w);
    if k.waits[w] != [] {
      var t := k.waits[w][0];
      OffRings(k, t);
      var c := k.tasks[t];
      assert Unlink(k.(sems := sems, queues := queues), t) == Unlink(k, t);
    }
  }

  /** The waiters of a mutex, seen after its owner's priority was restored. */
  ghost predicate WaitersOff(tasks: map<Addr, Tcb>, rings: seq<seq<Addr>>, ws: seq<Addr>, w: WaitKey) {
    forall t :: t in ws ==>
      && t in tasks && t != NULL && tasks[t].bucket < NUM_PRIORITIES && tasks[t].block == Waiting(w)
      && InNoRing(rings, t)
  }

  lemma PassOnIs(k: Kernel, m: nat)
    requires MutexQ(m) in k.waits && |k.rings| == NUM_PRIORITIES && WaitersOff(k.tasks, k.rings, k.waits[MutexQ(m)], MutexQ(m))
    ensures forall t :: t in k.waits[MutexQ(m)] ==>
      t in k.tasks && t != NULL && k.tasks[t].bucket < |k.rings| && InNoOtherRing(k.rings, k.tasks[t].bucket, t)
    ensures if k.waits[MutexQ(m)] == [] then PassOn(k, m) == k.(mutexes := k.mutexes[m := Mutex(false, NULL)])
            else HasWaiters(k, m) && PassOn(k, m) == PopBest(k, m)
  {
    hide Without, Best, RingAdd;
    var ws := k.waits[MutexQ(m)];
    if ws != [] {
      assert ws[Best(k.tasks, ws)] in ws;
    }
  }

  lemma UnlockFacts(k: Kernel, m: nat)
    requires Placed(k) && CanRun(k) && MutexQ(m) in k.waits
    ensures |k.rings| == NUM_PRIORITIES && k.tasks[k.current].bucket < NUM_PRIORITIES
    ensures var k1 := SetPriority(k, k.current, k.tasks[k.current].base);
      k1.waits == k.waits && k1.mutexes == k.mutexes && WaitersOff(k1.tasks, k1.rings, k1.waits[MutexQ(m)], MutexQ(m))
  {
    hide Placed, Bucket;
    RunnerFacts(k);
    var w := MutexQ(m);
    WaitersAreTasks(k, w);
    forall t | t in k.waits[w]
      ensures t in k.tasks && t != NULL && k.tasks[t].bucket < NUM_PRIORITIES && InNoRing(k.rings, t) && t != k.current
    {
      OffRings(k, t);
    }
  }

  lemma FirstRing(next: LinkField, t: Addr)
    ensures var rings := [[], [], [], [], [], [], [], []];
      && AllRings(next, [NULL, NULL, NULL, NULL, NULL, NULL, NULL, NULL], rings) && InNoRing(rings, t)
      && Bucket(PRIORITY_LIMIT - 1) == 7
      && RingAdd(rings, 7, t) == [[], [], [], [], [], [], [], [t]]
  {
    var rings: seq<seq<Addr>> := [[], [], [], [], [], [], [], []];
    var heads := [NULL, NULL, NULL, NULL, NULL, NULL, NULL, NULL];
    assert forall p :: 0 <= p < |rings| ==> rings[p] == [] && heads[p] == NULL;
    assert rings[7] + [t] == [t];
  }

  lemma NewcomerFacts(k: Kernel, t: Addr)
    requires Placed(k) && t !in k.tasks
    ensures |k.rings| == NUM_PRIORITIES && InNoRing(k.rings, t) && |k.registry| <= MAX_TASKS
  {
  }

  // ---------------------------------------------------------------- walks over a wait list

  /** _min_wait_priority_value, for a list that is not empty. */
  method MinWaitPriority(next: LinkField, head: Addr, tail: Addr, tasks: map<Addr, Tcb>, ghost list: seq<Addr>)
    returns (p: nat)
    requires ListLinked(next, head, tail, list) && list != []
    requires forall t :: t in list ==> t in tasks
    ensures p == MinPrio(tasks, list)
  {
    var w := head;
    p := tasks[w].prio;
    ghost var i := 1;
    w := next[w];
    while w != NULL
      invariant 1 <= i <= |list| && w == (if i == |list| then NULL else list[i])
      invariant forall j :: 0 <= j < i ==> p <= tasks[list[j]].prio
      invariant exists j :: 0 <= j < i && p == tasks[list[j]].prio
      decreases |list| - i
    {
      if tasks[w].prio < p {
        p := tasks[w].prio;
      }
      w := next[w];
      i := i + 1;
    }
    ghost var u :| u in list && tasks[u].prio == MinPrio(tasks, list);
  }

  /** The walk of _wait_pop_highest: the stable minimum and the node before it. */
  method FindBest(next: LinkField, head: Addr, tail: Addr, tasks: map<Addr, Tcb>, ghost list: seq<Addr>)
    returns (best: Addr, bestPrev: Addr)
    requires ListLinked(next, head, tail, list) && list != []
    requires forall t :: t in list ==> t in tasks
    ensures best == list[Best(tasks, list)]
    ensures bestPrev == (if best == list[0] then NULL else list[IndexOf(list, best) - 1])
  {
    best, bestPrev := head, NULL;
    var prev, walk := NULL, head;
    ghost var i, b := 0, 0;
    while walk != NULL
      invariant 0 <= i <= |list| && walk == (if i == |list| then NULL else list[i])
      invariant prev == (if i == 0 then NULL else list[i - 1])
      invariant 0 <= b < |list| && b <= i && best == list[b] && bestPrev == (if b == 0 then NULL else list[b - 1])
      invariant forall j :: 0 <= j < i ==> tasks[best].prio <= tasks[list[j]].prio
      invariant forall j :: 0 <= j < b ==> tasks[best].prio < tasks[list[j]].prio
      decreases |list| - i
    {
      if tasks[walk].prio < tasks[best].prio {
        best, bestPrev := walk, prev;
        b := i;
      }
      prev, walk := walk, next[walk];
      i := i + 1;
    }
    assert Best(tasks, list) == b;
    assert IndexOf(list, best) == b;
  }

  class Rtos {
    // Task control blocks, keyed by address; the two link fields are kept apart.
    var tasks: map<Addr, Tcb>
    var nextReady: LinkField
    var waitNext: LinkField

    const readyHead: array<Addr>
    var waitHead: map<WaitKey, Addr>
    var waitTail: map<WaitKey, Addr>

    var mutexes: map<nat, Mutex>
    var sems: map<nat, Semaphore>
    var queues: map<nat, Queue>

    const registry: array<Addr>
    var registryCount: nat

    var current: Addr
    var idle: Addr
    var tick: nat

    // What the links spell out.
    ghost var rings: seq<seq<Addr>>
    ghost var waits: map<WaitKey, seq<Addr>>

    ghost predicate RingsLinked()
      reads this, readyHead
    {
      |rings| == readyHead.Length == NUM_PRIORITIES && AllRings(nextReady, readyHead[..], rings)
    }

    ghost predicate WaitsLinked()
      reads this
    {
      AllLists(waitNext, waitHead, waitTail, waits)
    }

    ghost predicate Valid()
      reads this, readyHead, registry
    {
      && RingsLinked() && WaitsLinked()
      && registry.Length == MAX_TASKS + 1 && registryCount <= registry.Length
    }

    /** The kernel state this memory stands for. */
    ghost function Abs(): Kernel
      reads this, registry
      requires registryCount <= registry.Length
    {
      Kernel(tasks, rings, waits, mutexes, sems, queues, registry[..registryCount], current, idle, tick)
    }

    /** scheduler_init, and the part of task_init after it has memory for the idle task. */
    constructor (idleTask: Addr, objects: Objects)
      requires idleTask != NULL
      ensures Valid() && fresh(readyHead) && fresh(registry) && Abs() == Booted(idleTask, objects)
    {
      hide AllLists, AllRings, WaitKeys, RingAdd;
      tasks := map[idleTask := NewTcb(PRIORITY_LIMIT - 1)];
      nextReady, waitNext := map[], map[];
      readyHead := new Addr[NUM_PRIORITIES](_ => NULL);
      waitHead := map w | w in WaitKeys(objects) :: NULL;
      waitTail := map w | w in WaitKeys(objects) :: NULL;
      mutexes := map m | m in objects.mutexes :: Mutex(false, NULL);
      sems, queues := objects.sems, objects.queues;
      registry := new Addr[MAX_TASKS + 1](_ => NULL);
      registryCount := 0;
      current, idle, tick := NULL, idleTask, 0;
      rings := [[], [], [], [], [], [], [], []];
      waits := map w | w in WaitKeys(objects) :: [];
      new;
      NoLists(waitNext, WaitKeys(objects));
      assert readyHead[..] == [NULL, NULL, NULL, NULL, NULL, NULL, NULL, NULL];
      FirstRing(nextReady, idleTask);
      AddIdle();
    }

    /** The idle task joins the last ring and the registry. */
    method AddIdle()
      requires RingsLinked() && rings == [[], [], [], [], [], [], [], []] && idle != NULL
      requires tasks == map[idle := NewTcb(PRIORITY_LIMIT - 1)]
      requires registry.Length == MAX_TASKS + 1 && registryCount == 0
      modifies `tasks, `nextReady, `rings, `registryCount, readyHead, registry
      ensures RingsLinked() && rings == [[], [], [], [], [], [], [], [idle]]
      ensures tasks == old(tasks) && registryCount == 1 && registry[..1] == [idle]
    {
      hide AllRings;
      FirstRing(nextReady, idle);
      AddTask(idle);
      RegistryAdd(idle);
    }

    // -------------------------------------------------------------- ready rings

    /** _ring_insert, also for a task that is in the ring already. */
    method RingInsert(bucket: nat, t: Addr)
      requires RingsLinked() && bucket < NUM_PRIORITIES && t != NULL && InNoOtherRing(rings, bucket, t)
      modifies `nextReady, `rings, readyHead
      ensures RingsLinked() && rings == KernelState.RingInsert(old(rings), bucket, t)
    {
      hide AllRings;
      var head := readyHead[bucket];
      ghost var next, heads, ring := nextReady, readyHead[..], rings[bucket];
      RingHead(next, heads, rings, bucket);
      if head == NULL {
        nextReady := nextReady[t := t];
        readyHead[bucket] := t;
        RingSingle(next, t);
        assert ring + [t] == [t];
        RingReplaced(next, heads, rings, bucket, nextReady, t, [t], t, t);
      } else {
        var tail := RingTail(nextReady, head, ring);
        nextReady := nextReady[tail := t];
        nextReady := nextReady[t := head];
        if t in ring {
          RingReinserted(next, head, ring, IndexOf(ring, t));
        } else {
          RingInserted(next, head, ring, t);
        }
        RingApart(next, heads, rings, bucket, tail);
        RingReplaced(next, heads, rings, bucket, nextReady, head, Inserted(ring, t), tail, t);
      }
      rings := KernelState.RingInsert(rings, bucket, t);
      assert readyHead[..] == heads[bucket := readyHead[bucket]];
    }

    /** scheduler_remove_task. */
    method RingDelete(t: Addr)
      requires RingsLinked() && t in tasks && tasks[t].bucket < NUM_PRIORITIES
      modifies `nextReady, `rings, readyHead
      ensures RingsLinked() && rings == RingRemove(old(rings), tasks[t].bucket, t)
    {
      var bucket := tasks[t].bucket;
      var head := readyHead[bucket];
      assert RingLinked(nextReady, readyHead[..][bucket], rings[bucket]);
      if head == NULL {
        return;
      }
      var found, prev := RingFind(nextReady, head, t, rings[bucket]);
      if !found {
        return;
      }
      RingUnlink(bucket, t, prev);
    }

    /** The pointer surgery of scheduler_remove_task, once t and the node before it are found. */
    method RingUnlink(bucket: nat, t: Addr, prev: Addr)
      requires RingsLinked() && bucket < NUM_PRIORITIES && t in rings[bucket]
      requires prev == (if t == rings[bucket][0] then NULL else rings[bucket][IndexOf(rings[bucket], t) - 1])
      modifies `nextReady, `rings, readyHead
      ensures RingsLinked() && rings == RingRemove(old(rings), bucket, t)
    {
      hide AllRings, Without;
      ghost var next, heads, ring := nextReady, readyHead[..], rings[bucket];
      RingHead(next, heads, rings, bucket);
      var head := readyHead[bucket];
      RingEnd(next, head, ring, IndexOf(ring, t));
      WithoutMembers(ring, t);
      RingApart(next, heads, rings, bucket, t);
      if nextReady[t] == t {
        readyHead[bucket] := NULL;
        nextReady := nextReady[t := NULL];
        assert ring == [t];
        WithoutHead(ring);
        RingReplaced(next, heads, rings, bucket, nextReady, NULL, [], t, t);
      } else if prev == NULL {
        var tail := RingTail(nextReady, head, ring);
        readyHead[bucket] := nextReady[t];
        nextReady := nextReady[tail := nextReady[t]];
        nextReady := nextReady[t := NULL];
        RingApart(next, heads, rings, bucket, tail);
        RingBeheaded(next, head, ring);
        RingReplaced(next, heads, rings, bucket, nextReady, next[t], Without(ring, t), tail, t);
      } else {
        nextReady := nextReady[prev := nextReady[t]];
        nextReady := nextReady[t := NULL];
        RingApart(next, heads, rings, bucket, prev);
        RingSkipped(next, head, ring, IndexOf(ring, t));
        RingReplaced(next, heads, rings, bucket, nextReady, head, Without(ring, t), prev, t);
      }
      rings := RingRemove(rings, bucket, t);
      assert readyHead[..] == heads[bucket := readyHead[bucket]];
    }

    /** scheduler_add_task: to the tail of its ring, and READY unless it is blocked. */
    method AddTask(t: Addr)
      requires RingsLinked() && t in tasks && t != NULL && tasks[t].bucket < NUM_PRIORITIES
      requires InNoOtherRing(rings, tasks[t].bucket, t)
      modifies `tasks, `nextReady, `rings, readyHead
      ensures RingsLinked() && rings == KernelState.RingInsert(old(rings), old(tasks)[t].bucket, t)
      ensures tasks == if old(tasks)[t].state == Blocked then old(tasks)
                       else old(tasks)[t := old(tasks)[t].(state := Ready)]
    {
      RingInsert(tasks[t].bucket, t);
      if tasks[t].state != Blocked {
        tasks := tasks[t := tasks[t].(state := Ready)];
      }
    }

    /** scheduler_rebucket_task, for a READY task whose bucket field still has the old value. */
    method Rebucket(t: Addr, newBucket: nat)
      requires RingsLinked() && t in tasks && t != NULL && newBucket < NUM_PRIORITIES
      requires tasks[t].bucket < NUM_PRIORITIES && tasks[t].state == Ready && t in rings[tasks[t].bucket]
      modifies `tasks, `nextReady, `rings, readyHead
      ensures RingsLinked()
      ensures tasks == old(tasks)[t := old(tasks)[t].(bucket := newBucket)]
      ensures rings == RingAdd(RingRemove(old(rings), old(tasks)[t].bucket, t), newBucket, t)
    {
      ghost var b := tasks[t].bucket;
      LeavesAllRings(nextReady, readyHead[..], rings, b, t);
      RingDelete(t);
      tasks := tasks[t := tasks[t].(bucket := newBucket)];
      AddTask(t);
    }

    ghost predicate MayRebucket(t: Addr)
      reads this
    {
      && t in tasks && t != NULL && tasks[t].bucket < NUM_PRIORITIES == |rings|
      && (tasks[t].state == Ready ==> t in rings[tasks[t].bucket])
    }

    /** The bucket change of _apply_pi and _restore_owner_priority. */
    method ChangePriority(t: Addr, p: nat)
      requires RingsLinked() && MayRebucket(t)
      modifies `tasks, `nextReady, `rings, readyHead
      ensures RingsLinked()
      ensures tasks == old(tasks)[t := old(tasks)[t].(prio := p, bucket := Bucket(p))]
      ensures rings == if old(tasks)[t].bucket == Bucket(p) || old(tasks)[t].state != Ready then old(rings)
                       else RingAdd(RingRemove(old(rings), old(tasks)[t].bucket, t), Bucket(p), t)
    {
      var oldBucket := tasks[t].bucket;
      tasks := tasks[t := tasks[t].(prio := p, bucket := Bucket(p))];
      if oldBucket != Bucket(p) && tasks[t].state == Ready {
        tasks := tasks[t := tasks[t].(bucket := oldBucket)];
        Rebucket(t, Bucket(p));
      }
    }

    // -------------------------------------------------------------- wait lists

    /** _wait_enqueue_tail, _wait_enqueue and _tcb_enqueue_tail. */
    method WaitEnqueue(w: WaitKey, t: Addr)
      requires WaitsLinked() && w in waits && t != NULL && InNoList(waits, t)
      modifies `waitNext, `waitHead, `waitTail, `waits
      ensures WaitsLinked() && waits == old(waits)[w := old(waits)[w] + [t]]
    {
      hide AllLists;
      AppendedAll(waitNext, waitHead, waitTail, waits, w, t);
      waitNext := waitNext[t := NULL];
      if waitHead[w] == NULL {
        waitHead := waitHead[w := t];
        waitTail := waitTail[w := t];
      } else {
        waitNext := waitNext[waitTail[w] := t];
        waitTail := waitTail[w := t];
        assert waitHead == waitHead[w := waitHead[w]];
      }
      waits := waits[w := waits[w] + [t]];
    }

    /** _wait_unlink and _tcb_unlink. */
    method WaitUnlink(w: WaitKey, t: Addr)
      requires WaitsLinked() && w in waits && t != NULL
      modifies `waitNext, `waitHead, `waitTail, `waits
      ensures WaitsLinked() && waits == old(waits)[w := Without(old(waits)[w], t)]
    {
      ghost var list := waits[w];
      var found, prev := ListFind(waitNext, waitHead[w], waitTail[w], t, list);
      if found {
        if prev == NULL {
          var _ := WaitPopHead(w);
        } else {
          WaitSkip(w, t, prev);
        }
      } else {
        assert waits == waits[w := list];
      }
    }

    /** _wait_pop_highest. */
    method WaitPopHighest(w: WaitKey) returns (t: Addr)
      requires WaitsLinked() && w in waits
      requires forall u :: u in waits[w] ==> u in tasks
      modifies `waitNext, `waitHead, `waitTail, `waits
      ensures t == if old(waits)[w] == [] then NULL else old(waits)[w][Best(tasks, old(waits)[w])]
      ensures t == NULL <==> old(waits)[w] == []
      ensures WaitsLinked() && waits == if t == NULL then old(waits) else old(waits)[w := Without(old(waits)[w], t)]
    {
      hide AllLists, Without;
      ListAt(waitNext, waitHead, waitTail, waits, w);
      ghost var list := waits[w];
      ListParts(waitNext, waitHead[w], waitTail[w], list);
      if waitHead[w] == NULL {
        return NULL;
      }
      var best, prev := FindBest(waitNext, waitHead[w], waitTail[w], tasks, list);
      assert best in list;
      if prev == NULL {
        t := WaitPopHead(w);
      } else {
        WaitSkip(w, best, prev);
        t := best;
      }
    }

    /** _wait_pop_head and _tcb_pop_head. */
    method WaitPopHead(w: WaitKey) returns (t: Addr)
      requires WaitsLinked() && w in waits
      modifies `waitNext, `waitHead, `waitTail, `waits
      ensures t == if old(waits)[w] == [] then NULL else old(waits)[w][0]
      ensures t == NULL <==> old(waits)[w] == []
      ensures WaitsLinked() && waits == if t == NULL then old(waits) else old(waits)[w := Without(old(waits)[w], t)]
    {
      hide AllLists, ListLinked, Without;
      ListAt(waitNext, waitHead, waitTail, waits, w);
      ListParts(waitNext, waitHead[w], waitTail[w], waits[w]);
      if waitHead[w] == NULL {
        return NULL;
      }
      BeheadedAll(waitNext, waitHead, waitTail, waits, w);
      ghost var tails := waitTail;
      t := waitHead[w];
      waitHead := waitHead[w := waitNext[t]];
      if waitHead[w] == NULL {
        waitTail := waitTail[w := NULL];
      }
      waitNext := waitNext[t := NULL];
      assert waitTail == tails[w := waitTail[w]];
      waits := waits[w := Without(waits[w], t)];
    }

    /** Takes a waiter other than the first off the list. */
    method WaitSkip(w: WaitKey, t: Addr, prev: Addr)
      requires WaitsLinked() && w in waits && t in waits[w] && t != waits[w][0]
      requires prev == waits[w][IndexOf(waits[w], t) - 1]
      modifies `waitNext, `waitTail, `waits
      ensures WaitsLinked() && waits == old(waits)[w := Without(old(waits)[w], t)]
    {
      hide AllLists, Without;
      SkippedAll(waitNext, waitHead, waitTail, waits, w, t);
      ghost var tails := waitTail;
      waitNext := waitNext[prev := waitNext[t]];
      if t == waitTail[w] {
        waitTail := waitTail[w := prev];
      }
      waitNext := waitNext[t := NULL];
      assert waitTail == tails[w := waitTail[w]];
      waits := waits[w := Without(waits[w], t)];
    }

    // -------------------------------------------------------------- waking

    /** What every wake-up does once the task is off its wait list. */
    method MakeReady(t: Addr, status: Status)
      requires RingsLinked() && t in tasks && t != NULL && tasks[t].bucket < NUM_PRIORITIES
      requires InNoOtherRing(rings, tasks[t].bucket, t)
      modifies `tasks, `nextReady, `rings, readyHead
      ensures RingsLinked() && rings == KernelState.RingInsert(old(rings), old(tasks)[t].bucket, t)
      ensures tasks == old(tasks)[t := old(tasks)[t].(state := Ready, block := NotBlocked, wakeStatus := status)]
    {
      tasks := tasks[t := tasks[t].(state := Ready, block := NotBlocked, wakeStatus := status)];
      AddTask(t);
    }

    /** mutex_wake_timeout, semaphore_wake_timeout, msgqueue_wake_timeout and the end of a delay. */
    method WakeBlocked(t: Addr, status: Status)
      requires Valid() && Placed(Abs()) && t in tasks && tasks[t].state == Blocked
      modifies `tasks, `nextReady, `rings, readyHead, `waitNext, `waitHead, `waitTail, `waits
      ensures Valid() && t in old(tasks) && old(tasks)[t].bucket < |old(rings)|
      ensures Abs() == Wake(old(Abs()), t, status)
    {
      hide Placed, AllLists, AllRings, Without;
      OffRings(Abs(), t);
      ghost var k := Abs();
      if tasks[t].block.Waiting? {
        WaitUnlink(tasks[t].block.on, t);
      }
      MakeReady(t, status);
      assert registry[..registryCount] == k.registry;
    }

    /** _wake_head, and the wake-up inside semaphore_post, for a waiter that may not have blocked yet. */
    method PopFirst(w: WaitKey)
      requires Valid() && w in waits
      requires waits[w] != [] ==> var t := waits[w][0];
        t in tasks && tasks[t].bucket < NUM_PRIORITIES && InNoOtherRing(rings, tasks[t].bucket, t)
      modifies `tasks, `nextReady, `rings, readyHead, `waitNext, `waitHead, `waitTail, `waits
      ensures Valid() && (old(waits)[w] == [] ==> Abs() == old(Abs()))
      ensures old(waits)[w] != [] ==> var t := old(waits)[w][0];
        t in old(tasks) && old(tasks)[t].bucket < |old(rings)| && Abs() == PopHead(old(Abs()), w)
    {
      hide AllLists, AllRings, Without, KernelState.RingInsert;
      ghost var k := Abs();
      var t := WaitPopHead(w);
      if t != NULL {
        WithoutHead(k.waits[w]);
        MakeReady(t, tasks[t].wakeStatus);
        assert registry[..registryCount] == k.registry;
      }
    }

    /** The same in a good state, where it is the wake-up of the model. */
    method WakeFirst(w: WaitKey)
      requires Valid() && Placed(Abs()) && w in waits
      modifies `tasks, `nextReady, `rings, readyHead, `waitNext, `waitHead, `waitTail, `waits
      ensures Valid() && Abs() == WakeHead(old(Abs()), w)
    {
      hide AllLists, AllRings, Without, RingsPlaced, WaitsPlaced, TasksOk, RegistryOk, PopHead;
      ghost var k := Abs();
      if waits[w] != [] {
        WaitersAreTasks(k, w);
        OffRings(k, waits[w][0]);
        PopHeadWakes(k, w);
      }
      PopFirst(w);
    }

    // -------------------------------------------------------------- dispatch and blocking

    /** The scan of scheduler_get_next for a ring that is not empty. */
    method FirstReady() returns (p: nat)
      requires RingsLinked()
      ensures p == FirstOccupied(rings)
    {
      hide AllRings;
      p := 0;
      while p < NUM_PRIORITIES && readyHead[p] == NULL
        invariant p <= NUM_PRIORITIES
        invariant forall q :: 0 <= q < p ==> rings[q] == []
      {
        RingHead(nextReady, readyHead[..], rings, p);
        p := p + 1;
      }
      if p < NUM_PRIORITIES {
        RingHead(nextReady, readyHead[..], rings, p);
      }
    }

    /** scheduler_get_next, with its fallback to the idle task. */
    method GetNext()
      requires Valid() && idle in tasks
      requires forall p, t :: 0 <= p < |rings| && t in rings[p] ==> t in tasks
      modifies `tasks, `rings, `current, readyHead
      ensures Valid() && Abs() == KernelState.Dispatch(old(Abs()))
    {
      hide AllLists, AllRings;
      if current in tasks && tasks[current].state == Running {
        tasks := tasks[current := tasks[current].(state := Ready)];
      }
      assert Abs() == Preempt(old(Abs()));
      var p := FirstReady();
      if p < NUM_PRIORITIES {
        assert rings[p][0] in rings[p];
        RunHead(p);
      } else {
        tasks := tasks[idle := tasks[idle].(state := Running)];
        current := idle;
      }
    }

    /** Takes the head of ring p as the running task. */
    method RunHead(p: nat)
      requires Valid() && p < NUM_PRIORITIES && rings[p] != [] && rings[p][0] in tasks
      modifies `tasks, `rings, `current, readyHead
      ensures Valid() && Abs() == Select(old(Abs()), p)
    {
      hide AllLists, AllRings;
      RingHead(nextReady, readyHead[..], rings, p);
      var sel := readyHead[p];
      Rotate(p);
      tasks := tasks[sel := tasks[sel].(state := Running)];
      current := sel;
      assert registry[..registryCount] == old(registry[..registryCount]);
    }

    /** The head moves one node on. */
    method Rotate(p: nat)
      requires RingsLinked() && p < NUM_PRIORITIES && rings[p] != []
      modifies `rings, readyHead
      ensures RingsLinked() && rings == old(rings)[p := old(rings)[p][1..] + [old(rings)[p][0]]]
    {
      ghost var heads, ring := readyHead[..], rings[p];
      RingHead(nextReady, heads, rings, p);
      RingRotated(nextReady, heads[p], ring);
      readyHead[p] := nextReady[readyHead[p]];
      RingReplaced(nextReady, heads, rings, p, nextReady, readyHead[p], ring[1..] + [ring[0]], ring[0], ring[0]);
      rings := rings[p := ring[1..] + [ring[0]]];
      assert readyHead[..] == heads[p := readyHead[p]];
    }

    /** rtos_block_current, up to the point where the caller stops running. */
    method Block(b: BlockOn, timeout: nat, call: Call)
      requires Valid() && current in tasks && tasks[current].bucket < NUM_PRIORITIES
      modifies `tasks, `nextReady, `rings, readyHead
      ensures Valid() && old(tasks)[current].bucket < |old(rings)|
      ensures Abs() == BlockCurrent(old(Abs()), b, timeout, call)
      ensures tasks[current] == old(tasks)[current].(state := Blocked, block := b, wakeStatus := Ok, call := call,
        wakeTime := if timeout == 0 then U32_MAX else (tick + timeout) % U32_MOD)
      ensures forall t :: t in tasks && t != current ==> tasks[t] == old(tasks)[t]
    {
      hide AllLists, AllRings, Without;
      tasks := tasks[current := tasks[current].(block := b, wakeStatus := Ok, call := call)];
      tasks := tasks[current := tasks[current].(wakeTime := Deadline(tick, timeout))];
      tasks := tasks[current := tasks[current].(state := Blocked)];
      RingDelete(current);
      assert registry[..registryCount] == old(registry[..registryCount]);
    }

    /** Joins a wait list and blocks on it. */
    method EnqueueAndBlock(w: WaitKey, timeout: nat, msg: seq<Byte>)
      requires Valid() && w in waits && current != NULL && InNoList(waits, current)
      requires current in tasks && tasks[current].bucket < NUM_PRIORITIES
      modifies `tasks, `nextReady, `rings, readyHead, `waitNext, `waitHead, `waitTail, `waits
      ensures Valid() && w in old(waits) && current in old(tasks) && old(tasks)[current].bucket < |old(rings)|
      ensures Abs() == BlockCurrent(Enqueue(old(Abs()), w, current), Waiting(w), timeout, InCall(w, timeout, msg))
    {
      hide AllLists, AllRings, Without, BlockCurrent;
      WaitEnqueue(w, current);
      assert Abs() == Enqueue(old(Abs()), w, current);
      Block(Waiting(w), timeout, InCall(w, timeout, msg));
    }

    /** A wake-up on w that falls between the two critical sections of a blocking call. */
    method SplitTurn(w: WaitKey, timeout: nat, msg: seq<Byte>)
      requires Valid() && Inv(Abs()) && CanRun(Abs()) && w in waits
      modifies `tasks, `nextReady, `rings, readyHead, `waitNext, `waitHead, `waitTail, `waits
      ensures Valid() && Abs() == SplitWait(old(Abs()), w, timeout, msg)
    {
      hide AllLists, AllRings, Without, Inv, Placed, PopHead, BlockCurrent;
      ghost var k := Abs();
      InvPlaces(k);
      RunnerFacts(k);
      SplitFacts(k, w);
      FirstIsInOneRing(k, w);
      WaitEnqueue(w, current);
      assert Abs() == Enqueue(k, w, current);
      PopFirst(w);
      Block(Waiting(w), timeout, InCall(w, timeout, msg));
    }

    /** The caller returns to its own code. */
    method Leave()
      requires registryCount <= registry.Length && current in tasks
      modifies `tasks
      ensures Abs() == Return(old(Abs()))
    {
      tasks := tasks[current := tasks[current].(call := NoCall)];
    }

    // -------------------------------------------------------------- mutex

    /** _apply_pi, once the caller is in the wait list. */
    method ApplyInheritance(m: nat)
      requires Valid() && m in mutexes && MutexQ(m) in waits && waits[MutexQ(m)] != []
      requires forall t :: t in waits[MutexQ(m)] ==> t in tasks
      requires MayRebucket(mutexes[m].owner)
      modifies `tasks, `nextReady, `rings, readyHead
      ensures Valid() && Abs() == Boost(old(Abs()), mutexes[m].owner, MinPrio(old(tasks), waits[MutexQ(m)]))
    {
      hide AllLists, AllRings, ListLinked, MinPrio, Without;
      var owner, w := mutexes[m].owner, MutexQ(m);
      ListAt(waitNext, waitHead, waitTail, waits, w);
      var p := MinWaitPriority(waitNext, waitHead[w], waitTail[w], tasks, waits[w]);
      if p < tasks[owner].prio {
        ChangePriority(owner, p);
      }
      assert registry[..registryCount] == old(registry[..registryCount]);
    }

    /** One turn of the loop of mutex_lock. */
    method LockTurn(m: nat, timeout: nat, msg: seq<Byte>) returns (r: Turn)
      requires Valid() && Inv(Abs()) && CanRun(Abs()) && m in mutexes
      modifies `tasks, `nextReady, `rings, readyHead, `waitNext, `waitHead, `waitTail, `waits, `mutexes
      ensures Valid() && Abs() == Lock(old(Abs()), m, timeout, msg)
      ensures r == if old(mutexes[m].locked && mutexes[m].owner != current) then Suspended else Returned(Ok)
      ensures Shows(old(Abs()), Abs(), MutexQ(m), timeout, msg, r)
    {
      hide Shows, AllLists, AllRings, Placed, Without, BlockCurrent, Boost, MinPrio;
      hide KeysOk, CallsOk, MutexesOk, HandoffsOk, CountsOk;
      ghost var k := Abs();
      LockFacts(k, m);
      KeysFacts(k);
      TurnShows(k, MutexQ(m), timeout, msg);
      if mutexes[m].locked && mutexes[m].owner == current {
        Leave();
        return Returned(Ok);
      }
      if !mutexes[m].locked {
        mutexes := mutexes[m := Mutex(true, current)];
        Leave();
        return Returned(Ok);
      }
      r := Suspended;
      JoinMutex(m);
      Block(Waiting(MutexQ(m)), timeout, InCall(MutexQ(m), timeout, msg));
    }

    /** The part of mutex_lock that joins the waiters of a mutex another task owns. */
    method JoinMutex(m: nat)
      requires Valid() && Placed(Abs()) && CanRun(Abs()) && m in mutexes && MutexQ(m) in waits
      requires mutexes[m].owner in tasks && mutexes[m].owner != current
      modifies `tasks, `nextReady, `rings, readyHead, `waitNext, `waitHead, `waitTail, `waits
      ensures Valid() && current in tasks && tasks[current] == old(tasks)[current] && tasks[current].bucket < NUM_PRIORITIES
      ensures Abs() == Enqueue(Boost(old(Abs()), mutexes[m].owner, Demand(old(Abs()), m)), MutexQ(m), current)
    {
      hide AllLists, AllRings, Without, Boost, MinPrio, RingsPlaced, WaitsPlaced, TasksOk, RegistryOk;
      ghost var k := Abs();
      var owner, w := mutexes[m].owner, MutexQ(m);
      RunnerFacts(k);
      WaitersAreTasks(k, w);
      ReadyFacts(k, owner);
      WaitEnqueue(w, current);
      assert Abs() == Enqueue(k, w, current);
      ApplyInheritance(m);
      BoostCommutes(k, w, current, owner, MinPrio(k.tasks, k.waits[w] + [current]));
    }

    /** The handoff of mutex_unlock to a waiter, whether or not it has blocked already. */
    method HandoffNow(m: nat)
      requires Valid() && HasWaiters(Abs(), m)
      requires forall t :: t in waits[MutexQ(m)] ==> t != NULL && InNoOtherRing(rings, tasks[t].bucket, t)
      modifies `tasks, `nextReady, `rings, readyHead, `waitNext, `waitHead, `waitTail, `waits, `mutexes
      ensures Valid() && HasWaiters(old(Abs()), m) && Abs() == PopBest(old(Abs()), m)
    {
      hide AllLists, AllRings, ListLinked, Without, Best, InNoOtherRing, KernelState.RingInsert;
      ghost var k := Abs();
      var next := WaitPopHighest(MutexQ(m));
      assert next in k.waits[MutexQ(m)];
      mutexes := mutexes[m := Mutex(true, next)];
      MakeReady(next, tasks[next].wakeStatus);
      assert registry[..registryCount] == k.registry;
    }

    /** The handoff of mutex_unlock. */
    method Handoff(m: nat)
      requires Valid() && MutexQ(m) in waits && WaitersOff(tasks, rings, waits[MutexQ(m)], MutexQ(m))
      modifies `tasks, `nextReady, `rings, readyHead, `waitNext, `waitHead, `waitTail, `waits, `mutexes
      ensures Valid() && Abs() == PassOn(old(Abs()), m)
    {
      hide AllLists, AllRings, ListLinked, PopBest, PassOn, WaitersOff;
      ghost var k := Abs();
      ListAt(waitNext, waitHead, waitTail, waits, MutexQ(m));
      ListParts(waitNext, waitHead[MutexQ(m)], waitTail[MutexQ(m)], waits[MutexQ(m)]);
      PassOnIs(k, m);
      if waitHead[MutexQ(m)] == NULL {
        mutexes := mutexes[m := Mutex(false, NULL)];
      } else {
        HandoffNow(m);
      }
    }

    /** mutex_unlock, for a mutex that is not NULL. */
    method UnlockSection(m: nat) returns (r: Status)
      requires Valid() && Inv(Abs()) && CanRun(Abs()) && m in mutexes
      modifies `tasks, `nextReady, `rings, readyHead, `waitNext, `waitHead, `waitTail, `waits, `mutexes
      ensures Valid() && Abs() == KernelState.Unlock(old(Abs()), m)
      ensures r == if old(mutexes[m].owner == current) then Ok else ErrOwner
    {
      hide AllLists, AllRings, Without, Best, Placed, KeysOk, CallsOk, MutexesOk, HandoffsOk, CountsOk, PassOn, WaitersOff;
      ghost var k := Abs();
      OwnerOk(k, m);
      RunnerFacts(k);
      if !mutexes[m].locked || mutexes[m].owner != current {
        return ErrOwner;
      }
      UnlockFacts(k, m);
      ChangePriority(current, tasks[current].base);
      assert registry[..registryCount] == k.registry;
      assert Abs() == SetPriority(k, k.current, k.tasks[k.current].base);
      Handoff(m);
      r := Ok;
    }

    // -------------------------------------------------------------- semaphore

    /** One turn of the loop of semaphore_wait. */
    method SemWaitTurn(s: nat, timeout: nat, msg: seq<Byte>) returns (r: Turn)
      requires Valid() && Inv(Abs()) && CanRun(Abs()) && s in sems
      modifies `tasks, `nextReady, `rings, readyHead, `waitNext, `waitHead, `waitTail, `waits, `sems
      ensures Valid() && Abs() == SemWait(old(Abs()), s, timeout, msg)
      ensures r == if old(sems[s].count > 0) then Returned(Ok) else Suspended
      ensures Shows(old(Abs()), Abs(), SemQ(s), timeout, msg, r)
    {
      hide Shows, AllLists, AllRings, Placed, BlockCurrent, KeysOk, CallsOk, MutexesOk, HandoffsOk, CountsOk;
      KeysFacts(Abs());
      RunnerFacts(Abs());
      TurnShows(Abs(), SemQ(s), timeout, msg);
      if sems[s].count > 0 {
        sems := sems[s := sems[s].(count := sems[s].count - 1)];
        Leave();
        return Returned(Ok);
      }
      EnqueueAndBlock(SemQ(s), timeout, msg);
      r := Suspended;
    }

    /** semaphore_post, for a semaphore that is not NULL. */
    method PostSection(s: nat) returns (r: Status)
      requires Valid() && Inv(Abs()) && s in sems
      modifies `tasks, `nextReady, `rings, readyHead, `waitNext, `waitHead, `waitTail, `waits, `sems
      ensures Valid() && Abs() == KernelState.Post(old(Abs()), s)
      ensures r == if old(sems[s].count < sems[s].maxCount) then Ok else ErrFull
    {
      hide AllLists, AllRings, WakeHead, RingsPlaced, WaitsPlaced, TasksOk, RegistryOk;
      hide KeysOk, CallsOk, MutexesOk, HandoffsOk, CountsOk;
      ghost var k := Abs();
      KeysFacts(k);
      if sems[s].count >= sems[s].maxCount {
        return ErrFull;
      }
      sems := sems[s := sems[s].(count := sems[s].count + 1)];
      WakeHeadCommutes(k, SemQ(s), sems, queues);
      assert Abs() == k.(sems := sems, queues := queues);
      WakeFirst(SemQ(s));
      r := Ok;
    }

    // -------------------------------------------------------------- message queue

    /** One turn of the loop of msg_queue_send. */
    method SendTurn(q: nat, timeout: nat, msg: seq<Byte>) returns (r: Turn)
      requires Valid() && Inv(Abs()) && CanRun(Abs()) && q in queues && |msg| == queues[q].msgSize
      modifies `tasks, `nextReady, `rings, readyHead, `waitNext, `waitHead, `waitTail, `waits, `queues
      ensures Valid() && Abs() == Send(old(Abs()), q, timeout, msg)
      ensures r == if old(queues[q].count < queues[q].depth) then Returned(Ok) else Suspended
      ensures Shows(old(Abs()), Abs(), SendQ(q), timeout, msg, r)
    {
      hide Shows, AllLists, AllRings, Put, WakeHead, BlockCurrent, RingsPlaced, WaitsPlaced, TasksOk, RegistryOk;
      hide KeysOk, CallsOk, MutexesOk, HandoffsOk, CountsOk;
      ghost var k := Abs();
      KeysFacts(k);
      RunnerFacts(k);
      TurnShows(k, SendQ(q), timeout, msg);
      if queues[q].count < queues[q].depth {
        WakeHeadRuns(k, RecvQ(q));
        queues := queues[q := Put(queues[q], msg)];
        WakeHeadCommutes(k, RecvQ(q), sems, queues);
        assert Abs() == k.(sems := sems, queues := queues);
        WakeFirst(RecvQ(q));
        Leave();
        return Returned(Ok);
      }
      EnqueueAndBlock(SendQ(q), timeout, msg);
      r := Suspended;
    }

    /** One turn of the loop of msg_queue_recv; out is the caller's buffer when it returns. */
    method RecvTurn(q: nat, timeout: nat, msg: seq<Byte>) returns (r: Turn, out: seq<Byte>)
      requires Valid() && Inv(Abs()) && CanRun(Abs()) && q in queues
      modifies `tasks, `nextReady, `rings, readyHead, `waitNext, `waitHead, `waitTail, `waits, `queues
      ensures Valid() && Abs() == Recv(old(Abs()), q, timeout, msg)
      ensures r == if old(queues[q].count > 0) then Returned(Ok) else Suspended
      ensures r == Returned(Ok) ==> Received(old(queues), q, out, queues)
      ensures Shows(old(Abs()), Abs(), RecvQ(q), timeout, msg, r)
    {
      hide Shows, AllLists, AllRings, Get, WakeHead, BlockCurrent, RingsPlaced, WaitsPlaced, TasksOk, RegistryOk;
      hide KeysOk, CallsOk, MutexesOk, HandoffsOk, CountsOk;
      ghost var k := Abs();
      KeysFacts(k);
      RunnerFacts(k);
      TurnShows(k, RecvQ(q), timeout, msg);
      if queues[q].count > 0 {
        WakeHeadRuns(k, SendQ(q));
        GetRemoves(queues[q]);
        var (first, rest) := Get(queues[q]);
        out := first;
        queues := queues[q := rest];
        WakeHeadCommutes(k, SendQ(q), sems, queues);
        assert Abs() == k.(sems := sems, queues := queues);
        WakeFirst(SendQ(q));
        Leave();
        return Returned(Ok), out;
      }
      EnqueueAndBlock(RecvQ(q), timeout, msg);
      r, out := Suspended, [];
    }

    // -------------------------------------------------------------- time

    /** task_delay, up to the point where the caller stops running. */
    method TaskDelay(ticks: nat) returns (r: Turn)
      requires Valid() && Placed(Abs()) && CanRun(Abs())
      modifies `tasks, `nextReady, `rings, readyHead
      ensures Valid() && old(tasks)[current].bucket < |old(rings)| && Abs() == KernelState.Delay(old(Abs()), ticks)
      ensures r == if ticks == 0 then Returned(ErrParam) else Suspended
    {
      hide AllLists, AllRings, Placed, BlockCurrent;
      RunnerFacts(Abs());
      if ticks == 0 {
        return Returned(ErrParam);
      }
      Block(Sleeping, ticks, InDelay);
      r := Suspended;
    }

    /** One turn of the loop of rtos_wake_delayed. */
    method WakeOne(t: Addr)
      requires Valid() && Placed(Abs()) && t in tasks
      modifies `tasks, `nextReady, `rings, readyHead, `waitNext, `waitHead, `waitTail, `waits
      ensures Valid() && old(tasks)[t].bucket < |old(rings)| && Abs() == WakeIfDue(old(Abs()), t)
    {
      hide AllLists, AllRings, Placed, Wake;
      ReadyFacts(Abs(), t);
      if t == NULL || t == idle {
        return;
      }
      if tasks[t].state != Blocked || tasks[t].wakeTime == U32_MAX || tick < tasks[t].wakeTime {
        return;
      }
      if tasks[t].block == Sleeping {
        WakeBlocked(t, tasks[t].wakeStatus);
      } else {
        WakeBlocked(t, ErrTimeout);
      }
    }

    /** rtos_wake_delayed. */
    method WakeDelayed()
      requires Valid() && Inv(Abs())
      modifies `tasks, `nextReady, `rings, readyHead, `waitNext, `waitHead, `waitTail, `waits
      ensures Valid() && Abs() == ScanFrom(old(Abs()), 0)
    {
      hide AllLists, AllRings, WakeIfDue, RingsPlaced, WaitsPlaced, TasksOk, KeysOk, CallsOk, MutexesOk, HandoffsOk, CountsOk;
      var i := 0;
      while i < registryCount
        invariant i <= registryCount && Valid() && Inv(Abs())
        invariant ScanFrom(Abs(), i) == ScanFrom(old(Abs()), 0)
      {
        var t := registry[i];
        ghost var k := Abs();
        assert k.registry[i] == t;
        WakeIfDueKeepsInv(k, t);
        WakeOne(t);
        i := i + 1;
      }
    }

    /** The kernel part of SysTick_Handler. */
    method TickHandler()
      requires Valid() && Inv(Abs())
      modifies `tick, `tasks, `nextReady, `rings, readyHead, `waitNext, `waitHead, `waitTail, `waits
      ensures Valid() && Abs() == TickStep(old(Abs()))
    {
      hide AllLists, AllRings, ScanFrom, RingsPlaced, WaitsPlaced, TasksOk, RegistryOk, CallsOk, MutexesOk, HandoffsOk, CountsOk;
      tick := (tick + 1) % U32_MOD;
      assert Abs() == NextTick(old(Abs()));
      WakeDelayed();
    }

    // -------------------------------------------------------------- tasks

    /** _registry_add. */
    method RegistryAdd(t: Addr)
      requires registry.Length == MAX_TASKS + 1 && registryCount <= registry.Length
      modifies `registryCount, registry
      ensures registryCount <= registry.Length
      ensures registry[..registryCount] == old(registry[..registryCount])
                                           + if old(registryCount) < MAX_TASKS + 1 && t != NULL then [t] else []
    {
      if registryCount < MAX_TASKS + 1 && t != NULL {
        registry[registryCount] := t;
        registryCount := registryCount + 1;
      }
    }

    /** The shift of _registry_remove: slot i goes, and the slots after it move up. */
    method RegistryShift(i: nat)
      requires i < registryCount <= registry.Length
      modifies `registryCount, registry
      ensures registryCount <= registry.Length
      ensures registry[..registryCount] == old(registry[..i]) + old(registry[i + 1..registryCount])
    {
      var j := i;
      while j + 1 < registryCount
        invariant i <= j < registryCount == old(registryCount)
        invariant forall x :: 0 <= x < i ==> registry[x] == old(registry[x])
        invariant forall x :: i <= x < j ==> registry[x] == old(registry[x + 1])
        invariant forall x :: j <= x < registryCount ==> registry[x] == old(registry[x])
      {
        registry[j] := registry[j + 1];
        j := j + 1;
      }
      registryCount := registryCount - 1;
      ghost var want := old(registry[..i]) + old(registry[i + 1..registryCount]);
      assert |want| == registryCount;
      forall x | 0 <= x < registryCount
        ensures registry[x] == want[x]
      {
        assert want[x] == if x < i then old(registry[x]) else old(registry[x + 1]);
      }
    }

    /** _registry_remove. */
    method RegistryRemove(t: Addr)
      requires registryCount <= registry.Length
      modifies `registryCount, registry
      ensures registryCount <= registry.Length
      ensures registry[..registryCount] == Without(old(registry[..registryCount]), t)
    {
      ghost var all := registry[..registryCount];
      var i := 0;
      while i < registryCount
        invariant i <= registryCount == old(registryCount)
        invariant registry[..registryCount] == all
        invariant forall x :: 0 <= x < i ==> all[x] != t
      {
        if registry[i] == t {
          assert all[i] == t;
          assert IndexOf(all, t) == i;
          RegistryShift(i);
          return;
        }
        i := i + 1;
      }
    }

    /** The bookkeeping of task_create, once it has memory for the control block at t. */
    method CreateTask(t: Addr, prio: nat) returns (created: bool)
      requires Valid() && Placed(Abs()) && t !in tasks && t != NULL
      modifies this, readyHead, registry
      ensures Valid() && |old(rings)| == NUM_PRIORITIES && Abs() == KernelState.Create(old(Abs()), t, prio)
      ensures created == old(registryCount < MAX_TASKS)
      ensures created ==> OC.Created(old(Abs()), Abs(), t, prio)
    {
      hide OC.Created, AllLists, AllRings, Placed;
      ghost var k := Abs();
      NewcomerFacts(k, t);
      OC.CreateOutcome(k, t, prio);
      if registryCount >= MAX_TASKS {
        return false;
      }
      tasks := tasks[t := NewTcb(prio)];
      AddTask(t);
      assert registry[..registryCount] == k.registry;
      RegistryAdd(t);
      created := true;
    }

    /** _detach_blocked_task, for a task that is blocked. */
    method Detach(t: Addr)
      requires Valid() && Placed(Abs()) && t in tasks
      modifies `waitNext, `waitHead, `waitTail, `waits
      ensures Valid() && t in old(tasks) && tasks[t].bucket < NUM_PRIORITIES
      ensures waits == if tasks[t].state == Blocked then Unlink(old(Abs()), t) else old(waits)
    {
      hide AllLists, AllRings, Placed, Without;
      ReadyFacts(Abs(), t);
      if tasks[t].state == Blocked {
        OffRings(Abs(), t);
        if tasks[t].block.Waiting? {
          WaitUnlink(tasks[t].block.on, t);
        }
      }
    }

    /** The critical section of task_delete, without the release of memory. */
    method Erase(t: Addr)
      requires Valid() && Placed(Abs()) && t in tasks && t != idle && t != current
      modifies this, readyHead, registry
      ensures Valid() && old(tasks)[t].bucket < |old(rings)| && Abs() == KernelState.Delete(old(Abs()), t)
    {
      hide AllLists, AllRings, Placed, Without, Unlink, RingRemove;
      ghost var k := Abs();
      Detach(t);
      RingDelete(t);
      assert registry[..registryCount] == k.registry;
      RegistryRemove(t);
      tasks := tasks - {t};
    }

    /** task_delete. */
    method DeleteTask(t: Addr) returns (r: Status)
      requires Valid() && Placed(Abs()) && (t != NULL ==> t in tasks)
      modifies this, readyHead, registry
      ensures Valid()
      ensures t == NULL ==> r == ErrParam && Abs() == old(Abs())
      ensures t in old(tasks) ==> old(tasks)[t].bucket < |old(rings)| && Abs() == KernelState.Delete(old(Abs()), t)
      ensures t != NULL ==> r == if old(t == idle || t == current) then ErrState else Ok
    {
      hide AllLists, AllRings, RingsPlaced, WaitsPlaced, RegistryOk;
      if t == NULL {
        return ErrParam;
      }
      ReadyFacts(Abs(), t);
      if t == idle || t == current {
        return ErrState;
      }
      Erase(t);
      r := Ok;
    }

    // -------------------------------------------------------------- steps and runs

    /** One turn of the retry loop of any blocking call. */
    method EnterTurn(w: WaitKey, timeout: nat, msg: seq<Byte>) returns (r: Turn, out: seq<Byte>)
      requires Valid() && Inv(Abs()) && CanRun(Abs()) && CallOk(InCall(w, timeout, msg), waits, queues)
      modifies `tasks, `nextReady, `rings, readyHead, `waitNext, `waitHead, `waitTail, `waits, `mutexes, `sems, `queues
      ensures Valid() && Abs() == Enter(old(Abs()), w, timeout, msg)
      ensures r == TurnEnd(old(Abs()), w) && Shows(old(Abs()), Abs(), w, timeout, msg, r)
      ensures r == Returned(Ok) && w.RecvQ? ==> Received(old(queues), w.id, out, queues)
    {
      hide Shows, AllLists, AllRings, Placed, CallsOk, MutexesOk, HandoffsOk, CountsOk;
      hide Lock, SemWait, Send, Recv;
      KeysFacts(Abs());
      out := [];
      match w {
        case MutexQ(m) => r := LockTurn(m, timeout, msg);
        case SemQ(s) => r := SemWaitTurn(s, timeout, msg);
        case SendQ(q) => r := SendTurn(q, timeout, msg);
        case RecvQ(q) => r, out := RecvTurn(q, timeout, msg);
      }
    }

    /** What the running task does after it was woken inside a blocking call. */
    method ResumeTurn() returns (r: Turn, out: seq<Byte>)
      requires Valid() && Inv(Abs()) && CanRun(Abs())
      modifies `tasks, `nextReady, `rings, readyHead, `waitNext, `waitHead, `waitTail, `waits, `mutexes, `sems, `queues
      ensures Valid() && Abs() == KernelState.Resume(old(Abs()))
      ensures var c := old(tasks)[current];
        if c.call.InCall? && c.wakeStatus != ErrTimeout then
          && r == TurnEnd(old(Abs()), c.call.on) && Shows(old(Abs()), Abs(), c.call.on, c.call.timeout, c.call.msg, r)
          && (r == Returned(Ok) && c.call.on.RecvQ? ==> Received(old(queues), c.call.on.id, out, queues))
        else
          r == Returned(c.wakeStatus) && OC.Returns(old(Abs()), Abs())
    {
      hide Shows, OC.Returns, AllLists, AllRings, Enter;
      hide RingsPlaced, WaitsPlaced, TasksOk, RegistryOk, KeysOk, MutexesOk, HandoffsOk, CountsOk;
      var c := tasks[current];
      if c.call.InCall? && c.wakeStatus != ErrTimeout {
        r, out := EnterTurn(c.call.on, c.call.timeout, c.call.msg);
      } else {
        OC.ResumeOutcome(Abs());
        Leave();
        r, out := Returned(c.wakeStatus), [];
      }
    }

    /** Any step of the kernel, in place: it keeps the links well formed and does exactly what the
        step does to the state that the links stand for. */
    method Perform(a: Action)
      requires Valid() && Inv(Abs()) && Legal(Abs(), a)
      modifies this, readyHead, registry
      ensures Valid() && Abs() == Step(old(Abs()), a) && Inv(Abs())
    {
      hide AllLists, AllRings, RingsPlaced, WaitsPlaced, TasksOk, RegistryOk, KeysOk, CallsOk, MutexesOk, HandoffsOk, CountsOk;
      hide Enter, KernelState.Resume, KernelState.Unlock, KernelState.Post, KernelState.Delay, TickStep, KernelState.Dispatch;
      hide KernelState.Create, KernelState.Delete;
      match a {
        case Invoke(w, timeout, msg) => var _, _ := EnterTurn(w, timeout, msg);
        case Resume => var _, _ := ResumeTurn();
        case Unlock(m) => var _ := UnlockSection(m);
        case Post(s) => var _ := PostSection(s);
        case Delay(n) => var _ := TaskDelay(n);
        case Tick => TickHandler();
        case Dispatch =>
          MembersFacts(Abs());
          GetNext();
        case Create(t, prio) => var _ := CreateTask(t, prio);
        case Delete(t) =>
          var _ := DeleteTask(t);
      }
    }

    /** Whole runs: what is proved of every run of the state machine holds of this memory. */
    method RunAll(acts: seq<Action>)
      requires Valid() && Inv(Abs()) && LegalRun(Abs(), acts)
      modifies this, readyHead, registry
      ensures Valid() && Abs() == Exec(old(Abs()), acts)
    {
      hide Inv, Legal, Step, AllLists, AllRings;
      var i := 0;
      while i < |acts|
        invariant 0 <= i <= |acts| && Valid() && Inv(Abs())
        invariant LegalRun(Abs(), acts[i..])
        invariant Exec(Abs(), acts[i..]) == Exec(old(Abs()), acts)
      {
        Perform(acts[i]);
        assert acts[i..][1..] == acts[i + 1..];
        i := i + 1;
      }
    }

    // -------------------------------------------------------------- argument checks

    /** mutex_lock, semaphore_wait, msg_queue_send and msg_queue_recv as they are first entered. */
    method BlockingCall(w: WaitKey, timeout: nat, msg: seq<Byte>) returns (r: Turn, out: seq<Byte>)
      requires Valid() && Inv(Abs()) && (current != NULL ==> CanRun(Abs()))
      requires w.id != NULL ==> CallOk(InCall(w, timeout, msg), waits, queues)
      modifies `tasks, `nextReady, `rings, readyHead, `waitNext, `waitHead, `waitTail, `waits, `mutexes, `sems, `queues
      ensures Valid()
      ensures w.id == NULL ==> r == Returned(ErrParam) && Abs() == old(Abs())
      ensures w.id != NULL && current == NULL ==> r == Returned(ErrState) && Abs() == old(Abs())
      ensures w.id != NULL && current != NULL ==>
        && r == TurnEnd(old(Abs()), w) && Abs() == Enter(old(Abs()), w, timeout, msg)
        && Shows(old(Abs()), Abs(), w, timeout, msg, r)
        && (r == Returned(Ok) && w.RecvQ? ==> Received(old(queues), w.id, out, queues))
    {
      hide Shows, Received, AllLists, AllRings, Inv, Enter;
      if w.id == NULL {
        return Returned(ErrParam), [];
      }
      if current == NULL {
        return Returned(ErrState), [];
      }
      r, out := EnterTurn(w, timeout, msg);
    }

    /** mutex_unlock. */
    method MutexUnlock(m: Addr) returns (r: Status)
      requires Valid() && Inv(Abs()) && (current != NULL ==> CanRun(Abs())) && (m != NULL ==> m in mutexes)
      modifies `tasks, `nextReady, `rings, readyHead, `waitNext, `waitHead, `waitTail, `waits, `mutexes
      ensures Valid()
      ensures m == NULL ==> r == ErrParam && Abs() == old(Abs())
      ensures m != NULL && current == NULL ==> r == ErrOwner && Abs() == old(Abs())
      ensures m != NULL && current != NULL ==>
        && Abs() == KernelState.Unlock(old(Abs()), m)
        && r == if old(mutexes[m].owner == current) then Ok else ErrOwner
    {
      hide AllLists, AllRings, Inv, KernelState.Unlock;
      if m == NULL {
        return ErrParam;
      }
      if current == NULL {
        return ErrOwner;
      }
      r := UnlockSection(m);
    }

    /** semaphore_post, which interrupt handlers may call too. */
    method SemPost(s: Addr) returns (r: Status)
      requires Valid() && Inv(Abs()) && (s != NULL ==> s in sems)
      modifies `tasks, `nextReady, `rings, readyHead, `waitNext, `waitHead, `waitTail, `waits, `sems
      ensures Valid()
      ensures s == NULL ==> r == ErrParam && Abs() == old(Abs())
      ensures s != NULL ==>
        && Abs() == KernelState.Post(old(Abs()), s)
        && r == if old(sems[s].count < sems[s].maxCount) then Ok else ErrFull
    {
      hide AllLists, AllRings, Inv, KernelState.Post;
      if s == NULL {
        return ErrParam;
      }
      r := PostSection(s);
    }
  }
}
