/** For each guard one concrete state in which the step it keeps out does the harm, so the failing
    side of each exact condition is met. */
module Witnesses {
  import opened Types
  import opened Lists
  import opened KernelState
  import opened Runs
  import opened Wakeups
  import opened Timeouts
  import opened HeapModel
  import TM = TimerModel
  import TT = TimerTick
  import TL = TimerList
  import LK = Links
  import opened Steps
  import opened Guards
  import opened SplitCalls

  // ---------------------------------------------------------------- small kernels

  // The idle task and three others.
  const IDLE: Addr := 1
  const A: Addr := 2
  const B: Addr := 3
  const C: Addr := 4

  const Everybody: seq<Addr> := [IDLE, A, B, C]

  /** Those of ts that are in ring p. */
  function InRing(tasks: map<Addr, Tcb>, ts: seq<Addr>, p: nat): seq<Addr>
    requires forall t :: t in ts ==> t in tasks
  {
    if ts == [] then []
    else (if tasks[ts[0]].state != Blocked && tasks[ts[0]].bucket == p then [ts[0]] else []) + InRing(tasks, ts[1..], p)
  }

  /** Those of ts that wait on w. */
  function InWait(tasks: map<Addr, Tcb>, ts: seq<Addr>, w: WaitKey): seq<Addr>
    requires forall t :: t in ts ==> t in tasks
  {
    if ts == [] then []
    else (if tasks[ts[0]].block == Waiting(w) then [ts[0]] else []) + InWait(tasks, ts[1..], w)
  }

  lemma {:induction false} InRingIs(tasks: map<Addr, Tcb>, ts: seq<Addr>, p: nat)
    requires forall t :: t in ts ==> t in tasks
    ensures forall t :: t in InRing(tasks, ts, p) <==> t in ts && tasks[t].state != Blocked && tasks[t].bucket == p
    ensures NoDup(ts) ==> NoDup(InRing(tasks, ts, p))
    decreases |ts|
  {
    if ts != [] {
      InRingIs(tasks, ts[1..], p);
    }
  }

  lemma {:induction false} InWaitIs(tasks: map<Addr, Tcb>, ts: seq<Addr>, w: WaitKey)
    requires forall t :: t in ts ==> t in tasks
    ensures forall t :: t in InWait(tasks, ts, w) <==> t in ts && tasks[t].block == Waiting(w)
    ensures NoDup(ts) ==> NoDup(InWait(tasks, ts, w))
    decreases |ts|
  {
    if ts != [] {
      InWaitIs(tasks, ts[1..], w);
    }
  }

  function RingsOf(tasks: map<Addr, Tcb>, ts: seq<Addr>): seq<seq<Addr>>
    requires forall t :: t in ts ==> t in tasks
  {
    seq(NUM_PRIORITIES, p requires 0 <= p < NUM_PRIORITIES => InRing(tasks, ts, p))
  }

  function WaitsOf(tasks: map<Addr, Tcb>, ts: seq<Addr>, keys: set<WaitKey>): map<WaitKey, seq<Addr>>
    requires forall t :: t in ts ==> t in tasks
  {
    map w | w in keys :: InWait(tasks, ts, w)
  }

  lemma RingsOfPlaced(tasks: map<Addr, Tcb>, ts: seq<Addr>)
    requires NoDup(ts) && (forall t :: t in ts <==> t in tasks)
    requires forall t :: t in tasks ==> tasks[t].bucket < NUM_PRIORITIES
    ensures RingsPlaced(RingsOf(tasks, ts), tasks)
  {
    hide InRing, NoDup;
    forall p | 0 <= p < NUM_PRIORITIES
      ensures NoDup(InRing(tasks, ts, p))
      ensures forall t :: t in InRing(tasks, ts, p) <==> t in ts && tasks[t].state != Blocked && tasks[t].bucket == p
    {
      InRingIs(tasks, ts, p);
    }
  }

  lemma WaitsOfPlaced(tasks: map<Addr, Tcb>, ts: seq<Addr>, keys: set<WaitKey>)
    requires NoDup(ts) && (forall t :: t in ts <==> t in tasks)
    requires forall t :: t in tasks && tasks[t].block.Waiting? ==> tasks[t].block.on in keys
    ensures WaitsPlaced(WaitsOf(tasks, ts, keys), tasks) && WaitsOf(tasks, ts, keys).Keys == keys
  {
    hide InWait, NoDup;
    forall w | w in keys
      ensures NoDup(InWait(tasks, ts, w))
      ensures forall t :: t in InWait(tasks, ts, w) <==> t in ts && tasks[t].block == Waiting(w)
    {
      InWaitIs(tasks, ts, w);
    }
  }

  const Idle: Tcb := NewTcb(PRIORITY_LIMIT - 1)

  const Keys: set<WaitKey> := {MutexQ(0), MutexQ(1), SemQ(0)}

  function Tasks(a: Tcb, b: Tcb, c: Tcb): (tasks: map<Addr, Tcb>)
    ensures forall t :: t in Everybody <==> t in tasks
  {
    map[IDLE := Idle, A := a, B := b, C := c]
  }

  /** Two mutexes, 0 and 1, and semaphore 0; every task where its record says. */
  function Small(a: Tcb, b: Tcb, c: Tcb, first: Mutex, second: Mutex, sem: Semaphore, current: Addr, tick: nat): Kernel {
    var tasks := Tasks(a, b, c);
    Kernel(tasks, RingsOf(tasks, Everybody), WaitsOf(tasks, Everybody, Keys),
           map[0 := first, 1 := second], map[0 := sem], map[], Everybody, current, IDLE, tick)
  }

  /** What a record must satisfy to be one of the three. */
  ghost predicate RecordOk(t: Addr, c: Tcb, current: Addr) {
    && TcbOk(c) && (c.state == Running ==> t == current)
    && (c.block.Waiting? ==> c.block.on in Keys) && (c.call.InCall? ==> c.call.on in Keys)
  }

  lemma SmallTasks(a: Tcb, b: Tcb, c: Tcb, current: Addr)
    requires RecordOk(A, a, current) && RecordOk(B, b, current) && RecordOk(C, c, current) && current in {NULL, IDLE, A, B, C}
    ensures TasksOk(Tasks(a, b, c), current, IDLE) && RegistryOk(Everybody, Tasks(a, b, c)) && NoDup(Everybody)
    ensures forall t :: t in Tasks(a, b, c) ==> var r := Tasks(a, b, c)[t];
      r.bucket < NUM_PRIORITIES && (r.block.Waiting? ==> r.block.on in Keys) && (r.call.InCall? ==> r.call.on in Keys)
  {
    assert Bucket(PRIORITY_LIMIT - 1) == 7;
  }

  lemma SmallKeys(k: Kernel)
    requires k.waits.Keys == Keys && k.mutexes.Keys == {0, 1} && k.sems.Keys == {0} && k.queues == map[]
    requires forall t :: t in k.tasks && k.tasks[t].call.InCall? ==> k.tasks[t].call.on in Keys
    ensures KeysOk(k) && CallsOk(k.tasks, k.waits, k.queues)
  {
  }

  lemma SmallMutexes(k: Kernel)
    requires k.waits.Keys == Keys && k.mutexes.Keys == {0, 1}
    requires MutexOk(k.mutexes[0], k.waits[MutexQ(0)], k.tasks, k.idle)
    requires MutexOk(k.mutexes[1], k.waits[MutexQ(1)], k.tasks, k.idle)
    ensures MutexesOk(k.mutexes, k.waits, k.tasks, k.idle)
  {
    hide MutexOk;
  }

  /** What a mutex must satisfy, in terms of the three records. */
  ghost predicate MutexFits(mu: Mutex, m: nat, a: Tcb, b: Tcb, c: Tcb) {
    && (mu.locked <==> mu.owner != NULL) && (mu.locked ==> mu.owner in {A, B, C})
    && (!mu.locked ==> a.block != Waiting(MutexQ(m)) && b.block != Waiting(MutexQ(m)) && c.block != Waiting(MutexQ(m)))
    && (mu.owner == A ==> a.block != Waiting(MutexQ(m)))
    && (mu.owner == B ==> b.block != Waiting(MutexQ(m)))
    && (mu.owner == C ==> c.block != Waiting(MutexQ(m)))
  }

  lemma FittingMutex(mu: Mutex, m: nat, a: Tcb, b: Tcb, c: Tcb)
    requires MutexFits(mu, m, a, b, c)
    ensures MutexOk(mu, InWait(Tasks(a, b, c), Everybody, MutexQ(m)), Tasks(a, b, c), IDLE)
  {
    hide InWait;
    InWaitIs(Tasks(a, b, c), Everybody, MutexQ(m));
    var ws := InWait(Tasks(a, b, c), Everybody, MutexQ(m));
    if ws != [] {
      assert ws[0] in ws;
    }
  }

  /** The whole invariant, from conditions on the records. */
  ghost predicate Fits(a: Tcb, b: Tcb, c: Tcb, first: Mutex, second: Mutex, sem: Semaphore, current: Addr) {
    var mutexes := map[0 := first, 1 := second];
    && RecordOk(A, a, current) && RecordOk(B, b, current) && RecordOk(C, c, current) && current in {NULL, IDLE, A, B, C}
    && MutexFits(first, 0, a, b, c) && MutexFits(second, 1, a, b, c) && sem.count <= sem.maxCount
    && HandoffOk(mutexes, A, a) && HandoffOk(mutexes, B, b) && HandoffOk(mutexes, C, c)
  }

  lemma SmallHandoffs(mutexes: map<nat, Mutex>, a: Tcb, b: Tcb, c: Tcb)
    requires HandoffOk(mutexes, A, a) && HandoffOk(mutexes, B, b) && HandoffOk(mutexes, C, c)
    ensures HandoffsOk(mutexes, Tasks(a, b, c))
  {
  }

  lemma SmallInv(a: Tcb, b: Tcb, c: Tcb, first: Mutex, second: Mutex, sem: Semaphore, current: Addr, tick: nat)
    requires Fits(a, b, c, first, second, sem, current)
    ensures Inv(Small(a, b, c, first, second, sem, current, tick))
  {
    hide RingsPlaced, WaitsPlaced, TasksOk, RegistryOk, KeysOk, CallsOk, MutexOk, MutexesOk, HandoffsOk, HandoffOk;
    hide InRing, InWait, Tasks, RingsOf, NoDup, RecordOk, MutexFits;
    var k := Small(a, b, c, first, second, sem, current, tick);
    SmallTasks(a, b, c, current);
    assert k.tasks == Tasks(a, b, c) && k.waits == WaitsOf(k.tasks, Everybody, Keys) && k.rings == RingsOf(k.tasks, Everybody);
    RingsOfPlaced(k.tasks, Everybody);
    WaitsOfPlaced(k.tasks, Everybody, Keys);
    SmallKeys(k);
    FittingMutex(first, 0, a, b, c);
    FittingMutex(second, 1, a, b, c);
    SmallMutexes(k);
    SmallHandoffs(k.mutexes, a, b, c);
  }

  /** What a step needs to know of such a kernel. */
  lemma SmallFacts(a: Tcb, b: Tcb, c: Tcb, first: Mutex, second: Mutex, sem: Semaphore, current: Addr, tick: nat)
    requires Fits(a, b, c, first, second, sem, current)
    ensures var k := Small(a, b, c, first, second, sem, current, tick);
      && Inv(k) && k.tasks == Tasks(a, b, c) && k.waits.Keys == Keys && |k.rings| == NUM_PRIORITIES
      && k.mutexes == map[0 := first, 1 := second] && k.sems == map[0 := sem]
      && k.current == current && k.idle == IDLE && k.tick == tick
  {
    hide Inv, InWait, InRing, Tasks, Fits;
    SmallInv(a, b, c, first, second, sem, current, tick);
  }

  lemma WaiterIs(k: Kernel, w: WaitKey, t: Addr)
    requires Inv(k) && w in k.waits
    ensures t in k.waits[w] <==> t in k.tasks && k.tasks[t].block == Waiting(w)
  {
  }

  // ---------------------------------------------------------------- records

  function Runner(prio: nat, base: nat): Tcb {
    Tcb(prio, base, Bucket(prio), Running, NotBlocked, Ok, U32_MAX, NoCall)
  }

  function WaitsOn(prio: nat, w: WaitKey): Tcb {
    Tcb(prio, prio, Bucket(prio), Blocked, Waiting(w), Ok, U32_MAX, InCall(w, 0, []))
  }

  function WokenFrom(prio: nat, w: WaitKey): Tcb {
    Tcb(prio, prio, Bucket(prio), Ready, NotBlocked, Ok, U32_MAX, InCall(w, 0, []))
  }

  const Free0: Mutex := Mutex(false, NULL)
  const NoUnits: Semaphore := Semaphore(0, 1)

  // ---------------------------------------------------------------- unlock across buckets

  /** A, of base priority 200, runs at 10 because B waits for its mutex. */
  function Boosted(): Kernel {
    Small(Runner(10, 200), WaitsOn(10, MutexQ(0)), NewTcb(100), Mutex(true, A), Free0, NoUnits, A, 0)
  }

  lemma BoostedUnlockMisplaces()
    ensures var k := Boosted();
      && Inv(k) && CanRun(k) && 0 in k.mutexes && k.mutexes[0].owner == k.current
      && var k' := KernelState.Unlock(k, 0);
        !RingsPlaced(k'.rings, k'.tasks)
  {
    hide Inv, Small, RingsPlaced, KernelState.Unlock;
    SmallFacts(Runner(10, 200), WaitsOn(10, MutexQ(0)), NewTcb(100), Mutex(true, A), Free0, NoUnits, A, 0);
    UnlockPlacesCallerIff(Boosted(), 0);
  }

  // ---------------------------------------------------------------- nested locking

  /** A, of base priority 20, owns both mutexes; B, of priority 10, waits for the second. */
  function OwnsBoth(): Kernel {
    Small(Runner(10, 20), WaitsOn(10, MutexQ(1)), NewTcb(100), Mutex(true, A), Mutex(true, A), NoUnits, A, 0)
  }

  lemma FirstUnlockInverts()
    ensures var k := OwnsBoth();
      && Inv(k) && CanRun(k) && 0 in k.mutexes && 1 in k.mutexes
      && k.mutexes[0].owner == k.mutexes[1].owner == k.current
      && var k' := KernelState.Unlock(k, 0);
        && k'.tasks.Keys == k.tasks.Keys && k'.mutexes[1].owner == k.current == A
        && B in k'.tasks && k'.tasks[B].prio < k'.tasks[A].prio
  {
    hide Inv, Small, KernelState.Unlock;
    SmallFacts(Runner(10, 20), WaitsOn(10, MutexQ(1)), NewTcb(100), Mutex(true, A), Mutex(true, A), NoUnits, A, 0);
    WaiterIs(OwnsBoth(), MutexQ(1), B);
    UnlockLeavesOthers(OwnsBoth(), 0, 1);
  }

  /** A, of priority 5, asks for the first mutex; its owner B waits for the second, which C owns. */
  function Chain(): Kernel {
    Small(Runner(5, 5), WaitsOn(20, MutexQ(1)), NewTcb(20), Mutex(true, B), Mutex(true, C), NoUnits, A, 0)
  }

  lemma ChainIsNotFollowed()
    ensures var k := Chain();
      && Inv(k) && CanRun(k) && 0 in k.mutexes
      && var k' := Lock(k, 0, 0, []);
        && B in k'.tasks && C in k'.tasks && k'.tasks[B].block == Waiting(MutexQ(1))
        && k'.tasks[B].prio < k'.tasks[C].prio
  {
    hide Inv, Small, Lock;
    SmallFacts(Runner(5, 5), WaitsOn(20, MutexQ(1)), NewTcb(20), Mutex(true, B), Mutex(true, C), NoUnits, A, 0);
    var ws := Chain().waits[MutexQ(0)];
    if ws != [] {
      WaiterIs(Chain(), MutexQ(0), ws[0]);
    }
    WaiterIs(Chain(), MutexQ(1), B);
    InheritanceStopsAtOwner(Chain(), 0, 1, B, C, 0);
  }

  // ---------------------------------------------------------------- deletion

  /** A is READY and owns a mutex; C runs. */
  function ReadyOwner(): Kernel {
    Small(NewTcb(50), NewTcb(60), Runner(100, 100), Mutex(true, A), Free0, NoUnits, C, 0)
  }

  lemma DeletingOwnerBreaks()
    ensures var k := ReadyOwner();
      && Inv(k) && A in k.tasks && k.tasks[A].bucket < |k.rings| && !Inv(KernelState.Delete(k, A))
  {
    hide Inv, Small, KernelState.Delete;
    SmallFacts(NewTcb(50), NewTcb(60), Runner(100, 100), Mutex(true, A), Free0, NoUnits, C, 0);
    DeleteKeepsInvIff(ReadyOwner(), A);
    assert ReadyOwner().mutexes[0].owner == A;
  }

  /** A was woken for the one unit there is, B still waits, and C runs. */
  function OneWoken(): Kernel {
    Small(WokenFrom(50, SemQ(0)), WaitsOn(60, SemQ(0)), Runner(100, 100), Free0, Free0, Semaphore(1, 1), C, 0)
  }

  lemma DeletingWokenLosesUnit()
    ensures var k := OneWoken();
      && Inv(k) && NoLoss(k, SemQ(0)) && A in k.tasks && k.tasks[A].bucket < |k.rings|
      && !NoLoss(KernelState.Delete(k, A), SemQ(0))
  {
    hide Inv, Small, KernelState.Delete;
    SmallFacts(WokenFrom(50, SemQ(0)), WaitsOn(60, SemQ(0)), Runner(100, 100), Free0, Free0, Semaphore(1, 1), C, 0);
    var k := OneWoken();
    WaiterIs(k, SemQ(0), B);
    assert Woken(k.tasks, SemQ(0)) == {A};
    DeleteWokenIff(k, SemQ(0), A);
  }

  // ---------------------------------------------------------------- enqueue and block apart

  /** A runs, B is behind it in the ring, and nobody waits for the semaphore, which has no unit. */
  function Alone(tick: nat): Kernel {
    Small(Runner(10, 10), NewTcb(20), NewTcb(100), Free0, Free0, NoUnits, A, tick)
  }

  lemma AloneIsGood(tick: nat)
    ensures var k := Alone(tick);
      && Inv(k) && CanRun(k) && k.tick == tick && k.current == A && k.tasks[A].call == NoCall
      && SemQ(0) in k.waits && k.waits[SemQ(0)] == []
  {
    hide Inv, Small;
    SmallFacts(Runner(10, 10), NewTcb(20), NewTcb(100), Free0, Free0, NoUnits, A, tick);
    var ws := Alone(tick).waits[SemQ(0)];
    if ws != [] {
      WaiterIs(Alone(tick), SemQ(0), ws[0]);
    }
  }

  /** The ring of bucket 0 when A and B are in it and C is not. */
  lemma RingOfTwo(a: Tcb, b: Tcb, c: Tcb)
    requires a.state != Blocked && a.bucket == 0 && b.state != Blocked && b.bucket == 0
    requires c.state == Blocked || c.bucket != 0
    ensures RingsOf(Tasks(a, b, c), Everybody)[0] == [A, B]
  {
    assert Bucket(PRIORITY_LIMIT - 1) == 7;
    RingOfTwoIn(Tasks(a, b, c));
  }

  lemma RingOfTwoIn(tasks: map<Addr, Tcb>)
    requires IDLE in tasks && A in tasks && B in tasks && C in tasks && tasks[IDLE].bucket != 0
    requires tasks[A].state != Blocked && tasks[A].bucket == 0 && tasks[B].state != Blocked && tasks[B].bucket == 0
    requires tasks[C].state == Blocked || tasks[C].bucket != 0
    ensures InRing(tasks, Everybody, 0) == [A, B]
  {
    hide InRing;
    InRingCons(tasks, C, [], 0);
    assert [C] + [] == [C];
    InRingCons(tasks, B, [C], 0);
    assert [B] + [C] == [B, C];
    InRingCons(tasks, A, [B, C], 0);
    assert [A] + [B, C] == [A, B, C] && [A] + [B] == [A, B];
    InRingCons(tasks, IDLE, [A, B, C], 0);
    assert [IDLE] + [A, B, C] == Everybody;
  }

  lemma InRingCons(tasks: map<Addr, Tcb>, t: Addr, ts: seq<Addr>, p: nat)
    requires t in tasks && forall u :: u in ts ==> u in tasks
    ensures InRing(tasks, [t] + ts, p)
         == (if tasks[t].state != Blocked && tasks[t].bucket == p then [t] else []) + InRing(tasks, ts, p)
    ensures InRing(tasks, [], p) == []
  {
    assert ([t] + ts)[1..] == ts;
  }

  /** A post between A's two critical sections leaves A BLOCKED in no list and no ring, and B READY in
      no ring. */
  lemma PostBetweenMisplaces()
    ensures var k := Alone(0);
      && Inv(k) && CanRun(k) && SemQ(0) in k.waits
      && var k' := SplitWait(k, SemQ(0), 0, []);
        && !Placed(k') && A in k'.tasks && k'.tasks[A].state == Blocked
        && (forall p :: 0 <= p < |k'.rings| ==> A !in k'.rings[p])
        && (forall v :: v in k'.waits ==> A !in k'.waits[v])
        && LostReady(k', B)
  {
    hide Inv, Placed, SplitWait, RingsOf, WaitsOf, LostReady;
    AloneIsGood(0);
    var k := Alone(0);
    RingOfTwo(Runner(10, 10), NewTcb(20), NewTcb(100));
    SplitWaitMisplaces(k, SemQ(0), 0, []);
    assert k.rings[0] == [A, B] && k.tasks[A].bucket == 0;
    assert IndexOf([A, B], A) == 0;
    assert [A, B][1..] == [B];
  }

  // ---------------------------------------------------------------- an unlock in between

  /** B, of priority 10, runs and asks for the mutex that A owns and C, of priority 50, waits for. */
  function Meeting(): Kernel {
    Small(NewTcb(20), Runner(10, 10), WaitsOn(50, MutexQ(0)), Mutex(true, A), Free0, NoUnits, B, 0)
  }

  lemma MeetingIsGood()
    ensures var k := Meeting();
      && Contended(k, 0) && k.current == B && k.mutexes[0].owner == A && k.idle in k.tasks && MutexQ(0) in k.waits
      && k.tasks == Tasks(NewTcb(20), Runner(10, 10), WaitsOn(50, MutexQ(0)))
      && |k.rings| == NUM_PRIORITIES && k.rings[0] == [A, B]
      && (forall p, t :: 0 <= p < |k.rings| && t in k.rings[p] ==> t in k.tasks)
      && (forall u :: u in k.waits[MutexQ(0)] ==> u == C)
  {
    hide Inv, InRing, InWait;
    SmallFacts(NewTcb(20), Runner(10, 10), WaitsOn(50, MutexQ(0)), Mutex(true, A), Free0, NoUnits, B, 0);
    RingOfTwo(NewTcb(20), Runner(10, 10), WaitsOn(50, MutexQ(0)));
    InvPlaces(Meeting());
    MembersFacts(Meeting());
    forall u | u in Meeting().waits[MutexQ(0)]
      ensures u == C
    {
      WaiterIs(Meeting(), MutexQ(0), u);
    }
  }

  /** With owner and newcomer in bucket 0 the join moves nobody between rings. */
  lemma JoinRings(k: Kernel, m: nat)
    requires Contended(k, m) && k.mutexes[m].owner in k.tasks && k.tasks[k.mutexes[m].owner].bucket == 0
    requires Bucket(k.tasks[k.current].prio) == 0
    ensures var k1, o := SplitJoin(k, m), k.mutexes[m].owner;
      && k1.rings == k.rings && k1.tasks.Keys == k.tasks.Keys && k1.idle == k.idle
      && k1.tasks[o].bucket == 0 && k1.tasks[o].base == k.tasks[o].base
  {
    hide RingsPlaced, TasksOk, RegistryOk, KeysOk, CallsOk, MutexesOk, HandoffsOk, CountsOk;
    LockFacts(k, m);
    var ws := k.waits[MutexQ(m)] + [k.current];
    assert ws[|ws| - 1] == k.current;
    BucketMonotone(Demand(k, m), k.tasks[k.current].prio);
  }

  /** B, popped while it is in the ring, cuts off A. */
  lemma HandoffRings(k: Kernel, k2: Kernel)
    requires OwnerRuns(k, 0, k2) && k2.current == A && A in k2.tasks && B in k2.tasks
    requires k2.tasks[A].bucket == 0 == Bucket(k2.tasks[A].base) && k2.tasks[B].bucket == 0 && |k2.rings| == NUM_PRIORITIES
    requires k2.rings[0] == [B, A] && HasWaiters(k2, 0)
    requires HandedOver(k, 0, UnlockNow(k2, 0)) && UnlockNow(k2, 0).mutexes[0].owner == B
    ensures UnlockNow(k2, 0).rings == k2.rings[0 := [B]]
  {
    hide OwnerRuns, HandedOver, PopBest, Best, RingInsert;
    RestoreKeepsWaiters(k2, 0);
    var kr := SetPriority(k2, A, k2.tasks[A].base);
    assert kr.rings == k2.rings && kr.tasks[B] == k2.tasks[B];
    PopBestEffects(kr, 0);
    CutIsFirst(k2.rings);
  }

  lemma CutIsFirst(rings: seq<seq<Addr>>)
    requires 0 < |rings| && rings[0] == [B, A]
    ensures RingInsert(rings, 0, B) == rings[0 := [B]]
  {
    assert IndexOf([B, A], B) == 0;
    assert [B, A][..1] == [B];
  }

  /** The owner A is dispatched and unlocks, B is dispatched and blocks: B owns the mutex, is BLOCKED on
      it and waits in no list. */
  lemma UnlockBetweenLocksOut()
    ensures exists k2, k4 ::
      && NewcomerRuns(Meeting(), 0, k2, k4)
      && var k5 := SplitLock(Meeting(), 0, k2, k4, 0);
        && B in k5.tasks && k5.tasks[B].state == Blocked && 0 in k5.mutexes && k5.mutexes[0].owner == B
        && forall v :: v in k5.waits ==> B !in k5.waits[v]
  {
    hide OwnerRuns, UnlockNow, KernelState.Dispatch, Meeting;
    var k2 := OwnerUnlocks();
    OwnerCanUnlock(Meeting(), 0, k2);
    var k3 := UnlockNow(k2, 0);
    var k4 := KernelState.Dispatch(k3);
    DispatchOnly(k3);
    DispatchTakesHead(k3, 0);
    MeetingIsGood();
    assert NewcomerRuns(Meeting(), 0, k2, k4);
    OwnerLockedOut(Meeting(), 0, k2, k4, 0, 0);
  }

  /** Up to the unlock. */
  lemma OwnerDispatched() returns (k2: Kernel)
    ensures OwnerRuns(Meeting(), 0, k2) && k2.current == A && A in k2.tasks && B in k2.tasks
    ensures k2.tasks[A].bucket == 0 == Bucket(k2.tasks[A].base) && k2.tasks[B].bucket == 0
    ensures |k2.rings| == NUM_PRIORITIES && k2.rings[0] == [B, A]
    ensures k2.tasks.Keys == Meeting().tasks.Keys
    ensures forall p, t :: 0 <= p < |k2.rings| && t in k2.rings[p] ==> t in k2.tasks
  {
    hide Contended, SplitJoin, KernelState.Dispatch, Meeting;
    var k := Meeting();
    MeetingIsGood();
    var k1 := SplitJoin(k, 0);
    JoinRings(k, 0);
    k2 := KernelState.Dispatch(k1);
    DispatchOnly(k1);
    DispatchTakesHead(k1, 0);
    JoinFacts(k, 0);
  }

  /** After the unlock B is alone in its ring. */
  lemma OwnerUnlocks() returns (k2: Kernel)
    ensures OwnerRuns(Meeting(), 0, k2)
    ensures k2.current in k2.tasks && k2.tasks[k2.current].bucket < |k2.rings| == NUM_PRIORITIES && HasWaiters(k2, 0)
    ensures var k3 := UnlockNow(k2, 0);
      && |k3.rings| == NUM_PRIORITIES && k3.rings[0] == [B] && k3.idle in k3.tasks
      && (forall p, t :: 0 <= p < |k3.rings| && t in k3.rings[p] ==> t in k3.tasks)
  {
    hide OwnerRuns, Contended, UnlockNow, HasWaiters, Meeting, HandedOver;
    var k := Meeting();
    MeetingIsGood();
    k2 := OwnerDispatched();
    OwnerCanUnlock(k, 0, k2);
    HandoffFacts(k, 0, k2);
    BeatsC(k, UnlockNow(k2, 0));
    HandoffRings(k, k2);
  }

  lemma BeatsC(k: Kernel, k3: Kernel)
    requires HandedOver(k, 0, k3) && k.current == B && C in k.tasks && k.tasks[B].prio < k.tasks[C].prio
    requires forall u :: u in k.waits[MutexQ(0)] ==> u == C
    ensures k3.mutexes[0].owner == B && k3.idle == k.idle && k3.tasks.Keys == k.tasks.Keys && |k3.rings| == NUM_PRIORITIES
  {
  }

  // ---------------------------------------------------------------- deadlines past 32 bits

  /** One tick before the last, a delay of two ticks is over at once ... */
  lemma LateDelayIsOver(k: Kernel)
    requires k == Alone(U32_MAX - 1)
    ensures Inv(k) && Legal(k, Action.Delay(2))
    ensures SleepOver(DelayThenTick(k, 2), A)
  {
    hide Inv, Alone, Step;
    AloneIsGood(U32_MAX - 1);
    DelayOverAtOnceIff(k, 2);
  }

  /** ... and a delay of one tick never ends. */
  lemma LateDelayNeverEnds(k: Kernel)
    requires k == Alone(U32_MAX - 1)
    ensures Inv(k) && Legal(k, Action.Delay(1)) && SleepsForever(Step(k, Action.Delay(1)), A)
  {
    hide Inv, Alone, Step;
    AloneIsGood(U32_MAX - 1);
    DelayedTask(k, 1);
  }

  // ---------------------------------------------------------------- heap and timers

  /** A request for 0xFFFFFFF1 bytes ruins a fresh heap. */
  lemma HugeRequestRuinsHeap()
    ensures HeapOk(Fresh) && !HeapOk(Take(Fresh, 0xFFFF_FFF1).0)
  {
    hide HeapOk, Take;
    FreshOk();
    RequestKeepsTilingIff(Fresh, 0xFFFF_FFF1);
  }

  /** A timer started at tick 0 with a period of 0x80000000: nothing is due up to the tick before that
      one, and at that tick the expiry loop goes on for ever. */
  lemma LongPeriodSpins(n: nat)
    ensures var p := 0x8000_0000;
      var ts := TM.Start(TM.Timers(map[], []), A, p, true, 0);
      TM.TimersOk(ts) && TM.Settled(ts, p - 1) && TT.HeadDue(TT.Turns(ts, p, n), p)
  {
    var p := 0x8000_0000;
    var ts := TM.Start(TM.Timers(map[], []), A, p, true, 0);
    TM.StartIsOk(TM.Timers(map[], []), A, p, true, 0);
    assert ts.list == [A];
    TT.NeverEnds(ts, p, A, n);
  }

  /** Starting the only armed timer again leaves links from which no list starts. */
  lemma RestartMakesCycle(tail: Addr, l: seq<Addr>)
    ensures var mem := map[A := TM.Timer(5, 0, false, true)];
      var (next, head) := TL.StartedLinks(map[A := NULL], A, mem, [A], A);
      !LK.ListLinked(next, head, tail, l)
  {
    var mem := map[A := TM.Timer(5, 0, false, true)];
    assert TL.Walkable([A], A) == [A];
    TL.StartKeepsLinksIff(map[A := NULL], A, [A], mem, A);
  }
}
