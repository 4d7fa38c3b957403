/** Runs of the whole system: kernel steps, task creation and deletion with their memory, and the
    program's own use of the heap.  Every such run is a run of the kernel in which the address of
    each new task is one that no task has. */
module SystemRuns {
  import opened Types
  import opened Lists
  import opened HeapModel
  import opened FreeList
  import KS = KernelState
  import opened Runs
  import opened Steps
  import opened SystemModel
  import opened Boot

  datatype Op =
    | Kernel(a: Action)
    | Spawn(hasFunction: bool, prio: nat, stackSize: nat)
    | Kill(task: Addr)
    | Request(size: nat)
    | Release(off: nat)

  /** The program frees only blocks of its own. */
  ghost predicate NotOfTasks(l: Layout, registry: seq<Addr>, stacks: map<Addr, Addr>, off: nat) {
    PayloadOf(l, off) !in registry && forall t :: t in stacks ==> stacks[t] != PayloadOf(l, off)
  }

  ghost predicate OpLegal(l: Layout, s: System, op: Op) {
    match op
    case Kernel(a) => Legal(s.k, a) && !a.Create? && !a.Delete?
    case Spawn(hasFunction, prio, stackSize) => prio < PRIORITY_LIMIT && !CreateClash(l, s, hasFunction, stackSize)
    case Kill(t) => t != NULL ==> t in s.k.tasks && OwnsNothing(s.k.mutexes, t)
    case Request(size) => RequestOk(s.h, size)
    case Release(off) => off in s.h.live && NotOfTasks(l, s.k.registry, s.stacks, off)
  }

  lemma LockKeepsRegistry(k: KS.Kernel, m: nat, timeout: nat, msg: seq<Byte>)
    requires KS.Inv(k) && KS.CanRun(k) && m in k.mutexes
    ensures var k' := KS.Lock(k, m, timeout, msg); k'.registry == k.registry && k'.idle == k.idle
  {
    hide KS.Inv, KS.MinPrio, KS.RingAdd, KS.RingRemove;
    LockFacts(k, m);
  }

  lemma EnterKeepsRegistry(k: KS.Kernel, w: KS.WaitKey, timeout: nat, msg: seq<Byte>)
    requires KS.Inv(k) && KS.CanRun(k) && KS.CallOk(KS.InCall(w, timeout, msg), k.waits, k.queues)
    ensures var k' := KS.Enter(k, w, timeout, msg); k'.registry == k.registry && k'.idle == k.idle
  {
    hide KS.Lock, KS.Placed, KS.CallsOk, KS.MutexesOk, KS.HandoffsOk;
    if w.MutexQ? {
      LockKeepsRegistry(k, w.id, timeout, msg);
    }
  }

  /** Only creation and deletion change the registry. */
  lemma StepKeepsRegistry(k: KS.Kernel, a: Action)
    requires KS.Inv(k) && Legal(k, a) && !a.Create? && !a.Delete?
    ensures Step(k, a).registry == k.registry && Step(k, a).idle == k.idle
  {
    hide KS.RingsPlaced, KS.WaitsPlaced, KS.TasksOk, KS.RegistryOk, KS.CallsOk, KS.MutexesOk, KS.HandoffsOk, KS.CountsOk;
    hide KS.Enter, KS.Resume, ScanFrom, KS.RingAdd, KS.RingRemove, KS.Unlink, KS.Best;
    if a.Invoke? {
      EnterKeepsRegistry(k, a.on, a.timeout, a.msg);
    } else if a.Resume? {
      ResumeKeepsRegistry(k);
    }
  }

  lemma ResumeKeepsRegistry(k: KS.Kernel)
    requires KS.Inv(k) && KS.CanRun(k)
    ensures KS.Resume(k).registry == k.registry && KS.Resume(k).idle == k.idle
  {
    hide KS.Placed, KS.KeysOk, KS.MutexesOk, KS.HandoffsOk, KS.CountsOk, KS.Enter;
    var c := k.tasks[k.current];
    if c.call.InCall? && c.wakeStatus != ErrTimeout {
      EnterKeepsRegistry(k, c.call.on, c.call.timeout, c.call.msg);
    }
  }

  // ---------------------------------------------------------------- memory

  lemma MemoryKept(l: Layout, registry: seq<Addr>, idle: Addr, live: map<nat, nat>, stacks: map<Addr, Addr>, live': map<nat, nat>)
    requires MemoryOk(l, registry, idle, live, stacks)
    requires forall o :: o in live && !NotOfTasks(l, registry, stacks, o) ==> o in live'
    ensures MemoryOk(l, registry, idle, live', stacks)
  {
    forall p | p in registry || (exists t :: t in stacks && stacks[t] == p)
      ensures Held(l, live', p)
    {
      assert Held(l, live, p) && PayloadOf(l, p - l.base - HEADER) == p;
      assert !NotOfTasks(l, registry, stacks, p - l.base - HEADER);
    }
  }

  function OpStep(l: Layout, s: System, op: Op): (s': System)
    requires SystemOk(l, s) && OpLegal(l, s, op)
  {
    hide KS.Inv, HeapOk, MemoryOk, Legal, Step;
    match op
    case Kernel(a) => s.(k := Step(s.k, a))
    case Spawn(hasFunction, prio, stackSize) =>
      CreateKeepsSystem(l, s, hasFunction, prio, stackSize);
      TaskCreate(l, s, hasFunction, prio, stackSize).0
    case Kill(t) => TaskDelete(l, s, t).0
    case Request(size) => s.(h := Take(s.h, size).0)
    case Release(off) => s.(h := Free(s.h, off))
  }

  /** Every step keeps the kernel's invariant, the tiling of the pool and the blocks of each task. */
  lemma OpKeepsSystem(l: Layout, s: System, op: Op)
    requires SystemOk(l, s) && OpLegal(l, s, op)
    ensures SystemOk(l, OpStep(l, s, op))
  {
    hide KS.Inv, HeapOk, MemoryOk, Legal, Step, TaskCreate, TaskDelete, Take, Free, NotOfTasks;
    match op
    case Kernel(a) => StepKeepsRegistry(s.k, a);
    case Spawn(hasFunction, prio, stackSize) => CreateKeepsSystem(l, s, hasFunction, prio, stackSize);
    case Kill(t) => DeleteKeepsSystem(l, s, t);
    case Request(size) =>
      TakeFacts(s.h, size);
      MemoryKept(l, s.k.registry, s.k.idle, s.h.live, s.stacks, Take(s.h, size).0.live);
    case Release(off) =>
      FreeKeepsHeap(s.h, off);
      FreeLive(s.h, off);
      MemoryKept(l, s.k.registry, s.k.idle, s.h.live, s.stacks, s.h.live - {off});
  }

  lemma FreeLive(h: Heap, off: nat)
    requires off in h.live
    ensures Free(h, off).live == h.live - {off}
  {
  }

  // ---------------------------------------------------------------- runs

  ghost predicate LegalOps(l: Layout, s: System, ops: seq<Op>)
    requires SystemOk(l, s)
    decreases |ops|
  {
    hide SystemOk, OpLegal, OpStep;
    ops != [] ==> OpLegal(l, s, ops[0]) && (OpKeepsSystem(l, s, ops[0]); LegalOps(l, OpStep(l, s, ops[0]), ops[1..]))
  }

  function ExecOps(l: Layout, s: System, ops: seq<Op>): (s': System)
    requires SystemOk(l, s) && LegalOps(l, s, ops)
    ensures SystemOk(l, s')
    decreases |ops|
  {
    hide SystemOk, OpLegal, OpStep;
    if ops == [] then s
    else
      OpKeepsSystem(l, s, ops[0]);
      ExecOps(l, OpStep(l, s, ops[0]), ops[1..])
  }

  /** What the kernel sees of an operation. */
  function KernelPart(l: Layout, s: System, op: Op): seq<Action>
    requires SystemOk(l, s) && OpLegal(l, s, op)
  {
    hide KS.Inv, HeapOk, MemoryOk, Legal;
    match op
    case Kernel(a) => [a]
    case Spawn(hasFunction, prio, stackSize) =>
      CreateKeepsSystem(l, s, hasFunction, prio, stackSize);
      var t := TaskCreate(l, s, hasFunction, prio, stackSize).1;
      if t == NULL then [] else [Create(t, prio)]
    case Kill(t) => if t == NULL then [] else [Delete(t)]
    case Request(_) => []
    case Release(_) => []
  }

  lemma RunOne(k: KS.Kernel, a: Action)
    requires KS.Inv(k) && Legal(k, a)
    ensures LegalRun(k, [a]) && Exec(k, [a]) == Step(k, a)
  {
    hide KS.Inv, Legal, Step;
    var acts := [a];
    assert acts[1..] == [];
    assert LegalRun(Step(k, a), acts[1..]);
    assert Exec(Step(k, a), acts[1..]) == Step(k, a);
  }

  /** Each operation is no step of the kernel or one, taken when it is legal. */
  lemma KernelPartIs(l: Layout, s: System, op: Op)
    requires SystemOk(l, s) && OpLegal(l, s, op)
    ensures var acts := KernelPart(l, s, op);
      |acts| <= 1 && LegalRun(s.k, acts) && Exec(s.k, acts) == OpStep(l, s, op).k
  {
    hide KS.Inv, HeapOk, MemoryOk, KS.Create, KS.Delete, TaskCreate, TaskDelete, Take, LegalRun, Exec, Legal, Step;
    NoRun(s.k);
    match op
    case Kernel(a) => RunOne(s.k, a);
    case Spawn(hasFunction, prio, stackSize) =>
      CreateKeepsSystem(l, s, hasFunction, prio, stackSize);
      SpawnIs(l, s, hasFunction, prio, stackSize);
    case Kill(t) => KillIs(l, s, t);
    case Request(size) =>
    case Release(off) =>
  }

  lemma NoRun(k: KS.Kernel)
    requires KS.Inv(k)
    ensures LegalRun(k, []) && Exec(k, []) == k
  {
  }

  lemma SpawnIs(l: Layout, s: System, hasFunction: bool, prio: nat, stackSize: nat)
    requires SystemOk(l, s) && !CreateClash(l, s, hasFunction, stackSize) && prio < PRIORITY_LIMIT && |s.k.rings| == NUM_PRIORITIES
    ensures var (s', t) := TaskCreate(l, s, hasFunction, prio, stackSize);
      if t == NULL then s'.k == s.k
      else LegalRun(s.k, [Create(t, prio)]) && Exec(s.k, [Create(t, prio)]) == s'.k
  {
    hide KS.Inv, HeapOk, MemoryOk, KS.Create, TaskCreate, LegalRun, Exec;
    var (s', t) := TaskCreate(l, s, hasFunction, prio, stackSize);
    if t == NULL {
      FailedCreate(l, s, hasFunction, prio, stackSize, 0);
    } else {
      CreateKeepsSystem(l, s, hasFunction, prio, stackSize);
      TakenBlocks(l, s, hasFunction, prio, stackSize);
      RunOne(s.k, Create(t, prio));
    }
  }

  lemma KillIs(l: Layout, s: System, t: Addr)
    requires SystemOk(l, s) && (t != NULL ==> t in s.k.tasks && OwnsNothing(s.k.mutexes, t))
    ensures if t == NULL then TaskDelete(l, s, t).0.k == s.k
            else LegalRun(s.k, [Delete(t)]) && Exec(s.k, [Delete(t)]) == TaskDelete(l, s, t).0.k
  {
    hide KS.Inv, HeapOk, MemoryOk, LegalRun, Exec, Free;
    if t != NULL {
      RunOne(s.k, Delete(t));
    }
  }

  lemma RunAppend(k: KS.Kernel, xs: seq<Action>, ys: seq<Action>)
    requires KS.Inv(k) && |xs| <= 1 && LegalRun(k, xs) && LegalRun(Exec(k, xs), ys)
    ensures LegalRun(k, xs + ys) && Exec(k, xs + ys) == Exec(Exec(k, xs), ys)
  {
    hide KS.Inv, Legal, Step;
    if xs == [] {
      assert xs + ys == ys;
    } else {
      assert xs[1..] == [] && (xs + ys)[1..] == ys;
    }
  }

  function KernelRun(l: Layout, s: System, ops: seq<Op>): seq<Action>
    requires SystemOk(l, s) && LegalOps(l, s, ops)
    decreases |ops|
  {
    hide SystemOk, OpLegal, OpStep;
    if ops == [] then []
    else
      OpKeepsSystem(l, s, ops[0]);
      KernelPart(l, s, ops[0]) + KernelRun(l, OpStep(l, s, ops[0]), ops[1..])
  }

  lemma InvOf(l: Layout, s: System)
    requires SystemOk(l, s)
    ensures KS.Inv(s.k)
  {
  }

  /** Every run of the system is a legal run of the kernel: memory never hands out the address of a
      task that exists, so what holds of all runs of the kernel holds here. */
  lemma {:induction false} SystemRunIsKernelRun(l: Layout, s: System, ops: seq<Op>)
    requires SystemOk(l, s) && LegalOps(l, s, ops) && KS.Inv(s.k)
    ensures LegalRun(s.k, KernelRun(l, s, ops)) && Exec(s.k, KernelRun(l, s, ops)) == ExecOps(l, s, ops).k
    decreases |ops|
  {
    hide SystemOk, OpLegal, OpStep, KernelPart, KS.Inv, LegalRun, Exec;
    if ops == [] {
      NoRun(s.k);
    } else {
      OpKeepsSystem(l, s, ops[0]);
      var s1 := OpStep(l, s, ops[0]);
      KernelPartIs(l, s, ops[0]);
      InvOf(l, s1);
      SystemRunIsKernelRun(l, s1, ops[1..]);
      RunAppend(s.k, KernelPart(l, s, ops[0]), KernelRun(l, s1, ops[1..]));
    }
  }

  // ---------------------------------------------------------------- start

  datatype Init = Started(s: System) | NoMemory

  /** task_init. */
  function TaskInit(l: Layout, o: Objects): Init
  {
    var (h, g) := Alloc(Fresh, Total(l.tcbSize));
    match g
    case Refused => NoMemory
    case Granted(off) => Started(System(Booted(PayloadOf(l, off), o), h, map[]))
  }

  /** It fails exactly when the pool cannot hold the idle task's control block. */
  lemma InitOk(l: Layout, o: Objects)
    requires LayoutOk(l) && ObjectsOk(o)
    ensures TaskInit(l, o).Started? <==> Total(l.tcbSize) <= POOL_SIZE
    ensures TaskInit(l, o).Started? ==> SystemOk(l, TaskInit(l, o).s)
  {
    hide HeapOk, KS.Inv, Coalesce;
    SmallTotal(l.tcbSize);
    TotalIsEnough(l.tcbSize);
    FreshOk();
    var total := Total(l.tcbSize);
    RefusedIff(Fresh, total);
    assert Fresh.free[0].size == POOL_SIZE;
    AllocKeepsHeap(Fresh, total);
    var (h, g) := Alloc(Fresh, total);
    if g.Granted? {
      BootedIsGood(PayloadOf(l, g.off), o);
      GrantFacts(Fresh, total);
    }
  }

  ghost function Members(list: seq<Addr>): set<Addr> {
    set t | t in list
  }

  lemma {:induction false} MembersAtMost(list: seq<Addr>)
    ensures |Members(list)| <= |list|
    decreases |list|
  {
    if list != [] {
      MembersAtMost(list[1..]);
      assert Members(list) == {list[0]} + Members(list[1..]);
    }
  }

  lemma RegistryLimit(k: KS.Kernel)
    requires KS.Inv(k)
    ensures |k.registry| <= MAX_TASKS && NoDup(k.registry) && k.idle in k.registry
  {
  }

  /** The registry's limit counts the idle task, so there are at most 31 others. */
  lemma TaskLimit(l: Layout, s: System)
    requires SystemOk(l, s)
    ensures |s.stacks.Keys| < |s.k.registry| <= MAX_TASKS && NoDup(s.k.registry)
  {
    hide HeapOk, KS.Inv, NoDup;
    RegistryLimit(s.k);
    MembersAtMost(s.k.registry);
    assert s.stacks.Keys == Members(s.k.registry) - {s.k.idle};
  }

  /** From task_init on, whatever the program does within the guards: every task is where its state
      says, the blocks tile the pool, and at most 31 tasks exist beside the idle task. */
  lemma AlwaysWellFormed(l: Layout, o: Objects, ops: seq<Op>)
    requires LayoutOk(l) && ObjectsOk(o) && TaskInit(l, o).Started?
    requires SystemOk(l, TaskInit(l, o).s) && LegalOps(l, TaskInit(l, o).s, ops)
    ensures var s := ExecOps(l, TaskInit(l, o).s, ops);
      KS.Placed(s.k) && HeapOk(s.h) && |s.stacks.Keys| < |s.k.registry| <= MAX_TASKS && NoDup(s.k.registry)
  {
    hide HeapOk, TaskInit, LegalOps, MemoryOk;
    TaskLimit(l, ExecOps(l, TaskInit(l, o).s, ops));
  }
}
