/** Tasks and the memory they live in: task_create takes a control block and a stack from the heap,
    task_delete gives both back. */
module SystemModel {
  import opened Types
  import opened Lists
  import opened FreeList
  import opened HeapModel
  import KS = KernelState
  import opened Steps
  import opened Runs
  import opened Outcomes

  const MIN_STACK: nat := 256

  /** Where the pool is and how large a control block is; the compiler and the linker decide both. */
  datatype Layout = Layout(base: Addr, tcbSize: nat)

  ghost predicate LayoutOk(l: Layout) {
    l.base % 8 == 0 && 0 < l.base && 0 < l.tcbSize <= 0xFFFF_FFF0
  }

  /** stacks maps each task to its stack; the idle task's is not in the pool. */
  datatype System = System(k: KS.Kernel, h: Heap, stacks: map<Addr, Addr>)

  function PayloadOf(l: Layout, off: nat): Addr {
    l.base + off + HEADER
  }

  /** p is the payload of a block in use. */
  ghost predicate Held(l: Layout, live: map<nat, nat>, p: Addr) {
    l.base + HEADER <= p && p - l.base - HEADER in live
  }

  function OffOf(l: Layout, p: Addr): nat
    requires l.base + HEADER <= p
  {
    p - l.base - HEADER
  }

  /** Each task's control block and stack are blocks in use, all different. */
  ghost predicate MemoryOk(l: Layout, registry: seq<Addr>, idle: Addr, live: map<nat, nat>, stacks: map<Addr, Addr>) {
    && (forall t :: t in registry ==> Held(l, live, t))
    && (forall t :: t in stacks <==> t in registry && t != idle)
    && (forall t :: t in stacks ==> Held(l, live, stacks[t]) && stacks[t] !in registry)
    && (forall t, u :: t in stacks && u in stacks && t != u ==> stacks[t] != stacks[u])
  }

  ghost predicate SystemOk(l: Layout, s: System) {
    LayoutOk(l) && KS.Inv(s.k) && HeapOk(s.h) && MemoryOk(l, s.k.registry, s.k.idle, s.h.live, s.stacks)
  }

  // ---------------------------------------------------------------- operations

  /** heap_free of what Take returned. */
  function GiveBack(h: Heap, g: Grant): Heap {
    if g.Granted? && g.off in h.live then Free(h, g.off) else h
  }

  /** The stack size rounded up to 8, in 32-bit arithmetic. */
  function StackBytes(size: nat): nat {
    (size + 7) % U32_MOD / 8 * 8
  }

  /** task_create comes to request the stack, and the request's size wraps to nothing. */
  predicate CreateClash(l: Layout, s: System, hasFunction: bool, stackSize: nat) {
    && hasFunction && stackSize >= MIN_STACK && |s.k.registry| < MAX_TASKS
    && !RequestOk(Take(s.h, l.tcbSize).0, StackBytes(stackSize))
  }

  lemma NoClash(l: Layout, s: System, hasFunction: bool, stackSize: nat)
    requires !CreateClash(l, s, hasFunction, stackSize)
    ensures hasFunction && stackSize >= MIN_STACK && |s.k.registry| < MAX_TASKS ==>
      RequestOk(Take(s.h, l.tcbSize).0, StackBytes(stackSize))
  {
  }

  function TaskCreate(l: Layout, s: System, hasFunction: bool, prio: nat, stackSize: nat): (r: (System, Addr))
    requires |s.k.rings| == NUM_PRIORITIES
  {
    if !hasFunction || stackSize < MIN_STACK || |s.k.registry| >= MAX_TASKS then (s, NULL)
    else
      var (h1, tcb) := Take(s.h, l.tcbSize);
      var (h2, stack) := Take(h1, StackBytes(stackSize));
      if tcb.Refused? || stack.Refused? then (s.(h := GiveBack(GiveBack(h2, tcb), stack)), NULL)
      else
        var t := PayloadOf(l, tcb.off);
        (System(KS.Create(s.k, t, prio), h2, s.stacks[t := PayloadOf(l, stack.off)]), t)
  }

  function TaskDelete(l: Layout, s: System, t: Addr): (r: (System, Status))
    requires SystemOk(l, s) && (t != NULL ==> t in s.k.tasks)
  {
    hide SystemOk, Coalesce;
    if t == NULL then (s, ErrParam)
    else if t == s.k.idle || t == s.k.current then (s, ErrState)
    else
      BlocksOf(l, s, t);
      var h := Free(Free(s.h, OffOf(l, s.stacks[t])), OffOf(l, t));
      (System(KS.Delete(s.k, t), h, s.stacks - {t}), Ok)
  }

  /** The two blocks of a task. */
  lemma BlocksOf(l: Layout, s: System, t: Addr)
    requires SystemOk(l, s) && t in s.k.tasks && t != s.k.idle
    ensures t in s.stacks && Held(l, s.h.live, t) && Held(l, s.h.live, s.stacks[t])
    ensures OffOf(l, t) != OffOf(l, s.stacks[t])
    ensures s.k.tasks[t].bucket < |s.k.rings| == NUM_PRIORITIES
  {
    hide KS.WaitsPlaced, KS.TasksOk, KS.CallsOk, KS.MutexesOk, KS.HandoffsOk, KS.CountsOk, HeapOk;
    assert t in s.k.registry;
  }

  // ---------------------------------------------------------------- memory

  lemma TakeFacts(h: Heap, size: nat)
    requires HeapOk(h) && RequestOk(h, size)
    ensures var (h', g) := Take(h, size);
      && HeapOk(h') && (g.Refused? ==> h' == h)
      && (g.Granted? ==> g.off !in h.live && g.off in h'.live && h'.live == h.live[g.off := h'.live[g.off]])
  {
    hide HeapOk, Alloc;
    if size > 0 {
      TotalIsEnough(size);
      AllocKeepsHeap(h, Total(size));
      AllocCovers(h, Total(size), 0);
    }
  }

  /** Taking a block and giving it back changes no byte from free to used. */
  lemma TakeGiveBack(h: Heap, size: nat, x: int)
    requires HeapOk(h) && RequestOk(h, size)
    ensures var (h', g) := Take(h, size);
      && HeapOk(GiveBack(h', g)) && GiveBack(h', g).live == h.live
      && (Covers(GiveBack(h', g).free, x) <==> Covers(h.free, x))
  {
    hide HeapOk, Alloc, Free, Covers;
    TakeFacts(h, size);
    var (h', g) := Take(h, size);
    if g.Granted? {
      TotalIsEnough(size);
      AllocFreeBytes(h, Total(size), x);
      FreeKeepsHeap(h', g.off);
    }
  }

  // ---------------------------------------------------------------- creation

  /** A failed creation leaves no trace: the kernel is untouched and the same bytes are free. */
  lemma FailedCreate(l: Layout, s: System, hasFunction: bool, prio: nat, stackSize: nat, x: int)
    requires LayoutOk(l) && HeapOk(s.h) && !CreateClash(l, s, hasFunction, stackSize) && |s.k.rings| == NUM_PRIORITIES
    requires TaskCreate(l, s, hasFunction, prio, stackSize).1 == NULL
    ensures var s' := TaskCreate(l, s, hasFunction, prio, stackSize).0;
      && s'.k == s.k && s'.stacks == s.stacks && HeapOk(s'.h) && s'.h.live == s.h.live
      && (Covers(s'.h.free, x) <==> Covers(s.h.free, x))
  {
    hide HeapOk, Covers, Take, GiveBack, KS.Create;
    if hasFunction && stackSize >= MIN_STACK && |s.k.registry| < MAX_TASKS {
      SmallTotal(l.tcbSize);
      var (h1, tcb) := Take(s.h, l.tcbSize);
      var (h2, stack) := Take(h1, StackBytes(stackSize));
      TakeFacts(s.h, l.tcbSize);
      TakeFacts(h1, StackBytes(stackSize));
      TakeGiveBack(s.h, l.tcbSize, x);
      TakeGiveBack(h1, StackBytes(stackSize), x);
      GiveNothing(h2, tcb);
      GiveNothing(GiveBack(h2, tcb), stack);
    }
  }

  lemma GiveNothing(h: Heap, g: Grant)
    ensures g.Refused? ==> GiveBack(h, g) == h
  {
  }

  lemma SmallTotal(size: nat)
    requires 0 < size <= 0xFFFF_FFF0
    ensures size < U32_MOD && 0 < Total(size) && forall h :: RequestOk(h, size)
  {
    TotalIsEnough(size);
  }

  /** What a successful creation took, and made: a control block and a stack of the sizes asked for, and a
      task of the priority asked for that can run at once. */
  lemma CreatedBlocks(l: Layout, s: System, hasFunction: bool, prio: nat, stackSize: nat)
    requires LayoutOk(l) && KS.Inv(s.k) && HeapOk(s.h) && !CreateClash(l, s, hasFunction, stackSize) && |s.k.rings| == NUM_PRIORITIES
    requires stackSize < U32_MOD && TaskCreate(l, s, hasFunction, prio, stackSize).1 != NULL
    ensures var (s', t) := TaskCreate(l, s, hasFunction, prio, stackSize);
      && t in s'.stacks && l.base + HEADER <= t && l.base + HEADER <= s'.stacks[t] && HeapOk(s'.h)
      && (var a, b := OffOf(l, t), OffOf(l, s'.stacks[t]);
          && a != b && a !in s.h.live && b !in s.h.live && a in s'.h.live && b in s'.h.live
          && s'.h.live == s.h.live[a := s'.h.live[a]][b := s'.h.live[b]]
          && l.tcbSize <= s'.h.live[a] - HEADER
          && (stackSize <= s'.h.live[b] - HEADER <==> stackSize <= 0xFFFF_FFF0))
      && |s.k.registry| < MAX_TASKS && s'.stacks == s.stacks[t := s'.stacks[t]]
      && (t !in s.k.tasks ==> Created(s.k, s'.k, t, prio))
  {
    hide KS.Inv, KS.Placed, HeapOk, Take, GiveBack, KS.Create, Created;
    var (s', t) := TaskCreate(l, s, hasFunction, prio, stackSize);
    InvPlaces(s.k);
    TakenBlocks(l, s, hasFunction, prio, stackSize);
    if t !in s.k.tasks {
      CreateOutcome(s.k, t, prio);
    }
  }

  /** A block granted for a request holds it, unless the rounding wrapped; then it is short of it. */
  lemma TakeSize(h: Heap, size: nat, asked: nat)
    requires HeapOk(h) && RequestOk(h, size) && asked <= size < U32_MOD && Take(h, size).1.Granted?
    requires size <= 0xFFFF_FFF0 || POOL_SIZE <= asked
    ensures var (h', g) := Take(h, size);
      g.off in h'.live && (asked <= h'.live[g.off] - HEADER <==> size <= 0xFFFF_FFF0)
  {
    hide HeapOk, Alloc, BlockOk;
    GrantIsEnough(h, size);
    TotalIsEnough(size);
    GrantFacts(h, Total(size));
    var (h', g) := Alloc(h, Total(size));
    BlockFits(Block(g.off, h'.live[g.off]));
  }

  lemma BlockFits(b: Block)
    requires BlockOk(b)
    ensures b.size <= POOL_SIZE
  {
  }

  lemma StackRounding(size: nat)
    requires size < U32_MOD
    ensures StackBytes(size) < U32_MOD
    ensures if size <= 0xFFFF_FFF8 then size <= StackBytes(size) else StackBytes(size) == 0
    ensures StackBytes(size) <= 0xFFFF_FFF0 && StackBytes(size) != 0 ==> size <= 0xFFFF_FFF0
    ensures size <= 0xFFFF_FFF0 ==> StackBytes(size) <= 0xFFFF_FFF0
  {
    if size <= 0xFFFF_FFF8 {
      assert (size + 7) % U32_MOD == size + 7;
    } else {
      assert (size + 7) % U32_MOD == size + 7 - U32_MOD < 8;
    }
  }

  /** The blocks alone, whatever the state of the kernel. */
  lemma TakenBlocks(l: Layout, s: System, hasFunction: bool, prio: nat, stackSize: nat)
    requires LayoutOk(l) && HeapOk(s.h) && !CreateClash(l, s, hasFunction, stackSize) && |s.k.rings| == NUM_PRIORITIES
    requires TaskCreate(l, s, hasFunction, prio, stackSize).1 != NULL
    ensures var (s', t) := TaskCreate(l, s, hasFunction, prio, stackSize);
      && t in s'.stacks && l.base + HEADER <= t && l.base + HEADER <= s'.stacks[t] && HeapOk(s'.h)
      && (var a, b := OffOf(l, t), OffOf(l, s'.stacks[t]);
          && a != b && a !in s.h.live && b !in s.h.live && a in s'.h.live && b in s'.h.live
          && s'.h.live == s.h.live[a := s'.h.live[a]][b := s'.h.live[b]]
          && l.tcbSize <= s'.h.live[a] - HEADER
          && (stackSize < U32_MOD ==> (stackSize <= s'.h.live[b] - HEADER <==> stackSize <= 0xFFFF_FFF0)))
      && |s.k.registry| < MAX_TASKS && s'.k == KS.Create(s.k, t, prio) && s'.stacks == s.stacks[t := s'.stacks[t]]
  {
    hide HeapOk, Take, GiveBack, KS.Create, StackBytes;
    SmallTotal(l.tcbSize);
    var (h1, tcb) := Take(s.h, l.tcbSize);
    var (h2, stack) := Take(h1, StackBytes(stackSize));
    TakeFacts(s.h, l.tcbSize);
    TakeFacts(h1, StackBytes(stackSize));
    TakeSize(s.h, l.tcbSize, l.tcbSize);
    if stackSize < U32_MOD {
      StackRounding(stackSize);
      NothingForNothing(h1);
      TakeSize(h1, StackBytes(stackSize), stackSize);
    }
    var (s', t) := TaskCreate(l, s, hasFunction, prio, stackSize);
    assert tcb.Granted? && stack.Granted? && t == PayloadOf(l, tcb.off) && s'.h == h2;
    assert s'.stacks == s.stacks[t := PayloadOf(l, stack.off)];
    assert OffOf(l, t) == tcb.off && OffOf(l, s'.stacks[t]) == stack.off;
  }

  lemma NothingForNothing(h: Heap)
    ensures Take(h, 0).1.Refused?
  {
  }

  /** Creation fails for the four reasons alone: no function, too small a stack, a full registry, or a heap
      in which no free block is large enough for the control block, or for the stack beside it. */
  lemma CreateFailsIff(l: Layout, s: System, hasFunction: bool, prio: nat, stackSize: nat)
    requires LayoutOk(l) && |s.k.rings| == NUM_PRIORITIES
    ensures TaskCreate(l, s, hasFunction, prio, stackSize).1 == NULL <==>
      || !hasFunction || stackSize < MIN_STACK || |s.k.registry| >= MAX_TASKS
      || TooSmall(s.h, l.tcbSize) || TooSmall(Take(s.h, l.tcbSize).0, StackBytes(stackSize))
  {
    hide KS.Create, StackBytes, GiveBack, Alloc, Total;
    var h1 := Take(s.h, l.tcbSize).0;
    RefusedIff(s.h, Total(l.tcbSize));
    RefusedIff(h1, Total(StackBytes(stackSize)));
  }

  /** No free block is large enough for the request, or the request is for nothing. */
  ghost predicate TooSmall(h: Heap, size: nat) {
    size == 0 || forall b :: b in h.free ==> b.size < Total(size)
  }

  lemma MemoryGrows(l: Layout, registry: seq<Addr>, idle: Addr, live: map<nat, nat>, stacks: map<Addr, Addr>,
                    t: Addr, stack: Addr, live': map<nat, nat>)
    requires MemoryOk(l, registry, idle, live, stacks) && idle in registry
    requires Held(l, live', t) && !Held(l, live, t) && Held(l, live', stack) && !Held(l, live, stack) && t != stack
    requires forall o :: o in live ==> o in live'
    ensures t !in registry
    ensures MemoryOk(l, registry + [t], idle, live', stacks[t := stack])
  {
  }

  lemma RegistryFacts(k: KS.Kernel)
    requires KS.Inv(k)
    ensures |k.rings| == NUM_PRIORITIES && k.idle in k.registry && NULL !in k.registry
    ensures forall t :: t in k.registry <==> t in k.tasks
  {
  }

  /** Creation keeps the system well formed; a new control block is at an address of its own. */
  lemma CreateKeepsSystem(l: Layout, s: System, hasFunction: bool, prio: nat, stackSize: nat)
    requires SystemOk(l, s) && !CreateClash(l, s, hasFunction, stackSize) && prio < PRIORITY_LIMIT
    ensures |s.k.rings| == NUM_PRIORITIES
    ensures var (s', t) := TaskCreate(l, s, hasFunction, prio, stackSize);
      SystemOk(l, s') && t !in s.k.tasks
  {
    hide KS.Inv, HeapOk, MemoryOk, TaskCreate, KS.Create;
    RegistryFacts(s.k);
    var (s', t) := TaskCreate(l, s, hasFunction, prio, stackSize);
    if t == NULL {
      FailedCreate(l, s, hasFunction, prio, stackSize, 0);
    } else {
      TakenBlocks(l, s, hasFunction, prio, stackSize);
      MemoryGrows(l, s.k.registry, s.k.idle, s.h.live, s.stacks, t, s'.stacks[t], s'.h.live);
      CreateKeepsInv(s.k, t, prio);
      CreateRegistry(s.k, t, prio);
    }
  }

  /** Creation keeps the system well formed if and only if the stack request does not clash. */
  lemma CreateKeepsSystemIff(l: Layout, s: System, hasFunction: bool, prio: nat, stackSize: nat)
    requires SystemOk(l, s) && prio < PRIORITY_LIMIT
    ensures |s.k.rings| == NUM_PRIORITIES
    ensures SystemOk(l, TaskCreate(l, s, hasFunction, prio, stackSize).0) <==> !CreateClash(l, s, hasFunction, stackSize)
  {
    hide KS.Inv, HeapOk, MemoryOk, Take, KS.Create;
    RegistryFacts(s.k);
    if CreateClash(l, s, hasFunction, stackSize) {
      SmallTotal(l.tcbSize);
      TakeFacts(s.h, l.tcbSize);
      ClashedTake(Take(s.h, l.tcbSize).0, StackBytes(stackSize));
    } else {
      CreateKeepsSystem(l, s, hasFunction, prio, stackSize);
    }
  }

  /** A clashing request is granted, and leaves a heap that tiles nothing. */
  lemma ClashedTake(h: Heap, size: nat)
    requires HeapOk(h) && !RequestOk(h, size) && size < U32_MOD
    ensures var (h', g) := Take(h, size); g.Granted? && g.off !in h'.live && h'.live == h.live && !HeapOk(h')
  {
    hide HeapOk;
    ClashFacts(h, Total(size));
    FreeIsNotLive(h, 0);
    EmptyBlockIsBad(Take(h, size).0);
  }

  lemma CreateRegistry(k: KS.Kernel, t: Addr, prio: nat)
    requires |k.registry| < MAX_TASKS && |k.rings| == NUM_PRIORITIES
    ensures KS.Create(k, t, prio).registry == k.registry + [t] && KS.Create(k, t, prio).idle == k.idle
  {
  }

  // ---------------------------------------------------------------- deletion

  lemma RingsWithout(rings: seq<seq<Addr>>, tasks: map<Addr, KS.Tcb>, t: Addr)
    requires KS.RingsPlaced(rings, tasks) && t in tasks
    ensures tasks[t].bucket < |rings|
    ensures var r := KS.RingRemove(rings, tasks[t].bucket, t);
      forall p :: 0 <= p < |rings| ==> r[p] == Without(rings[p], t) && t !in r[p]
  {
    hide Without;
    forall p | 0 <= p < |rings|
      ensures t !in Without(rings[p], t) && (p != tasks[t].bucket ==> Without(rings[p], t) == rings[p])
    {
      WithoutMembers(rings[p], t);
      WithoutAbsent(rings[p], t);
    }
  }

  lemma WaitsWithout(k: KS.Kernel, t: Addr)
    requires KS.WaitsPlaced(k.waits, k.tasks) && t in k.tasks && KS.TcbOk(k.tasks[t])
    ensures var r := if k.tasks[t].state == KS.Blocked then KS.Unlink(k, t) else k.waits;
      r.Keys == k.waits.Keys && forall w :: w in k.waits ==> r[w] == Without(k.waits[w], t) && t !in r[w]
  {
    hide Without;
    forall w | w in k.waits
      ensures t !in Without(k.waits[w], t) && (t !in k.waits[w] ==> Without(k.waits[w], t) == k.waits[w])
    {
      WithoutMembers(k.waits[w], t);
      WithoutAbsent(k.waits[w], t);
    }
  }

  lemma PlacedTcb(k: KS.Kernel, t: Addr)
    requires KS.Placed(k) && t in k.tasks
    ensures KS.TcbOk(k.tasks[t]) && NoDup(k.registry)
  {
  }

  /** A deleted task is nowhere, and every list keeps its other members in order. */
  lemma DeleteLists(k: KS.Kernel, t: Addr)
    requires KS.Placed(k) && t in k.tasks && t != k.idle && t != k.current
    ensures k.tasks[t].bucket < |k.rings|
    ensures var k' := KS.Delete(k, t);
      && t !in k'.tasks && k'.registry == Without(k.registry, t) && t !in k'.registry
      && |k'.rings| == |k.rings|
      && (forall p :: 0 <= p < |k.rings| ==> k'.rings[p] == Without(k.rings[p], t) && t !in k'.rings[p])
      && k'.waits.Keys == k.waits.Keys
      && (forall w :: w in k.waits ==> k'.waits[w] == Without(k.waits[w], t) && t !in k'.waits[w])
  {
    hide KS.RingsPlaced, KS.WaitsPlaced, KS.TasksOk, KS.RegistryOk, Without, KS.TcbOk, KS.Unlink, KS.RingRemove;
    PlacedTcb(k, t);
    WithoutMembers(k.registry, t);
    RingsWithout(k.rings, k.tasks, t);
    WaitsWithout(k, t);
  }

  lemma WithoutAbsent(list: seq<Addr>, t: Addr)
    ensures t !in list ==> Without(list, t) == list
  {
  }

  lemma MemoryShrinks(l: Layout, registry: seq<Addr>, idle: Addr, live: map<nat, nat>, stacks: map<Addr, Addr>, t: Addr)
    requires MemoryOk(l, registry, idle, live, stacks) && NoDup(registry) && t in stacks
    ensures Held(l, live, t) && Held(l, live, stacks[t])
    ensures MemoryOk(l, Without(registry, t), idle, live - {OffOf(l, stacks[t])} - {OffOf(l, t)}, stacks - {t})
  {
    hide Without;
    WithoutMembers(registry, t);
  }

  /** The memory half of a deletion. */
  lemma FreedBlocks(l: Layout, h: Heap, a: nat, b: nat, x: int)
    requires HeapOk(h) && a in h.live && b in h.live && a != b
    ensures var h' := Free(Free(h, b), a);
      && HeapOk(h') && h'.live == h.live - {b} - {a}
      && (Covers(h'.free, x) <==>
            Covers(h.free, x) || Inside(x, Block(a, h.live[a])) || Inside(x, Block(b, h.live[b])))
  {
    hide HeapOk, Covers, Coalesce;
    FreeKeepsHeap(h, b);
    FreeKeepsHeap(Free(h, b), a);
    FreeCovers(h, b, x);
    FreeCovers(Free(h, b), a, x);
  }

  /** Deleting a task that owns no mutex keeps the system well formed. */
  lemma DeleteKeepsSystem(l: Layout, s: System, t: Addr)
    requires SystemOk(l, s) && (t != NULL ==> t in s.k.tasks && OwnsNothing(s.k.mutexes, t))
    ensures SystemOk(l, TaskDelete(l, s, t).0)
  {
    hide KS.Inv, HeapOk, MemoryOk, KS.Delete, Free;
    if t != NULL && t != s.k.idle && t != s.k.current {
      BlocksOf(l, s, t);
      RegistryOkOf(s.k);
      DeleteLists(s.k, t);
      DeleteKeepsInv(s.k, t);
      DeleteIdle(s.k, t);
      MemoryShrinks(l, s.k.registry, s.k.idle, s.h.live, s.stacks, t);
      FreedBlocks(l, s.h, OffOf(l, t), OffOf(l, s.stacks[t]), 0);
    }
  }

  lemma RegistryOkOf(k: KS.Kernel)
    requires KS.Inv(k)
    ensures KS.Placed(k) && NoDup(k.registry)
  {
  }

  lemma DeleteIdle(k: KS.Kernel, t: Addr)
    requires t in k.tasks && k.tasks[t].bucket < |k.rings|
    ensures KS.Delete(k, t).idle == k.idle
  {
  }

  /** Byte x is in the control block or the stack of task t. */
  ghost predicate InBlocks(l: Layout, live: map<nat, nat>, stacks: map<Addr, Addr>, t: Addr, x: int) {
    && t in stacks && Held(l, live, t) && Held(l, live, stacks[t])
    && (Inside(x, Block(OffOf(l, t), live[OffOf(l, t)])) || Inside(x, Block(OffOf(l, stacks[t]), live[OffOf(l, stacks[t])])))
  }

  /** A successful deletion frees exactly the task's two blocks. */
  lemma DeleteFreesBlocks(l: Layout, s: System, t: Addr, x: int)
    requires SystemOk(l, s) && t in s.k.tasks && t != NULL && t != s.k.idle && t != s.k.current
    ensures var h' := TaskDelete(l, s, t).0.h;
      Covers(h'.free, x) <==> Covers(s.h.free, x) || InBlocks(l, s.h.live, s.stacks, t, x)
  {
    hide KS.Inv, HeapOk, MemoryOk, KS.Delete, Free, Covers;
    BlocksOf(l, s, t);
    FreedBlocks(l, s.h, OffOf(l, t), OffOf(l, s.stacks[t]), x);
  }

  // ---------------------------------------------------------------- create, then delete

  lemma WithoutLast(list: seq<Addr>, t: Addr)
    requires t !in list
    ensures Without(list + [t], t) == list
  {
    var r := list + [t];
    assert r[|list|] == t;
    assert IndexOf(r, t) == |list|;
  }

  lemma AbsentFacts(k: KS.Kernel, t: Addr)
    requires KS.Placed(k) && t !in k.tasks && t != NULL
    ensures |k.rings| == NUM_PRIORITIES && t !in k.registry && t != k.idle && t != k.current
    ensures forall p :: 0 <= p < |k.rings| ==> t !in k.rings[p]
  {
  }

  /** Deleting a task that was just created restores the kernel. */
  lemma CreateDelete(k: KS.Kernel, t: Addr, prio: nat)
    requires KS.Placed(k) && t !in k.tasks && t != NULL && |k.registry| < MAX_TASKS
    ensures |k.rings| == NUM_PRIORITIES
    ensures var k' := KS.Create(k, t, prio);
      t in k'.tasks && k'.tasks[t].bucket < |k'.rings| && KS.Delete(k', t) == k
  {
    hide KS.Placed, Without, Bucket;
    AbsentFacts(k, t);
    var k' := KS.Create(k, t, prio);
    var b := Bucket(prio);
    WithoutLast(k.rings[b], t);
    WithoutLast(k.registry, t);
    assert KS.RingRemove(k'.rings, b, t) == k.rings;
    assert k'.tasks - {t} == k.tasks;
  }

  lemma StacksAreTasks(l: Layout, s: System, t: Addr)
    requires SystemOk(l, s) && t !in s.k.tasks
    ensures t !in s.stacks
  {
    hide KS.Inv, HeapOk;
    RegistryFacts(s.k);
  }

  /** Creating a task and deleting it again restores the kernel and the free bytes. */
  lemma SystemCreateDelete(l: Layout, s: System, hasFunction: bool, prio: nat, stackSize: nat, x: int)
    requires SystemOk(l, s) && !CreateClash(l, s, hasFunction, stackSize) && prio < PRIORITY_LIMIT && |s.k.rings| == NUM_PRIORITIES
    requires TaskCreate(l, s, hasFunction, prio, stackSize).1 != NULL
    ensures var (s', t) := TaskCreate(l, s, hasFunction, prio, stackSize);
      && SystemOk(l, s') && t in s'.k.tasks
      && var s'' := TaskDelete(l, s', t).0;
        && s''.k == s.k && s''.stacks == s.stacks && HeapOk(s''.h) && s''.h.live == s.h.live
        && (0 <= x < POOL_SIZE ==> (Covers(s''.h.free, x) <==> Covers(s.h.free, x)))
  {
    hide KS.Inv, HeapOk, MemoryOk, TaskCreate, KS.Create, KS.Delete, KS.Placed, Free, Covers;
    var (s', t) := TaskCreate(l, s, hasFunction, prio, stackSize);
    CreateKeepsSystem(l, s, hasFunction, prio, stackSize);
    TakenBlocks(l, s, hasFunction, prio, stackSize);
    RegistryOkOf(s.k);
    CreateDelete(s.k, t, prio);
    CreateIdle(s.k, t, prio);
    StacksAreTasks(l, s, t);
    BlocksOf(l, s', t);
    var a, b := OffOf(l, t), OffOf(l, s'.stacks[t]);
    FreedBlocks(l, s'.h, a, b, x);
    assert s'.h.live - {b} - {a} == s.h.live;
    assert s'.stacks - {t} == s.stacks;
    if 0 <= x < POOL_SIZE {
      SameLiveSameFree(s.h, TaskDelete(l, s', t).0.h, x);
    }
  }

  lemma CreateIdle(k: KS.Kernel, t: Addr, prio: nat)
    requires |k.rings| == NUM_PRIORITIES && KS.Placed(k) && t !in k.tasks && t != NULL
    ensures KS.Create(k, t, prio).idle == k.idle != t && KS.Create(k, t, prio).current == k.current != t
  {
  }

  /** The blocks in use decide which bytes are free. */
  lemma SameLiveSameFree(h: Heap, h': Heap, x: int)
    requires HeapOk(h) && HeapOk(h') && h.live == h'.live && 0 <= x < POOL_SIZE
    ensures Covers(h.free, x) <==> Covers(h'.free, x)
  {
  }
}
