/** task_create and task_delete in their own form, over the kernel's and the heap's memory. */
module TaskMemory {
  import opened Types
  import opened HeapModel
  import opened HeapPool
  import opened Machine
  import KS = KernelState
  import SM = SystemModel
  import FL = FreeList
  import OC = Outcomes

  class Board {
    const kernel: Rtos
    const pool: Pool
    const tcbSize: nat

    // The stack_base field of each control block.
    var stacks: map<Addr, Addr>

    ghost predicate Valid()
      reads this, kernel, kernel.readyHead, kernel.registry, pool, pool.words
    {
      && kernel.Valid() && pool.Valid() && pool.ready
      && pool.words != kernel.readyHead && pool.words != kernel.registry && kernel.readyHead != kernel.registry
    }

    function Place(): SM.Layout {
      SM.Layout(pool.base, tcbSize)
    }

    ghost function Abs(): SM.System
      reads this, kernel, kernel.registry, pool
      requires kernel.registryCount <= kernel.registry.Length
    {
      SM.System(kernel.Abs(), pool.heap, stacks)
    }

    constructor (kernel: Rtos, pool: Pool, tcbSize: nat)
      requires kernel.Valid() && pool.Valid() && pool.ready
      ensures Valid() && this.kernel == kernel && this.pool == pool && this.tcbSize == tcbSize && stacks == map[]
    {
      this.kernel, this.pool, this.tcbSize, stacks := kernel, pool, tcbSize, map[];
    }

    /** The two requests of task_create; on failure whatever was granted goes back. */
    method TakeBlocks(stackBytes: nat) returns (tcb: Addr, stack: Addr)
      requires pool.Valid() && pool.ready && SM.LayoutOk(Place())
      requires RequestOk(Take(pool.heap, tcbSize).0, stackBytes)
      modifies pool, pool.words
      ensures pool.Valid() && pool.ready
      ensures var (h1, g1) := Take(old(pool.heap), tcbSize);
        var (h2, g2) := Take(h1, stackBytes);
        if g1.Refused? || g2.Refused? then
          (tcb == NULL || stack == NULL) && pool.heap == SM.GiveBack(SM.GiveBack(h2, g1), g2)
        else
          tcb == Pointer(pool.base, g1) != NULL && stack == Pointer(pool.base, g2) != NULL && pool.heap == h2
    {
      hide HeapOk, Linked, Alloc, HeapModel.Free;
      SM.SmallTotal(tcbSize);
      SM.TakeFacts(pool.heap, tcbSize);
      SM.TakeFacts(Take(pool.heap, tcbSize).0, stackBytes);
      tcb := pool.Alloc(tcbSize);
      stack := pool.Alloc(stackBytes);
      if tcb == NULL || stack == NULL {
        pool.Free(tcb);
        pool.Free(stack);
      }
    }

    /** The two releases of task_delete. */
    method ReleaseBlocks(tcb: Addr, stack: Addr)
      requires pool.Valid() && pool.ready && pool.base > 0
      requires SM.Held(Place(), pool.heap.live, tcb) && SM.Held(Place(), pool.heap.live, stack) && tcb != stack
      modifies pool, pool.words
      ensures pool.Valid() && pool.ready
      ensures var a, b := SM.OffOf(Place(), tcb), SM.OffOf(Place(), stack);
        a in old(pool.heap).live && b in old(pool.heap).live && a != b
        && pool.heap == HeapModel.Free(HeapModel.Free(old(pool.heap), b), a)
    {
      hide HeapOk, Pool.Threaded, FL.Coalesce;
      pool.Free(stack);
      pool.Free(tcb);
    }

    /** task_create. */
    method TaskCreate(hasFunction: bool, prio: nat, stackSize: nat) returns (t: Addr)
      requires Valid() && SM.SystemOk(Place(), Abs()) && prio < PRIORITY_LIMIT
      requires !SM.CreateClash(Place(), Abs(), hasFunction, stackSize)
      modifies this, kernel, kernel.readyHead, kernel.registry, pool, pool.words
      ensures Valid() && |old(kernel.rings)| == NUM_PRIORITIES
      ensures Abs() == SM.TaskCreate(Place(), old(Abs()), hasFunction, prio, stackSize).0
      ensures t == SM.TaskCreate(Place(), old(Abs()), hasFunction, prio, stackSize).1
      ensures t != NULL ==> t !in old(kernel.tasks) && OC.Created(old(kernel.Abs()), kernel.Abs(), t, prio)
    {
      hide OC.Created;
      hide HeapOk, KS.Inv, SM.MemoryOk, KS.Placed, KS.Create, Take, RequestOk, SM.GiveBack, SM.CreateClash;
      hide Rtos.RingsLinked, Rtos.WaitsLinked, Pool.Threaded;
      ghost var s := Abs();
      SM.CreateKeepsSystem(Place(), s, hasFunction, prio, stackSize);
      SM.RegistryOkOf(s.k);
      SM.NoClash(Place(), s, hasFunction, stackSize);
      if !hasFunction || stackSize < SM.MIN_STACK || kernel.registryCount >= MAX_TASKS {
        return NULL;
      }
      var bytes := (stackSize + 7) % U32_MOD / 8 * 8;
      var tcb, stack := TakeBlocks(bytes);
      if tcb == NULL || stack == NULL {
        return NULL;
      }
      stacks := stacks[tcb := stack];
      OC.CreateOutcome(s.k, tcb, prio);
      var _ := kernel.CreateTask(tcb, prio);
      t := tcb;
    }

    /** task_delete. */
    method TaskDelete(t: Addr) returns (r: Status)
      requires Valid() && SM.SystemOk(Place(), Abs()) && (t != NULL ==> t in kernel.tasks)
      modifies this, kernel, kernel.readyHead, kernel.registry, pool, pool.words
      ensures Valid()
      ensures Abs() == SM.TaskDelete(Place(), old(Abs()), t).0
      ensures r == SM.TaskDelete(Place(), old(Abs()), t).1
    {
      hide HeapOk, KS.Inv, SM.MemoryOk, KS.Delete, HeapModel.Free, Rtos.RingsLinked, Rtos.WaitsLinked, Pool.Threaded;
      ghost var s := Abs();
      SM.RegistryOkOf(s.k);
      if t == NULL {
        return ErrParam;
      }
      if t == kernel.idle || t == kernel.current {
        return ErrState;
      }
      SM.BlocksOf(Place(), s, t);
      kernel.Erase(t);
      ReleaseBlocks(t, stacks[t]);
      stacks := stacks - {t};
      r := Ok;
    }
  }
}
