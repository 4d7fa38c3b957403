/** Runs of the kernel: sequences of critical sections, tick interrupts and dispatches in any
    order the guards allow, and the invariant over all of them. */
module Runs {
  import opened Types
  import opened KernelState
  import opened Steps

  /** Invoke is the first turn of mutex_lock, semaphore_wait, msg_queue_send or msg_queue_recv;
      Resume is what the running task does after it was woken inside a blocking call. */
  datatype Action =
    | Invoke(on: WaitKey, timeout: nat, msg: seq<Byte>)
    | Resume
    | Unlock(m: nat)
    | Post(s: nat)
    | Delay(ticks: nat)
    | Tick
    | Dispatch
    | Create(t: Addr, prio: nat)
    | Delete(t: Addr)

  ghost predicate OwnsNothing(mutexes: map<nat, Mutex>, t: Addr) {
    forall m :: m in mutexes ==> mutexes[m].owner != t
  }

  /** When a step may be taken.  Calls come from the running task, other than idle, outside any
      call in progress.  An unlock must not move its caller to another bucket.  A deleted task
      must not own a mutex. */
  ghost predicate Legal(k: Kernel, a: Action) {
    match a
    case Invoke(w, timeout, msg) =>
      CanRun(k) && k.tasks[k.current].call == NoCall && CallOk(InCall(w, timeout, msg), k.waits, k.queues)
    case Resume => CanRun(k) && k.tasks[k.current].call != NoCall
    case Unlock(m) =>
      && CanRun(k) && k.tasks[k.current].call == NoCall && m in k.mutexes
      && (k.mutexes[m].owner == k.current ==> Bucket(k.tasks[k.current].base) == k.tasks[k.current].bucket)
    case Post(s) => s in k.sems
    case Delay(_) => CanRun(k) && k.tasks[k.current].call == NoCall
    case Tick => true
    case Dispatch => true
    case Create(t, prio) => t !in k.tasks && t != NULL && prio < PRIORITY_LIMIT
    case Delete(t) => t in k.tasks && OwnsNothing(k.mutexes, t)
  }

  /** The rest of the registry scan of rtos_wake_delayed. */
  function ScanFrom(k: Kernel, i: nat): (k': Kernel)
    requires Inv(k) && i <= |k.registry|
    ensures Inv(k') && k'.registry == k.registry && k'.tick == k.tick
    ensures k'.mutexes == k.mutexes && k'.sems == k.sems && k'.queues == k.queues
    ensures k'.current == k.current && k'.idle == k.idle
    decreases |k.registry| - i
  {
    if i == |k.registry| then k
    else
      assert k.registry[i] in k.registry;
      WakeIfDueKeepsInv(k, k.registry[i]);
      ScanFrom(WakeIfDue(k, k.registry[i]), i + 1)
  }

  function NextTick(k: Kernel): Kernel {
    k.(tick := (k.tick + 1) % U32_MOD)
  }

  /** The kernel part of SysTick_Handler. */
  function TickStep(k: Kernel): (k': Kernel)
    requires Inv(k)
    ensures Inv(k') && k'.registry == k.registry
  {
    ScanFrom(NextTick(k), 0)
  }

  /** Every step keeps the invariant. */
  function Step(k: Kernel, a: Action): (k': Kernel)
    requires Inv(k) && Legal(k, a)
    ensures Inv(k')
  {
    match a
    case Invoke(w, timeout, msg) => EnterKeepsInv(k, w, timeout, msg); Enter(k, w, timeout, msg)
    case Resume => ResumeKeepsInv(k); KernelState.Resume(k)
    case Unlock(m) => UnlockKeepsInv(k, m); KernelState.Unlock(k, m)
    case Post(s) => PostKeepsInv(k, s); KernelState.Post(k, s)
    case Delay(n) => DelayKeepsInv(k, n); KernelState.Delay(k, n)
    case Tick => TickStep(k)
    case Dispatch => DispatchKeepsInv(k); KernelState.Dispatch(k)
    case Create(t, prio) => CreateKeepsInv(k, t, prio); KernelState.Create(k, t, prio)
    case Delete(t) => DeleteKeepsInv(k, t); KernelState.Delete(k, t)
  }

  ghost predicate LegalRun(k: Kernel, acts: seq<Action>)
    requires Inv(k)
    decreases |acts|
  {
    hide Inv, Legal, Step;
    acts != [] ==> Legal(k, acts[0]) && LegalRun(Step(k, acts[0]), acts[1..])
  }

  /** The state at the end of a run; the invariant holds there whatever the run. */
  function Exec(k: Kernel, acts: seq<Action>): (k': Kernel)
    requires Inv(k) && LegalRun(k, acts)
    ensures Inv(k')
    decreases |acts|
  {
    hide Inv, Legal, Step;
    if acts == [] then k else Exec(Step(k, acts[0]), acts[1..])
  }
}
