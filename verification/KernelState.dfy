/** The kernel as a value: one record for everything its critical sections read and
    write, with every ring and wait list as the sequence it stands for.  Each function
    below is one critical section, or a piece of one. */
module KernelState {
  import opened Types
  import opened Lists
  import opened MessageQueue

  datatype TaskState = Ready | Running | Blocked

  /** Names a wait list.  Each mutex and semaphore has one; a queue has one per direction. */
  datatype WaitKey = MutexQ(id: nat) | SemQ(id: nat) | SendQ(id: nat) | RecvQ(id: nat)

  /** block_reason together with block_object. */
  datatype BlockOn = NotBlocked | Sleeping | Waiting(on: WaitKey)

  /** Where a task will continue when it next runs: in its own code, after the block inside
      task_delay, or after the block inside the retry loop of a blocking call. */
  datatype Call = NoCall | InDelay | InCall(on: WaitKey, timeout: nat, msg: seq<Byte>)

  datatype Tcb = Tcb(
    prio: nat,
    base: nat,
    bucket: nat,
    state: TaskState,
    block: BlockOn,
    wakeStatus: Status,
    wakeTime: nat,
    call: Call)

  datatype Mutex = Mutex(locked: bool, owner: Addr)

  datatype Semaphore = Semaphore(count: nat, maxCount: nat)

  datatype Kernel = Kernel(
    tasks: map<Addr, Tcb>,
    rings: seq<seq<Addr>>,
    waits: map<WaitKey, seq<Addr>>,
    mutexes: map<nat, Mutex>,
    sems: map<nat, Semaphore>,
    queues: map<nat, Queue>,
    registry: seq<Addr>,
    current: Addr,
    idle: Addr,
    tick: nat)

  // ---------------------------------------------------------------- invariants

  /** A task is in the ring of its bucket exactly when it is not blocked, and in no other. */
  ghost predicate RingsPlaced(rings: seq<seq<Addr>>, tasks: map<Addr, Tcb>) {
    && |rings| == NUM_PRIORITIES
    && (forall p :: 0 <= p < |rings| ==> NoDup(rings[p]))
    && (forall p, t :: 0 <= p < |rings| && t in rings[p] ==>
          t in tasks && tasks[t].state != Blocked && tasks[t].bucket == p)
    && (forall t :: t in tasks ==> tasks[t].bucket < |rings|)
    && (forall t :: t in tasks && tasks[t].state != Blocked ==> t in rings[tasks[t].bucket])
  }

  /** A task is in a wait list exactly when it is blocked on that list's object. */
  ghost predicate WaitsPlaced(waits: map<WaitKey, seq<Addr>>, tasks: map<Addr, Tcb>) {
    && (forall w :: w in waits ==> NoDup(waits[w]))
    && (forall w, t :: w in waits && t in waits[w] ==> t in tasks && tasks[t].block == Waiting(w))
    && (forall t :: t in tasks && tasks[t].block.Waiting? ==>
          tasks[t].block.on in waits && t in waits[tasks[t].block.on])
  }

  ghost predicate TcbOk(c: Tcb) {
    && c.prio < PRIORITY_LIMIT && c.base < PRIORITY_LIMIT
    && c.bucket == Bucket(c.prio)
    && (c.state == Blocked <==> c.block != NotBlocked)
    && (c.state == Blocked ==> c.wakeStatus == Ok)
    && (c.block == Sleeping ==> c.call == InDelay)
    && (c.block.Waiting? ==> c.call.InCall? && c.call.on == c.block.on)
    && (c.wakeStatus == Ok || c.wakeStatus == ErrTimeout)
  }

  ghost predicate TasksOk(tasks: map<Addr, Tcb>, current: Addr, idle: Addr) {
    && NULL !in tasks
    && (forall t :: t in tasks ==> TcbOk(tasks[t]))
    && (forall t :: t in tasks && tasks[t].state == Running ==> t == current)
    && (current == NULL || current in tasks)
    && idle in tasks && IdleOk(tasks[idle])
  }

  ghost predicate IdleOk(c: Tcb) {
    c.prio == c.base == PRIORITY_LIMIT - 1 && c.state != Blocked && c.call == NoCall
  }

  ghost predicate RegistryOk(registry: seq<Addr>, tasks: map<Addr, Tcb>) {
    && NoDup(registry)
    && |registry| <= MAX_TASKS
    && (forall t :: t in registry <==> t in tasks)
  }

  /** There is a wait list for every object, and for nothing else. */
  ghost predicate KeysOk(k: Kernel) {
    && (forall m :: MutexQ(m) in k.waits <==> m in k.mutexes)
    && (forall s :: SemQ(s) in k.waits <==> s in k.sems)
    && (forall q :: SendQ(q) in k.waits <==> q in k.queues)
    && (forall q :: RecvQ(q) in k.waits <==> q in k.queues)
  }

  /** A call names an existing object, and a message to send has the queue's size. */
  ghost predicate CallOk(c: Call, waits: map<WaitKey, seq<Addr>>, queues: map<nat, Queue>) {
    c.InCall? ==>
      && c.on in waits
      && (c.on.SendQ? ==> c.on.id in queues && |c.msg| == queues[c.on.id].msgSize)
  }

  ghost predicate CallsOk(tasks: map<Addr, Tcb>, waits: map<WaitKey, seq<Addr>>, queues: map<nat, Queue>) {
    forall t :: t in tasks ==> CallOk(tasks[t].call, waits, queues)
  }

  /** A mutex is locked exactly while it has an owner, and nobody waits for an unlocked one. */
  ghost predicate MutexesOk(
    mutexes: map<nat, Mutex>, waits: map<WaitKey, seq<Addr>>, tasks: map<Addr, Tcb>, idle: Addr)
  {
    forall m :: m in mutexes && MutexQ(m) in waits ==> MutexOk(mutexes[m], waits[MutexQ(m)], tasks, idle)
  }

  ghost predicate MutexOk(mu: Mutex, ws: seq<Addr>, tasks: map<Addr, Tcb>, idle: Addr) {
    && (mu.locked <==> mu.owner != NULL)
    && (mu.locked ==> mu.owner in tasks && mu.owner != idle)
    && (ws != [] ==> mu.locked)
    && mu.owner !in ws
  }

  /** A task that is past its wait inside mutex_lock owns the mutex unless it timed out. */
  ghost predicate HandoffsOk(mutexes: map<nat, Mutex>, tasks: map<Addr, Tcb>) {
    forall t :: t in tasks ==> HandoffOk(mutexes, t, tasks[t])
  }

  ghost predicate HandoffOk(mutexes: map<nat, Mutex>, t: Addr, c: Tcb) {
    c.state != Blocked && c.call.InCall? && c.call.on.MutexQ? && c.call.on.id in mutexes ==>
      (c.wakeStatus == Ok <==> mutexes[c.call.on.id].owner == t)
  }

  ghost predicate CountsOk(sems: map<nat, Semaphore>, queues: map<nat, Queue>) {
    && (forall s :: s in sems ==> sems[s].count <= sems[s].maxCount)
    && (forall q :: q in queues ==> QueueOk(queues[q]))
  }

  /** Where every task is. */
  ghost predicate Placed(k: Kernel) {
    && RingsPlaced(k.rings, k.tasks)
    && WaitsPlaced(k.waits, k.tasks)
    && TasksOk(k.tasks, k.current, k.idle)
    && RegistryOk(k.registry, k.tasks)
  }

  ghost predicate Inv(k: Kernel) {
    && Placed(k)
    && KeysOk(k)
    && CallsOk(k.tasks, k.waits, k.queues)
    && MutexesOk(k.mutexes, k.waits, k.tasks, k.idle)
    && HandoffsOk(k.mutexes, k.tasks)
    && CountsOk(k.sems, k.queues)
  }

  // ---------------------------------------------------------------- scheduler

  function SetTask(k: Kernel, t: Addr, c: Tcb): Kernel {
    k.(tasks := k.tasks[t := c])
  }

  function RingAdd(rings: seq<seq<Addr>>, p: nat, t: Addr): (r: seq<seq<Addr>>)
    requires p < |rings|
    ensures |r| == |rings|
  {
    rings[p := rings[p] + [t]]
  }

  function RingRemove(rings: seq<seq<Addr>>, p: nat, t: Addr): (r: seq<seq<Addr>>)
    requires p < |rings|
    ensures |r| == |rings|
  {
    rings[p := Without(rings[p], t)]
  }

  /** What _ring_insert makes of a ring: a new task joins at the tail; a task that is in it already gets
      the tail's link and points at the head, which cuts off the tasks behind it. */
  function Inserted(ring: seq<Addr>, t: Addr): seq<Addr> {
    if t in ring then ring[..IndexOf(ring, t) + 1] else ring + [t]
  }

  function RingInsert(rings: seq<seq<Addr>>, p: nat, t: Addr): (r: seq<seq<Addr>>)
    requires p < |rings|
    ensures |r| == |rings|
    ensures t !in rings[p] ==> r == RingAdd(rings, p, t)
  {
    rings[p := Inserted(rings[p], t)]
  }

  /** Sets a task's priority and bucket; only a READY task changes rings. */
  function SetPriority(k: Kernel, t: Addr, p: nat): Kernel
    requires t in k.tasks && |k.rings| == NUM_PRIORITIES && k.tasks[t].bucket < NUM_PRIORITIES
  {
    var c := k.tasks[t];
    var k1 := SetTask(k, t, c.(prio := p, bucket := Bucket(p)));
    if c.bucket == Bucket(p) || c.state != Ready then k1
    else k1.(rings := RingAdd(RingRemove(k.rings, c.bucket, t), Bucket(p), t))
  }

  /** The lowest-numbered ring that is not empty, or the number of rings. */
  function FirstOccupied(rings: seq<seq<Addr>>): (p: nat)
    ensures p <= |rings|
    ensures p < |rings| ==> rings[p] != []
    ensures forall q :: 0 <= q < p ==> rings[q] == []
  {
    if rings == [] || rings[0] != [] then 0 else 1 + FirstOccupied(rings[1..])
  }

  function Preempt(k: Kernel): Kernel {
    if k.current in k.tasks && k.tasks[k.current].state == Running then
      SetTask(k, k.current, k.tasks[k.current].(state := Ready))
    else
      k
  }

  /** Runs the head of ring p and moves it to the tail. */
  function Select(k: Kernel, p: nat): Kernel
    requires p < |k.rings| && k.rings[p] != [] && k.rings[p][0] in k.tasks
  {
    var sel := k.rings[p][0];
    SetTask(k, sel, k.tasks[sel].(state := Running))
    .(rings := k.rings[p := k.rings[p][1..] + [sel]], current := sel)
  }

  /** scheduler_get_next, with its fallback to the idle task when every ring is empty. */
  function Dispatch(k: Kernel): Kernel
    requires forall p, t :: 0 <= p < |k.rings| && t in k.rings[p] ==> t in k.tasks
    requires k.idle in k.tasks
  {
    var k1 := Preempt(k);
    var p := FirstOccupied(k1.rings);
    if p < |k1.rings| then
      assert k1.rings[p][0] in k.rings[p];
      Select(k1, p)
    else
      SetTask(k1, k.idle, k1.tasks[k.idle].(state := Running)).(current := k.idle)
  }

  // ---------------------------------------------------------------- blocking and waking

  function Enqueue(k: Kernel, w: WaitKey, t: Addr): Kernel
    requires w in k.waits
  {
    k.(waits := k.waits[w := k.waits[w] + [t]])
  }

  /** rtos_block_current up to the point where the caller stops running. */
  function BlockCurrent(k: Kernel, b: BlockOn, timeout: nat, call: Call): Kernel
    requires k.current in k.tasks && k.tasks[k.current].bucket < |k.rings|
  {
    var c := k.tasks[k.current];
    SetTask(k, k.current, c.(state := Blocked, block := b, wakeStatus := Ok,
                             wakeTime := Deadline(k.tick, timeout), call := call))
    .(rings := RingRemove(k.rings, c.bucket, k.current))
  }

  function Unlink(k: Kernel, t: Addr): map<WaitKey, seq<Addr>>
    requires t in k.tasks
  {
    var b := k.tasks[t].block;
    if b.Waiting? && b.on in k.waits then k.waits[b.on := Without(k.waits[b.on], t)] else k.waits
  }

  /** Takes a blocked task off its wait list, if any, and to the tail of its ring. */
  function Wake(k: Kernel, t: Addr, status: Status): Kernel
    requires t in k.tasks && k.tasks[t].bucket < |k.rings|
  {
    var c := k.tasks[t];
    SetTask(k, t, c.(state := Ready, block := NotBlocked, wakeStatus := status))
    .(waits := Unlink(k, t), rings := RingAdd(k.rings, c.bucket, t))
  }

  /** Wakes the first waiter, if there is one; its block_wake_status is left as it was. */
  function WakeHead(k: Kernel, w: WaitKey): Kernel
    requires w in k.waits && RingsPlaced(k.rings, k.tasks) && WaitsPlaced(k.waits, k.tasks)
  {
    if k.waits[w] == [] then k
    else var t := k.waits[w][0]; Wake(k, t, k.tasks[t].wakeStatus)
  }

  /** The caller of the current API function returns to its own code. */
  function Return(k: Kernel): Kernel
    requires k.current in k.tasks
  {
    SetTask(k, k.current, k.tasks[k.current].(call := NoCall))
  }

  // ---------------------------------------------------------------- mutex

  /** The least priority value among the waiters. */
  function MinPrio(tasks: map<Addr, Tcb>, ws: seq<Addr>): (p: nat)
    requires ws != [] && forall t :: t in ws ==> t in tasks
    ensures forall t :: t in ws ==> p <= tasks[t].prio
    ensures exists t :: t in ws && tasks[t].prio == p
  {
    if |ws| == 1 then tasks[ws[0]].prio
    else
      var rest := MinPrio(tasks, ws[1..]);
      assert forall t :: t in ws <==> t == ws[0] || t in ws[1..];
      if tasks[ws[0]].prio < rest then tasks[ws[0]].prio else rest
  }

  /** The position of the earliest-enqueued waiter of least priority value. */
  function Best(tasks: map<Addr, Tcb>, ws: seq<Addr>): (b: nat)
    requires ws != [] && forall t :: t in ws ==> t in tasks
    ensures b < |ws|
    ensures forall j :: 0 <= j < |ws| ==> tasks[ws[b]].prio <= tasks[ws[j]].prio
    ensures forall j :: 0 <= j < b ==> tasks[ws[b]].prio < tasks[ws[j]].prio
  {
    if |ws| == 1 then 0
    else
      var rest := Best(tasks, ws[1..]);
      if tasks[ws[1..][rest]].prio < tasks[ws[0]].prio then 1 + rest else 0
  }

  /** Raises the owner to priority p; never lowers it. */
  function Boost(k: Kernel, owner: Addr, p: nat): Kernel
    requires owner in k.tasks && k.tasks[owner].bucket < NUM_PRIORITIES && |k.rings| == NUM_PRIORITIES
  {
    if p < k.tasks[owner].prio then SetPriority(k, owner, p) else k
  }

  /** The least priority value among the waiters of a mutex once the caller has joined them. */
  function Demand(k: Kernel, m: nat): (p: nat)
    requires WaitsPlaced(k.waits, k.tasks) && k.current in k.tasks && MutexQ(m) in k.waits
  {
    MinPrio(k.tasks, k.waits[MutexQ(m)] + [k.current])
  }

  function Lock(k: Kernel, m: nat, timeout: nat, msg: seq<Byte>): Kernel
    requires Inv(k) && CanRun(k) && m in k.mutexes
  {
    var mu := k.mutexes[m];
    if mu.locked && mu.owner == k.current then Return(k)
    else if !mu.locked then Return(k).(mutexes := k.mutexes[m := Mutex(true, k.current)])
    else
      var k1 := Boost(k, mu.owner, Demand(k, m));
      BlockCurrent(Enqueue(k1, MutexQ(m), k.current), Waiting(MutexQ(m)), timeout,
                   InCall(MutexQ(m), timeout, msg))
  }

  /** Hands a mutex to the best waiter, or leaves it unlocked when nobody waits. */
  function PassOn(k: Kernel, m: nat): Kernel
    requires MutexQ(m) in k.waits
    requires forall t :: t in k.waits[MutexQ(m)] ==> t in k.tasks && k.tasks[t].bucket < |k.rings|
  {
    var ws := k.waits[MutexQ(m)];
    if ws == [] then k.(mutexes := k.mutexes[m := Mutex(false, NULL)])
    else
      var next := ws[Best(k.tasks, ws)];
      Wake(k, next, k.tasks[next].wakeStatus).(mutexes := k.mutexes[m := Mutex(true, next)])
  }

  function Unlock(k: Kernel, m: nat): Kernel
    requires Inv(k) && CanRun(k) && m in k.mutexes
  {
    if k.mutexes[m].owner != k.current then k
    else PassOn(SetPriority(k, k.current, k.tasks[k.current].base), m)
  }

  // ---------------------------------------------------------------- semaphore and queue

  function SemWait(k: Kernel, s: nat, timeout: nat, msg: seq<Byte>): Kernel
    requires Inv(k) && CanRun(k) && s in k.sems
  {
    var c := k.sems[s];
    if c.count > 0 then Return(k.(sems := k.sems[s := c.(count := c.count - 1)]))
    else BlockCurrent(Enqueue(k, SemQ(s), k.current), Waiting(SemQ(s)), timeout, InCall(SemQ(s), timeout, msg))
  }

  function Post(k: Kernel, s: nat): Kernel
    requires Inv(k) && s in k.sems
  {
    var c := k.sems[s];
    if c.count >= c.maxCount then k
    else WakeHead(k, SemQ(s)).(sems := k.sems[s := c.(count := c.count + 1)])
  }

  function Send(k: Kernel, q: nat, timeout: nat, msg: seq<Byte>): Kernel
    requires Inv(k) && CanRun(k) && q in k.queues && |msg| == k.queues[q].msgSize
  {
    if k.queues[q].count < k.queues[q].depth then
      Return(WakeHead(k, RecvQ(q)).(queues := k.queues[q := Put(k.queues[q], msg)]))
    else
      BlockCurrent(Enqueue(k, SendQ(q), k.current), Waiting(SendQ(q)), timeout, InCall(SendQ(q), timeout, msg))
  }

  function Recv(k: Kernel, q: nat, timeout: nat, msg: seq<Byte>): Kernel
    requires Inv(k) && CanRun(k) && q in k.queues
  {
    if k.queues[q].count > 0 then
      Return(WakeHead(k, SendQ(q)).(queues := k.queues[q := Get(k.queues[q]).1]))
    else
      BlockCurrent(Enqueue(k, RecvQ(q), k.current), Waiting(RecvQ(q)), timeout, InCall(RecvQ(q), timeout, msg))
  }

  /** The current task executes its own code or a call it makes; idle makes none. */
  ghost predicate CanRun(k: Kernel) {
    k.current in k.tasks && k.tasks[k.current].state == Running && k.current != k.idle
  }

  /** One turn of the retry loop of the call that waits on w. */
  function Enter(k: Kernel, w: WaitKey, timeout: nat, msg: seq<Byte>): Kernel
    requires Inv(k) && CanRun(k) && CallOk(InCall(w, timeout, msg), k.waits, k.queues)
  {
    match w
    case MutexQ(m) => Lock(k, m, timeout, msg)
    case SemQ(s) => SemWait(k, s, timeout, msg)
    case SendQ(q) => Send(k, q, timeout, msg)
    case RecvQ(q) => Recv(k, q, timeout, msg)
  }

  /** The current task comes back from rtos_block_current. */
  function Resume(k: Kernel): Kernel
    requires Inv(k) && CanRun(k)
  {
    var c := k.tasks[k.current];
    if c.call.InCall? && c.wakeStatus != ErrTimeout then Enter(k, c.call.on, c.call.timeout, c.call.msg)
    else Return(k)
  }

  // ---------------------------------------------------------------- time

  function Delay(k: Kernel, ticks: nat): Kernel
    requires k.current in k.tasks && k.tasks[k.current].bucket < |k.rings|
  {
    if ticks == 0 then k else BlockCurrent(k, Sleeping, ticks, InDelay)
  }

  predicate Due(k: Kernel, t: Addr)
    requires t in k.tasks
  {
    && t != k.idle
    && k.tasks[t].state == Blocked
    && k.tasks[t].wakeTime != U32_MAX
    && k.tasks[t].wakeTime <= k.tick
  }

  /** One turn of the registry scan: a due task wakes, with ErrTimeout unless it slept. */
  function WakeIfDue(k: Kernel, t: Addr): Kernel
    requires t in k.tasks && k.tasks[t].bucket < |k.rings|
  {
    if !Due(k, t) then k
    else Wake(k, t, if k.tasks[t].block == Sleeping then k.tasks[t].wakeStatus else ErrTimeout)
  }

  // ---------------------------------------------------------------- tasks

  function NewTcb(prio: nat): Tcb {
    Tcb(prio, prio, Bucket(prio), Ready, NotBlocked, Ok, U32_MAX, NoCall)
  }

  function Create(k: Kernel, t: Addr, prio: nat): Kernel
    requires |k.rings| == NUM_PRIORITIES
  {
    if |k.registry| >= MAX_TASKS then k
    else
      SetTask(k, t, NewTcb(prio))
      .(rings := RingAdd(k.rings, Bucket(prio), t), registry := k.registry + [t])
  }

  function Delete(k: Kernel, t: Addr): Kernel
    requires t in k.tasks && k.tasks[t].bucket < |k.rings|
  {
    if t == k.idle || t == k.current then k
    else
      k.(tasks := k.tasks - {t},
         waits := if k.tasks[t].state == Blocked then Unlink(k, t) else k.waits,
         rings := RingRemove(k.rings, k.tasks[t].bucket, t),
         registry := Without(k.registry, t))
  }
}
