/** The state after task_init, with any set of freshly initialised objects, and the results that
    hold of every run that starts there. */
module Boot {
  import opened Types
  import opened MessageQueue
  import opened KernelState
  import opened Runs
  import opened Inheritance
  import opened Wakeups
  import opened Timeouts

  datatype Objects = Objects(mutexes: set<nat>, sems: map<nat, Semaphore>, queues: map<nat, Queue>)

  ghost predicate ObjectsOk(o: Objects) {
    && (forall s :: s in o.sems ==> o.sems[s].count <= o.sems[s].maxCount)
    && (forall q :: q in o.queues ==> QueueOk(o.queues[q]) && o.queues[q].count == 0)
  }

  function WaitKeys(o: Objects): set<WaitKey> {
    (set m | m in o.mutexes :: MutexQ(m)) + (set s | s in o.sems :: SemQ(s))
    + (set q | q in o.queues :: SendQ(q)) + (set q | q in o.queues :: RecvQ(q))
  }

  function Booted(idle: Addr, o: Objects): Kernel {
    Kernel(
      map[idle := NewTcb(PRIORITY_LIMIT - 1)],
      [[], [], [], [], [], [], [], [idle]],
      map w | w in WaitKeys(o) :: [],
      map m | m in o.mutexes :: Mutex(false, NULL),
      o.sems,
      o.queues,
      [idle],
      NULL,
      idle,
      0)
  }

  ghost function NoHistory(o: Objects): History {
    map m | m in o.mutexes :: {}
  }

  lemma BootedRings(idle: Addr, rings: seq<seq<Addr>>, tasks: map<Addr, Tcb>)
    requires rings == [[], [], [], [], [], [], [], [idle]] && tasks == map[idle := NewTcb(PRIORITY_LIMIT - 1)]
    ensures RingsPlaced(rings, tasks)
  {
    assert Bucket(PRIORITY_LIMIT - 1) == 7;
    assert forall p :: 0 <= p < 7 ==> rings[p] == [];
    assert rings[7] == [idle];
  }

  lemma BootedKeys(idle: Addr, o: Objects)
    ensures KeysOk(Booted(idle, o))
  {
  }

  lemma BootedMutexes(idle: Addr, o: Objects)
    requires idle != NULL
    ensures var k := Booted(idle, o);
      && MutexesOk(k.mutexes, k.waits, k.tasks, k.idle) && HandoffsOk(k.mutexes, k.tasks)
      && ExactIn(k, NoHistory(o))
  {
  }

  lemma BootedTasks(idle: Addr, o: Objects)
    requires idle != NULL
    ensures var k := Booted(idle, o);
      && WaitsPlaced(k.waits, k.tasks) && TasksOk(k.tasks, k.current, k.idle) && RegistryOk(k.registry, k.tasks)
      && CallsOk(k.tasks, k.waits, k.queues) && NothingLost(k) && NotOverdue(k)
  {
    assert Bucket(PRIORITY_LIMIT - 1) == 7;
  }

  lemma BootedIsGood(idle: Addr, o: Objects)
    requires idle != NULL && ObjectsOk(o)
    ensures var k := Booted(idle, o);
      Inv(k) && NothingLost(k) && NotOverdue(k) && ExactIn(k, NoHistory(o))
    ensures var k := Booted(idle, o);
      && k.tasks.Keys == {idle} && k.tasks[idle].prio == k.tasks[idle].base == 255 && k.tasks[idle].state == Ready
      && k.tasks[idle].bucket == NUM_PRIORITIES - 1 && k.current == NULL && k.tick == 0
      && (forall m :: m in o.mutexes ==> k.mutexes[m] == Mutex(false, NULL))
  {
    hide RingsPlaced, WaitsPlaced, TasksOk, RegistryOk, KeysOk, CallsOk, MutexesOk, HandoffsOk;
    hide NothingLost, NotOverdue, ExactIn;
    var k := Booted(idle, o);
    BootedRings(idle, k.rings, k.tasks);
    BootedKeys(idle, o);
    BootedMutexes(idle, o);
    BootedTasks(idle, o);
  }

  /** From boot, through any run without nested locking: while a task waits for a mutex whose owner
      can run, the next dispatch takes no task of a lower-priority bucket than the waiter's. */
  lemma NoInversionInAnyRun(idle: Addr, o: Objects, acts: seq<Action>, m: nat, owner: Addr, waiter: Addr)
    requires idle != NULL && ObjectsOk(o)
    requires Inv(Booted(idle, o)) && LegalRun(Booted(idle, o), acts) && NonNestedRun(Booted(idle, o), acts)
    requires var k := Exec(Booted(idle, o), acts);
      && m in k.mutexes && owner == k.mutexes[m].owner && owner in k.tasks && k.tasks[owner].state != Blocked
      && waiter in k.tasks && k.tasks[waiter].block == Waiting(MutexQ(m))
    ensures Legal(Exec(Booted(idle, o), acts), Action.Dispatch)
    ensures var k := Exec(Booted(idle, o), acts);
      var k' := Step(k, Action.Dispatch);
      k'.current in k'.tasks && k'.tasks[k'.current].bucket <= k.tasks[waiter].bucket
  {
    hide Inv, LegalRun, NonNestedRun, Booted, NoHistory;
    BootedIsGood(idle, o);
    InheritanceIsExact(Booted(idle, o), acts, NoHistory(o));
    var k := Exec(Booted(idle, o), acts);
    NoInversion(k, HistoryAfter(Booted(idle, o), acts, NoHistory(o)), m, owner, waiter);
  }
}
