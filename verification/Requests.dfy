/** What each task asked for when it called, and that the kernel goes by it until the call is over; who owns
    a mutex, and how that changes. */
module Requests {
  import opened Types
  import opened KernelState
  import opened Steps
  import opened Runs
  import opened Timeouts
  import opened Outcomes
  import opened Boot

  /** The arguments of a call, as its caller gave them. */
  datatype Request = Request(on: WaitKey, timeout: nat, msg: seq<Byte>)

  /** The last call of each task. */
  type Log = map<Addr, Request>

  function Logged(k: Kernel, a: Action, asked: Log): Log {
    if a.Invoke? then asked[k.current := Request(a.on, a.timeout, a.msg)] else asked
  }

  /** Every task inside a call will go on with what it asked for. */
  ghost predicate Remembered(k: Kernel, asked: Log) {
    forall t :: t in k.tasks && k.tasks[t].call.InCall? ==>
      t in asked && k.tasks[t].call == InCall(asked[t].on, asked[t].timeout, asked[t].msg)
  }

  // ---------------------------------------------------------------- what a step does to the calls

  /** A step changes no call but the running task's own. */
  ghost predicate CallsKept(k: Kernel, a: Action, k': Kernel) {
    forall t :: t in k'.tasks ==>
      if t !in k.tasks then k'.tasks[t].call == NoCall
      else if t != k.current || !(a.Invoke? || a.Resume? || a.Delay?) then k'.tasks[t].call == k.tasks[t].call
      else if a.Invoke? then k'.tasks[t].call in {NoCall, InCall(a.on, a.timeout, a.msg)}
      else if a.Resume? then k'.tasks[t].call in {NoCall, k.tasks[t].call}
      else k'.tasks[t].call in {NoCall, InDelay}
  }

  lemma TickCalls(k: Kernel)
    requires Inv(k)
    ensures CallsKept(k, Action.Tick, TickStep(k))
  {
    hide Inv, TickStep;
    TickIsExact(k);
  }

  lemma UnlockCalls(k: Kernel, m: nat)
    requires Inv(k) && CanRun(k) && m in k.mutexes
    ensures CallsKept(k, Action.Unlock(m), KernelState.Unlock(k, m))
  {
    hide Inv, KernelState.Unlock;
    if k.mutexes[m].owner == k.current {
      UnlockOutcome(k, m);
    } else {
      UnlockByOther(k, m);
    }
  }

  lemma PostCalls(k: Kernel, s: nat)
    requires Inv(k) && s in k.sems
    ensures CallsKept(k, Action.Post(s), KernelState.Post(k, s))
  {
    hide Inv, KernelState.Post;
    PostOutcome(k, s);
  }

  lemma DelayCalls(k: Kernel, n: nat)
    requires Inv(k) && Legal(k, Action.Delay(n))
    ensures k.current in k.tasks && k.tasks[k.current].bucket < |k.rings|
    ensures CallsKept(k, Action.Delay(n), KernelState.Delay(k, n))
  {
    hide Inv;
    InvPlaces(k);
    TaskFacts(k, k.current);
    if n > 0 {
      hide KernelState.Delay;
      DelayOutcome(k, n);
    }
  }

  lemma MembershipCalls(k: Kernel, a: Action)
    requires Inv(k) && Legal(k, a) && (a.Create? || a.Delete?)
    ensures CallsKept(k, a, Step(k, a))
  {
    hide Inv, Placed, KernelState.Create, KernelState.Delete;
    if a.Create? {
      InvPlaces(k);
      CreateOutcome(k, a.t, a.prio);
    } else if a.t != k.idle && a.t != k.current {
      DeleteOutcome(k, a.t);
    } else {
      DeleteNothing(k, a.t);
    }
  }

  lemma DeleteNothing(k: Kernel, t: Addr)
    requires Inv(k) && t in k.tasks && (t == k.idle || t == k.current)
    ensures k.tasks[t].bucket < |k.rings| && KernelState.Delete(k, t) == k
  {
    hide Inv;
    InvPlaces(k);
    TaskFacts(k, t);
  }

  lemma StepCalls(k: Kernel, a: Action)
    requires Inv(k) && Legal(k, a)
    ensures CallsKept(k, a, Step(k, a))
  {
    hide Inv, CallsKept, KernelState.Unlock, KernelState.Post, KernelState.Delay, TickStep, KernelState.Dispatch;
    hide KernelState.Create, KernelState.Delete, Enter, KernelState.Resume;
    match a
    case Invoke(w, timeout, msg) =>
      EnterOutcome(k, w, timeout, msg);
      TurnCalls(k, a, Step(k, a));
    case Resume =>
      ResumeOutcome(k);
      TurnCalls(k, a, Step(k, a));
    case Unlock(m) => UnlockCalls(k, m);
    case Post(s) => PostCalls(k, s);
    case Delay(n) => DelayCalls(k, n);
    case Tick => TickCalls(k);
    case Dispatch =>
      DispatchOutcome(k);
      DispatchCalls(k, Step(k, a));
    case Create(t, prio) => MembershipCalls(k, a);
    case Delete(t) => MembershipCalls(k, a);
  }

  lemma DispatchCalls(k: Kernel, k': Kernel)
    requires k'.tasks.Keys == k.tasks.Keys && forall t :: t in k.tasks ==> k'.tasks[t].call == k.tasks[t].call
    ensures CallsKept(k, Action.Dispatch, k')
  {
  }

  lemma TurnCalls(k: Kernel, a: Action, k': Kernel)
    requires a.Invoke? || a.Resume?
    requires k'.tasks.Keys == k.tasks.Keys && k.current in k.tasks
    requires forall t :: t in k.tasks && t != k.current ==> k'.tasks[t].call == k.tasks[t].call
    requires a.Invoke? ==> k'.tasks[k.current].call in {NoCall, InCall(a.on, a.timeout, a.msg)}
    requires a.Resume? ==> k'.tasks[k.current].call in {NoCall, k.tasks[k.current].call}
    ensures CallsKept(k, a, k')
  {
  }

  lemma StepRemembers(k: Kernel, a: Action, asked: Log)
    requires Inv(k) && Legal(k, a) && Remembered(k, asked)
    ensures Remembered(Step(k, a), Logged(k, a, asked))
  {
    hide Inv, Step;
    StepCalls(k, a);
  }

  function LogAfter(k: Kernel, acts: seq<Action>, asked: Log): Log
    requires Inv(k) && LegalRun(k, acts)
    decreases |acts|
  {
    hide Inv, Legal, Step;
    if acts == [] then asked else LogAfter(Step(k, acts[0]), acts[1..], Logged(k, acts[0], asked))
  }

  /** Over any run, every task inside a call has the object, the timeout and the message it called with. */
  lemma {:induction false} RunRemembers(k: Kernel, acts: seq<Action>, asked: Log)
    requires Inv(k) && LegalRun(k, acts) && Remembered(k, asked)
    ensures Remembered(Exec(k, acts), LogAfter(k, acts, asked))
    decreases |acts|
  {
    hide Inv, Legal, Step, Remembered, Logged;
    if acts != [] {
      StepRemembers(k, acts[0], asked);
      RunRemembers(Step(k, acts[0]), acts[1..], Logged(k, acts[0], asked));
    }
  }

  // ---------------------------------------------------------------- waiting for ever

  /** A task that called with timeout 0 and waits has no deadline. */
  ghost predicate Patient(k: Kernel) {
    forall t :: t in k.tasks ==> PatientTask(k.tasks[t])
  }

  ghost predicate PatientTask(c: Tcb) {
    c.state == Blocked && c.call.InCall? && c.call.timeout == 0 ==> c.wakeTime == U32_MAX
  }

  /** A turn of a call with timeout 0, the first or a later one, leaves its caller patient. */
  lemma TurnIsPatient(k: Kernel, a: Action)
    requires Inv(k) && Legal(k, a) && (a.Invoke? || a.Resume?)
    ensures k.current in Step(k, a).tasks && PatientTask(Step(k, a).tasks[k.current])
  {
    hide Inv, Enter, KernelState.Resume;
    if a.Invoke? {
      EnterOutcome(k, a.on, a.timeout, a.msg);
    } else {
      ResumeOutcome(k);
    }
  }

  lemma StepPatient(k: Kernel, a: Action)
    requires Inv(k) && Legal(k, a) && Patient(k)
    ensures Patient(Step(k, a))
  {
    hide Inv, Step, Legal, Due;
    var k' := Step(k, a);
    StepCalls(k, a);
    DeleteNeedsTask(k, a);
    forall t | t in k'.tasks && k'.tasks[t].state == Blocked
      ensures PatientTask(k'.tasks[t])
    {
      if a.Tick? {
        if t in k.tasks {
          TickTask(k, t);
        }
      } else if t == k.current && (a.Invoke? || a.Resume?) {
        TurnIsPatient(k, a);
      } else {
        OnlyTurnsBlock(k, a, t);
      }
    }
  }

  /** A task that is BLOCKED after a step waits as it did before, unless it has just gone to sleep. */
  lemma OnlyTurnsBlock(k: Kernel, a: Action, t: Addr)
    requires Inv(k) && Legal(k, a) && !a.Tick? && !(t == k.current && (a.Invoke? || a.Resume?))
    requires t in Step(k, a).tasks && Step(k, a).tasks[t].state == Blocked
    ensures (t in k.tasks && SameWait(k.tasks[t], Step(k, a).tasks[t])) || (t == k.current && a.Delay?)
  {
    hide Inv, Step, Legal;
    DeleteNeedsTask(k, a);
    if a.Invoke? || a.Resume? || a.Delay? {
      StepTimely(k, a, NULL);
    } else {
      StepStill(k, a, NULL);
    }
  }

  lemma {:induction false} RunPatient(k: Kernel, acts: seq<Action>)
    requires Inv(k) && LegalRun(k, acts) && Patient(k)
    ensures Patient(Exec(k, acts))
    decreases |acts|
  {
    hide Inv, Legal, Step, Patient;
    if acts != [] {
      StepPatient(k, acts[0]);
      RunPatient(Step(k, acts[0]), acts[1..]);
    }
  }

  /** A task that called with timeout 0 is woken by no tick, in any run and however often it had to retry:
      wherever it is BLOCKED, a tick leaves it as it is. */
  lemma WaitForEver(k: Kernel, acts: seq<Action>, asked: Log, t: Addr)
    requires Inv(k) && LegalRun(k, acts) && Remembered(k, asked) && Patient(k)
    requires IsBlocked(Exec(k, acts), t) && Exec(k, acts).tasks[t].call.InCall?
    ensures t in LogAfter(k, acts, asked)
    ensures LogAfter(k, acts, asked)[t].timeout == 0 ==> TickLeaves(Exec(k, acts), t)
  {
    hide Inv, LegalRun, Step, Exec, LogAfter;
    RunRemembers(k, acts, asked);
    RunPatient(k, acts);
    TickTask(Exec(k, acts), t);
  }

  /** At boot nobody has called anything. */
  lemma BootedAsksNothing(idle: Addr, o: Objects)
    ensures Remembered(Booted(idle, o), map[]) && Patient(Booted(idle, o))
  {
  }

  // ---------------------------------------------------------------- owning a mutex

  ghost predicate IsFree(k: Kernel, m: nat) {
    m in k.mutexes && k.mutexes[m].owner == NULL
  }

  /** What a turn of a call does to the mutexes: it takes a free one for its caller. */
  lemma EnterMutexes(k: Kernel, w: WaitKey, timeout: nat, msg: seq<Byte>)
    requires Inv(k) && CanRun(k) && CallOk(InCall(w, timeout, msg), k.waits, k.queues)
    ensures Enter(k, w, timeout, msg).mutexes ==
      if w.MutexQ? && IsFree(k, w.id) then k.mutexes[w.id := Mutex(true, k.current)] else k.mutexes
  {
    hide Placed, CallsOk, MutexesOk, HandoffsOk, Lock, SemWait, Send, Recv;
    match w
    case MutexQ(m) =>
      OwnerOk(k, m);
      RunnerExists(k);
      if !k.mutexes[m].locked {
        LockTakesFree(k, m, timeout, msg);
      } else if k.mutexes[m].owner == k.current {
        LockByOwner(k, m, timeout, msg);
      } else {
        LockWaits(k, m, timeout, msg);
      }
    case SemQ(s) =>
      if k.sems[s].count > 0 {
        SemWaitTakes(k, s, timeout, msg);
      } else {
        SemWaitWaits(k, s, timeout, msg);
      }
    case SendQ(q) =>
      if k.queues[q].count < k.queues[q].depth {
        SendPuts(k, q, timeout, msg);
      } else {
        SendWaits(k, q, timeout, msg);
      }
    case RecvQ(q) =>
      if k.queues[q].count > 0 {
        RecvGets(k, q, timeout, msg);
      } else {
        RecvWaits(k, q, timeout, msg);
      }
  }

  lemma RunnerExists(k: Kernel)
    requires Placed(k) && CanRun(k)
    ensures k.current != NULL
  {
  }

  /** The task that resumes inside mutex_lock without a timeout owns the mutex already. */
  lemma ResumedOwns(k: Kernel)
    requires Inv(k) && CanRun(k)
    ensures var c := k.tasks[k.current];
      c.call.InCall? && c.wakeStatus != ErrTimeout ==>
        && CallOk(c.call, k.waits, k.queues)
        && (c.call.on.MutexQ? ==> c.call.on.id in k.mutexes && k.mutexes[c.call.on.id].owner == k.current)
  {
    var c := k.tasks[k.current];
    TaskFacts(k, k.current);
    assert CallOk(c.call, k.waits, k.queues) && HandoffOk(k.mutexes, k.current, c);
  }

  lemma ResumeMutexes(k: Kernel)
    requires Inv(k) && CanRun(k)
    ensures KernelState.Resume(k).mutexes == k.mutexes
  {
    hide Inv, Enter;
    ResumedOwns(k);
    RunnerIsSomebody(k);
    var c := k.tasks[k.current];
    if c.call.InCall? && c.wakeStatus != ErrTimeout {
      EnterMutexes(k, c.call.on, c.call.timeout, c.call.msg);
    }
  }

  lemma RunnerIsSomebody(k: Kernel)
    requires Inv(k) && CanRun(k)
    ensures k.current != NULL
  {
    hide Placed;
    InvPlaces(k);
    RunnerExists(k);
  }

  /** How the owner of m may change in a step: a task other than nobody loses it only by its own unlock,
      and a free one goes to the running task that asks for it. */
  ghost predicate OwnerMoves(k: Kernel, a: Action, m: nat, k': Kernel) {
    && m in k.mutexes && m in k'.mutexes
    && (k.mutexes[m].owner != NULL && k'.mutexes[m].owner != k.mutexes[m].owner ==>
          a == Action.Unlock(m) && k.current == k.mutexes[m].owner)
    && (k.mutexes[m].owner == NULL && k'.mutexes[m].owner != NULL ==>
          a.Invoke? && a.on == MutexQ(m) && k'.mutexes[m].owner == k.current)
  }

  lemma StepOwner(k: Kernel, a: Action, m: nat)
    requires Inv(k) && Legal(k, a) && m in k.mutexes
    ensures OwnerMoves(k, a, m, Step(k, a))
  {
    hide Inv, KernelState.Unlock, KernelState.Post, TickStep, KernelState.Dispatch, Enter, KernelState.Resume;
    match a
    case Invoke(w, timeout, msg) => EnterMutexes(k, w, timeout, msg);
    case Resume => ResumeMutexes(k);
    case Unlock(n) =>
      if k.mutexes[n].owner == k.current {
        UnlockOutcome(k, n);
      } else {
        UnlockByOther(k, n);
      }
      UnlockFrees(k, n);
    case Post(s) => PostOutcome(k, s);
    case Delay(n) =>
    case Tick => TickOutcome(k);
    case Dispatch => DispatchOutcome(k);
    case Create(t, prio) =>
    case Delete(t) =>
  }

  /** An unlock of a free mutex changes nothing. */
  lemma UnlockFrees(k: Kernel, m: nat)
    requires Inv(k) && CanRun(k) && m in k.mutexes
    ensures k.mutexes[m].owner == NULL ==> KernelState.Unlock(k, m) == k
  {
    hide Inv, KernelState.Unlock;
    RunnerIsSomebody(k);
    if k.mutexes[m].owner == NULL {
      UnlockByOther(k, m);
    }
  }

  /** Throughout the run o does not unlock m. */
  ghost predicate Holds(k: Kernel, acts: seq<Action>, m: nat, o: Addr)
    requires Inv(k) && LegalRun(k, acts)
    decreases |acts|
  {
    hide Inv, Legal, Step;
    acts != [] ==> !(acts[0] == Action.Unlock(m) && k.current == o) && Holds(Step(k, acts[0]), acts[1..], m, o)
  }

  /** In every run a mutex stays with its owner until the owner unlocks it. */
  lemma {:induction false} OwnerKeepsMutex(k: Kernel, acts: seq<Action>, m: nat, o: Addr)
    requires Inv(k) && LegalRun(k, acts) && Holds(k, acts, m, o)
    requires m in k.mutexes && k.mutexes[m].owner == o && o != NULL
    ensures m in Exec(k, acts).mutexes && Exec(k, acts).mutexes[m].owner == o
    decreases |acts|
  {
    hide Inv, Legal, Step;
    if acts != [] {
      StepOwner(k, acts[0], m);
      OwnerKeepsMutex(Step(k, acts[0]), acts[1..], m, o);
    }
  }

  /** mutex_lock returns OK only to the owner: whenever a turn of it, the first or a later one, ends with
      its caller back in its own code without a timeout, the caller owns the mutex. */
  lemma LockReturnsToOwner(k: Kernel, a: Action, m: nat)
    requires Inv(k) && Legal(k, a)
    requires (a.Invoke? && a.on == MutexQ(m))
          || (a.Resume? && k.tasks[k.current].call.InCall? && k.tasks[k.current].call.on == MutexQ(m)
              && k.tasks[k.current].wakeStatus != ErrTimeout)
    requires BackInOwnCode(k, Step(k, a))
    ensures m in Step(k, a).mutexes && Step(k, a).mutexes[m].owner == k.current
  {
    hide Inv, Enter, KernelState.Resume;
    if a.Invoke? {
      EnterMutexes(k, a.on, a.timeout, a.msg);
      EnterOutcome(k, a.on, a.timeout, a.msg);
      MutexExists(k, a.on, a.timeout, a.msg);
    } else {
      ResumedOwns(k);
      ResumeMutexes(k);
    }
  }

  lemma MutexExists(k: Kernel, w: WaitKey, timeout: nat, msg: seq<Byte>)
    requires Inv(k) && CallOk(InCall(w, timeout, msg), k.waits, k.queues) && w.MutexQ?
    ensures w.id in k.mutexes && (!k.mutexes[w.id].locked ==> k.mutexes[w.id].owner == NULL)
  {
    hide Placed, CallsOk, HandoffsOk, CountsOk;
    OwnerOk(k, w.id);
  }
}
