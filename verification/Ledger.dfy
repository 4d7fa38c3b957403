/** Conservation over whole runs: every unit of a semaphore and every message of a queue is
    accounted for.  A wait, a send or a receive counts when its call is over without a timeout, and a
    message is the one its sender gave when it called. */
module Ledger {
  import opened Types
  import opened MessageQueue
  import opened KernelState
  import opened Steps
  import opened Runs
  import opened Outcomes
  import opened Requests

  datatype Turn = NoTurn | Turn(on: WaitKey, msg: seq<Byte>)

  /** The turn of a retry loop that a step makes, if it makes one, for what its caller asked. */
  function TurnOf(k: Kernel, a: Action, asked: Log): Turn {
    match a
    case Invoke(w, _, msg) => Turn(w, msg)
    case Resume =>
      if k.current in k.tasks && k.current in asked
        && k.tasks[k.current].call.InCall? && k.tasks[k.current].wakeStatus != ErrTimeout
      then Turn(asked[k.current].on, asked[k.current].msg) else NoTurn
    case _ => NoTurn
  }

  /** The step ends the call on w, and not by a timeout. */
  ghost predicate Completes(k: Kernel, a: Action, asked: Log, w: WaitKey)
    requires Inv(k) && Legal(k, a)
  {
    TurnOf(k, a, asked).Turn? && TurnOf(k, a, asked).on == w && BackInOwnCode(k, Step(k, a))
  }

  function Posted(k: Kernel, a: Action, s: nat): nat
    requires s in k.sems
  {
    if a == Action.Post(s) && k.sems[s].count < k.sems[s].maxCount then 1 else 0
  }

  ghost function Taken(k: Kernel, a: Action, asked: Log, s: nat): nat
    requires Inv(k) && Legal(k, a)
  {
    if Completes(k, a, asked, SemQ(s)) then 1 else 0
  }

  ghost function Sent(k: Kernel, a: Action, asked: Log, q: nat): seq<seq<Byte>>
    requires Inv(k) && Legal(k, a)
  {
    if Completes(k, a, asked, SendQ(q)) then [TurnOf(k, a, asked).msg] else []
  }

  /** What a receive takes is the oldest message there is. */
  ghost function Received(k: Kernel, a: Action, asked: Log, q: nat): seq<seq<Byte>>
    requires Inv(k) && Legal(k, a) && q in k.queues && QueueOk(k.queues[q])
  {
    if Completes(k, a, asked, RecvQ(q)) && Contents(k.queues[q]) != [] then [Contents(k.queues[q])[0]] else []
  }

  // ---------------------------------------------------------------- one turn

  lemma Reassembled(c: seq<seq<Byte>>)
    ensures c != [] ==> [c[0]] + c[1..] == c
  {
  }

  /** Queue q has one message more, and no other queue changes. */
  ghost predicate Appended(k: Kernel, k': Kernel, q: nat, msg: seq<Byte>) {
    && k'.queues.Keys == k.queues.Keys && q in k.queues && QueueOk(k.queues[q]) && QueueOk(k'.queues[q])
    && Contents(k'.queues[q]) == Contents(k.queues[q]) + [msg]
    && (forall r :: r in k.queues && r != q ==> k'.queues[r] == k.queues[r])
  }

  /** Queue q has lost its oldest message, and no other queue changes. */
  ghost predicate Removed(k: Kernel, k': Kernel, q: nat) {
    && k'.queues.Keys == k.queues.Keys && q in k.queues && QueueOk(k.queues[q]) && QueueOk(k'.queues[q])
    && Contents(k.queues[q]) != [] && Contents(k'.queues[q]) == Contents(k.queues[q])[1..]
    && (forall r :: r in k.queues && r != q ==> k'.queues[r] == k.queues[r])
  }

  /** What a turn on w does to the counts, when it completes and when it does not. */
  ghost predicate Counted(k: Kernel, k': Kernel, w: WaitKey, msg: seq<Byte>) {
    if !CanComplete(k, w) then k'.sems == k.sems && k'.queues == k.queues
    else
      match w
      case MutexQ(_) => k'.sems == k.sems && k'.queues == k.queues
      case SemQ(s) =>
        && s in k.sems && k.sems[s].count > 0 && k'.queues == k.queues
        && k'.sems == k.sems[s := Semaphore(k.sems[s].count - 1, k.sems[s].maxCount)]
      case SendQ(q) => k'.sems == k.sems && Appended(k, k', q, msg)
      case RecvQ(q) => k'.sems == k.sems && Removed(k, k', q)
  }

  lemma TurnCounts(k: Kernel, w: WaitKey, timeout: nat, msg: seq<Byte>)
    requires Inv(k) && CanRun(k) && CallOk(InCall(w, timeout, msg), k.waits, k.queues)
    ensures Counted(k, Enter(k, w, timeout, msg), w, msg)
  {
    hide Placed, CallsOk, MutexesOk, HandoffsOk, Lock, SemWait, Send, Recv, Contents;
    match w
    case MutexQ(m) =>
      if !k.mutexes[m].locked {
        LockTakesFree(k, m, timeout, msg);
      } else if k.mutexes[m].owner == k.current {
        LockByOwner(k, m, timeout, msg);
      } else {
        LockWaits(k, m, timeout, msg);
      }
    case SemQ(s) =>
      if k.sems[s].count > 0 {
        SemWaitTakes(k, s, timeout, msg);
      } else {
        SemWaitWaits(k, s, timeout, msg);
      }
    case SendQ(q) =>
      if k.queues[q].count < k.queues[q].depth {
        SendPuts(k, q, timeout, msg);
      } else {
        SendWaits(k, q, timeout, msg);
      }
    case RecvQ(q) =>
      if k.queues[q].count > 0 {
        RecvGets(k, q, timeout, msg);
      } else {
        RecvWaits(k, q, timeout, msg);
      }
  }

  /** A turn completes exactly when it can. */
  lemma CompletesWhenPossible(k: Kernel, a: Action, asked: Log)
    requires Inv(k) && Legal(k, a) && Remembered(k, asked) && TurnOf(k, a, asked).Turn?
    ensures var t := TurnOf(k, a, asked);
      (BackInOwnCode(k, Step(k, a)) <==> CanComplete(k, t.on)) && Counted(k, Step(k, a), t.on, t.msg)
  {
    hide Inv, Enter, Counted, CanComplete;
    if a.Invoke? {
      EnterOutcome(k, a.on, a.timeout, a.msg);
      TurnCounts(k, a.on, a.timeout, a.msg);
    } else {
      var c := k.tasks[k.current].call;
      ResumedOwns(k);
      EnterOutcome(k, c.on, c.timeout, c.msg);
      TurnCounts(k, c.on, c.timeout, c.msg);
    }
  }

  /** Every step that is neither a turn of a call nor a post leaves the counts alone. */
  lemma OtherSteps(k: Kernel, a: Action, asked: Log)
    requires Inv(k) && Legal(k, a) && Remembered(k, asked) && TurnOf(k, a, asked).NoTurn? && !a.Post?
    ensures Step(k, a).sems == k.sems && Step(k, a).queues == k.queues
  {
    hide Inv, Placed, KernelState.Unlock, TickStep, KernelState.Dispatch, KernelState.Create, KernelState.Delete, KernelState.Resume;
    match a
    case Resume => ResumeOutcome(k);
    case Unlock(m) =>
      if k.mutexes[m].owner == k.current {
        UnlockOutcome(k, m);
      } else {
        UnlockByOther(k, m);
      }
    case Delay(n) =>
      if n > 0 {
        DelayOutcome(k, n);
      }
    case Tick => TickOutcome(k);
    case Dispatch => DispatchOutcome(k);
    case Create(t, prio) =>
      InvPlaces(k);
      CreateOutcome(k, t, prio);
    case Delete(t) =>
      if t != k.idle && t != k.current {
        DeleteOutcome(k, t);
      } else {
        DeleteNothing(k, t);
      }
  }

  // ---------------------------------------------------------------- one step

  lemma CountsOf(k: Kernel)
    requires Inv(k)
    ensures forall s :: s in k.sems ==> k.sems[s].count <= k.sems[s].maxCount
    ensures forall q :: q in k.queues ==> QueueOk(k.queues[q])
  {
  }

  lemma SemStep(k: Kernel, a: Action, asked: Log, s: nat)
    requires Inv(k) && Legal(k, a) && Remembered(k, asked) && s in k.sems
    ensures s in Step(k, a).sems && Step(k, a).sems[s].maxCount == k.sems[s].maxCount
    ensures Step(k, a).sems[s].count == k.sems[s].count + Posted(k, a, s) - Taken(k, a, asked, s)
  {
    hide Inv, Legal, Step, Remembered, BackInOwnCode, Appended, Removed;
    if a.Post? {
      PostStep(k, a);
    } else if TurnOf(k, a, asked).Turn? {
      CompletesWhenPossible(k, a, asked);
    } else {
      OtherSteps(k, a, asked);
    }
  }

  lemma PostStep(k: Kernel, a: Action)
    requires Inv(k) && Legal(k, a) && a.Post?
    ensures var k', c := Step(k, a), k.sems[a.s];
      && a.s in k.sems && k'.queues == k.queues
      && k'.sems == if c.count < c.maxCount then k.sems[a.s := Semaphore(c.count + 1, c.maxCount)] else k.sems
  {
    hide Inv, KernelState.Post;
    PostOutcome(k, a.s);
  }

  lemma NoTurnInPost(k: Kernel, a: Action, asked: Log)
    ensures a.Post? ==> TurnOf(k, a, asked).NoTurn?
  {
  }

  lemma CountedQueue(k: Kernel, k': Kernel, w: WaitKey, msg: seq<Byte>, q: nat)
    requires Counted(k, k', w, msg) && q in k.queues && QueueOk(k.queues[q])
    ensures q in k'.queues && QueueOk(k'.queues[q])
    ensures w == RecvQ(q) && CanComplete(k, w) ==> Contents(k.queues[q]) != []
    ensures Contents(k.queues[q]) + (if w == SendQ(q) && CanComplete(k, w) then [msg] else [])
         == (if w == RecvQ(q) && CanComplete(k, w) then [Contents(k.queues[q])[0]] else []) + Contents(k'.queues[q])
  {
    hide CanComplete, Contents, QueueOk;
    Reassembled(Contents(k.queues[q]));
  }

  lemma QueueStep(k: Kernel, a: Action, asked: Log, q: nat)
    requires Inv(k) && Legal(k, a) && Remembered(k, asked) && q in k.queues
    ensures q in Step(k, a).queues && QueueOk(k.queues[q]) && QueueOk(Step(k, a).queues[q])
    ensures Contents(k.queues[q]) + Sent(k, a, asked, q) == Received(k, a, asked, q) + Contents(Step(k, a).queues[q])
  {
    hide Inv, Legal, Step, Remembered, BackInOwnCode, Contents, QueueOk, TurnOf, Counted, CanComplete;
    CountsOf(k);
    NoTurnInPost(k, a, asked);
    if a.Post? {
      PostStep(k, a);
    } else if TurnOf(k, a, asked).Turn? {
      CompletesWhenPossible(k, a, asked);
      CountedQueue(k, Step(k, a), TurnOf(k, a, asked).on, TurnOf(k, a, asked).msg, q);
    } else {
      OtherSteps(k, a, asked);
    }
  }

  // ---------------------------------------------------------------- runs

  ghost function PostedIn(k: Kernel, acts: seq<Action>, asked: Log, s: nat): nat
    requires Inv(k) && LegalRun(k, acts) && Remembered(k, asked) && s in k.sems
    decreases |acts|
  {
    hide Inv, Legal, Step, Remembered;
    if acts == [] then 0
    else
      SemStep(k, acts[0], asked, s);
      StepRemembers(k, acts[0], asked);
      Posted(k, acts[0], s) + PostedIn(Step(k, acts[0]), acts[1..], Logged(k, acts[0], asked), s)
  }

  ghost function TakenIn(k: Kernel, acts: seq<Action>, asked: Log, s: nat): nat
    requires Inv(k) && LegalRun(k, acts) && Remembered(k, asked) && s in k.sems
    decreases |acts|
  {
    hide Inv, Legal, Step, Remembered;
    if acts == [] then 0
    else
      SemStep(k, acts[0], asked, s);
      StepRemembers(k, acts[0], asked);
      Taken(k, acts[0], asked, s) + TakenIn(Step(k, acts[0]), acts[1..], Logged(k, acts[0], asked), s)
  }

  ghost function SentIn(k: Kernel, acts: seq<Action>, asked: Log, q: nat): seq<seq<Byte>>
    requires Inv(k) && LegalRun(k, acts) && Remembered(k, asked) && q in k.queues
    decreases |acts|
  {
    hide Inv, Legal, Step, Remembered;
    if acts == [] then []
    else
      QueueStep(k, acts[0], asked, q);
      StepRemembers(k, acts[0], asked);
      Sent(k, acts[0], asked, q) + SentIn(Step(k, acts[0]), acts[1..], Logged(k, acts[0], asked), q)
  }

  ghost function ReceivedIn(k: Kernel, acts: seq<Action>, asked: Log, q: nat): seq<seq<Byte>>
    requires Inv(k) && LegalRun(k, acts) && Remembered(k, asked) && q in k.queues
    decreases |acts|
  {
    hide Inv, Legal, Step, Remembered;
    if acts == [] then []
    else
      QueueStep(k, acts[0], asked, q);
      StepRemembers(k, acts[0], asked);
      Received(k, acts[0], asked, q) + ReceivedIn(Step(k, acts[0]), acts[1..], Logged(k, acts[0], asked), q)
  }

  /** A semaphore's count is what it started with, plus the successful posts, minus the
      successful waits, and it never leaves its range. */
  lemma {:induction false} UnitsAreConserved(k: Kernel, acts: seq<Action>, asked: Log, s: nat)
    requires Inv(k) && LegalRun(k, acts) && Remembered(k, asked) && s in k.sems
    ensures var k' := Exec(k, acts);
      && s in k'.sems && k'.sems[s].maxCount == k.sems[s].maxCount
      && k'.sems[s].count == k.sems[s].count + PostedIn(k, acts, asked, s) - TakenIn(k, acts, asked, s)
      && k'.sems[s].count <= k'.sems[s].maxCount
    decreases |acts|
  {
    hide Inv, Legal, Step, Posted, Taken, Remembered, Logged;
    CountsOf(k);
    if acts != [] {
      SemStep(k, acts[0], asked, s);
      StepRemembers(k, acts[0], asked);
      UnitsAreConserved(Step(k, acts[0]), acts[1..], Logged(k, acts[0], asked), s);
    }
  }

  lemma Splice<T>(c: seq<T>, s: seq<T>, ss: seq<T>, r: seq<T>, rs: seq<T>, c1: seq<T>, c2: seq<T>)
    requires c + s == r + c1 && c1 + ss == rs + c2
    ensures c + (s + ss) == (r + rs) + c2
  {
    calc {
      c + (s + ss);
      (c + s) + ss;
      (r + c1) + ss;
      r + (c1 + ss);
      r + (rs + c2);
      (r + rs) + c2;
    }
  }

  /** What a queue held, followed by everything sent, is everything received followed by what it
      holds: messages come out in the order they went in, none lost, none twice, none altered. */
  lemma {:induction false} MessagesAreConserved(k: Kernel, acts: seq<Action>, asked: Log, q: nat)
    requires Inv(k) && LegalRun(k, acts) && Remembered(k, asked) && q in k.queues
    ensures var k' := Exec(k, acts);
      && q in k'.queues && QueueOk(k.queues[q]) && QueueOk(k'.queues[q])
      && Contents(k.queues[q]) + SentIn(k, acts, asked, q) == ReceivedIn(k, acts, asked, q) + Contents(k'.queues[q])
    decreases |acts|
  {
    hide Inv, Legal, Step, Sent, Received, Contents, QueueOk, Remembered, Logged;
    CountsOf(k);
    if acts != [] {
      var k1, asked1 := Step(k, acts[0]), Logged(k, acts[0], asked);
      QueueStep(k, acts[0], asked, q);
      StepRemembers(k, acts[0], asked);
      MessagesAreConserved(k1, acts[1..], asked1, q);
      Splice(Contents(k.queues[q]), Sent(k, acts[0], asked, q), SentIn(k1, acts[1..], asked1, q),
             Received(k, acts[0], asked, q), ReceivedIn(k1, acts[1..], asked1, q),
             Contents(k1.queues[q]), Contents(Exec(k, acts).queues[q]));
    }
  }

  /** In particular, from an empty queue the messages received are a prefix of those sent. */
  lemma ReceivedIsPrefixOfSent(k: Kernel, acts: seq<Action>, asked: Log, q: nat)
    requires Inv(k) && LegalRun(k, acts) && Remembered(k, asked) && q in k.queues && k.queues[q].count == 0
    ensures ReceivedIn(k, acts, asked, q) <= SentIn(k, acts, asked, q)
  {
    hide Inv, LegalRun, Remembered;
    MessagesAreConserved(k, acts, asked, q);
    assert Contents(k.queues[q]) == [];
    assert SentIn(k, acts, asked, q) == ReceivedIn(k, acts, asked, q) + Contents(Exec(k, acts).queues[q]);
  }
}
