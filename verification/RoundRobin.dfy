/** Fairness inside a bucket: a task that stays in its ring moves forward and is dispatched. */
module RoundRobin {
  import opened Types
  import opened Lists
  import opened KernelState
  import opened Steps
  import opened Runs
  import opened Timeouts

  // ---------------------------------------------------------------- positions in a ring

  lemma IndexUnique<T>(s: seq<T>, x: T, i: nat)
    requires NoDup(s) && i < |s| && s[i] == x
    ensures IndexOf(s, x) == i
  {
  }

  lemma IndexInAppended<T>(s: seq<T>, more: seq<T>, x: T)
    requires x in s
    ensures IndexOf(s + more, x) == IndexOf(s, x)
  {
    assert (s + more)[IndexOf(s, x)] == x;
    assert forall i :: 0 <= i < IndexOf(s, x) ==> (s + more)[i] == s[i];
  }

  lemma IndexInWithout<T>(s: seq<T>, y: T, x: T)
    requires x in s && x != y
    ensures x in Without(s, y) && IndexOf(Without(s, y), x) <= IndexOf(s, x)
  {
    var r, j := Without(s, y), IndexOf(s, x);
    if y in s {
      var i := IndexOf(s, y);
      assert r[if j < i then j else j - 1] == x;
    }
  }

  lemma IndexInRotated<T>(s: seq<T>, x: T)
    requires NoDup(s) && x in s && x != s[0]
    ensures x in s[1..] + [s[0]] && IndexOf(s[1..] + [s[0]], x) == IndexOf(s, x) - 1
  {
    var r, j := s[1..] + [s[0]], IndexOf(s, x);
    assert r[j - 1] == x;
    assert NoDup(r);
    IndexUnique(r, x, j - 1);
  }

  // ---------------------------------------------------------------- steps other than dispatch

  /** If t is in ring p before and after, it has not moved back. */
  ghost predicate Forward(rings: seq<seq<Addr>>, rings': seq<seq<Addr>>, p: nat, t: Addr) {
    && p < |rings| == |rings'|
    && (t in rings[p] && t in rings'[p] ==> IndexOf(rings'[p], t) <= IndexOf(rings[p], t))
  }

  lemma ForwardAdd(rings: seq<seq<Addr>>, q: nat, u: Addr, p: nat, t: Addr)
    requires p < |rings| && q < |rings|
    ensures Forward(rings, RingAdd(rings, q, u), p, t)
  {
    if p == q && t in rings[p] {
      IndexInAppended(rings[p], [u], t);
    }
  }

  lemma ForwardRemove(rings: seq<seq<Addr>>, q: nat, u: Addr, p: nat, t: Addr)
    requires p < |rings| && q < |rings| && NoDup(rings[q])
    ensures Forward(rings, RingRemove(rings, q, u), p, t)
  {
    if p == q {
      WithoutMembers(rings[p], u);
      if t in rings[p] && t != u {
        IndexInWithout(rings[p], u, t);
      }
    }
  }

  lemma ForwardTrans(r: seq<seq<Addr>>, r1: seq<seq<Addr>>, r2: seq<seq<Addr>>, p: nat, t: Addr)
    requires Forward(r, r1, p, t) && Forward(r1, r2, p, t)
    requires t in r[p] && t in r2[p] ==> t in r1[p]
    ensures Forward(r, r2, p, t)
  {
  }

  lemma ForwardWake(k: Kernel, u: Addr, status: Status, p: nat, t: Addr)
    requires u in k.tasks && k.tasks[u].bucket < |k.rings| && p < |k.rings|
    ensures Forward(k.rings, Wake(k, u, status).rings, p, t)
  {
    ForwardAdd(k.rings, k.tasks[u].bucket, u, p, t);
  }

  lemma ForwardWakeHead(k: Kernel, w: WaitKey, p: nat, t: Addr)
    requires Placed(k) && w in k.waits && p < |k.rings|
    ensures Forward(k.rings, WakeHead(k, w).rings, p, t)
  {
    if k.waits[w] != [] {
      var u := k.waits[w][0];
      WaiterFacts(k, w, u);
      hide RingsPlaced, WaitsPlaced, TasksOk, RegistryOk;
      ForwardWake(k, u, k.tasks[u].wakeStatus, p, t);
    }
  }

  /** A task that changes buckets leaves one ring and joins another. */
  lemma ForwardMove(rings: seq<seq<Addr>>, q: nat, q': nat, u: Addr, p: nat, t: Addr)
    requires p < |rings| && q < |rings| && q' < |rings| && q != q' && NoDup(rings[q])
    requires u in rings[p] ==> p == q
    ensures Forward(rings, RingAdd(RingRemove(rings, q, u), q', u), p, t)
  {
    var r1 := RingRemove(rings, q, u);
    ForwardRemove(rings, q, u, p, t);
    ForwardAdd(r1, q', u, p, t);
    WithoutMembers(rings[q], u);
  }

  lemma ForwardPriority(k: Kernel, u: Addr, pr: nat, p: nat, t: Addr)
    requires RingsPlaced(k.rings, k.tasks) && u in k.tasks && p < NUM_PRIORITIES
    ensures Forward(k.rings, SetPriority(k, u, pr).rings, p, t) && Forward(k.rings, Boost(k, u, pr).rings, p, t)
  {
    if k.tasks[u].bucket != Bucket(pr) && k.tasks[u].state == Ready {
      ForwardMove(k.rings, k.tasks[u].bucket, Bucket(pr), u, p, t);
    }
  }

  lemma ForwardBlock(k: Kernel, b: BlockOn, timeout: nat, call: Call, p: nat, t: Addr)
    requires k.current in k.tasks && k.tasks[k.current].bucket < |k.rings| && p < |k.rings|
    requires NoDup(k.rings[k.tasks[k.current].bucket])
    ensures Forward(k.rings, BlockCurrent(k, b, timeout, call).rings, p, t)
    ensures forall u :: u in BlockCurrent(k, b, timeout, call).rings[p] ==> u in k.rings[p]
  {
    ForwardRemove(k.rings, k.tasks[k.current].bucket, k.current, p, t);
    WithoutMembers(k.rings[k.tasks[k.current].bucket], k.current);
  }

  lemma ForwardLock(k: Kernel, m: nat, timeout: nat, msg: seq<Byte>, p: nat, t: Addr)
    requires Inv(k) && CanRun(k) && m in k.mutexes && p < NUM_PRIORITIES
    ensures Forward(k.rings, Lock(k, m, timeout, msg).rings, p, t)
  {
    hide MinPrio, WaitsPlaced, RegistryOk, CallsOk, MutexesOk, HandoffsOk;
    LockFacts(k, m);
    OwnerOk(k, m);
    var mu := k.mutexes[m];
    if mu.locked && mu.owner != k.current {
      LockBoosts(k, m, Demand(k, m));
      hide TasksOk;
      var k1 := Boost(k, mu.owner, Demand(k, m));
      ForwardPriority(k, mu.owner, Demand(k, m), p, t);
      ForwardBlock(Enqueue(k1, MutexQ(m), k.current), Waiting(MutexQ(m)), timeout, InCall(MutexQ(m), timeout, msg), p, t);
      ForwardTrans(k.rings, k1.rings, Lock(k, m, timeout, msg).rings, p, t);
    }
  }

  lemma ForwardUnlock(k: Kernel, m: nat, p: nat, t: Addr)
    requires Inv(k) && CanRun(k) && m in k.mutexes && p < NUM_PRIORITIES
    ensures Forward(k.rings, KernelState.Unlock(k, m).rings, p, t)
  {
    if k.mutexes[m].owner == k.current {
      RunnerUnlocks(k, m);
      hide RingsPlaced, WaitsPlaced, TasksOk, RegistryOk, CallsOk, MutexesOk, HandoffsOk, Best;
      var k1 := SetPriority(k, k.current, k.tasks[k.current].base);
      assert k1.rings == k.rings;
      var ws := k1.waits[MutexQ(m)];
      if ws != [] {
        assert ws[Best(k1.tasks, ws)] in ws;
        ForwardWake(k1, ws[Best(k1.tasks, ws)], k1.tasks[ws[Best(k1.tasks, ws)]].wakeStatus, p, t);
      }
    }
  }

  lemma ForwardEnter(k: Kernel, w: WaitKey, timeout: nat, msg: seq<Byte>, p: nat, t: Addr)
    requires Inv(k) && CanRun(k) && CallOk(InCall(w, timeout, msg), k.waits, k.queues) && p < NUM_PRIORITIES
    ensures Forward(k.rings, Enter(k, w, timeout, msg).rings, p, t)
  {
    assert k.tasks[k.current].bucket < |k.rings| && NoDup(k.rings[k.tasks[k.current].bucket]);
    assert |k.rings| == NUM_PRIORITIES;
    hide RingsPlaced, WaitsPlaced, TasksOk, RegistryOk, CallsOk, MutexesOk, HandoffsOk, WakeHead;
    ForwardBlock(Enqueue(k, w, k.current), Waiting(w), timeout, InCall(w, timeout, msg), p, t);
    match w
    case MutexQ(m) => ForwardLock(k, m, timeout, msg, p, t);
    case SemQ(s) =>
    case SendQ(q) => ForwardWakeHead(k, RecvQ(q), p, t);
    case RecvQ(q) => ForwardWakeHead(k, SendQ(q), p, t);
  }

  lemma ForwardTick(k: Kernel, p: nat, t: Addr)
    requires Inv(k) && p < NUM_PRIORITIES
    ensures Forward(k.rings, TickStep(k).rings, p, t)
  {
    assert |k.rings| == NUM_PRIORITIES;
    hide RingsPlaced, WaitsPlaced, TasksOk, RegistryOk, CallsOk, MutexesOk, HandoffsOk, TickStep;
    TickIsExact(k);
    if t in k.rings[p] {
      IndexInAppended(k.rings[p], DueOf(NextTick(k), k.registry, p), t);
    }
  }

  lemma ForwardStep(k: Kernel, a: Action, p: nat, t: Addr)
    requires Inv(k) && Legal(k, a) && !a.Dispatch? && p < NUM_PRIORITIES
    ensures Forward(k.rings, Step(k, a).rings, p, t)
  {
    assert |k.rings| == NUM_PRIORITIES && forall q :: 0 <= q < NUM_PRIORITIES ==> NoDup(k.rings[q]);
    assert forall u :: u in k.tasks ==> k.tasks[u].bucket < NUM_PRIORITIES;
    if a.Resume? {
      assert CallOk(k.tasks[k.current].call, k.waits, k.queues);
    }
    hide RingsPlaced, WaitsPlaced, TasksOk, RegistryOk, CallsOk, MutexesOk, HandoffsOk, WakeHead, Enter, Forward;
    if a.Invoke? {
      ForwardEnter(k, a.on, a.timeout, a.msg, p, t);
    } else if a.Resume? {
      ForwardResume(k, p, t);
    } else if a.Unlock? {
      ForwardUnlock(k, a.m, p, t);
    } else if a.Tick? {
      ForwardTick(k, p, t);
    } else {
      ForwardOther(k, a, p, t);
    }
  }

  lemma ForwardResume(k: Kernel, p: nat, t: Addr)
    requires Inv(k) && CanRun(k) && p < NUM_PRIORITIES
    ensures Forward(k.rings, KernelState.Resume(k).rings, p, t)
  {
    var c := k.tasks[k.current];
    assert CallOk(c.call, k.waits, k.queues) && |k.rings| == NUM_PRIORITIES;
    hide RingsPlaced, WaitsPlaced, TasksOk, RegistryOk, CallsOk, MutexesOk, HandoffsOk, Enter;
    if c.call.InCall? && c.wakeStatus != ErrTimeout {
      ForwardEnter(k, c.call.on, c.call.timeout, c.call.msg, p, t);
    }
  }

  lemma RingFacts(k: Kernel)
    requires RingsPlaced(k.rings, k.tasks)
    ensures |k.rings| == NUM_PRIORITIES && forall q :: 0 <= q < NUM_PRIORITIES ==> NoDup(k.rings[q])
    ensures forall u :: u in k.tasks ==> k.tasks[u].bucket < NUM_PRIORITIES
  {
  }

  lemma ForwardOther(k: Kernel, a: Action, p: nat, t: Addr)
    requires Inv(k) && Legal(k, a) && p < NUM_PRIORITIES && (a.Post? || a.Delay? || a.Create? || a.Delete?)
    ensures Forward(k.rings, Step(k, a).rings, p, t)
  {
    hide RingsPlaced, WaitsPlaced, TasksOk, RegistryOk, CallsOk, MutexesOk, HandoffsOk, WakeHead, NoDup;
    RingFacts(k);
    if a.Post? {
      ForwardWakeHead(k, SemQ(a.s), p, t);
    } else if a.Delay? {
      ForwardBlock(k, Sleeping, a.ticks, InDelay, p, t);
    } else if a.Create? {
      ForwardAdd(k.rings, Bucket(a.prio), a.t, p, t);
    } else {
      ForwardRemove(k.rings, k.tasks[a.t].bucket, a.t, p, t);
    }
  }

  // ---------------------------------------------------------------- dispatches

  /** With every lower-numbered ring empty, a dispatch takes the head of ring p and moves everybody
      else one place forward. */
  lemma DispatchAdvances(k: Kernel, p: nat, t: Addr)
    requires Inv(k) && p < NUM_PRIORITIES && t in k.rings[p] && forall q :: 0 <= q < p ==> k.rings[q] == []
    ensures var k' := KernelState.Dispatch(k);
      && |k'.rings| == NUM_PRIORITIES && k'.current == k.rings[p][0] && k'.rings[p] == k.rings[p][1..] + [k.rings[p][0]]
      && (k'.current != t ==> t in k'.rings[p] && IndexOf(k'.rings[p], t) == IndexOf(k.rings[p], t) - 1)
  {
    DispatchSelects(k);
    assert |k.rings| == NUM_PRIORITIES && NoDup(k.rings[p]);
    hide RingsPlaced, WaitsPlaced, TasksOk, RegistryOk, CallsOk, MutexesOk, HandoffsOk;
    assert FirstOccupied(k.rings) == p;
    if k.rings[p][0] != t {
      IndexInRotated(k.rings[p], t);
    }
  }

  function Dispatches(acts: seq<Action>): nat {
    if acts == [] then 0 else (if acts[0].Dispatch? then 1 else 0) + Dispatches(acts[1..])
  }

  /** Throughout the run t stays in ring p, and no lower-numbered ring is occupied at a dispatch. */
  ghost predicate Favoured(k: Kernel, acts: seq<Action>, p: nat, t: Addr)
    requires Inv(k) && LegalRun(k, acts)
    decreases |acts|
  {
    hide Inv, Legal, Step;
    && p < |k.rings| && t in k.rings[p]
    && (acts != [] ==>
          && (acts[0].Dispatch? ==> forall q :: 0 <= q < p ==> k.rings[q] == [])
          && Favoured(Step(k, acts[0]), acts[1..], p, t))
  }

  ghost predicate IsDispatched(k: Kernel, acts: seq<Action>, t: Addr)
    requires Inv(k) && LegalRun(k, acts)
    decreases |acts|
  {
    hide Inv, Legal, Step;
    acts != [] &&
    ((acts[0].Dispatch? && Step(k, acts[0]).current == t) || IsDispatched(Step(k, acts[0]), acts[1..], t))
  }

  lemma FavouredStep(k: Kernel, a: Action, p: nat, t: Addr)
    requires Inv(k) && Legal(k, a) && p < NUM_PRIORITIES && p < |k.rings| && t in k.rings[p]
    requires a.Dispatch? ==> forall q :: 0 <= q < p ==> k.rings[q] == []
    ensures p < |Step(k, a).rings|
    ensures t in Step(k, a).rings[p] && !(a.Dispatch? && Step(k, a).current == t) ==>
      IndexOf(Step(k, a).rings[p], t) <= IndexOf(k.rings[p], t) - (if a.Dispatch? then 1 else 0)
  {
    hide RingsPlaced, WaitsPlaced, TasksOk, RegistryOk, CallsOk, MutexesOk, HandoffsOk;
    if a.Dispatch? {
      DispatchAdvances(k, p, t);
    } else {
      hide Step, Inv, Legal;
      ForwardStep(k, a, p, t);
    }
  }

  /** A task that is j places from the head is dispatched within j + 1 dispatches, whatever else
      joins, leaves or changes rings meanwhile. */
  lemma {:induction false} BoundedWaiting(k: Kernel, acts: seq<Action>, p: nat, t: Addr)
    requires Inv(k) && LegalRun(k, acts) && Favoured(k, acts, p, t) && p < NUM_PRIORITIES
    requires IndexOf(k.rings[p], t) < Dispatches(acts)
    ensures IsDispatched(k, acts, t)
    decreases |acts|
  {
    hide Inv, Legal, Step;
    if acts != [] {
      FavouredStep(k, acts[0], p, t);
      if !(acts[0].Dispatch? && Step(k, acts[0]).current == t) {
        BoundedWaiting(Step(k, acts[0]), acts[1..], p, t);
      }
    }
  }

  // ---------------------------------------------------------------- a full turn of the ring

  function Again(n: nat): seq<Action> {
    seq(n, _ => Action.Dispatch)
  }

  lemma {:induction false} OnlyDispatchesAreLegal(k: Kernel, n: nat)
    requires Inv(k)
    ensures LegalRun(k, Again(n))
    decreases n
  {
    if n > 0 {
      assert Again(n)[1..] == Again(n - 1);
      assert Legal(k, Action.Dispatch);
      hide Inv, Legal, Step;
      OnlyDispatchesAreLegal(Step(k, Action.Dispatch), n - 1);
    }
  }

  /** The tasks that n dispatches in a row pick. */
  ghost function Picks(k: Kernel, n: nat): seq<Addr>
    requires Inv(k)
    decreases n
  {
    if n == 0 then []
    else
      assert Legal(k, Action.Dispatch);
      [Step(k, Action.Dispatch).current] + Picks(Step(k, Action.Dispatch), n - 1)
  }

  lemma RotateOnce<T>(r: seq<T>, n: nat)
    requires 0 < n <= |r|
    ensures var r1 := r[1..] + [r[0]];
      r1[n - 1..] + r1[..n - 1] == r[n..] + r[..n] && [r[0]] + r1[..n - 1] == r[..n]
  {
  }

  lemma OneDispatch(k: Kernel, p: nat)
    requires Inv(k) && p < NUM_PRIORITIES && k.rings[p] != [] && forall q :: 0 <= q < p ==> k.rings[q] == []
    ensures Legal(k, Action.Dispatch)
    ensures var k1 := Step(k, Action.Dispatch);
      && |k1.rings| == NUM_PRIORITIES && (forall q :: 0 <= q < p ==> k1.rings[q] == [])
      && k1.current == k.rings[p][0] && k1.rings[p] == k.rings[p][1..] + [k.rings[p][0]]
  {
    assert k.rings[p][0] in k.rings[p];
    hide RingsPlaced, WaitsPlaced, TasksOk, RegistryOk, CallsOk, MutexesOk, HandoffsOk;
    DispatchAdvances(k, p, k.rings[p][0]);
    DispatchKeepsOthers(k, p);
  }

  lemma EightRings(k: Kernel)
    requires Inv(k)
    ensures |k.rings| == NUM_PRIORITIES
  {
  }

  lemma {:induction false} Turning(k: Kernel, p: nat, n: nat)
    requires Inv(k) && p < NUM_PRIORITIES && n <= |k.rings[p]|
    requires forall q :: 0 <= q < p ==> k.rings[q] == []
    ensures LegalRun(k, Again(n)) && |Exec(k, Again(n)).rings| == NUM_PRIORITIES
    ensures Picks(k, n) == k.rings[p][..n]
    ensures Exec(k, Again(n)).rings[p] == k.rings[p][n..] + k.rings[p][..n]
    decreases n
  {
    hide Inv, Legal, Step;
    OnlyDispatchesAreLegal(k, n);
    EightRings(k);
    if n > 0 {
      OneDispatch(k, p);
      assert Again(n)[1..] == Again(n - 1);
      Turning(Step(k, Action.Dispatch), p, n - 1);
      RotateOnce(k.rings[p], n);
    }
  }

  lemma DispatchKeepsOthers(k: Kernel, p: nat)
    requires Inv(k) && p < NUM_PRIORITIES && k.rings[p] != [] && forall q :: 0 <= q < p ==> k.rings[q] == []
    ensures var k' := KernelState.Dispatch(k);
      |k'.rings| == NUM_PRIORITIES && forall q :: 0 <= q < p ==> k'.rings[q] == []
  {
    DispatchSelects(k);
    assert FirstOccupied(k.rings) == p;
  }

  /** A ring of n tasks left alone: n dispatches pick each task once and restore the ring. */
  lemma FullTurn(k: Kernel, p: nat)
    requires Inv(k) && p < NUM_PRIORITIES && forall q :: 0 <= q < p ==> k.rings[q] == []
    ensures var n := |k.rings[p]|;
      && LegalRun(k, Again(n)) && |Exec(k, Again(n)).rings| == NUM_PRIORITIES
      && Picks(k, n) == k.rings[p] && Exec(k, Again(n)).rings[p] == k.rings[p]
  {
    Turning(k, p, |k.rings[p]|);
  }
}
