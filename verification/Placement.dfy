/** What each kernel operation does to the rings and the wait lists, one structure at a time. */
module Placement {
  import opened Types
  import opened Lists
  import opened KernelState

  // ---------------------------------------------------------------- rings

  lemma RingsKept(rings: seq<seq<Addr>>, tasks: map<Addr, Tcb>, t: Addr, c: Tcb)
    requires RingsPlaced(rings, tasks) && t in tasks
    requires c.bucket < NUM_PRIORITIES && (c.state == Blocked <==> tasks[t].state == Blocked)
    requires c.state == Blocked || c.bucket == tasks[t].bucket
    ensures RingsPlaced(rings, tasks[t := c])
  {
  }

  lemma RingsAdded(rings: seq<seq<Addr>>, tasks: map<Addr, Tcb>, t: Addr, c: Tcb)
    requires RingsPlaced(rings, tasks)
    requires t !in tasks || tasks[t].state == Blocked
    requires c.state != Blocked && c.bucket < NUM_PRIORITIES
    ensures RingsPlaced(RingAdd(rings, c.bucket, t), tasks[t := c])
  {
    AppendMembers(rings[c.bucket], t);
  }

  lemma RingsRemoved(rings: seq<seq<Addr>>, tasks: map<Addr, Tcb>, t: Addr, c: Tcb)
    requires RingsPlaced(rings, tasks) && t in tasks
    requires c.state == Blocked && c.bucket < NUM_PRIORITIES
    ensures RingsPlaced(RingRemove(rings, tasks[t].bucket, t), tasks[t := c])
  {
    WithoutMembers(rings[tasks[t].bucket], t);
  }

  lemma RingsDeleted(rings: seq<seq<Addr>>, tasks: map<Addr, Tcb>, t: Addr)
    requires RingsPlaced(rings, tasks) && t in tasks
    ensures RingsPlaced(RingRemove(rings, tasks[t].bucket, t), tasks - {t})
  {
    WithoutMembers(rings[tasks[t].bucket], t);
  }

  lemma RingsMoved(rings: seq<seq<Addr>>, tasks: map<Addr, Tcb>, t: Addr, c: Tcb)
    requires RingsPlaced(rings, tasks) && t in tasks && tasks[t].state != Blocked
    requires c.state != Blocked && c.bucket < NUM_PRIORITIES
    ensures RingsPlaced(RingAdd(RingRemove(rings, tasks[t].bucket, t), c.bucket, t), tasks[t := c])
  {
    var gone := c.(state := Blocked);
    RingsRemoved(rings, tasks, t, gone);
    RingsAdded(RingRemove(rings, tasks[t].bucket, t), tasks[t := gone], t, c);
    assert tasks[t := gone][t := c] == tasks[t := c];
  }

  lemma RingsRotated(rings: seq<seq<Addr>>, tasks: map<Addr, Tcb>, p: nat)
    requires RingsPlaced(rings, tasks) && p < NUM_PRIORITIES && rings[p] != []
    ensures RingsPlaced(rings[p := rings[p][1..] + [rings[p][0]]], tasks)
  {
    var r := rings[p];
    var r' := r[1..] + [r[0]];
    assert r == [r[0]] + r[1..];
    assert forall t :: t in r' <==> t in r;
  }

  // ---------------------------------------------------------------- wait lists

  lemma WaitsKept(waits: map<WaitKey, seq<Addr>>, tasks: map<Addr, Tcb>, t: Addr, c: Tcb)
    requires WaitsPlaced(waits, tasks) && t in tasks && c.block == tasks[t].block
    ensures WaitsPlaced(waits, tasks[t := c])
  {
  }

  lemma WaitsNewTask(waits: map<WaitKey, seq<Addr>>, tasks: map<Addr, Tcb>, t: Addr, c: Tcb)
    requires WaitsPlaced(waits, tasks) && (t in tasks ==> !tasks[t].block.Waiting?) && !c.block.Waiting?
    ensures WaitsPlaced(waits, tasks[t := c])
  {
  }

  lemma WaitsAdded(waits: map<WaitKey, seq<Addr>>, tasks: map<Addr, Tcb>, w: WaitKey, t: Addr, c: Tcb)
    requires WaitsPlaced(waits, tasks) && t in tasks && w in waits
    requires !tasks[t].block.Waiting? && c.block == Waiting(w)
    ensures WaitsPlaced(waits[w := waits[w] + [t]], tasks[t := c])
  {
    AppendMembers(waits[w], t);
  }

  lemma WaitsRemoved(waits: map<WaitKey, seq<Addr>>, tasks: map<Addr, Tcb>, t: Addr, c: Tcb)
    requires WaitsPlaced(waits, tasks) && t in tasks && tasks[t].block.Waiting? && !c.block.Waiting?
    ensures WaitsPlaced(waits[tasks[t].block.on := Without(waits[tasks[t].block.on], t)], tasks[t := c])
  {
    WithoutMembers(waits[tasks[t].block.on], t);
  }

  lemma WaitsForgot(waits: map<WaitKey, seq<Addr>>, tasks: map<Addr, Tcb>, t: Addr)
    requires WaitsPlaced(waits, tasks) && t in tasks && !tasks[t].block.Waiting?
    ensures WaitsPlaced(waits, tasks - {t})
  {
  }

  // ---------------------------------------------------------------- registry

  lemma RegistryKept(registry: seq<Addr>, tasks: map<Addr, Tcb>, t: Addr, c: Tcb)
    requires RegistryOk(registry, tasks) && t in tasks
    ensures RegistryOk(registry, tasks[t := c])
  {
  }

  lemma RegistryAdded(registry: seq<Addr>, tasks: map<Addr, Tcb>, t: Addr, c: Tcb)
    requires RegistryOk(registry, tasks) && t !in tasks && |registry| < MAX_TASKS
    ensures RegistryOk(registry + [t], tasks[t := c])
  {
    AppendMembers(registry, t);
  }

  lemma RegistryRemoved(registry: seq<Addr>, tasks: map<Addr, Tcb>, t: Addr)
    requires RegistryOk(registry, tasks) && t in tasks
    ensures RegistryOk(Without(registry, t), tasks - {t})
    ensures |Without(registry, t)| == |registry| - 1
  {
    WithoutMembers(registry, t);
  }
}
