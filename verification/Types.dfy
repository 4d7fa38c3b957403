/** Constants, status codes and the two pure computations that several kernel
    modules share: the priority bucket and 32-bit deadline arithmetic. */
module Types {

  /** A C pointer to a kernel object, as a byte address. */
  type Addr = nat

  type Byte = x: nat | x < 256

  const NULL: Addr := 0

  const NUM_PRIORITIES: nat := 8
  const PRIORITY_LIMIT: nat := 256
  const MAX_TASKS: nat := 32
  const U32_MAX: nat := 0xFFFF_FFFF
  const U32_MOD: nat := 0x1_0000_0000

  datatype Status = Ok | ErrParam | ErrNoMem | ErrState | ErrTimeout | ErrFull | ErrOwner

  function Bucket(priority: nat): (b: nat)
    ensures b < NUM_PRIORITIES
    ensures priority < PRIORITY_LIMIT ==> 32 * b <= priority < 32 * b + 32
  {
    if priority / 32 >= NUM_PRIORITIES then NUM_PRIORITIES - 1 else priority / 32
  }

  lemma BucketMonotone(p: nat, q: nat)
    requires p <= q
    ensures Bucket(p) <= Bucket(q)
  {
  }

  /** The wake time computed when a task blocks: both RTOS_WAIT_FOREVER and 0 are 0,
      and the sum wraps at 32 bits. */
  function Deadline(now: nat, timeout: nat): (d: nat)
    ensures d <= U32_MAX
  {
    if timeout == 0 then U32_MAX else (now + timeout) % U32_MOD
  }
}
