/** The records the analyzer works on, and the machine arithmetic it does on them. */
module Events {
  datatype Option<+T> = None | Some(value: T)

  // Time stamps and weights are Go's uint64: additions and subtractions wrap.
  const U64_LIMIT: int := 0x1_0000_0000_0000_0000
  type u64 = x: int | 0 <= x < U64_LIMIT

  function Add64(a: u64, b: u64): u64 { (a + b) % U64_LIMIT }

  function Sub64(a: u64, b: u64): u64 { (a - b) % U64_LIMIT }

  // Segment labels, and the initial "nothing known yet" state of a thread.
  const RUNNING: int := 0
  const RUNNABLE: int := 1
  const BLOCKED: int := 2
  const UNSEEN: int := -1

  // Event types.
  const WAIT: int := 0
  const WAKEUP: int := 1
  const CREATE: int := 2
  const EXIT: int := 3

  // The contexts a wakeup can be sent from; a number below NR_SOFTIRQS is a softirq vector.
  const HI_SOFTIRQ: int := 0
  const HRTIMER_SOFTIRQ: int := 8
  const NR_SOFTIRQS: int := 10
  const HARDIRQ: int := 11
  const PROCESS: int := 12
  const UNKNOWN: int := 13

  const NONE: int := 0

  datatype Switch = Switch(
    cpu: int, time: u64, kind: int, prevPid: int, nextPid: int,
    prevState: u64, nextState: u64, prevComm: string, nextComm: string, ctx: int)

  datatype Soft = Soft(cpu: int, stime: u64, etime: u64)

  /** What LoadSwitch hands on: the events in time order. */
  ghost predicate Sorted(swl: seq<Switch>) {
    forall i, j :: 0 <= i < j < |swl| ==> swl[i].time <= swl[j].time
  }

  ghost predicate StrictlySorted(swl: seq<Switch>) {
    forall i, j :: 0 <= i < j < |swl| ==> swl[i].time < swl[j].time
  }
}
