/** The kernel module's probes on an n-CPU machine: what they record, step by step. */
module Probes {
  import opened Events

  // ---- the probes' per-CPU data ----

  datatype PerCpu = PerCpu(softirqsNr: int, softirqBtime: u64)

  /** Only these handlers carry a probe: HRTIMER_SOFTIRQ has none. */
  predicate Probed(nr: int) { 0 <= nr < NR_SOFTIRQS && nr != HRTIMER_SOFTIRQ }

  function HandlerEnt(d: PerCpu, nr: int): PerCpu {
    if Probed(nr) then d.(softirqsNr := nr) else d
  }

  function HandlerRet(d: PerCpu, nr: int): PerCpu {
    if Probed(nr) then d.(softirqsNr := NR_SOFTIRQS) else d
  }

  function DoSoftirqEnt(d: PerCpu, tsc: u64): PerCpu { d.(softirqBtime := tsc) }

  function DoSoftirqRet(d: PerCpu, cpu: int, tsc: u64): Soft { Soft(cpu, d.softirqBtime, tsc) }

  /** The per-CPU record as the handlers update it. */
  class PerCpuData {
    var softirqsNr: int
    var softirqBtime: u64

    function Value(): PerCpu
      reads this
    {
      PerCpu(softirqsNr, softirqBtime)
    }

    constructor ()
      ensures Value() == PerCpu(0, 0)
    {
      softirqsNr, softirqBtime := 0, 0;
    }

    method OnHandlerEnt(nr: int)
      requires Probed(nr)
      modifies this
      ensures Value() == HandlerEnt(old(Value()), nr)
    {
      softirqsNr := nr;
    }

    method OnHandlerRet(nr: int)
      requires Probed(nr)
      modifies this
      ensures Value() == HandlerRet(old(Value()), nr)
    {
      softirqsNr := NR_SOFTIRQS;
    }

    method OnDoSoftirqEnt(tsc: u64)
      modifies this
      ensures Value() == DoSoftirqEnt(old(Value()), tsc)
    {
      softirqBtime := tsc;
    }

    method OnDoSoftirqRet(cpu: int, tsc: u64) returns (s: Soft)
      ensures s == DoSoftirqRet(Value(), cpu, tsc)
    {
      s := Soft(cpu, softirqBtime, tsc);
    }
  }

  // ---- the machine ----

  datatype Sched = OnCpu(cpu: int) | Ready | Asleep

  datatype Thread = Thread(comm: string, sched: Sched)

  /** current 0 is the CPU's idle thread; handler is the softirq handler running, hard the depth of hardware interrupts. */
  datatype Cpu = Cpu(current: int, inSoftirq: bool, handler: Option<int>, hard: nat, data: PerCpu)

  datatype Machine = Machine(now: int, cpus: seq<Cpu>, threads: map<int, Thread>, switches: seq<Switch>, softs: seq<Soft>)

  datatype Action =
    | SwitchTo(cpu: nat, next: int, prevState: u64)
    | WakeUp(cpu: nat, target: int, matches: bool)
    | NewTask(cpu: nat, pid: int, comm: string)
    | ExitTask(cpu: nat)
    | EnterSoftirq(cpu: nat)
    | LeaveSoftirq(cpu: nat)
    | EnterHandler(cpu: nat, nr: int)
    | LeaveHandler(cpu: nat)
    | EnterHardirq(cpu: nat)
    | LeaveHardirq(cpu: nat)

  function CommOf(m: Machine, pid: int): string {
    if pid in m.threads then m.threads[pid].comm else "swapper"
  }

  /** Whom and what the probes see as the sender of a wakeup. */
  function Context(c: Cpu): int {
    if c.hard > 0 then HARDIRQ else if c.inSoftirq then c.data.softirqsNr else PROCESS
  }

  /** What may happen. There is no context switch inside an interrupt, and softirqs do not nest on a CPU. */
  ghost predicate Enabled(m: Machine, a: Action) {
    a.cpu < |m.cpus| &&
    var c := m.cpus[a.cpu];
    match a
    case SwitchTo(_, next, _) =>
      c.hard == 0 && !c.inSoftirq && next != c.current && (next == 0 || (next in m.threads && m.threads[next].sched == Ready))
    case WakeUp(_, target, _) => target in m.threads
    case NewTask(_, pid, _) => c.hard == 0 && !c.inSoftirq && 0 < pid && pid !in m.threads
    case ExitTask(_) => c.hard == 0 && !c.inSoftirq && c.current != 0
    case EnterSoftirq(_) => c.hard == 0 && !c.inSoftirq
    case LeaveSoftirq(_) => c.hard == 0 && c.inSoftirq && c.handler.None?
    case EnterHandler(_, nr) => c.hard == 0 && c.inSoftirq && c.handler.None? && 0 <= nr < NR_SOFTIRQS
    case LeaveHandler(_) => c.hard == 0 && c.inSoftirq && c.handler.Some?
    case EnterHardirq(_) => true
    case LeaveHardirq(_) => c.hard > 0
  }

  /** A thread leaves its CPU, to wait for another turn or to block. */
  function Descheduled(ts: map<int, Thread>, pid: int, prevState: u64): map<int, Thread> {
    if pid in ts then ts[pid := ts[pid].(sched := if prevState == 0 then Ready else Asleep)] else ts
  }

  function Scheduled(ts: map<int, Thread>, pid: int, cpu: int): map<int, Thread> {
    if pid in ts then ts[pid := ts[pid].(sched := OnCpu(cpu))] else ts
  }

  function Woken(ts: map<int, Thread>, pid: int, matches: bool): map<int, Thread> {
    if matches && pid in ts && ts[pid].sched == Asleep then ts[pid := ts[pid].(sched := Ready)] else ts
  }

  /** The record the probe of __switch_to writes. */
  function SwitchRecord(m: Machine, cpu: nat, next: int, prevState: u64, t: u64): Switch
    requires cpu < |m.cpus|
  {
    var prev := m.cpus[cpu].current;
    Switch(cpu, t, WAIT, prev, next, prevState, 0, CommOf(m, prev), CommOf(m, next), PROCESS)
  }

  /** The record the probe of try_to_wake_up writes, whether or not the wakeup takes effect. */
  function WakeRecord(m: Machine, cpu: nat, target: int, t: u64): Switch
    requires cpu < |m.cpus|
  {
    var sender := m.cpus[cpu].current;
    Switch(cpu, t, WAKEUP, sender, target, 0, 0, CommOf(m, sender), CommOf(m, target), Context(m.cpus[cpu]))
  }

  function CreateRecord(m: Machine, cpu: nat, pid: int, comm: string, t: u64): Switch
    requires cpu < |m.cpus|
  {
    var sender := m.cpus[cpu].current;
    Switch(cpu, t, CREATE, sender, pid, 0, 0, CommOf(m, sender), comm, PROCESS)
  }

  /** The record the probe of do_exit is meant to write; what it does write lacks the time stamp. */
  function ExitRecord(m: Machine, cpu: nat, t: u64): Switch
    requires cpu < |m.cpus|
  {
    var sender := m.cpus[cpu].current;
    Switch(cpu, t, EXIT, sender, 0, 0, 0, CommOf(m, sender), "swapper", PROCESS)
  }

  /** One step at time t. Time stamps come from one clock that never shows the same value twice. */
  ghost function Step(m: Machine, a: Action, t: u64): Machine
    requires Enabled(m, a)
  {
    var c := m.cpus[a.cpu];
    var r := m.(now := t + 1);
    match a
    case SwitchTo(cpu, next, prevState) =>
      r.(cpus := m.cpus[cpu := c.(current := next)],
         threads := Scheduled(Descheduled(m.threads, c.current, prevState), next, cpu),
         switches := m.switches + [SwitchRecord(m, cpu, next, prevState, t)])
    case WakeUp(cpu, target, matches) =>
      r.(threads := Woken(m.threads, target, matches), switches := m.switches + [WakeRecord(m, cpu, target, t)])
    case NewTask(cpu, pid, comm) =>
      r.(threads := m.threads[pid := Thread(comm, Ready)],
         switches := m.switches + [CreateRecord(m, cpu, pid, comm, t)])
    case ExitTask(cpu) =>
      r.(switches := m.switches + [ExitRecord(m, cpu, t)])
    case EnterSoftirq(cpu) =>
      r.(cpus := m.cpus[cpu := c.(inSoftirq := true, data := DoSoftirqEnt(c.data, t))])
    case LeaveSoftirq(cpu) =>
      r.(cpus := m.cpus[cpu := c.(inSoftirq := false)], softs := m.softs + [DoSoftirqRet(c.data, cpu, t)])
    case EnterHandler(cpu, nr) =>
      r.(cpus := m.cpus[cpu := c.(handler := Some(nr), data := HandlerEnt(c.data, nr))])
    case LeaveHandler(cpu) =>
      r.(cpus := m.cpus[cpu := c.(handler := None, data := HandlerRet(c.data, c.handler.value))])
    case EnterHardirq(cpu) =>
      r.(cpus := m.cpus[cpu := c.(hard := c.hard + 1)])
    case LeaveHardirq(cpu) =>
      r.(cpus := m.cpus[cpu := c.(hard := c.hard - 1)])
  }

  /** Threads and CPUs agree on who runs where. */
  ghost predicate Placed(m: Machine) {
    && (forall c :: 0 <= c < |m.cpus| && m.cpus[c].current != 0 ==>
          m.cpus[c].current in m.threads && m.threads[m.cpus[c].current].sched == OnCpu(c))
    && (forall p :: p in m.threads ==> 0 < p)
    && (forall p :: p in m.threads && m.threads[p].sched.OnCpu? ==>
          0 <= m.threads[p].sched.cpu < |m.cpus| && m.cpus[m.threads[p].sched.cpu].current == p)
  }

  /** Recording starts with empty buffers, outside softirqs, with the per-CPU data zeroed. */
  ghost predicate Init(m: Machine) {
    && Placed(m) && 0 <= m.now && m.switches == [] && m.softs == []
    && forall c :: 0 <= c < |m.cpus| ==> !m.cpus[c].inSoftirq && m.cpus[c].handler.None? && m.cpus[c].data == PerCpu(0, 0)
  }

  ghost predicate Next(m: Machine, m': Machine) {
    exists a, t: u64 :: Enabled(m, a) && m.now <= t && m' == Step(m, a, t)
  }

  ghost predicate StepAt(ms: seq<Machine>, i: int)
    requires 0 <= i < |ms| - 1
  {
    Next(ms[i], ms[i + 1])
  }

  /** A run: every state follows from the one before. */
  ghost predicate Behaviour(ms: seq<Machine>) {
    ms != [] && Init(ms[0]) && forall i :: 0 <= i < |ms| - 1 ==> StepAt(ms, i)
  }
}
