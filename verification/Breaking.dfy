/** BreakIntoSegments on values: a replay of one thread's events that leaves a segment behind at every step. */
module Breaking {
  import opened Events
  import opened TreeMaps
  import opened Tables
  import opened SoftIndexes

  datatype PrevState = PrevState(time: u64, state: int)

  predicate Out(pid: int, sw: Switch) { sw.kind == WAIT && sw.prevPid == pid }

  predicate In(pid: int, sw: Switch) { sw.kind == WAIT && sw.prevPid != pid && sw.nextPid == pid }

  predicate Wakes(pid: int, sw: Switch) { sw.kind == WAKEUP && sw.nextPid == pid }

  /** The event changes what is known of the thread. A wakeup counts only for a blocked thread. */
  predicate Effective(pid: int, state: int, sw: Switch) {
    Out(pid, sw) || In(pid, sw) || (Wakes(pid, sw) && state == BLOCKED)
  }

  function NextPs(pid: int, ps: PrevState, sw: Switch): PrevState {
    if Out(pid, sw) then PrevState(sw.time, if sw.prevState == 0 then RUNNABLE else BLOCKED)
    else if In(pid, sw) then PrevState(sw.time, RUNNING)
    else if Wakes(pid, sw) && ps.state == BLOCKED then PrevState(sw.time, RUNNABLE)
    else ps
  }

  /** Whom the thread waited for: the waking thread, or minus the number of the context that woke it. */
  function Waker(sw: Switch): int { if sw.ctx == PROCESS then sw.prevPid else -sw.ctx }

  /** The segments of a run from pt to the switch, with the first softirq that fits cut out. */
  ghost function RunPieces(pid: int, ix: SoftIndex, pt: u64, sw: Switch): seq<Seg> {
    var sf := CeilingSoft(ix, sw.cpu, pt);
    if sf.Some? && sf.value.stime < sw.time && sf.value.etime < sw.time then
      [Seg(pid, RUNNING, pt, sf.value.stime, NONE),
       Seg(pid, RUNNABLE, sf.value.stime, sf.value.etime, NONE),
       Seg(pid, RUNNING, sf.value.etime, sw.time, NONE)]
    else [Seg(pid, RUNNING, pt, sw.time, NONE)]
  }

  /** The segments stored when event sw is met. */
  ghost function Puts(pid: int, ix: SoftIndex, ps: PrevState, sw: Switch): seq<Seg> {
    if Out(pid, sw) then RunPieces(pid, ix, ps.time, sw)
    else if In(pid, sw) then [Seg(pid, RUNNABLE, ps.time, sw.time, NONE)]
    else if Wakes(pid, sw) && ps.state == BLOCKED then [Seg(pid, BLOCKED, ps.time, sw.time, Waker(sw))]
    else []
  }

  ghost function PutAll(m: Table, segs: seq<Seg>): Table
    decreases |segs|
  {
    if segs == [] then m else PutAll(m[segs[0].stime := segs[0]], segs[1..])
  }

  /** What is known of the thread after the first n events. */
  ghost function Ps(pid: int, ps0: PrevState, swl: seq<Switch>, n: nat): PrevState
    requires n <= |swl|
  {
    if n == 0 then ps0 else NextPs(pid, Ps(pid, ps0, swl, n - 1), swl[n - 1])
  }

  /** The thread's map after the first n events. */
  ghost function Tab(pid: int, ix: SoftIndex, ps0: PrevState, swl: seq<Switch>, n: nat, m0: Table): Table
    requires n <= |swl|
  {
    if n == 0 then m0
    else PutAll(Tab(pid, ix, ps0, swl, n - 1, m0), Puts(pid, ix, Ps(pid, ps0, swl, n - 1), swl[n - 1]))
  }

  /** The thread's exit: the last do_exit event that names it. */
  ghost function ExitTime(pid: int, swl: seq<Switch>): Option<u64> {
    if swl == [] then None
    else if swl[|swl| - 1].kind == EXIT && swl[|swl| - 1].prevPid == pid then Some(swl[|swl| - 1].time)
    else ExitTime(pid, swl[..|swl| - 1])
  }

  ghost function TraceEnd(swl: seq<Switch>): u64
    requires swl != []
  {
    swl[|swl| - 1].time
  }

  /** The state recorded for a listed thread: line 165-170 overwrite the start with the exit or the end of the trace. */
  ghost function InitialState(pid: int, swl: seq<Switch>): PrevState
    requires swl != []
  {
    PrevState(if ExitTime(pid, swl).Some? then ExitTime(pid, swl).value else TraceEnd(swl), UNSEEN)
  }

  /** The last segment, made from the recorded state ps, which the event loop never wrote back. None is a nil segment
      dereferenced: the thread exited and nothing was ever stored for it. */
  ghost function Close(pid: int, swl: seq<Switch>, ps: PrevState, m: Table): Option<Table>
    requires swl != []
  {
    if ps.state == RUNNING then Some(m[ps.time := Seg(pid, RUNNING, ps.time, TraceEnd(swl), NONE)])
    else if ps.state == RUNNABLE then Some(m[ps.time := Seg(pid, RUNNABLE, ps.time, TraceEnd(swl), NONE)])
    else if ExitTime(pid, swl).Some? then
      var x := ExitTime(pid, swl).value;
      var f := FloorOf(m.Keys, x);
      if f.None? then None else Some(m[f.value := m[f.value].(etime := x)])
    else Some(m[ps.time := Seg(pid, BLOCKED, ps.time, TraceEnd(swl), -UNKNOWN)])
  }

  /** BreakIntoSegments. */
  ghost function Broken(pid: int, ix: SoftIndex, ps0: PrevState, swl: seq<Switch>, m0: Table): Option<Table>
    requires swl != []
  {
    Close(pid, swl, ps0, Tab(pid, ix, ps0, swl, |swl|, m0))
  }
}
