/** What the records of a run say of the machine: who sent them, from which context, and by what names. */
module ProbeRecords {
  import opened Events
  import opened Cascades
  import opened WaitForGraphs
  import opened Probes
  import opened ProbeFacts

  // ---- senders ----

  /** The handler running on the CPU, if any, has a probe. */
  predicate InProbed(c: Cpu) { c.handler.Some? && c.handler.value != HRTIMER_SOFTIRQ }

  /** What a record made in state m says of the CPU and the thread that made it. */
  ghost predicate TellsSender(m: Machine, e: Switch) {
    && 0 <= e.cpu < |m.cpus| && e.prevPid == m.cpus[e.cpu].current && m.now <= e.time
  }

  /** What a wakeup sent in state m says of the context it was sent from. */
  ghost predicate TellsContext(m: Machine, e: Switch)
    requires 0 <= e.cpu < |m.cpus|
  {
    var c := m.cpus[e.cpu];
    && (e.ctx == HARDIRQ <==> c.hard > 0)
    && (e.ctx == PROCESS <==> c.hard == 0 && !c.inSoftirq)
    && (c.hard == 0 && InProbed(c) ==> e.ctx == c.handler.value)
  }

  /** What the record of a context switch says: prev left its CPU ready or to sleep, and next runs there. */
  ghost predicate TellsSwitch(m': Machine, e: Switch) {
    && 0 <= e.cpu < |m'.cpus| && m'.cpus[e.cpu].current == e.nextPid != e.prevPid
    && (e.prevPid != 0 ==>
          e.prevPid in m'.threads && m'.threads[e.prevPid].sched == if e.prevState == 0 then Ready else Asleep)
    && (e.nextPid != 0 ==> e.nextPid in m'.threads && m'.threads[e.nextPid].sched == OnCpu(e.cpu))
  }

  lemma SwitchTells(m: Machine, cpu: nat, next: int, prevState: u64, t: u64)
    requires Placed(m) && Enabled(m, SwitchTo(cpu, next, prevState))
    ensures TellsSwitch(Step(m, SwitchTo(cpu, next, prevState), t), SwitchRecord(m, cpu, next, prevState, t))
  {
  }

  lemma OneMore<T>(a: seq<T>, b: seq<T>, e: T)
    requires b == a + [e]
    ensures |b| == |a| + 1 && b[..|a|] == a && b[|a|] == e
  {
  }

  /** A step records at most one event, and these: a switch from the thread that ran to the one that runs now, a wakeup of the
      thread it was for from the context it was sent from, a new thread, an exit. */
  lemma StepTells(m: Machine, m': Machine)
    requires Hardware(m) && Next(m, m') && m'.switches != m.switches
    ensures |m'.switches| == |m.switches| + 1 && m.switches == m'.switches[..|m.switches|]
    ensures var e := m'.switches[|m.switches|];
      && TellsSender(m, e) && m'.now == e.time + 1 && |m'.cpus| == |m.cpus|
      && (e.kind != WAKEUP ==> e.ctx == PROCESS)
      && (e.kind == WAIT ==> TellsSwitch(m', e))
      && (e.kind == WAKEUP ==> WakeupSent(m, m', e.cpu, e.nextPid) && TellsContext(m, e))
      && (e.kind == CREATE ==> e.nextPid !in m.threads && e.nextPid in m'.threads)
      && (e.kind == EXIT ==> e.prevPid != 0 && m'.threads == m.threads)
  {
    var a, t: u64 :| Enabled(m, a) && m.now <= t && m' == Step(m, a, t);
    if a.SwitchTo? { SwitchTells(m, a.cpu, a.next, a.prevState, t); }
    if a.WakeUp? { assert WakeupSent(m, m', a.cpu, a.target); }
    OneMore(m.switches, m'.switches, m'.switches[|m.switches|]);
  }

  /** The step from m to m' is a wakeup of thread p sent by CPU c. */
  ghost predicate WakeupSent(m: Machine, m': Machine, c: int, p: int) {
    exists matches, t: u64 ::
      0 <= c && Enabled(m, WakeUp(c, p, matches)) && m.now <= t && m' == Step(m, WakeUp(c, p, matches), t)
  }

  /** A step that records nothing moves no thread. */
  lemma QuietStep(m: Machine, m': Machine)
    requires Next(m, m') && m'.switches == m.switches
    ensures m'.threads == m.threads && |m'.cpus| == |m.cpus|
    ensures forall c :: 0 <= c < |m.cpus| ==> m'.cpus[c].current == m.cpus[c].current
  {
  }

  /** Every wakeup is recorded, effective or not: once, with its sender and its context. */
  lemma WakeupIsTold(m: Machine, m': Machine, c: int, p: int)
    requires Hardware(m) && WakeupSent(m, m', c, p)
    ensures |m'.switches| == |m.switches| + 1
    ensures var e := m'.switches[|m.switches|];
      e.kind == WAKEUP && e.cpu == c && e.nextPid == p && TellsSender(m, e) && TellsContext(m, e) && m'.now == e.time + 1
  {
  }

  /** Every step of every run that records a wakeup is a wakeup of the thread named, and the record tells its sender: the
      thread current on its CPU, and whether from a hardware interrupt, a probed handler or the thread itself. Every wakeup is
      recorded so. */
  lemma WakeupsOfARun(ms: seq<Machine>, i: nat, c: int, p: int)
    requires Behaviour(ms) && i + 1 < |ms|
    ensures WakeupSent(ms[i], ms[i + 1], c, p) <==>
      && |ms[i + 1].switches| == |ms[i].switches| + 1
      && var e := ms[i + 1].switches[|ms[i].switches|];
      && e.kind == WAKEUP && e.cpu == c && e.nextPid == p && TellsSender(ms[i], e) && TellsContext(ms[i], e)
  {
    RunsAreSound(ms, i);
    assert StepAt(ms, i);
    if WakeupSent(ms[i], ms[i + 1], c, p) { WakeupIsTold(ms[i], ms[i + 1], c, p); }
    if ms[i + 1].switches != ms[i].switches { StepTells(ms[i], ms[i + 1]); }
  }

  // ---- the number outside the probed handlers ----

  /** CPU c returns from a probed handler in the step after state i. */
  ghost predicate Returns(ms: seq<Machine>, c: int, i: int) {
    && 0 <= i && i + 1 < |ms| && 0 <= c < |ms[i].cpus| && InProbed(ms[i].cpus[c])
    && c < |ms[i + 1].cpus| && ms[i + 1].cpus[c].handler.None?
  }

  ghost predicate ReturnedBefore(ms: seq<Machine>, c: int, j: int) {
    exists i :: i < j && Returns(ms, c, i)
  }

  lemma NumberStep(m: Machine, m': Machine, c: int)
    requires Numbers(m) && Next(m, m') && 0 <= c < |m.cpus|
    ensures c < |m'.cpus| && if InProbed(m.cpus[c])
      then m'.cpus[c].handler == m.cpus[c].handler || (m'.cpus[c].handler.None? && m'.cpus[c].data.softirqsNr == NR_SOFTIRQS)
      else InProbed(m'.cpus[c]) || m'.cpus[c].data.softirqsNr == m.cpus[c].data.softirqsNr
  {
    var a, t: u64 :| Enabled(m, a) && m.now <= t && m' == Step(m, a, t);
  }

  /** While no probed handler runs on a CPU, its number is that of HI_SOFTIRQ until the first return from a probed handler,
      and NR_SOFTIRQS ever after. */
  lemma {:induction false} NumberOutside(ms: seq<Machine>, c: int, j: nat)
    requires Behaviour(ms) && j < |ms| && 0 <= c < |ms[j].cpus| && !InProbed(ms[j].cpus[c])
    ensures ms[j].cpus[c].data.softirqsNr == if ReturnedBefore(ms, c, j) then NR_SOFTIRQS else HI_SOFTIRQ
  {
    if j > 0 {
      RunsAreSound(ms, j - 1);
      assert StepAt(ms, j - 1);
      SameCpus(ms[j - 1], ms[j]);
      NumberStep(ms[j - 1], ms[j], c);
      if InProbed(ms[j - 1].cpus[c]) {
        assert Returns(ms, c, j - 1);
      } else {
        NumberOutside(ms, c, j - 1);
        assert !Returns(ms, c, j - 1);
      }
    }
  }

  lemma SameCpus(m: Machine, m': Machine)
    requires Next(m, m')
    ensures |m'.cpus| == |m.cpus|
  {
  }

  // ---- names ----

  /** s is the name of thread p; the idle threads go by "swapper". */
  ghost predicate GoesBy(m: Machine, p: int, s: string) {
    if p == 0 then s == "swapper" else p in m.threads && m.threads[p].comm == s
  }

  ghost predicate WellNamed(m: Machine, e: Switch) { GoesBy(m, e.prevPid, e.prevComm) && GoesBy(m, e.nextPid, e.nextComm) }

  lemma NamesStay(m: Machine, m': Machine, p: int, s: string)
    requires Placed(m) && Next(m, m') && GoesBy(m, p, s)
    ensures GoesBy(m', p, s)
  {
  }

  lemma NewNames(m: Machine, m': Machine)
    requires Placed(m) && Next(m, m') && m'.switches != m.switches
    ensures |m'.switches| == |m.switches| + 1 && m.switches == m'.switches[..|m.switches|]
    ensures WellNamed(m', m'.switches[|m.switches|])
  {
    var a, t: u64 :| Enabled(m, a) && m.now <= t && m' == Step(m, a, t);
    OneMore(m.switches, m'.switches, m'.switches[|m.switches|]);
  }

  /** The names given so far stay right, and the new ones are. */
  lemma NamesStep(m: Machine, m': Machine)
    requires Placed(m) && Next(m, m') && forall n :: 0 <= n < |m.switches| ==> WellNamed(m, m.switches[n])
    ensures forall n :: 0 <= n < |m'.switches| ==> WellNamed(m', m'.switches[n])
  {
    forall n | 0 <= n < |m'.switches| ensures WellNamed(m', m'.switches[n]) {
      if m'.switches != m.switches { NewNames(m, m'); }
      if n < |m.switches| {
        var e := m.switches[n];
        assert WellNamed(m, e) && m'.switches[n] == e;
        NamesStay(m, m', e.prevPid, e.prevComm);
        NamesStay(m, m', e.nextPid, e.nextComm);
      }
    }
  }

  /** In every run each record gives both its pids the names of their threads. */
  lemma {:induction false} RecordsName(ms: seq<Machine>, i: nat)
    requires Behaviour(ms) && i < |ms|
    ensures forall n :: 0 <= n < |ms[i].switches| ==> WellNamed(ms[i], ms[i].switches[n])
  {
    if i > 0 {
      RunsAreSound(ms, i - 1);
      RecordsName(ms, i - 1);
      assert StepAt(ms, i - 1);
      NamesStep(ms[i - 1], ms[i]);
    }
  }

  /** The names the analyzer takes from a run's records are the threads' own, and it has one for exactly the threads that some
      record names. */
  lemma NamesOfARun(ms: seq<Machine>, i: nat, p: int)
    requires Behaviour(ms) && i < |ms|
    ensures var swl := ms[i].switches;
      && (p in CommsOf(swl) <==> exists n :: 0 <= n < |swl| && (swl[n].prevPid == p || swl[n].nextPid == p))
      && (p in CommsOf(swl) ==> GoesBy(ms[i], p, CommsOf(swl)[p]))
  {
    var swl := ms[i].switches;
    CalledIs(swl, p, Comm(CommsOf(swl), p));
    assert forall n :: 0 <= n < |swl| ==> (Names(swl[n], p) <==> swl[n].prevPid == p || swl[n].nextPid == p);
    if p in CommsOf(swl) {
      var n :| FirstNames(swl, p, n) && CommsOf(swl)[p] == if swl[n].prevPid == p then swl[n].prevComm else swl[n].nextComm;
      RecordsName(ms, i);
      assert WellNamed(ms[i], swl[n]);
    }
  }

  /** Of a run's waits, those that a hardware interrupt ended, or a softirq other than by the number of HI_SOFTIRQ, never reach
      the graph. */
  lemma ContextsAddNothing(ms: seq<Machine>, i: nat, g: Graph, e: Edge)
    requires Behaviour(ms) && i < |ms| && e.waker < 0
    ensures AddWeight(g, CommsOf(ms[i].switches), e) == g
  {
    var swl := ms[i].switches;
    RunsAreSound(ms, i);
    RecordsName(ms, i);
    forall n | 0 <= n < |swl| ensures swl[n].prevPid != e.waker && swl[n].nextPid != e.waker {
      assert WellNamed(ms[i], swl[n]);
    }
    UnnamedAddsNothing(swl, g, e);
  }
}
