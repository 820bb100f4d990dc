/** What every run of the probes guarantees about its records. */
module ProbeFacts {
  import opened Events
  import opened Breaking
  import opened Probes

  // ---- clock, CPUs, softirqs ----

  ghost predicate SoftsOrdered(m: Machine) {
    && (forall s :: s in m.softs ==> 0 <= s.cpu < |m.cpus| && s.stime < s.etime < m.now)
    && (forall i, j :: 0 <= i < j < |m.softs| && m.softs[i].cpu == m.softs[j].cpu ==> m.softs[i].etime < m.softs[j].stime)
    && (forall c, s :: 0 <= c < |m.cpus| && m.cpus[c].inSoftirq && s in m.softs && s.cpu == c ==>
          s.etime < m.cpus[c].data.softirqBtime)
    && (forall c :: 0 <= c < |m.cpus| && m.cpus[c].inSoftirq ==> m.cpus[c].data.softirqBtime < m.now)
  }

  /** No softirq of a CPU has a switch or an exit of that CPU inside it. */
  ghost predicate NoSwitchInside(m: Machine) {
    && (forall e, s :: e in m.switches && e.kind in {WAIT, EXIT} && s in m.softs && s.cpu == e.cpu ==>
          e.time < s.stime || s.etime < e.time)
    && (forall e, c :: e in m.switches && e.kind in {WAIT, EXIT} && 0 <= c < |m.cpus| && e.cpu == c && m.cpus[c].inSoftirq ==>
          e.time < m.cpus[c].data.softirqBtime)
  }

  /** No scheduling event shares a time stamp with the begin or the end of a softirq. */
  ghost predicate TimesDiffer(m: Machine) {
    && (forall e, s :: e in m.switches && s in m.softs ==> e.time != s.stime && e.time != s.etime)
    && (forall e, c :: e in m.switches && 0 <= c < |m.cpus| && m.cpus[c].inSoftirq ==> e.time != m.cpus[c].data.softirqBtime)
  }

  ghost predicate Timed(m: Machine) {
    && 0 <= m.now && StrictlySorted(m.switches)
    && (forall e :: e in m.switches ==> e.time < m.now && e.kind in {WAIT, WAKEUP, CREATE, EXIT} && 0 <= e.ctx)
  }

  /** The per-CPU number is that of the handler running, unless that handler has no probe. */
  ghost predicate Numbers(m: Machine) {
    forall c :: 0 <= c < |m.cpus| ==>
      (m.cpus[c].handler.Some? ==> m.cpus[c].inSoftirq && 0 <= m.cpus[c].handler.value < NR_SOFTIRQS)
      && if m.cpus[c].handler.Some? && Probed(m.cpus[c].handler.value)
         then m.cpus[c].data.softirqsNr == m.cpus[c].handler.value
         else m.cpus[c].data.softirqsNr in {0, NR_SOFTIRQS}
  }

  ghost predicate Hardware(m: Machine) {
    Placed(m) && Timed(m) && SoftsOrdered(m) && NoSwitchInside(m) && TimesDiffer(m) && Numbers(m)
  }

  lemma PlacedSwitch(m: Machine, cpu: nat, next: int, prevState: u64, t: u64)
    requires Placed(m) && Enabled(m, SwitchTo(cpu, next, prevState))
    ensures Placed(Step(m, SwitchTo(cpu, next, prevState), t))
  {
    var m' := Step(m, SwitchTo(cpu, next, prevState), t);
    assert |m'.cpus| == |m.cpus|;
  }

  lemma PlacedWake(m: Machine, cpu: nat, target: int, matches: bool, t: u64)
    requires Placed(m) && Enabled(m, WakeUp(cpu, target, matches))
    ensures Placed(Step(m, WakeUp(cpu, target, matches), t))
  {
  }

  lemma PlacedNew(m: Machine, cpu: nat, pid: int, comm: string, t: u64)
    requires Placed(m) && Enabled(m, NewTask(cpu, pid, comm))
    ensures Placed(Step(m, NewTask(cpu, pid, comm), t))
  {
  }

  lemma PlacedStep(m: Machine, a: Action, t: u64)
    requires Placed(m) && Enabled(m, a)
    ensures Placed(Step(m, a, t))
  {
    match a
    case SwitchTo(cpu, next, prevState) => PlacedSwitch(m, cpu, next, prevState, t);
    case WakeUp(cpu, target, matches) => PlacedWake(m, cpu, target, matches, t);
    case NewTask(cpu, pid, comm) => PlacedNew(m, cpu, pid, comm, t);
    case _ =>
  }

  lemma TimedStep(m: Machine, a: Action, t: u64)
    requires Timed(m) && Numbers(m) && Enabled(m, a) && m.now <= t
    ensures Timed(Step(m, a, t))
  {
  }

  lemma SoftsEnter(m: Machine, cpu: nat, t: u64)
    requires SoftsOrdered(m) && Enabled(m, EnterSoftirq(cpu)) && m.now <= t
    ensures SoftsOrdered(Step(m, EnterSoftirq(cpu), t))
  {
  }

  lemma SoftsLeave(m: Machine, cpu: nat, t: u64)
    requires SoftsOrdered(m) && Enabled(m, LeaveSoftirq(cpu)) && m.now <= t
    ensures SoftsOrdered(Step(m, LeaveSoftirq(cpu), t))
  {
    var s := DoSoftirqRet(m.cpus[cpu].data, cpu, t);
    assert forall o :: o in m.softs + [s] <==> o in m.softs || o == s;
  }

  lemma SoftsStep(m: Machine, a: Action, t: u64)
    requires SoftsOrdered(m) && Enabled(m, a) && m.now <= t
    ensures SoftsOrdered(Step(m, a, t))
  {
    match a
    case EnterSoftirq(cpu) => SoftsEnter(m, cpu, t);
    case LeaveSoftirq(cpu) => SoftsLeave(m, cpu, t);
    case _ =>
  }

  lemma InsideStep(m: Machine, a: Action, t: u64)
    requires Timed(m) && SoftsOrdered(m) && NoSwitchInside(m) && Enabled(m, a) && m.now <= t
    ensures NoSwitchInside(Step(m, a, t))
  {
    match a
    case LeaveSoftirq(cpu) => InsideLeave(m, cpu, t);
    case _ =>
  }

  lemma InsideLeave(m: Machine, cpu: nat, t: u64)
    requires Timed(m) && NoSwitchInside(m) && Enabled(m, LeaveSoftirq(cpu)) && m.now <= t
    ensures NoSwitchInside(Step(m, LeaveSoftirq(cpu), t))
  {
    var s := DoSoftirqRet(m.cpus[cpu].data, cpu, t);
    assert forall o :: o in m.softs + [s] <==> o in m.softs || o == s;
  }

  lemma DifferStep(m: Machine, a: Action, t: u64)
    requires Timed(m) && SoftsOrdered(m) && TimesDiffer(m) && Enabled(m, a) && m.now <= t
    ensures TimesDiffer(Step(m, a, t))
  {
  }

  lemma NumbersStep(m: Machine, a: Action, t: u64)
    requires Numbers(m) && Enabled(m, a)
    ensures Numbers(Step(m, a, t))
  {
  }

  lemma HardwareStep(m: Machine, a: Action, t: u64)
    requires Hardware(m) && Enabled(m, a) && m.now <= t
    ensures Hardware(Step(m, a, t))
  {
    PlacedStep(m, a, t);
    TimedStep(m, a, t);
    SoftsStep(m, a, t);
    InsideStep(m, a, t);
    DifferStep(m, a, t);
    NumbersStep(m, a, t);
  }

  // ---- the threads, as the records tell of them ----

  /** The state a replay of the records arrives at; the start time does not matter. */
  ghost function Told(p: int, swl: seq<Switch>, n: nat): PrevState
    requires n <= |swl|
  {
    Ps(p, PrevState(0, UNSEEN), swl, n)
  }

  lemma {:induction false} ToldGrows(p: int, swl: seq<Switch>, e: Switch, n: nat)
    requires n <= |swl|
    ensures Told(p, swl + [e], n) == Told(p, swl, n)
  {
    if n > 0 { ToldGrows(p, swl, e, n - 1); }
  }

  lemma ToldNext(p: int, swl: seq<Switch>, e: Switch)
    ensures Told(p, swl + [e], |swl| + 1) == NextPs(p, Told(p, swl, |swl|), e)
  {
    ToldGrows(p, swl, e, |swl|);
  }

  /** Thread p's last known state dates from a switch on this CPU. */
  ghost predicate SwitchedAt(swl: seq<Switch>, cpu: int, t: int) {
    exists e :: e in swl && e.kind == WAIT && e.cpu == cpu && e.time == t
  }

  /** A thread the records have seen running is on the CPU it was switched to; one they have seen block is asleep. */
  ghost predicate Truthful(m: Machine, p: int) {
    var ps := Told(p, m.switches, |m.switches|);
    if p !in m.threads then ps.state == UNSEEN
    else
      && (ps.state == RUNNING ==> m.threads[p].sched.OnCpu? && SwitchedAt(m.switches, m.threads[p].sched.cpu, ps.time))
      && (ps.state == BLOCKED ==> m.threads[p].sched == Asleep)
      && (m.threads[p].sched.OnCpu? ==> ps.state in {RUNNING, UNSEEN})
  }

  /** A thread that exited and has not been seen since is still on the CPU it reported its exit from. */
  ghost predicate ExitsHere(m: Machine, p: int) {
    Told(p, m.switches, |m.switches|).state == UNSEEN ==>
      forall e :: e in m.switches && e.kind == EXIT && e.prevPid == p ==> p in m.threads && m.threads[p].sched == OnCpu(e.cpu)
  }

  /** Record i, if it switches p out, ends a run that began with a switch on the same CPU. */
  ghost predicate RunOnOneCpu(swl: seq<Switch>, p: int, i: nat)
    requires i < |swl|
  {
    Out(p, swl[i]) && Told(p, swl, i).state != UNSEEN ==>
      Told(p, swl, i).state == RUNNING && SwitchedAt(swl, swl[i].cpu, Told(p, swl, i).time)
  }

  /** Record i, if the first to switch p out, comes from the CPU of every exit p has reported before. */
  ghost predicate ExitOnOneCpu(swl: seq<Switch>, p: int, i: nat)
    requires i < |swl|
  {
    Out(p, swl[i]) && Told(p, swl, i).state == UNSEEN ==>
      forall j :: 0 <= j < i && swl[j].kind == EXIT && swl[j].prevPid == p ==> swl[j].cpu == swl[i].cpu
  }

  /** Record i, if a wakeup from thread context or an exit, names a thread that runs as far as the records tell. */
  ghost predicate SenderRuns(swl: seq<Switch>, i: nat)
    requires i < |swl|
  {
    ((swl[i].kind == WAKEUP && swl[i].ctx == PROCESS) || swl[i].kind == EXIT) && 0 < swl[i].prevPid ==>
      Told(swl[i].prevPid, swl, i).state in {RUNNING, UNSEEN}
  }

  ghost predicate Replayed(m: Machine) {
    && (forall p :: 0 < p ==> Truthful(m, p) && ExitsHere(m, p))
    && (forall p, i :: 0 < p && 0 <= i < |m.switches| ==> ExitOnOneCpu(m.switches, p, i))
    && (forall p, i :: 0 < p && 0 <= i < |m.switches| ==> RunOnOneCpu(m.switches, p, i))
    && (forall i :: 0 <= i < |m.switches| ==> SenderRuns(m.switches, i))
  }

  predicate Recording(a: Action) { a.SwitchTo? || a.WakeUp? || a.NewTask? || a.ExitTask? }

  /** Steps that record no scheduling event change nothing here. */
  lemma SilentStep(m: Machine, a: Action, t: u64)
    requires Enabled(m, a) && !Recording(a) && Replayed(m)
    ensures Replayed(Step(m, a, t))
  {
    var m' := Step(m, a, t);
    forall p | 0 < p ensures Truthful(m', p) && ExitsHere(m', p) { assert Truthful(m, p) && ExitsHere(m, p); }
  }

  lemma SwitchedGrows(swl: seq<Switch>, e: Switch, cpu: int, t: int)
    requires SwitchedAt(swl, cpu, t)
    ensures SwitchedAt(swl + [e], cpu, t)
  {
    var s :| s in swl && s.kind == WAIT && s.cpu == cpu && s.time == t;
    assert s in swl + [e];
  }

  /** What held of the old records still does. */
  lemma OldRecords(swl: seq<Switch>, e: Switch, i: nat)
    requires i < |swl|
    ensures forall p :: RunOnOneCpu(swl, p, i) ==> RunOnOneCpu(swl + [e], p, i)
    ensures forall p :: ExitOnOneCpu(swl, p, i) ==> ExitOnOneCpu(swl + [e], p, i)
    ensures SenderRuns(swl, i) ==> SenderRuns(swl + [e], i)
  {
    forall p ensures ExitOnOneCpu(swl, p, i) ==> ExitOnOneCpu(swl + [e], p, i) { ToldGrows(p, swl, e, i); }
    forall p ensures RunOnOneCpu(swl, p, i) ==> RunOnOneCpu(swl + [e], p, i) {
      ToldGrows(p, swl, e, i);
      if RunOnOneCpu(swl, p, i) && Out(p, swl[i]) && Told(p, swl, i).state != UNSEEN {
        SwitchedGrows(swl, e, swl[i].cpu, Told(p, swl, i).time);
      }
    }
    ToldGrows(swl[i].prevPid, swl, e, i);
  }

  lemma TruthSwitch(m: Machine, cpu: nat, next: int, prevState: u64, t: u64, p: int)
    requires var a := SwitchTo(cpu, next, prevState); Placed(m) && Enabled(m, a) && 0 < p && Truthful(m, p)
    ensures Truthful(Step(m, SwitchTo(cpu, next, prevState), t), p)
  {
    var e := SwitchRecord(m, cpu, next, prevState, t);
    ToldNext(p, m.switches, e);
    var ps := Told(p, m.switches, |m.switches|);
    if ps.state == RUNNING {
      SwitchedGrows(m.switches, e, m.threads[p].sched.cpu, ps.time);
    }
    assert e in m.switches + [e];
  }

  lemma TruthStep(m: Machine, a: Action, t: u64, p: int)
    requires Placed(m) && Enabled(m, a) && 0 < p && Truthful(m, p)
    requires Recording(a)
    ensures Truthful(Step(m, a, t), p)
  {
    if a.SwitchTo? {
      TruthSwitch(m, a.cpu, a.next, a.prevState, t, p);
    } else {
      var m' := Step(m, a, t);
      var e := m'.switches[|m.switches|];
      assert m'.switches == m.switches + [e];
      ToldNext(p, m.switches, e);
      var ps := Told(p, m.switches, |m.switches|);
      if ps.state == RUNNING {
        SwitchedGrows(m.switches, e, m.threads[p].sched.cpu, ps.time);
      }
    }
  }

  lemma ExitsHereStep(m: Machine, a: Action, t: u64, p: int)
    requires Placed(m) && Enabled(m, a) && 0 < p && ExitsHere(m, p)
    requires Recording(a)
    ensures ExitsHere(Step(m, a, t), p)
  {
    var m' := Step(m, a, t);
    var e := m'.switches[|m.switches|];
    assert m'.switches == m.switches + [e];
    ToldNext(p, m.switches, e);
  }

  /** The new record, if the first to switch a thread out, comes from the CPU that thread is on. */
  lemma NewExitCpu(m: Machine, a: Action, t: u64, p: int)
    requires Placed(m) && Enabled(m, a) && Recording(a) && 0 < p && ExitsHere(m, p)
    ensures ExitOnOneCpu(Step(m, a, t).switches, p, |m.switches|)
  {
    var swl, n := Step(m, a, t).switches, |m.switches|;
    assert swl == m.switches + [swl[n]];
    ToldGrows(p, m.switches, swl[n], n);
    forall j | 0 <= j < n && swl[j].kind == EXIT && swl[j].prevPid == p && Out(p, swl[n]) && Told(p, swl, n).state == UNSEEN
      ensures swl[j].cpu == swl[n].cpu
    {
      assert swl[j] in m.switches;
    }
  }

  lemma NewRecord(m: Machine, a: Action, t: u64)
    requires Placed(m) && Enabled(m, a) && Replayed(m)
    requires Recording(a)
    ensures var swl := Step(m, a, t).switches;
      && |swl| == |m.switches| + 1
      && SenderRuns(swl, |m.switches|) && forall p :: 0 < p ==> RunOnOneCpu(swl, p, |m.switches|)
  {
    var swl := Step(m, a, t).switches;
    var n := |m.switches|;
    var e := swl[n];
    assert swl == m.switches + [e];
    forall p | 0 < p ensures RunOnOneCpu(swl, p, n) {
      assert Truthful(m, p);
      ToldGrows(p, m.switches, e, n);
      if Out(p, e) && Told(p, m.switches, n).state == RUNNING {
        SwitchedGrows(m.switches, e, e.cpu, Told(p, m.switches, n).time);
      }
    }
    if 0 < e.prevPid {
      assert Truthful(m, e.prevPid);
      ToldGrows(e.prevPid, m.switches, e, n);
    }
  }

  lemma ReplayedStep(m: Machine, a: Action, t: u64)
    requires Placed(m) && Enabled(m, a) && Replayed(m)
    ensures Replayed(Step(m, a, t))
  {
    if !Recording(a) {
      SilentStep(m, a, t);
    } else {
      var m' := Step(m, a, t);
      NewRecord(m, a, t);
      var n := |m.switches|;
      var e := m'.switches[n];
      assert m'.switches == m.switches + [e];
      forall p | 0 < p ensures Truthful(m', p) && ExitsHere(m', p) {
        assert Truthful(m, p) && ExitsHere(m, p);
        TruthStep(m, a, t, p);
        ExitsHereStep(m, a, t, p);
      }
      forall p, i | 0 < p && 0 <= i < |m'.switches| ensures ExitOnOneCpu(m'.switches, p, i) {
        if i < n {
          OldRecords(m.switches, e, i);
        } else {
          assert ExitsHere(m, p);
          NewExitCpu(m, a, t, p);
        }
      }
      forall i | 0 <= i < n ensures SenderRuns(m'.switches, i) {
        OldRecords(m.switches, e, i);
      }
      forall p, i | 0 < p && 0 <= i < |m'.switches| ensures RunOnOneCpu(m'.switches, p, i) {
        if i < n { OldRecords(m.switches, e, i); }
      }
    }
  }

  lemma StartIsSound(m: Machine)
    requires Init(m)
    ensures Hardware(m) && Replayed(m)
  {
    forall p | 0 < p ensures Truthful(m, p) && ExitsHere(m, p) { }
  }

  /** Every state of every run satisfies all of the above. */
  lemma {:induction false} RunsAreSound(ms: seq<Machine>, i: nat)
    requires Behaviour(ms) && i < |ms|
    ensures Hardware(ms[i]) && Replayed(ms[i])
  {
    if i == 0 {
      StartIsSound(ms[0]);
    } else {
      RunsAreSound(ms, i - 1);
      assert StepAt(ms, i - 1);
      var a, t: u64 :| Enabled(ms[i - 1], a) && ms[i - 1].now <= t && ms[i] == Step(ms[i - 1], a, t);
      HardwareStep(ms[i - 1], a, t);
      ReplayedStep(ms[i - 1], a, t);
    }
  }

  /** A wakeup sent from inside a softirq handler carries that handler's number exactly if the handler has a probe. */
  lemma WakeupCarriesHandler(ms: seq<Machine>, i: nat, cpu: nat, target: int, t: u64)
    requires Behaviour(ms) && i < |ms| && cpu < |ms[i].cpus|
    requires ms[i].cpus[cpu].hard == 0 && ms[i].cpus[cpu].handler.Some?
    ensures WakeRecord(ms[i], cpu, target, t).ctx == ms[i].cpus[cpu].handler.value
      <==> ms[i].cpus[cpu].handler.value != HRTIMER_SOFTIRQ
  {
    RunsAreSound(ms, i);
  }

  // ---- what a softirq record says ----

  ghost predicate InSoftirq(m: Machine, c: int) { 0 <= c < |m.cpus| && m.cpus[c].inSoftirq }

  ghost predicate JustLeft(m: Machine, m': Machine, s: Soft) {
    InSoftirq(m, s.cpu) && !InSoftirq(m', s.cpu) && s.stime == m.cpus[s.cpu].data.softirqBtime && m'.now == s.etime + 1
  }

  /** What one step does to a CPU in a softirq. */
  lemma EntryStep(m: Machine, m': Machine, c: int)
    requires Next(m, m') && InSoftirq(m', c)
    ensures if InSoftirq(m, c) then m'.cpus[c].data.softirqBtime == m.cpus[c].data.softirqBtime
      else m'.now == m'.cpus[c].data.softirqBtime + 1
  {
    var a, t: u64 :| Enabled(m, a) && m.now <= t && m' == Step(m, a, t);
  }

  /** What one step adds to the records. */
  lemma SoftirqStep(m: Machine, m': Machine)
    requires Next(m, m')
    ensures forall s :: s in m'.softs <==> s in m.softs || JustLeft(m, m', s)
  {
    var a, t: u64 :| Enabled(m, a) && m.now <= t && m' == Step(m, a, t);
    if a.LeaveSoftirq? {
      assert m'.softs == m.softs + [Soft(a.cpu, m.cpus[a.cpu].data.softirqBtime, t)];
    } else {
      NothingLeft(m, a, t);
    }
  }

  lemma NothingLeft(m: Machine, a: Action, t: u64)
    requires Enabled(m, a) && !a.LeaveSoftirq?
    ensures Step(m, a, t).softs == m.softs && forall c :: InSoftirq(m, c) ==> InSoftirq(Step(m, a, t), c)
  {
  }

  /** CPU c is in a softirq from state i + 1 to state j, and not before; it was entered at time b. */
  ghost predicate EnteredAt(ms: seq<Machine>, c: int, i: int, j: int, b: int) {
    && 0 <= i < j < |ms| && !InSoftirq(ms[i], c) && ms[i + 1].now == b + 1
    && forall l :: i < l <= j ==> InSoftirq(ms[l], c)
  }

  lemma {:induction false} EntryKnown(ms: seq<Machine>, c: int, j: nat) returns (i: nat)
    requires Behaviour(ms) && j < |ms| && InSoftirq(ms[j], c)
    ensures EnteredAt(ms, c, i, j, ms[j].cpus[c].data.softirqBtime)
  {
    assert j > 0;
    assert StepAt(ms, j - 1);
    EntryStep(ms[j - 1], ms[j], c);
    if InSoftirq(ms[j - 1], c) { i := EntryKnown(ms, c, j - 1); } else { i := j - 1; }
  }

  /** A softirq of CPU s.cpu is entered at s.stime and left at s.etime, in the step after state j. */
  ghost predicate Softirq(ms: seq<Machine>, s: Soft, i: int, j: int) {
    EnteredAt(ms, s.cpu, i, j, s.stime) && j + 1 < |ms| && !InSoftirq(ms[j + 1], s.cpu) && ms[j + 1].now == s.etime + 1
  }

  lemma OneEntry(ms: seq<Machine>, c: int, i: int, k: int, j: int, b: int, d: int)
    requires EnteredAt(ms, c, i, j, b) && EnteredAt(ms, c, k, j, d)
    ensures i == k && b == d
  {
  }

  /** The softirq s is left in the step after state j. */
  ghost predicate LeftAfter(ms: seq<Machine>, s: Soft, j: int) {
    exists i :: Softirq(ms, s, i, j)
  }

  /** A softirq just left was entered at some time before. */
  lemma LeftWasEntered(ms: seq<Machine>, j: nat, s: Soft)
    requires Behaviour(ms) && j + 1 < |ms|
    ensures JustLeft(ms[j], ms[j + 1], s) <==> LeftAfter(ms, s, j)
  {
    if InSoftirq(ms[j], s.cpu) {
      var i := EntryKnown(ms, s.cpu, j);
      var b := ms[j].cpus[s.cpu].data.softirqBtime;
      if JustLeft(ms[j], ms[j + 1], s) { assert Softirq(ms, s, i, j); }
      if k :| Softirq(ms, s, k, j) { OneEntry(ms, s.cpu, i, k, j, b, s.stime); }
    }
  }

  lemma RecordedNext(ms: seq<Machine>, j: nat, s: Soft)
    requires Behaviour(ms) && j + 1 < |ms|
    ensures s in ms[j + 1].softs <==> s in ms[j].softs || LeftAfter(ms, s, j)
  {
    assert StepAt(ms, j);
    SoftirqStep(ms[j], ms[j + 1]);
    LeftWasEntered(ms, j, s);
  }

  /** In every run the softirqs recorded are exactly those that were entered and left, with the times of entering and
      leaving. */
  lemma {:induction false} SoftirqsAreSpans(ms: seq<Machine>, n: nat, s: Soft)
    requires Behaviour(ms) && n < |ms|
    ensures s in ms[n].softs <==> exists j :: 0 <= j < n && LeftAfter(ms, s, j)
  {
    if n > 0 {
      SoftirqsAreSpans(ms, n - 1, s);
      RecordedNext(ms, n - 1, s);
    }
  }
}
