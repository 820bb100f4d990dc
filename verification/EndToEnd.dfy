/** From the kernel's probes to the finished graph. */
module EndToEnd {
  import opened Events
  import opened Tables
  import opened Cascades
  import opened Instants
  import opened Redistribution
  import opened WaitPaths
  import opened SoftIndexes
  import opened Breaking
  import opened Tiling
  import opened Partition
  import opened Matching
  import opened TraceFacts
  import opened Program
  import opened Meaning
  import opened Probes
  import opened ProbeFacts
  import opened ProbeRecords

  /** Two replays that start unseen agree once the thread is seen. */
  lemma {:induction false} ToldIsPs(p: int, ps0: PrevState, swl: seq<Switch>, n: nat)
    requires n <= |swl| && ps0.state == UNSEEN
    ensures Ps(p, ps0, swl, n).state == Told(p, swl, n).state
    ensures Told(p, swl, n).state != UNSEEN ==> Ps(p, ps0, swl, n) == Told(p, swl, n)
  {
    if n > 0 { ToldIsPs(p, ps0, swl, n - 1); }
  }

  /** The softirqs a machine records never straddle the start of a run, nor the exit of a thread not seen before. */
  lemma RecordsAreClean(m: Machine, p: int)
    requires Hardware(m) && Replayed(m) && m.switches != [] && 0 < p
    ensures Clean(p, IndexOf(m.softs), m.switches)
  {
    var swl, ix := m.switches, IndexOf(m.softs);
    var ps0 := InitialState(p, swl);
    IndexHolds(m.softs);
    forall i: nat | i < |swl| ensures CleanAt(p, ix, ps0, swl, i) {
      ToldIsPs(p, ps0, swl, i);
      if Out(p, swl[i]) && Told(p, swl, i).state == UNSEEN {
        SeenOrNot(p, ix, ps0, swl, i);
        FirstRunIsClean(m, p, i);
      } else if Out(p, swl[i]) {
        assert RunOnOneCpu(swl, p, i);
        CeilingIsMinimum(m.softs, swl[i].cpu, Ps(p, ps0, swl, i).time);
      }
    }
  }

  /** If the first run of a thread on record is not as old as the trace, it began with an exit on the same CPU. */
  lemma ExitBefore(m: Machine, p: int, i: nat) returns (j: nat)
    requires Replayed(m) && Timed(m) && 0 < p && i < |m.switches| && Out(p, m.switches[i])
    requires Told(p, m.switches, i).state == UNSEEN && InitialState(p, m.switches).time < m.switches[i].time
    ensures j < |m.switches| && m.switches[j].kind == EXIT && m.switches[j].cpu == m.switches[i].cpu
    ensures m.switches[j].time == InitialState(p, m.switches).time
  {
    var swl := m.switches;
    assert swl[i].time <= TraceEnd(swl);
    j := ExitAt(p, swl);
    assert ExitOnOneCpu(swl, p, i) && j < i;
  }

  lemma FirstRunIsClean(m: Machine, p: int, i: nat)
    requires Hardware(m) && Replayed(m) && 0 < p && i < |m.switches| && Out(p, m.switches[i])
    requires Told(p, m.switches, i).state == UNSEEN
    ensures !Straddles(IndexOf(m.softs), InitialState(p, m.switches).time, m.switches[i])
  {
    var swl := m.switches;
    CeilingIsMinimum(m.softs, swl[i].cpu, InitialState(p, swl).time);
    if InitialState(p, swl).time < swl[i].time {
      var j := ExitBefore(m, p, i);
      assert swl[j] in swl;
    }
  }

  lemma RecordedWakersRun(m: Machine, pl: seq<int>)
    requires Replayed(m) && m.switches != [] && forall p :: p in pl ==> 0 < p
    ensures WakersRun(pl, m.switches) && forall p :: p in pl ==> RunsAtExit(p, m.switches)
  {
    var swl := m.switches;
    forall j | 0 <= j < |swl| && ((swl[j].kind == WAKEUP && swl[j].ctx == PROCESS) || swl[j].kind == EXIT) && swl[j].prevPid in pl
      ensures AwakeBy(swl[j].prevPid, swl, j)
    {
      assert SenderRuns(swl, j);
      ToldIsPs(swl[j].prevPid, InitialState(swl[j].prevPid, swl), swl, j);
    }
  }

  lemma RecordsAreTimed(m: Machine, pl: seq<int>)
    requires Timed(m) && forall p :: p in pl ==> 0 < p
    ensures StrictlySorted(m.switches) && Sorted(m.switches) && Numbered(pl, m.switches)
  {
    assert forall j :: 0 <= j < |m.switches| ==> m.switches[j] in m.switches;
  }

  /** Whatever the machine does, exits included, its records satisfy everything the analyzer's cascade relies on. */
  lemma RunsFeedTheAnalyzer(ms: seq<Machine>, pl: seq<int>)
    requires Behaviour(ms) && (forall p :: p in pl ==> 0 < p) && ms[|ms| - 1].switches != []
    ensures var m := ms[|ms| - 1]; Inputs(true, pl, IndexOf(m.softs), m.switches)
  {
    var m := ms[|ms| - 1];
    RunsAreSound(ms, |ms| - 1);
    IndexHolds(m.softs);
    forall p | p in pl ensures Clean(p, IndexOf(m.softs), m.switches) { RecordsAreClean(m, p); }
    RecordsAreTimed(m, pl);
    RecordedWakersRun(m, pl);
  }

  /** For every run of the machine and every list of threads: the cascades end, and unless the program panics, the weight it
      puts on any set of edges is the number of times the wait paths of the listed threads pass them, summed over all
      instants. As shipped, the paths are cut after their first hop. It does not panic if every listed thread that exits was
      switched in or out and sends no wakeup after its exit; in particular if none exits. */
  lemma HopsOfARun(ms: seq<Machine>, pl: seq<int>, cascades: bool, pick: EdgeSet)
    requires Behaviour(ms) && (forall p :: p in pl ==> 0 < p) && ms[|ms| - 1].switches != []
    ensures var m := ms[|ms| - 1]; var ix, swl := IndexOf(m.softs), m.switches;
      && Inputs(cascades, pl, ix, swl)
      && (ExitsSeen(pl, swl) && WakersAlive(pl, swl) ==> Outcome(cascades, pl, ix, swl).Some?)
      && (Outcome(cascades, pl, ix, swl).Some? ==>
            && AllSurvive(pl, ix, swl) && Good(AllBroken(pl, ix, swl), cascades)
            && AllBroken(pl, ix, swl).Keys == (set p | p in pl)
            && EdgeTime(Outcome(cascades, pl, ix, swl).value, pick)
               == CrowdTime(AllBroken(pl, ix, swl), cascades, pl, pick, 0, U64_LIMIT))
  {
    var m := ms[|ms| - 1];
    RunsFeedTheAnalyzer(ms, pl);
    if ExitsSeen(pl, m.switches) && WakersAlive(pl, m.switches) { AliveNoPanic(cascades, pl, IndexOf(m.softs), m.switches); }
    if AllSurvive(pl, IndexOf(m.softs), m.switches) {
      InputsAreGood(cascades, pl, IndexOf(m.softs), m.switches);
      DriverMeaning(AllBroken(pl, IndexOf(m.softs), m.switches), cascades, pl, pick);
    }
  }

  /** The graph of a run, in terms of its records: if the maps cover the waits, the weight of (x, y) with the list handed on
      sums over the instants at which x waits for y how many listed threads then wait, directly or through others, for x; as
      shipped it is the time x waits for y, as often as x is listed. */
  lemma GraphOfARun(ms: seq<Machine>, pl: seq<int>, x: int, y: int)
    requires Behaviour(ms) && (forall p :: p in pl ==> 0 < p) && ms[|ms| - 1].switches != []
    ensures var m := ms[|ms| - 1]; var ix, swl := IndexOf(m.softs), m.switches;
      && Inputs(true, pl, ix, swl) && Inputs(false, pl, ix, swl)
      && (ExitsSeen(pl, swl) && WakersAlive(pl, swl) ==> Outcome(true, pl, ix, swl).Some? && Outcome(false, pl, ix, swl).Some?)
      && (TraceCovered(pl, swl) && Outcome(true, pl, ix, swl).Some? ==>
            EdgeTime(Outcome(true, pl, ix, swl).value, Pair(x, y)) == WaitedTime(swl, pl, x, y, 0, U64_LIMIT))
      && (Outcome(false, pl, ix, swl).Some? ==>
            EdgeTime(Outcome(false, pl, ix, swl).value, Pair(x, y)) == OwnTime(swl, x, y, 0, U64_LIMIT) * multiset(pl)[x])
  {
    var ix, swl := IndexOf(ms[|ms| - 1].softs), ms[|ms| - 1].switches;
    HopsOfARun(ms, pl, true, Pair(x, y));
    HopsOfARun(ms, pl, false, Pair(x, y));
    if TraceCovered(pl, swl) && Outcome(true, pl, ix, swl).Some? { WeightIsWaitedTime(pl, ix, swl, x, y); }
    if Outcome(false, pl, ix, swl).Some? { ShippedWeightIsOwnTime(pl, ix, swl, x, y); }
  }

  // ---- the partition of every run ----

  lemma SoftNotAtExit(m: Machine, x: nat, cpu: int, t: u64)
    requires TimesDiffer(m) && x < |m.switches| && CeilingSoft(IndexOf(m.softs), cpu, t).Some?
    ensures var s := CeilingSoft(IndexOf(m.softs), cpu, t).value;
      s.stime != m.switches[x].time && s.etime != m.switches[x].time
  {
    CeilingIsMinimum(m.softs, cpu, t);
    assert m.switches[x] in m.switches;
  }

  lemma EventNotAtExit(p: int, ps0: PrevState, swl: seq<Switch>, n: nat, x: nat)
    requires StrictlySorted(swl) && n <= |swl| && ps0.state == UNSEEN && Ps(p, ps0, swl, n).state != UNSEEN
    requires x < |swl| && swl[x].kind == EXIT
    ensures Ps(p, ps0, swl, n).time != swl[x].time
  {
    var i := LastEvent(p, ps0, swl, n);
    assert i != x;
  }

  /** No segment a run's records make starts at an exit. */
  lemma NothingStartsAtExit(m: Machine, p: int, x: nat, n: nat, v: Seg)
    requires Hardware(m) && x < |m.switches| && m.switches[x].kind == EXIT && n < |m.switches|
    requires Stores(p, IndexOf(m.softs), InitialState(p, m.switches), m.switches, n, v)
    ensures v.stime != m.switches[x].time
  {
    var swl, ps0 := m.switches, InitialState(p, m.switches);
    var ps := Ps(p, ps0, swl, n);
    PutsBegin(p, IndexOf(m.softs), ps, swl[n], v);
    if v.stime == ps.time {
      EventNotAtExit(p, ps0, swl, n, x);
    } else {
      SoftNotAtExit(m, x, swl[n].cpu, ps.time);
    }
  }

  lemma AliveRunTiles(ix: SoftIndex, swl: seq<Switch>, p: int)
    requires swl != [] && Sorted(swl) && Clean(p, ix, swl) && Seen(p, swl) && ExitTime(p, swl).None?
    ensures !CarvedEarly(p, ix, swl)
  {
    FirstTimeIn(p, InitialState(p, swl), swl, |swl|);
    NothingEarly(p, ix, swl);
    EarlyNone(p, ix, swl);
  }

  lemma ExitStartsNothing(ms: seq<Machine>, p: int)
    requires Behaviour(ms) && ms[|ms| - 1].switches != [] && ExitTime(p, ms[|ms| - 1].switches).Some?
    ensures var m := ms[|ms| - 1];
      !SegmentStartsAt(p, IndexOf(m.softs), m.switches, ExitTime(p, m.switches).value)
  {
    var m := ms[|ms| - 1];
    RunsAreSound(ms, |ms| - 1);
    var x := ExitAt(p, m.switches);
    forall n: nat, v | n < |m.switches| && Stores(p, IndexOf(m.softs), InitialState(p, m.switches), m.switches, n, v)
      ensures v.stime != m.switches[x].time
    {
      NothingStartsAtExit(m, p, x, n, v);
    }
  }

  /** For every run of the machine and every thread seen in it, exiting or not: its segments partition the time from its
      first to its last event exactly if no softirq is cut out between its exit and a later first event. */
  lemma PartitionOfARun(ms: seq<Machine>, p: int)
    requires Behaviour(ms) && ms[|ms| - 1].switches != [] && 0 < p && Seen(p, ms[|ms| - 1].switches)
    ensures var m := ms[|ms| - 1]; var swl, ix := m.switches, IndexOf(m.softs);
      var r := Broken(p, ix, InitialState(p, swl), swl, map[]);
      r.Some? && (Partitions(r.value, FirstSeen(p, swl), LastSeen(p, swl)) <==> !CarvedEarly(p, ix, swl))
  {
    var m := ms[|ms| - 1];
    var swl, ix := m.switches, IndexOf(m.softs);
    RecordsOfARun(ms, p);
    if ExitTime(p, swl).None? {
      PartitionNoExit(p, ix, swl);
      AliveRunTiles(ix, swl, p);
    } else {
      PartitionExit(p, ix, swl);
      ExitStartsNothing(ms, p);
    }
  }

  lemma RecordsOfARun(ms: seq<Machine>, p: int)
    requires Behaviour(ms) && ms[|ms| - 1].switches != [] && 0 < p
    ensures var m := ms[|ms| - 1]; Sorted(m.switches) && Clean(p, IndexOf(m.softs), m.switches)
  {
    RunsAreSound(ms, |ms| - 1);
    RecordsAreClean(ms[|ms| - 1], p);
  }

  // ---- the waits charged are real ----

  ghost predicate Prefix<T(!new)>(a: seq<T>, b: seq<T>) {
    |a| <= |b| && forall i :: 0 <= i < |a| ==> a[i] == b[i]
  }

  /** Records are only ever appended, with later and later time stamps. */
  lemma {:induction false} RecordsGrow(ms: seq<Machine>, i: nat, j: nat)
    requires Behaviour(ms) && i <= j < |ms|
    ensures Prefix(ms[i].switches, ms[j].switches) && ms[i].now <= ms[j].now
    ensures forall n :: |ms[i].switches| <= n < |ms[j].switches| ==> ms[i].now <= ms[j].switches[n].time
    decreases j
  {
    if i < j {
      RecordsGrow(ms, i, j - 1);
      assert StepAt(ms, j - 1);
    }
  }

  lemma {:induction false} ToldOfPrefix(p: int, a: seq<Switch>, b: seq<Switch>, n: nat)
    requires Prefix(a, b) && n <= |a|
    ensures Told(p, a, n) == Told(p, b, n)
  {
    if n > 0 { ToldOfPrefix(p, a, b, n - 1); }
  }

  /** A stored wait of positive length ends in a wakeup, and the thread is told blocked in between. */
  lemma StoredWaitIsTold(ix: SoftIndex, swl: seq<Switch>, p: int, k: u64, n: nat) returns (i: nat, j: nat)
    requires swl != [] && Sorted(swl) && Clean(p, ix, swl) && n <= |swl|
    requires var r := Broken(p, ix, InitialState(p, swl), swl, map[]);
      r.Some? && k in r.value && r.value[k].state == BLOCKED && k < r.value[k].etime
    ensures i < j < |swl| && swl[i].time == k && swl[j].time == Broken(p, ix, InitialState(p, swl), swl, map[]).value[k].etime
    ensures i < n <= j ==> Told(p, swl, n).state == BLOCKED
  {
    LongWaitIsReal(p, ix, swl, k);
    i, j := WaitStored(p, ix, swl, k, n);
    ToldIsPs(p, InitialState(p, swl), swl, n);
  }

  lemma WaitOfARun(ms: seq<Machine>, p: int, k: u64, n: nat) returns (i: nat, j: nat)
    requires Behaviour(ms) && ms[|ms| - 1].switches != [] && 0 < p && n <= |ms[|ms| - 1].switches|
    requires var m := ms[|ms| - 1]; var r := Broken(p, IndexOf(m.softs), InitialState(p, m.switches), m.switches, map[]);
      r.Some? && k in r.value && r.value[k].state == BLOCKED && k < r.value[k].etime
    ensures var m := ms[|ms| - 1];
      && i < j < |m.switches| && m.switches[i].time == k
      && m.switches[j].time == Broken(p, IndexOf(m.softs), InitialState(p, m.switches), m.switches, map[]).value[k].etime
      && (i < n <= j ==> Told(p, m.switches, n).state == BLOCKED)
  {
    RecordsOfARun(ms, p);
    i, j := StoredWaitIsTold(IndexOf(ms[|ms| - 1].softs), ms[|ms| - 1].switches, p, k, n);
  }

  /** The records a state has are those older than its clock. */
  lemma RecordsBefore(ms: seq<Machine>, i: nat, a: nat)
    requires Behaviour(ms) && i < |ms| && a < |ms[|ms| - 1].switches|
    ensures |ms[i].switches| <= |ms[|ms| - 1].switches|
    ensures ms[|ms| - 1].switches[a].time < ms[i].now <==> a < |ms[i].switches|
  {
    RecordsGrow(ms, i, |ms| - 1);
    RunsAreSound(ms, i);
    if a < |ms[i].switches| { assert ms[i].switches[a] in ms[i].switches; }
  }

  /** What a state tells of a thread is what the whole record tells up to there. */
  lemma ToldOfARun(ms: seq<Machine>, p: int, i: nat)
    requires Behaviour(ms) && i < |ms| && 0 < p
    ensures |ms[i].switches| <= |ms[|ms| - 1].switches|
    ensures Told(p, ms[|ms| - 1].switches, |ms[i].switches|) == Told(p, ms[i].switches, |ms[i].switches|)
    ensures Truthful(ms[i], p)
  {
    RecordsGrow(ms, i, |ms| - 1);
    ToldOfPrefix(p, ms[i].switches, ms[|ms| - 1].switches, |ms[i].switches|);
    RunsAreSound(ms, i);
  }

  /** Throughout every blocked segment that ends in a wakeup, the thread was asleep in the machine. */
  lemma ChargedSleepIsReal(ms: seq<Machine>, p: int, k: u64, i: nat)
    requires Behaviour(ms) && ms[|ms| - 1].switches != [] && 0 < p
    requires var m := ms[|ms| - 1]; var r := Broken(p, IndexOf(m.softs), InitialState(p, m.switches), m.switches, map[]);
      r.Some? && k in r.value && r.value[k].state == BLOCKED && i < |ms| && k < ms[i].now <= r.value[k].etime
    ensures p in ms[i].threads && ms[i].threads[p].sched == Asleep
  {
    ToldOfARun(ms, p, i);
    var a, b := WaitOfARun(ms, p, k, |ms[i].switches|);
    RecordsBefore(ms, i, a);
    RecordsBefore(ms, i, b);
  }

  // ---- the sleeps of a run are charged ----

  /** Thread p falls asleep in the step after state a and is woken in the step after state b. */
  ghost predicate Sleeps(ms: seq<Machine>, p: int, a: int, b: int) {
    && 0 <= a < b && b + 1 < |ms|
    && p in ms[a].threads && ms[a].threads[p].sched.OnCpu?
    && (forall l :: a < l <= b ==> p in ms[l].threads && ms[l].threads[p].sched == Asleep)
    && p in ms[b + 1].threads && ms[b + 1].threads[p].sched == Ready
  }

  /** What the step records in which a thread falls asleep. */
  lemma FallsAsleep(m: Machine, m': Machine, p: int)
    requires Placed(m) && Next(m, m') && p in m.threads && p in m'.threads
    requires m.threads[p].sched.OnCpu? && m'.threads[p].sched == Asleep
    ensures |m'.switches| == |m.switches| + 1 && Out(p, m'.switches[|m.switches|]) && m'.switches[|m.switches|].prevState != 0
  {
    var a, t: u64 :| Enabled(m, a) && m.now <= t && m' == Step(m, a, t);
    assert a.SwitchTo?;
  }

  /** What the step records in which it is woken. */
  lemma IsWoken(m: Machine, m': Machine, p: int)
    requires Placed(m) && Next(m, m') && 0 < p && p in m.threads && p in m'.threads
    requires m.threads[p].sched == Asleep && m'.threads[p].sched == Ready
    ensures |m'.switches| == |m.switches| + 1 && Wakes(p, m'.switches[|m.switches|])
  {
    var a, t: u64 :| Enabled(m, a) && m.now <= t && m' == Step(m, a, t);
    assert a.WakeUp?;
  }

  /** What a step records while it sleeps on. */
  lemma SleepsOn(m: Machine, m': Machine, p: int)
    requires Placed(m) && Next(m, m') && 0 < p && p in m.threads && p in m'.threads
    requires m.threads[p].sched == Asleep && m'.threads[p].sched == Asleep
    ensures forall n :: |m.switches| <= n < |m'.switches| ==> !Out(p, m'.switches[n]) && !In(p, m'.switches[n])
  {
    var a, t: u64 :| Enabled(m, a) && m.now <= t && m' == Step(m, a, t);
  }

  lemma SleepsOnStill(ms: seq<Machine>, p: int, b: nat)
    requires Behaviour(ms) && 0 < p && 0 < b < |ms| && p in ms[b - 1].threads && ms[b - 1].threads[p].sched == Asleep
    requires p in ms[b].threads && ms[b].threads[p].sched == Asleep
    ensures Prefix(ms[b - 1].switches, ms[b].switches)
    ensures forall n :: |ms[b - 1].switches| <= n < |ms[b].switches| ==> !Out(p, ms[b].switches[n]) && !In(p, ms[b].switches[n])
  {
    RunsAreSound(ms, b - 1);
    assert StepAt(ms, b - 1);
    SleepsOn(ms[b - 1], ms[b], p);
    RecordsGrow(ms, b - 1, b);
  }

  /** While it sleeps a thread is neither switched in nor out. */
  lemma {:induction false} SleepsThrough(ms: seq<Machine>, p: int, a: nat, b: nat)
    requires Behaviour(ms) && 0 < p && a <= b < |ms|
    requires forall l :: a <= l <= b ==> p in ms[l].threads && ms[l].threads[p].sched == Asleep
    ensures |ms[a].switches| <= |ms[b].switches|
    ensures forall n :: |ms[a].switches| <= n < |ms[b].switches| ==> !Out(p, ms[b].switches[n]) && !In(p, ms[b].switches[n])
    decreases b
  {
    if a < b {
      SleepsThrough(ms, p, a, b - 1);
      SleepsOnStill(ms, p, b);
    }
  }

  /** A record once made stays. */
  lemma RecordStays(ms: seq<Machine>, i: nat, n: nat)
    requires Behaviour(ms) && i < |ms| && n < |ms[i].switches|
    ensures n < |ms[|ms| - 1].switches| && ms[|ms| - 1].switches[n] == ms[i].switches[n]
  {
    RecordsGrow(ms, i, |ms| - 1);
  }

  lemma StepOfARun(ms: seq<Machine>, p: int, a: nat)
    requires Behaviour(ms) && 0 < p && a + 1 < |ms| && p in ms[a].threads && p in ms[a + 1].threads
    ensures var i := |ms[a].switches|; var swl := ms[|ms| - 1].switches;
      && (ms[a].threads[p].sched.OnCpu? && ms[a + 1].threads[p].sched == Asleep ==>
            i < |ms[a + 1].switches| && i < |swl| && Out(p, swl[i]) && swl[i].prevState != 0)
      && (ms[a].threads[p].sched == Asleep && ms[a + 1].threads[p].sched == Ready ==> i < |swl| && Wakes(p, swl[i]))
  {
    RunsAreSound(ms, a);
    assert StepAt(ms, a);
    if ms[a].threads[p].sched.OnCpu? && ms[a + 1].threads[p].sched == Asleep {
      FallsAsleep(ms[a], ms[a + 1], p);
      RecordStays(ms, a + 1, |ms[a].switches|);
    }
    if ms[a].threads[p].sched == Asleep && ms[a + 1].threads[p].sched == Ready {
      IsWoken(ms[a], ms[a + 1], p);
      RecordStays(ms, a + 1, |ms[a].switches|);
    }
  }

  /** The records of a sleep: i switches the thread out to block, j wakes it, and between them it is not switched. */
  lemma SleepRecords(ms: seq<Machine>, p: int, a: nat, b: nat)
    requires Behaviour(ms) && 0 < p && Sleeps(ms, p, a, b)
    ensures var i, j := |ms[a].switches|, |ms[b].switches|; var swl := ms[|ms| - 1].switches;
      && i < j < |swl| && Out(p, swl[i]) && swl[i].prevState != 0 && Wakes(p, swl[j])
      && forall n :: i < n < j ==> !Out(p, swl[n]) && !In(p, swl[n])
  {
    StepOfARun(ms, p, a);
    StepOfARun(ms, p, b);
    SleepsThrough(ms, p, a + 1, b);
    var i, j, swl := |ms[a].switches|, |ms[b].switches|, ms[|ms| - 1].switches;
    forall n: nat | i < n < j ensures !Out(p, swl[n]) && !In(p, swl[n]) {
      RecordStays(ms, b, n);
      OnlyOneRecord(ms, a);
    }
  }

  lemma OnlyOneRecord(ms: seq<Machine>, a: nat)
    requires Behaviour(ms) && a + 1 < |ms|
    ensures |ms[a].switches| <= |ms[a + 1].switches| <= |ms[a].switches| + 1
  {
    assert StepAt(ms, a);
  }

  /** The first wakeup recorded for a thread after it was switched out to block makes its wait. */
  lemma FirstWakeup(m: Machine, p: int, i: nat, k: nat)
    requires Timed(m) && m.switches != [] && i < k < |m.switches|
    requires Out(p, m.switches[i]) && m.switches[i].prevState != 0 && Wakes(p, m.switches[k])
    requires forall n :: i < n < k ==> !Touches(p, m.switches[n])
    ensures var swl := m.switches;
      forall e: u64, q: int :: StoredWait(p, swl, swl[i].time, e, q) <==> e == swl[k].time && q == Waker(swl[k])
  {
    var swl := m.switches;
    assert WaitPair(p, swl, i, k) && swl[i].time < swl[k].time;
    assert KeptPair(p, swl, i, k, |swl|);
    assert swl[i].time < TraceEnd(swl);
    if ExitTime(p, swl).Some? {
      var x := ExitAt(p, swl);
      assert x != i;
    }
    forall i', j' | KeptPair(p, swl, i', j', |swl|) && swl[i'].time == swl[i].time ensures i' == i && j' == k {
      PairsDiffer(p, swl, i', j', i, k);
    }
  }

  /** Every sleep of a run is charged from its begin to the first wakeup recorded for the thread, to whom that names. So it
      is charged whole, and to the waker that woke the thread, exactly if no wakeup without effect was recorded meanwhile. */
  lemma SleepIsCharged(ms: seq<Machine>, p: int, a: nat, b: nat, k: nat)
    requires Behaviour(ms) && 0 < p && Sleeps(ms, p, a, b)
    requires |ms[a].switches| < k < |ms[|ms| - 1].switches| && Wakes(p, ms[|ms| - 1].switches[k])
    requires var swl := ms[|ms| - 1].switches; forall n :: |ms[a].switches| < n < k ==> !Wakes(p, swl[n])
    ensures var i, j := |ms[a].switches|, |ms[b].switches|; var swl := ms[|ms| - 1].switches;
      && i < j < |swl| && k <= j
      && (forall e: u64, q: int :: StoredWait(p, swl, swl[i].time, e, q) <==> e == swl[k].time && q == Waker(swl[k]))
      && (StoredWait(p, swl, swl[i].time, swl[j].time, Waker(swl[j])) <==> forall n :: i < n < j ==> !Wakes(p, swl[n]))
  {
    SleepRecords(ms, p, a, b);
    RunsAreSound(ms, |ms| - 1);
    var i, j := |ms[a].switches|, |ms[b].switches|;
    var swl := ms[|ms| - 1].switches;
    FirstWakeup(ms[|ms| - 1], p, i, k);
    if k < j { assert swl[k].time < swl[j].time; }
  }

  // ---- whom a sleep is charged to, in terms of the machine ----

  /** In the step after state l, CPU c wakes thread p, with or without effect. */
  ghost predicate WokenAt(ms: seq<Machine>, p: int, l: int, c: int) {
    0 <= l && l + 1 < |ms| && WakeupSent(ms[l], ms[l + 1], c, p)
  }

  /** Whom a wakeup by CPU c in state l is blamed on: a hardware interrupt, the thread running there if in no softirq, or the
      probed handler running there. Elsewhere in a softirq it is NR_SOFTIRQS, before the first return from a probed handler 0. */
  ghost predicate Blamed(ms: seq<Machine>, l: int, c: int, q: int)
    requires 0 <= l < |ms| && 0 <= c < |ms[l].cpus|
  {
    var cpu := ms[l].cpus[c];
    && (cpu.hard > 0 ==> q == -HARDIRQ)
    && (cpu.hard == 0 && !cpu.inSoftirq ==> q == cpu.current)
    && (cpu.hard == 0 && InProbed(cpu) ==> q == -cpu.handler.value)
    && (cpu.hard == 0 && cpu.inSoftirq && !InProbed(cpu) ==> q == if ReturnedBefore(ms, c, l) then -NR_SOFTIRQS else 0)
  }

  lemma WakeupIsBlamed(ms: seq<Machine>, p: int, l: nat, c: int)
    requires Behaviour(ms) && WokenAt(ms, p, l, c)
    ensures var swl, k := ms[|ms| - 1].switches, |ms[l].switches|;
      && k < |swl| && Wakes(p, swl[k]) && swl[k].time + 1 == ms[l + 1].now
      && 0 <= c < |ms[l].cpus| && forall q :: Blamed(ms, l, c, q) <==> q == Waker(swl[k])
  {
    RunsAreSound(ms, l);
    WakeupIsTold(ms[l], ms[l + 1], c, p);
    RecordStays(ms, l + 1, |ms[l].switches|);
    if !InProbed(ms[l].cpus[c]) { ContextOutside(ms, p, l, c); }
  }

  /** A wakeup sent from a softirq outside the probed handlers carries the number that is left there. */
  lemma ContextOutside(ms: seq<Machine>, p: int, l: nat, c: int)
    requires Behaviour(ms) && WokenAt(ms, p, l, c) && 0 <= c < |ms[l].cpus| && !InProbed(ms[l].cpus[c])
    ensures var cpu := ms[l].cpus[c]; var e := ms[l + 1].switches;
      |ms[l].switches| < |e| && (cpu.hard == 0 && cpu.inSoftirq ==>
                                   e[|ms[l].switches|].ctx == if ReturnedBefore(ms, c, l) then NR_SOFTIRQS else 0)
  {
    NumberOutside(ms, c, l);
  }

  /** The records between two states of a run that wake p come from steps between them that wake p. */
  lemma {:induction false} WakeupMade(ms: seq<Machine>, p: int, a: nat, b: nat, n: nat) returns (l: nat)
    requires Behaviour(ms) && a <= b < |ms| && |ms[a].switches| <= n < |ms[b].switches| && Wakes(p, ms[b].switches[n])
    ensures a <= l < b && |ms[l].switches| == n && exists c :: WokenAt(ms, p, l, c)
    decreases b
  {
    OnlyOneRecord(ms, b - 1);
    if n < |ms[b - 1].switches| {
      RecordsGrow(ms, b - 1, b);
      l := WakeupMade(ms, p, a, b - 1, n);
    } else {
      l := b - 1;
      NewWakeup(ms, p, l);
    }
  }

  lemma NewWakeup(ms: seq<Machine>, p: int, l: nat)
    requires Behaviour(ms) && l + 1 < |ms| && |ms[l].switches| < |ms[l + 1].switches|
    requires Wakes(p, ms[l + 1].switches[|ms[l].switches|])
    ensures exists c :: WokenAt(ms, p, l, c)
  {
    RunsAreSound(ms, l);
    assert StepAt(ms, l);
    StepTells(ms[l], ms[l + 1]);
    assert WokenAt(ms, p, l, ms[l + 1].switches[|ms[l].switches|].cpu);
  }

  /** The step after a is the one that switches p out to sleep; its record carries the time of that step. */
  lemma SleepBegins(ms: seq<Machine>, p: int, a: nat)
    requires Behaviour(ms) && 0 < p && a + 1 < |ms| && p in ms[a].threads && ms[a].threads[p].sched.OnCpu?
    requires p in ms[a + 1].threads && ms[a + 1].threads[p].sched == Asleep
    ensures var swl, i := ms[|ms| - 1].switches, |ms[a].switches|;
      i < |ms[a + 1].switches| && i < |swl| && swl[i].time + 1 == ms[a + 1].now
  {
    StepOfARun(ms, p, a);
    RunsAreSound(ms, a);
    assert StepAt(ms, a);
    StepTells(ms[a], ms[a + 1]);
    RecordStays(ms, a + 1, |ms[a].switches|);
  }

  /** Every sleep of every run is charged from the step it begins in to the first step that wakes the thread, and to whom that
      wakeup is to be blamed on, seen from the machine: the thread running on the CPU that sends it, the number of the softirq
      handler running there, or a hardware interrupt. */
  lemma SleepIsBlamed(ms: seq<Machine>, p: int, a: nat, b: nat, l: nat, c: int)
    requires Behaviour(ms) && 0 < p && Sleeps(ms, p, a, b) && a < l && WokenAt(ms, p, l, c)
    requires forall l', c' :: a < l' < l ==> !WokenAt(ms, p, l', c')
    ensures l <= b && 0 <= c < |ms[l].cpus|
    ensures var swl, s := ms[|ms| - 1].switches, ms[a + 1].now - 1;
      && swl != []
      && forall e: u64, q: int :: StoredWait(p, swl, s, e, q) <==> e == ms[l + 1].now - 1 && Blamed(ms, l, c, q)
  {
    WakeupIsBlamed(ms, p, l, c);
    SleepBegins(ms, p, a);
    OnlyOneRecord(ms, a);
    NoEarlierWakeup(ms, p, a, l);
    FirstIsBefore(ms, p, a, b, l);
    RecordsGrow(ms, a + 1, l);
    SleepIsCharged(ms, p, a, b, |ms[l].switches|);
  }

  lemma NoEarlierWakeup(ms: seq<Machine>, p: int, a: nat, l: nat)
    requires Behaviour(ms) && a + 1 <= l && l + 1 < |ms|
    requires forall l', c' :: a < l' < l ==> !WokenAt(ms, p, l', c')
    ensures var swl := ms[|ms| - 1].switches;
      forall n :: |ms[a + 1].switches| <= n < |ms[l].switches| && n < |swl| ==> !Wakes(p, swl[n])
  {
    var swl := ms[|ms| - 1].switches;
    forall n: nat | |ms[a + 1].switches| <= n < |ms[l].switches| && n < |swl| ensures !Wakes(p, swl[n]) {
      RecordStays(ms, l, n);
      if Wakes(p, ms[l].switches[n]) {
        var l' := WakeupMade(ms, p, a + 1, l, n);
      }
    }
  }

  /** The step that ends the sleep is a wakeup. */
  lemma FirstIsBefore(ms: seq<Machine>, p: int, a: nat, b: nat, l: nat)
    requires Behaviour(ms) && 0 < p && Sleeps(ms, p, a, b) && a < l
    requires forall l', c' :: a < l' < l ==> !WokenAt(ms, p, l', c')
    ensures l <= b
  {
    SleepRecords(ms, p, a, b);
    StepOfARun(ms, p, b);
    RunsAreSound(ms, b);
    assert StepAt(ms, b);
    IsWoken(ms[b], ms[b + 1], p);
    var l' := WakeupMade(ms, p, b, b + 1, |ms[b].switches|);
  }
}
