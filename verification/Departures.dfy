/** Where the shipped analyzer departs from what it sets out to do, each on a smallest input. */
module Departures {
  import opened Events
  import opened TreeMaps
  import opened Tables
  import opened Cascades
  import opened SoftIndexes
  import opened Breaking
  import opened Tiling
  import opened Partition
  import opened TraceFacts
  import opened Matching
  import opened Instants
  import opened WaitForGraphs
  import opened Redistribution
  import opened Recursion
  import opened Searches
  import opened Program

  /** Init records a start for every thread and then overwrites it, and the last segment is closed with the overwritten
      record. So the segments reach from an intended start to the end of the trace exactly if the thread's own events do. */
  lemma CoversTraceIff(pid: int, ix: SoftIndex, swl: seq<Switch>, start: u64)
    requires swl != [] && Sorted(swl) && Clean(pid, ix, swl) && ExitTime(pid, swl).None? && Seen(pid, swl)
    requires start <= FirstSeen(pid, swl)
    ensures Broken(pid, ix, InitialState(pid, swl), swl, map[]).Some?
    ensures Partitions(Broken(pid, ix, InitialState(pid, swl), swl, map[]).value, start, TraceEnd(swl))
      <==> FirstSeen(pid, swl) == start && LastSeen(pid, swl) == TraceEnd(swl)
  {
    PartitionNoExit(pid, ix, swl);
    var m := Broken(pid, ix, InitialState(pid, swl), swl, map[]).value;
    var lo, hi, te := FirstSeen(pid, swl), LastSeen(pid, swl), TraceEnd(swl);
    var ps0 := InitialState(pid, swl);
    FirstTimeIn(pid, ps0, swl, |swl|);
    RealTiles(pid, ix, ps0, swl, |swl|);
    var i := LastEvent(pid, ps0, swl, |swl|);
    assert lo <= hi <= te;
    assert Holds(m, start) <==> lo <= start < hi;
    assert !Holds(m, hi);
  }

  lemma NoSofts(pid: int, swl: seq<Switch>)
    requires swl != []
    ensures Clean(pid, map[], swl)
  {
    forall cpu, t ensures CeilingSoft(map[], cpu, t).None? { }
  }

  function SwitchTo(time: u64, prev: int, next: int): Switch {
    Switch(0, time, WAIT, prev, next, 0, 0, "a", "b", PROCESS)
  }

  function ExitOf(time: u64, pid: int): Switch {
    Switch(0, time, EXIT, pid, pid, 0, 0, "a", "a", PROCESS)
  }

  /** Thread 2 runs from 10 to 20; its time until the trace ends at 30 is in no segment. */
  lemma TailIsMissing()
    ensures var swl := [SwitchTo(10, 1, 2), SwitchTo(20, 2, 3), SwitchTo(30, 3, 4)];
      && Sorted(swl) && Seen(2, swl) && TraceEnd(swl) == 30
      && var m := Broken(2, map[], InitialState(2, swl), swl, map[]);
         m.Some? && Holds(m.value, 15) && !Holds(m.value, 25)
  {
    var swl := [SwitchTo(10, 1, 2), SwitchTo(20, 2, 3), SwitchTo(30, 3, 4)];
    var ps0 := InitialState(2, swl);
    assert Ps(2, ps0, swl, 0) == ps0;
    assert Ps(2, ps0, swl, 1) == PrevState(10, RUNNING);
    assert Ps(2, ps0, swl, 2) == PrevState(20, RUNNABLE);
    assert Ps(2, ps0, swl, 3) == PrevState(20, RUNNABLE);
    assert FirstTime(2, ps0, swl, 1) == 10;
    assert FirstTime(2, ps0, swl, 2) == 10;
    NoExit(2, swl);
    NoSofts(2, swl);
    PartitionNoExit(2, map[], swl);
  }

  /** A thread whose exit is recorded at the instant it was switched in loses its whole run. */
  lemma ExitCutsRun()
    ensures var swl := [SwitchTo(10, 1, 2), ExitOf(10, 2), SwitchTo(20, 2, 3)];
      && Sorted(swl) && Seen(2, swl) && FirstSeen(2, swl) == 10 && LastSeen(2, swl) == 20
      && var m := Broken(2, map[], InitialState(2, swl), swl, map[]);
         m.Some? && !Partitions(m.value, 10, 20)
  {
    var swl := [SwitchTo(10, 1, 2), ExitOf(10, 2), SwitchTo(20, 2, 3)];
    LastExit(2, swl, 1);
    var ps0 := InitialState(2, swl);
    assert Ps(2, ps0, swl, 0) == ps0;
    assert Ps(2, ps0, swl, 1) == PrevState(10, RUNNING);
    assert Ps(2, ps0, swl, 2) == PrevState(10, RUNNING);
    assert Ps(2, ps0, swl, 3) == PrevState(20, RUNNABLE);
    assert FirstTime(2, ps0, swl, 1) == 10;
    assert FirstTime(2, ps0, swl, 2) == 10;
    NoSofts(2, swl);
    assert Stores(2, map[], ps0, swl, 2, Seg(2, RUNNING, 10, 20, NONE));
    assert SegmentStartsAt(2, map[], swl, 10);
    PartitionExit(2, map[], swl);
  }

  /** Thread 1 falls asleep after thread 2 has reported its exit, and is woken by what thread 2 still does while exiting. */
  function ParentAndChild(): seq<Switch> {
    [SwitchTo(5, 9, 2), ExitOf(10, 2), Switch(1, 12, WAIT, 1, 0, 1, 0, "p", "i", PROCESS),
     Switch(0, 15, WAKEUP, 2, 1, 0, 1, "c", "p", PROCESS), SwitchTo(20, 2, 9)]
  }

  lemma ParentReplay()
    ensures var swl := ParentAndChild(); ExitTime(1, swl).None? && StoredWait(1, swl, 12, 15, 2)
  {
    var swl := ParentAndChild();
    NoExit(1, swl);
    assert WaitPair(1, swl, 2, 3);
    assert KeptPair(1, swl, 2, 3, 5);
  }

  lemma ChildReplay()
    ensures var swl := ParentAndChild();
      && ExitTime(2, swl) == Some(10) && Seen(2, swl) && FirstSeen(2, swl) == 5 && LastSeen(2, swl) == 20
      && LastStart(2, map[], InitialState(2, swl), swl, 5) == 5
  {
    var swl := ParentAndChild();
    LastExit(2, swl, 1);
    var ps0 := InitialState(2, swl);
    assert Ps(2, ps0, swl, 1) == PrevState(5, RUNNING);
    assert Ps(2, ps0, swl, 2) == PrevState(5, RUNNING);
    assert Ps(2, ps0, swl, 3) == PrevState(5, RUNNING);
    assert Ps(2, ps0, swl, 4) == PrevState(5, RUNNING);
    assert FirstTime(2, ps0, swl, 1) == 5;
    assert FirstTime(2, ps0, swl, 2) == 5;
    assert FirstTime(2, ps0, swl, 3) == 5;
    assert FirstTime(2, ps0, swl, 4) == 5;
    assert Puts(2, map[], PrevState(5, RUNNING), swl[4]) == [Seg(2, RUNNING, 5, 20, NONE)];
  }

  lemma ParentSearchFails()
    ensures SomeSearchFails([1, 2], map[], ParentAndChild())
  {
    ParentReplay();
    ChildReplay();
    assert SearchFails(2, map[], ParentAndChild(), 12, 15);
  }

  lemma ParentInputs()
    ensures Inputs(false, [1, 2], map[], ParentAndChild()) && AllClean([1, 2], map[], ParentAndChild())
  {
    forall p | p in [1, 2] ensures Clean(p, map[], ParentAndChild()) { NoSofts(p, ParentAndChild()); }
  }

  /** Such a trace makes the program panic: the search starts at the segment the exit cut, and nothing follows. */
  lemma ParentWaitPanics()
    ensures Inputs(false, [1, 2], map[], ParentAndChild())
    ensures Outcome(false, [1, 2], map[], ParentAndChild()).None?
  {
    ParentInputs();
    ParentSearchFails();
    ShippedCompletesIff([1, 2], map[], ParentAndChild());
  }

  // ---- two threads that wake each other from their sleep ----

  /** Each thread is named as the waker of the other while it is itself asleep. */
  function EachOther(): seq<Switch> {
    [Switch(0, 0, WAIT, 1, 0, 1, 0, "a", "i", PROCESS), Switch(1, 1, WAIT, 2, 0, 1, 0, "b", "i", PROCESS),
     Switch(1, 10, WAKEUP, 2, 1, 0, 1, "b", "a", PROCESS), Switch(0, 20, WAKEUP, 1, 2, 0, 1, "a", "b", PROCESS)]
  }

  lemma FirstSleeper()
    ensures var swl := EachOther();
      ExitTime(1, swl).None? && RealTable(1, map[], swl) == map[0 := Seg(1, BLOCKED, 0, 10, 2)]
  {
    var swl := EachOther();
    NoExit(1, swl);
    var ps0 := InitialState(1, swl);
    assert Ps(1, ps0, swl, 1) == PrevState(0, BLOCKED);
    assert Ps(1, ps0, swl, 2) == PrevState(0, BLOCKED);
    assert Ps(1, ps0, swl, 3) == PrevState(10, RUNNABLE);
    assert Real(1, map[], ps0, swl, 1) == map[];
    assert Real(1, map[], ps0, swl, 2) == map[];
    PutOne(map[], Seg(1, BLOCKED, 0, 10, 2));
    assert Real(1, map[], ps0, swl, 3) == map[0 := Seg(1, BLOCKED, 0, 10, 2)];
  }

  lemma SecondSleeper()
    ensures var swl := EachOther();
      ExitTime(2, swl).None? && RealTable(2, map[], swl) == map[1 := Seg(2, BLOCKED, 1, 20, 1)]
  {
    var swl := EachOther();
    NoExit(2, swl);
    var ps0 := InitialState(2, swl);
    assert Ps(2, ps0, swl, 1) == ps0;
    assert Ps(2, ps0, swl, 2) == PrevState(1, BLOCKED);
    assert Ps(2, ps0, swl, 3) == PrevState(1, BLOCKED);
    assert Real(2, map[], ps0, swl, 1) == map[];
    assert Real(2, map[], ps0, swl, 2) == map[];
    assert Real(2, map[], ps0, swl, 3) == map[];
    PutOne(map[], Seg(2, BLOCKED, 1, 20, 1));
  }

  /** A thread with one wait and the closing segment. */
  ghost predicate OneWait(m: Table, v: Seg, te: u64) {
    m.Keys == {v.stime, te} && m[v.stime] == v && m[te].stime == m[te].etime == te && v.stime < v.etime <= te && v.state == BLOCKED
  }

  lemma OnlyKid(sm: SegMap, w: Seg, v: Seg, te: u64)
    requires AllUpright(sm) && w.waitFor in sm && OneWait(sm[w.waitFor], v, te)
    requires v.stime <= w.stime < w.etime <= te
    ensures KidsOf(sm, w) == [Clip(v, w.stime, w.etime)]
  {
    var m := sm[w.waitFor];
    assert IsFloor(m.Keys, w.stime, v.stime);
    assert IsCeiling(m.Keys, v.stime + 1, te);
    assert Found(sm, true, w.waitFor, w.stime, w.etime) == [v];
  }

  lemma SleepersLoop(sm: SegMap)
    requires AllUpright(sm) && 1 in sm && 2 in sm
    requires OneWait(sm[1], Seg(1, BLOCKED, 0, 10, 2), 20) && OneWait(sm[2], Seg(2, BLOCKED, 1, 20, 1), 20)
    ensures ComesBack(Kids(sm), sm[2][1])
  {
    var w0, w1, w2 := Seg(2, BLOCKED, 1, 20, 1), Seg(1, BLOCKED, 1, 10, 2), Seg(2, BLOCKED, 1, 10, 1);
    OnlyKid(sm, w0, sm[1][0], 20);
    OnlyKid(sm, w1, sm[2][1], 20);
    OnlyKid(sm, w2, sm[1][0], 20);
    var ws := [w0, w1, w2, w1];
    assert Calls(Kids(sm), ws) && ws[1] == ws[3];
  }

  lemma SleepersInputs()
    ensures StrictlySorted(EachOther()) && Inputs(false, [1, 2], map[], EachOther())
  {
    forall p | p in [1, 2] ensures Clean(p, map[], EachOther()) { NoSofts(p, EachOther()); }
  }

  lemma SleepersMaps()
    ensures var swl := EachOther();
      && AllSurvive([1, 2], map[], swl)
      && var sm := AllBroken([1, 2], map[], swl);
         AllUpright(sm) && OneWait(sm[1], Seg(1, BLOCKED, 0, 10, 2), 20) && OneWait(sm[2], Seg(2, BLOCKED, 1, 20, 1), 20)
  {
    var swl := EachOther();
    FirstSleeper();
    SecondSleeper();
    SleepersInputs();
    NoExitTable(1, map[], swl);
    NoExitTable(2, map[], swl);
    assert TraceEnd(swl) == 20;
    OneWaitIs(1, 2, 0, 10, 20);
    OneWaitIs(2, 1, 1, 20, 20);
  }

  lemma OneWaitIs(p: int, q: int, s: u64, e: u64, te: u64)
    requires s < e <= te
    ensures var v := Seg(p, BLOCKED, s, e, q); var m: Table := map[s := v][te := Seg(p, BLOCKED, te, te, -UNKNOWN)];
      OneWait(m, v, te) && Upright(m)
  {
  }

  /** That wakers are awake is needed: the recursion from the wait of thread 2, with the list handed on, never ends. It goes
      back and forth between the two threads with the same window. */
  lemma MutualSleepNeverEnds()
    ensures var swl := EachOther();
      && StrictlySorted(swl) && Inputs(false, [1, 2], map[], swl) && AllSurvive([1, 2], map[], swl)
      && var sm := AllBroken([1, 2], map[], swl);
         1 in sm[2] && sm[2][1].state == BLOCKED && forall n: nat :: !EndsWithin(Kids(sm), sm[2][1], n)
  {
    SleepersInputs();
    SleepersMaps();
    var sm := AllBroken([1, 2], map[], EachOther());
    SleepersLoop(sm);
    EndsIff(sm, sm[2][1]);
  }

  // ---- a wait inside a wait ----

  /** Thread 1 waits for thread 2 from 0 to 10, and thread 2 for thread 3 from 3 to 6. */
  function InnerWait(): seq<Switch> {
    [Switch(0, 0, WAIT, 1, 2, 1, 0, "a", "b", PROCESS), Switch(0, 3, WAIT, 2, 9, 1, 0, "b", "i", PROCESS),
     Switch(1, 6, WAKEUP, 3, 2, 0, 1, "c", "b", PROCESS), Switch(0, 7, WAIT, 9, 2, 0, 0, "i", "b", PROCESS),
     Switch(0, 10, WAKEUP, 2, 1, 0, 1, "b", "a", PROCESS), Switch(0, 12, WAIT, 2, 9, 0, 0, "b", "i", PROCESS)]
  }

  lemma OuterReplay()
    ensures var swl := InnerWait();
      ExitTime(1, swl).None? && 0 in RealTable(1, map[], swl) && RealTable(1, map[], swl)[0] == Seg(1, BLOCKED, 0, 10, 2)
  {
    var swl := InnerWait();
    NoExit(1, swl);
    assert WaitPair(1, swl, 0, 4);
    PairIsBlocked(1, map[], InitialState(1, swl), swl, 6, 0, 4);
  }

  lemma InnerStates()
    ensures var swl := InnerWait(); var ps0 := InitialState(2, swl);
      && Ps(2, ps0, swl, 1) == PrevState(0, RUNNING) && Ps(2, ps0, swl, 4) == PrevState(7, RUNNING)
      && FirstTime(2, ps0, swl, 4) == 0
  {
    var swl := InnerWait();
    NoExit(2, swl);
    var ps0 := InitialState(2, swl);
    assert Ps(2, ps0, swl, 1) == PrevState(0, RUNNING);
    assert Ps(2, ps0, swl, 2) == PrevState(3, BLOCKED);
    assert Ps(2, ps0, swl, 3) == PrevState(6, RUNNABLE);
    assert Ps(2, ps0, swl, 4) == PrevState(7, RUNNING);
    assert FirstTime(2, ps0, swl, 1) == 0 && FirstTime(2, ps0, swl, 2) == 0 && FirstTime(2, ps0, swl, 3) == 0;
  }

  lemma InnerReplay()
    ensures var swl := InnerWait(); var m := RealTable(2, map[], swl);
      ExitTime(2, swl).None? && 0 in m && 3 in m && m[3] == Seg(2, BLOCKED, 3, 6, 3) && Seen(2, swl)
      && Ps(2, InitialState(2, swl), swl, 4).state == RUNNING
  {
    var swl := InnerWait();
    NoExit(2, swl);
    var ps0 := InitialState(2, swl);
    assert WaitPair(2, swl, 1, 2);
    NoSofts(2, swl);
    PairIsBlocked(2, map[], ps0, swl, 6, 1, 2);
    InnerStates();
    PsMonotone(2, ps0, swl, 1, 6);
    RealTiles(2, map[], ps0, swl, 6);
    assert FirstTime(2, ps0, swl, 4) == 0 && FirstTime(2, ps0, swl, 5) == 0;
    assert Holds(RealTable(2, map[], swl), 0);
  }

  lemma InnerWakers()
    ensures WakersRun([1, 2], InnerWait()) && Numbered([1, 2], InnerWait()) && forall p :: RunsAtExit(p, InnerWait())
  {
    InnerReplay();
    assert AwakeBy(2, InnerWait(), 4);
  }

  lemma InnerInputs()
    ensures var swl := InnerWait();
      Inputs(true, [1, 2], map[], swl) && Inputs(false, [1, 2], map[], swl) && NoneExits([1, 2], swl)
  {
    OuterReplay();
    InnerReplay();
    InnerWakers();
    PlainInputs([1, 2], InnerWait());
  }

  lemma PlainInputs(pl: seq<int>, swl: seq<Switch>)
    requires swl != [] && StrictlySorted(swl) && WakersRun(pl, swl) && Numbered(pl, swl) && forall p :: RunsAtExit(p, swl)
    ensures Inputs(true, pl, map[], swl) && Inputs(false, pl, map[], swl)
  {
    forall p | p in pl ensures Clean(p, map[], swl) { NoSofts(p, swl); }
  }

  lemma InnerIsNested(sm: SegMap)
    requires 1 in sm && 2 in sm && 0 in sm[1] && sm[1][0] == Seg(1, BLOCKED, 0, 10, 2)
    requires 0 in sm[2] && 3 in sm[2] && sm[2][3] == Seg(2, BLOCKED, 3, 6, 3)
    ensures Nested(sm, 1, 0)
  {
    assert 0 in sm[2].Keys;
    assert BlockedAt(sm, 2, 3, 3);
    assert IsBlocked(sm, 2, 3);
  }

  /** As shipped the program completes, but charges less than when what was found is handed on: nothing of the inner wait is
      charged on behalf of thread 1. */
  lemma InnerWaitIsMissed()
    ensures var swl := InnerWait();
      && Inputs(true, [1, 2], map[], swl) && Inputs(false, [1, 2], map[], swl)
      && var shipped, meant := Outcome(false, [1, 2], map[], swl), Outcome(true, [1, 2], map[], swl);
         shipped.Some? && meant.Some? && EdgeTime(shipped.value, AnyEdge()) < EdgeTime(meant.value, AnyEdge())
  {
    InnerInputs();
    InnerMaps();
    NestedIsMissed([1, 2], map[], InnerWait(), 1, 0);
  }

  lemma InnerMaps()
    ensures var swl := InnerWait(); AllSurvive([1, 2], map[], swl) && Nested(AllBroken([1, 2], map[], swl), 1, 0)
  {
    var swl := InnerWait();
    OuterMap();
    InnerMap();
    assert AllSurvive([1, 2], map[], swl);
    InnerIsNested(AllBroken([1, 2], map[], swl));
  }

  lemma OuterMap()
    ensures var r := Broken(1, map[], InitialState(1, InnerWait()), InnerWait(), map[]);
      r.Some? && 0 in r.value && r.value[0] == Seg(1, BLOCKED, 0, 10, 2)
  {
    OuterReplay();
    NoExitTable(1, map[], InnerWait());
  }

  lemma InnerMap()
    ensures var r := Broken(2, map[], InitialState(2, InnerWait()), InnerWait(), map[]);
      r.Some? && 0 in r.value && 3 in r.value && r.value[3] == Seg(2, BLOCKED, 3, 6, 3)
  {
    InnerReplay();
    NoExitTable(2, map[], InnerWait());
  }

  lemma NestedIsMissed(pl: seq<int>, ix: SoftIndex, swl: seq<Switch>, p: int, k: int)
    requires swl != [] && Inputs(true, pl, ix, swl) && Inputs(false, pl, ix, swl) && NoneExits(pl, swl) && p in pl
    requires AllSurvive(pl, ix, swl) && Nested(AllBroken(pl, ix, swl), p, k)
    ensures var shipped, meant := Outcome(false, pl, ix, swl), Outcome(true, pl, ix, swl);
      shipped.Some? && meant.Some? && EdgeTime(shipped.value, AnyEdge()) < EdgeTime(meant.value, AnyEdge())
  {
    NoExitNoPanic(true, pl, ix, swl);
    NoExitNoPanic(false, pl, ix, swl);
    InputsAreGood(true, pl, ix, swl);
    InputsAreGood(false, pl, ix, swl);
    ShippedChargesLess(AllBroken(pl, ix, swl), pl, AnyEdge());
  }

  // ---- HI_SOFTIRQ and the idle thread ----

  /** Thread 1 falls asleep, and the softirq of number 0 wakes it. */
  function WokenByHiSoftirq(): seq<Switch> {
    [Switch(0, 0, WAIT, 1, 0, 1, 0, "a", "swapper", PROCESS), Switch(0, 10, WAKEUP, 0, 1, 0, 1, "swapper", "a", HI_SOFTIRQ)]
  }

  lemma TwoWindows(sm: SegMap, p: int, v: Seg, z: Seg)
    requires Good(sm, false) && p in sm && sm[p] == map[v.stime := v][z.stime := z] && v.stime < z.stime
    requires v.state == BLOCKED && z.state == BLOCKED && v.pid == z.pid == p
    ensures DriverEdges(sm, false, [p]) == [Edge(p, v.waitFor, v.stime, v.etime), Edge(p, z.waitFor, z.stime, z.etime)]
  {
    TwoSegments(sm[p], v, z);
    WindowsRooted(sm, false, p);
    TwoEdges(sm, v, z, U64_LIMIT);
    assert [p][1..] == [];
  }

  lemma TwoSegments(m: Table, v: Seg, z: Seg)
    requires m == map[v.stime := v][z.stime := z] && v.stime < z.stime && v.state == BLOCKED && z.state == BLOCKED
    ensures Windows(m) == [v, z]
  {
    var keys := [v.stime, z.stime];
    assert Lists(keys, m.Keys);
    ListsUnique(keys, KeyList(m.Keys), m.Keys);
    BlockedSegsFrom(m, keys, 0);
    BlockedSegsFrom(m, keys, 1);
    assert keys[0..] == keys && keys[2..] == [];
  }

  lemma TwoEdges(sm: SegMap, v: Seg, z: Seg, bound: nat)
    requires Good(sm, false) && AllRooted(sm, [v, z], bound)
    ensures AllEdges(sm, false, [v, z], bound)
      == [Edge(v.pid, v.waitFor, v.stime, v.etime), Edge(z.pid, z.waitFor, z.stime, z.etime)]
  {
    assert [v, z][1..] == [z] && [z][1..] == [] && [v, z][0] == v && [v, z][1] == z;
    assert AllRooted(sm, [z], bound);
    ShippedEdges(sm, v);
    ShippedEdges(sm, z);
    assert AllEdges(sm, false, [z], bound) == CascadeEdges(sm, false, z) + AllEdges(sm, false, [], bound);
  }

  lemma HiInputs()
    ensures var swl := WokenByHiSoftirq(); Inputs(false, [1], map[], swl) && AllClean([1], map[], swl) && NoneExits([1], swl)
  {
    forall p | p in [1] ensures Clean(p, map[], WokenByHiSoftirq()) { NoSofts(p, WokenByHiSoftirq()); }
    NoExit(1, WokenByHiSoftirq());
  }

  lemma HiSleeper()
    ensures Broken(1, map[], InitialState(1, WokenByHiSoftirq()), WokenByHiSoftirq(), map[])
      == Some(map[0 := Seg(1, BLOCKED, 0, 10, 0)][10 := Seg(1, BLOCKED, 10, 10, -UNKNOWN)])
  {
    var swl := WokenByHiSoftirq();
    NoExit(1, swl);
    var ps0 := InitialState(1, swl);
    assert Ps(1, ps0, swl, 1) == PrevState(0, BLOCKED);
    assert Real(1, map[], ps0, swl, 1) == map[];
    PutOne(map[], Seg(1, BLOCKED, 0, 10, 0));
    NoExitTable(1, map[], swl);
  }

  lemma HiNames()
    ensures var c := CommsOf(WokenByHiSoftirq()); 1 in c && c[1] == "a" && 0 in c && c[0] == "swapper" && -UNKNOWN !in c
  {
    FirstName(WokenByHiSoftirq(), 1);
    FirstName(WokenByHiSoftirq(), 0);
    FirstName(WokenByHiSoftirq(), -UNKNOWN);
    assert Names(WokenByHiSoftirq()[0], 1) && Names(WokenByHiSoftirq()[0], 0);
  }

  /** The wait is charged to the idle thread, by name. */
  lemma HiSoftirqBlamesIdle()
    ensures var swl := WokenByHiSoftirq();
      && Inputs(false, [1], map[], swl) && Outcome(false, [1], map[], swl).Some?
      && AddAll(map[], CommsOf(swl), Outcome(false, [1], map[], swl).value) == map[Key("a", "swapper") := 10]
  {
    var swl := WokenByHiSoftirq();
    HiInputs();
    HiSleeper();
    HiNames();
    NoExitNoPanic(false, [1], map[], swl);
    TwoWindows(AllBroken([1], map[], swl), 1, Seg(1, BLOCKED, 0, 10, 0), Seg(1, BLOCKED, 10, 10, -UNKNOWN));
    TwoCalls(CommsOf(swl), Edge(1, 0, 0, 10), Edge(1, -UNKNOWN, 10, 10));
  }

  /** Of two calls, only one with two named threads is filed. */
  lemma TwoCalls(comms: Comms, e: Edge, f: Edge)
    requires Comm(comms, f.waker) == ""
    ensures AddAll(map[], comms, [e, f]) == AddWeight(map[], comms, e)
  {
    assert [e, f][1..] == [f] && [f][1..] == [];
    assert AddAll(AddWeight(map[], comms, e), comms, [f]) == AddAll(AddWeight(AddWeight(map[], comms, e), comms, f), comms, []);
  }
}
