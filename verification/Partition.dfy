/** The finished map of a thread: exactly when its segments partition the time from its first to its last event. */
module Partition {
  import opened Events
  import opened TreeMaps
  import opened Tables
  import opened SoftIndexes
  import opened Breaking
  import opened Tiling

  /** The segments of positive length cover [lo, hi), and nothing else, without overlap. */
  ghost predicate Partitions(m: Table, lo: int, hi: int) {
    && Forward(m)
    && (forall k, l :: k in m && l in m && k < l && k < m[k].etime && l < m[l].etime ==> m[k].etime <= l)
    && (forall t :: Holds(m, t) <==> lo <= t < hi)
  }

  ghost predicate Seen(pid: int, swl: seq<Switch>)
    requires swl != []
  {
    Ps(pid, InitialState(pid, swl), swl, |swl|).state != UNSEEN
  }

  ghost function FirstSeen(pid: int, swl: seq<Switch>): u64
    requires swl != [] && Seen(pid, swl)
  {
    FirstTime(pid, InitialState(pid, swl), swl, |swl|)
  }

  ghost function LastSeen(pid: int, swl: seq<Switch>): u64
    requires swl != []
  {
    Ps(pid, InitialState(pid, swl), swl, |swl|).time
  }

  ghost function RealTable(pid: int, ix: SoftIndex, swl: seq<Switch>): Table
    requires swl != []
  {
    Real(pid, ix, InitialState(pid, swl), swl, |swl|)
  }

  /** No softirq straddles the start of a run of this thread. */
  ghost predicate Clean(pid: int, ix: SoftIndex, swl: seq<Switch>)
    requires swl != []
  {
    Keyed(ix) && NoStraddle(pid, ix, InitialState(pid, swl), swl)
  }

  /** The first event stores one segment, under the recorded time stamp, provided it is not later than that stamp. */
  lemma {:induction false} FirstIsOne(pid: int, ix: SoftIndex, ps0: PrevState, swl: seq<Switch>, n: nat) returns (z: Seg)
    requires n <= |swl| && Keyed(ix) && ps0.state == UNSEEN && Ps(pid, ps0, swl, n).state != UNSEEN
    requires FirstTime(pid, ps0, swl, n) <= ps0.time
    ensures First(pid, ix, ps0, swl, n) == map[ps0.time := z]
    ensures z.pid == pid && z.stime == ps0.time && z.state in {RUNNING, RUNNABLE}
  {
    var ps, sw := Ps(pid, ps0, swl, n - 1), swl[n - 1];
    if ps.state == UNSEEN {
      SeenOrNot(pid, ix, ps0, swl, n - 1);
      z := Puts(pid, ix, ps, sw)[0];
      PutOne(map[], z);
    } else {
      z := FirstIsOne(pid, ix, ps0, swl, n - 1);
    }
  }

  /** What Broken makes of a thread that never exits: the tiles, and a blocked segment of length zero at the end. */
  lemma NoExitTable(pid: int, ix: SoftIndex, swl: seq<Switch>)
    requires swl != [] && Sorted(swl) && Keyed(ix) && ExitTime(pid, swl).None?
    ensures Broken(pid, ix, InitialState(pid, swl), swl, map[])
      == Some(RealTable(pid, ix, swl)[TraceEnd(swl) := Seg(pid, BLOCKED, TraceEnd(swl), TraceEnd(swl), -UNKNOWN)])
  {
    var ps0 := InitialState(pid, swl);
    var n := |swl|;
    TabSplits(pid, ix, ps0, swl, n, map[]);
    SeenOrNot(pid, ix, ps0, swl, n);
    var first, later := First(pid, ix, ps0, swl, n), Real(pid, ix, ps0, swl, n);
    assert map[] + first == first;
    if Seen(pid, swl) {
      FirstTimeIn(pid, ps0, swl, n);
      var z := FirstIsOne(pid, ix, ps0, swl, n);
      var s := Seg(pid, BLOCKED, TraceEnd(swl), TraceEnd(swl), -UNKNOWN);
      assert (map[ps0.time := z] + later)[ps0.time := s] == later[ps0.time := s];
    }
  }

  lemma {:induction false} FirstTimeIn(pid: int, ps0: PrevState, swl: seq<Switch>, n: nat)
    requires n <= |swl| && ps0.state == UNSEEN && Ps(pid, ps0, swl, n).state != UNSEEN && Sorted(swl)
    ensures exists i :: 0 <= i < n && swl[i].time == FirstTime(pid, ps0, swl, n)
    ensures FirstTime(pid, ps0, swl, n) <= swl[|swl| - 1].time
  {
    if Ps(pid, ps0, swl, n - 1).state != UNSEEN { FirstTimeIn(pid, ps0, swl, n - 1); }
  }

  lemma CutLeavesHole(m: Table, lo: int, hi: int, z: Seg)
    requires Tiles(m, lo, hi) && z.stime == z.etime && z.stime in m && z.stime < m[z.stime].etime
    ensures lo <= z.stime < hi && !Holds(m[z.stime := z], z.stime)
  {
    var x := z.stime;
    var r := m[x := z];
    forall k | k in r ensures !(k <= x < r[k].etime) {
      if k < x { assert m[k].etime <= x; }
    }
  }

  lemma HoldsAsBefore(m: Table, z: Seg, t: int)
    requires z.stime == z.etime && (z.stime in m ==> m[z.stime].etime <= z.stime)
    ensures Holds(m[z.stime := z], t) <==> Holds(m, t)
  {
    var r := m[z.stime := z];
    if k :| k in r && k <= t < r[k].etime { assert k in m && r[k] == m[k]; }
    if k :| k in m && k <= t < m[k].etime { assert k in r && r[k] == m[k]; }
  }

  /** A segment of length zero changes no partition unless it takes the place of a longer one. */
  lemma ZeroLength(m: Table, lo: int, hi: int, z: Seg)
    requires Tiles(m, lo, hi) && z.stime == z.etime
    ensures Partitions(m[z.stime := z], lo, hi) <==> !(z.stime in m && z.stime < m[z.stime].etime)
  {
    if z.stime in m && z.stime < m[z.stime].etime {
      CutLeavesHole(m, lo, hi, z);
    } else {
      var r := m[z.stime := z];
      forall t ensures Holds(r, t) <==> lo <= t < hi { HoldsAsBefore(m, z, t); }
    }
  }

  /** Without an exit the segments always partition the time from the first to the last event. */
  lemma PartitionNoExit(pid: int, ix: SoftIndex, swl: seq<Switch>)
    requires swl != [] && Sorted(swl) && Clean(pid, ix, swl) && ExitTime(pid, swl).None? && Seen(pid, swl)
    ensures Broken(pid, ix, InitialState(pid, swl), swl, map[]).Some?
    ensures Partitions(Broken(pid, ix, InitialState(pid, swl), swl, map[]).value, FirstSeen(pid, swl), LastSeen(pid, swl))
  {
    NoExitTable(pid, ix, swl);
    RealTiles(pid, ix, InitialState(pid, swl), swl, |swl|);
    SeenBeforeEnd(pid, swl);
    var te := TraceEnd(swl);
    ZeroLength(RealTable(pid, ix, swl), FirstSeen(pid, swl), LastSeen(pid, swl), Seg(pid, BLOCKED, te, te, -UNKNOWN));
  }

  lemma SeenBeforeEnd(pid: int, swl: seq<Switch>)
    requires swl != [] && Sorted(swl) && Seen(pid, swl)
    ensures LastSeen(pid, swl) <= TraceEnd(swl)
  {
    var i := LastEvent(pid, InitialState(pid, swl), swl, |swl|);
  }

  /** The thread's first event, and what it stores. */
  lemma {:induction false} FirstAt(pid: int, ix: SoftIndex, ps0: PrevState, swl: seq<Switch>, n: nat) returns (i: nat)
    requires n <= |swl| && ps0.state == UNSEEN && Ps(pid, ps0, swl, n).state != UNSEEN
    ensures i < n && Ps(pid, ps0, swl, i) == ps0 && (Out(pid, swl[i]) || In(pid, swl[i]))
    ensures FirstTime(pid, ps0, swl, n) == swl[i].time && First(pid, ix, ps0, swl, n) == PutAll(map[], Puts(pid, ix, ps0, swl[i]))
    ensures forall m :: i < m <= n ==> Ps(pid, ps0, swl, m).state != UNSEEN
  {
    if Ps(pid, ps0, swl, n - 1).state == UNSEEN {
      SeenOrNot(pid, ix, ps0, swl, n - 1);
      i := n - 1;
    } else {
      i := FirstAt(pid, ix, ps0, swl, n - 1);
    }
  }

  /** A softirq is cut out of the time between the exit and a later first event. */
  ghost predicate CarvedEarly(pid: int, ix: SoftIndex, swl: seq<Switch>)
    requires swl != []
  {
    var ps0 := InitialState(pid, swl);
    exists i :: 0 <= i < |swl| && Out(pid, swl[i]) && Ps(pid, ps0, swl, i).state == UNSEEN && CutsAfter(ix, ps0.time, swl[i])
  }

  ghost predicate CutsAfter(ix: SoftIndex, pt: u64, sw: Switch) {
    var sf := CeilingSoft(ix, sw.cpu, pt);
    sf.Some? && sf.value.stime < sw.time && pt < sf.value.etime < sw.time
  }

  /** What the first event leaves besides the segment under the recorded time stamp. */
  ghost function Early(pid: int, ix: SoftIndex, swl: seq<Switch>): Table
    requires swl != []
  {
    First(pid, ix, InitialState(pid, swl), swl, |swl|) - {InitialState(pid, swl).time}
  }

  /** What the first event, at time hi, leaves in an empty map if x is the recorded time stamp. */
  ghost predicate LeftByFirst(pid: int, m: Table, x: int, hi: int) {
    && x in m && (forall k :: k in m ==> m[k].pid == pid && m[k].stime == k && m[k].state in {RUNNING, RUNNABLE})
    && (if x < hi then Tiles(m, x, hi) else m.Keys == {x})
    && (forall k :: k in m && k != x ==> x < k < hi)
  }

  lemma FirstRun(pid: int, ix: SoftIndex, pt: u64, sw: Switch)
    requires Keyed(ix) && pt < sw.time && !Straddles(ix, pt, sw)
    ensures var m := PutAll(map[], RunPieces(pid, ix, pt, sw));
      LeftByFirst(pid, m, pt, sw.time) && (m.Keys == {pt} <==> !CutsAfter(ix, pt, sw))
  {
    PiecesPartition(pid, ix, pt, sw);
    PutRunPieces(map[], pid, ix, pt, sw);
    var sf := CeilingSoft(ix, sw.cpu, pt);
    var m := PutAll(map[], RunPieces(pid, ix, pt, sw));
    if CutsAfter(ix, pt, sw) { assert sf.value.etime in m; }
    assert Holds(m, pt);
  }

  lemma FirstSegment(pid: int, m: Table, v: Seg, hi: int)
    requires m == map[v.stime := v] && v.pid == pid && v.state in {RUNNING, RUNNABLE} && v.etime == hi
    ensures LeftByFirst(pid, m, v.stime, hi) && m.Keys == {v.stime}
  {
    if v.stime < hi { TilesGrow(map[], v.stime, v); }
  }

  /** A run that ends no later than it starts is stored as one segment. */
  lemma FirstPieces(pid: int, ix: SoftIndex, ps0: PrevState, sw: Switch)
    requires Keyed(ix) && (Out(pid, sw) || In(pid, sw)) && (Out(pid, sw) ==> !Straddles(ix, ps0.time, sw))
    ensures var m := PutAll(map[], Puts(pid, ix, ps0, sw));
      && LeftByFirst(pid, m, ps0.time, sw.time)
      && (m.Keys == {ps0.time} <==> !(Out(pid, sw) && CutsAfter(ix, ps0.time, sw)))
  {
    if Out(pid, sw) && ps0.time < sw.time {
      FirstRun(pid, ix, ps0.time, sw);
    } else {
      var v := Puts(pid, ix, ps0, sw)[0];
      PutOne(map[], v);
      FirstSegment(pid, PutAll(map[], Puts(pid, ix, ps0, sw)), v, sw.time);
    }
  }

  /** Everything the first event leaves lies before that event, and is no wait. */
  lemma EarlyIs(pid: int, ix: SoftIndex, swl: seq<Switch>)
    requires swl != [] && Clean(pid, ix, swl) && Seen(pid, swl)
    ensures var ps0 := InitialState(pid, swl); LeftByFirst(pid, First(pid, ix, ps0, swl, |swl|), ps0.time, FirstSeen(pid, swl))
    ensures Early(pid, ix, swl) == map[] <==> !CarvedEarly(pid, ix, swl)
  {
    var ps0, n := InitialState(pid, swl), |swl|;
    var i := FirstAt(pid, ix, ps0, swl, n);
    assert CleanAt(pid, ix, ps0, swl, i);
    FirstPieces(pid, ix, ps0, swl[i]);
    CarvedFirst(pid, ix, swl, i);
    EarlyEmpty(First(pid, ix, ps0, swl, n), ps0.time);
  }

  lemma EarlyNoWaits(pid: int, ix: SoftIndex, swl: seq<Switch>)
    requires swl != [] && Clean(pid, ix, swl) && Seen(pid, swl)
    ensures forall k :: k in Early(pid, ix, swl) ==> Early(pid, ix, swl)[k].state != BLOCKED
  {
    EarlyIs(pid, ix, swl);
  }

  lemma EarlyNone(pid: int, ix: SoftIndex, swl: seq<Switch>)
    requires swl != [] && Clean(pid, ix, swl) && Seen(pid, swl)
    ensures Early(pid, ix, swl) == map[] <==> !CarvedEarly(pid, ix, swl)
  {
    EarlyIs(pid, ix, swl);
  }

  lemma NothingEarly(pid: int, ix: SoftIndex, swl: seq<Switch>)
    requires swl != [] && Clean(pid, ix, swl) && Seen(pid, swl) && FirstSeen(pid, swl) <= InitialState(pid, swl).time
    ensures Early(pid, ix, swl) == map[]
  {
    EarlyIs(pid, ix, swl);
    EarlyEmpty(First(pid, ix, InitialState(pid, swl), swl, |swl|), InitialState(pid, swl).time);
  }

  lemma EarlyEmpty(m: Table, x: u64)
    requires x in m
    ensures m - {x} == map[] <==> m.Keys == {x}
  {
    assert forall k :: k in m && k != x ==> k in m - {x};
  }

  lemma CarvedFirst(pid: int, ix: SoftIndex, swl: seq<Switch>, i: nat)
    requires swl != [] && i < |swl| && Ps(pid, InitialState(pid, swl), swl, i) == InitialState(pid, swl)
    requires (Out(pid, swl[i]) || In(pid, swl[i]))
    requires forall m :: i < m <= |swl| ==> Ps(pid, InitialState(pid, swl), swl, m).state != UNSEEN
    ensures CarvedEarly(pid, ix, swl) <==> Out(pid, swl[i]) && CutsAfter(ix, InitialState(pid, swl).time, swl[i])
  {
    var ps0 := InitialState(pid, swl);
    forall j | 0 <= j < |swl| && Out(pid, swl[j]) && Ps(pid, ps0, swl, j).state == UNSEEN ensures j == i {
      if j < i { SeenOrNot(pid, ix, ps0, swl, i); }
    }
  }

  lemma CutFirst(first: Table, later: Table, x: u64, z: Seg)
    requires x in first
    ensures (first + later)[x := z] == (first - {x} + later)[x := z]
  {
  }

  lemma CloseAtExit(pid: int, swl: seq<Switch>, m: Table)
    requires swl != [] && ExitTime(pid, swl).Some? && ExitTime(pid, swl).value in m
    ensures var x := ExitTime(pid, swl).value; Close(pid, swl, InitialState(pid, swl), m) == Some(m[x := m[x].(etime := x)])
  {
    assert IsFloor(m.Keys, ExitTime(pid, swl).value, ExitTime(pid, swl).value);
  }

  /** With an exit, closing the map cuts the segment stored under the exit time to nothing. */
  lemma ExitTable(pid: int, ix: SoftIndex, swl: seq<Switch>) returns (z: Seg)
    requires swl != [] && Sorted(swl) && Clean(pid, ix, swl) && ExitTime(pid, swl).Some? && Seen(pid, swl)
    ensures z.pid == pid && z.stime == z.etime == ExitTime(pid, swl).value
    ensures z.stime !in RealTable(pid, ix, swl) ==> z.state in {RUNNING, RUNNABLE}
    ensures z.stime in RealTable(pid, ix, swl) ==> z == RealTable(pid, ix, swl)[z.stime].(etime := z.stime)
    ensures Broken(pid, ix, InitialState(pid, swl), swl, map[]) == Some((Early(pid, ix, swl) + RealTable(pid, ix, swl))[z.stime := z])
  {
    var ps0 := InitialState(pid, swl);
    var n := |swl|;
    TabSplits(pid, ix, ps0, swl, n, map[]);
    var first, later := First(pid, ix, ps0, swl, n), Real(pid, ix, ps0, swl, n);
    RealKeyed(pid, ix, ps0, swl, n);
    EarlyIs(pid, ix, swl);
    assert map[] + first == first;
    var m := first + later;
    CloseAtExit(pid, swl, m);
    z := m[ps0.time].(etime := ps0.time);
    CutFirst(first, later, ps0.time, z);
  }

  lemma {:induction false} PutAllKeyed(pid: int, m: Table, segs: seq<Seg>)
    requires forall k :: k in m ==> m[k].stime == k && m[k].pid == pid
    requires forall v :: v in segs ==> v.pid == pid
    ensures forall k :: k in PutAll(m, segs) ==> PutAll(m, segs)[k].stime == k && PutAll(m, segs)[k].pid == pid
    decreases |segs|
  {
    if segs != [] { PutAllKeyed(pid, m[segs[0].stime := segs[0]], segs[1..]); }
  }

  lemma {:induction false} RealKeyed(pid: int, ix: SoftIndex, ps0: PrevState, swl: seq<Switch>, n: nat)
    requires n <= |swl|
    ensures forall k :: k in Real(pid, ix, ps0, swl, n) ==>
      Real(pid, ix, ps0, swl, n)[k].stime == k && Real(pid, ix, ps0, swl, n)[k].pid == pid
  {
    if n > 0 {
      RealKeyed(pid, ix, ps0, swl, n - 1);
      PutAllKeyed(pid, Real(pid, ix, ps0, swl, n - 1), Puts(pid, ix, Ps(pid, ps0, swl, n - 1), swl[n - 1]));
    }
  }

  /** Whatever is left from before the first event is not covered by it. */
  lemma EarlyIsOutside(pid: int, ix: SoftIndex, swl: seq<Switch>, z: Seg)
    requires swl != [] && Sorted(swl) && Clean(pid, ix, swl) && Seen(pid, swl) && Early(pid, ix, swl) != map[]
    requires z.stime == InitialState(pid, swl).time
    ensures Holds((Early(pid, ix, swl) + RealTable(pid, ix, swl))[z.stime := z], FirstSeen(pid, swl) - 1)
  {
    var ps0, t := InitialState(pid, swl), FirstSeen(pid, swl);
    EarlyIs(pid, ix, swl);
    var m := First(pid, ix, ps0, swl, |swl|);
    var l :| l in Early(pid, ix, swl);
    assert Holds(m, t - 1);
    var k :| k in m && k <= t - 1 < m[k].etime;
    assert k != ps0.time;
    RealTiles(pid, ix, ps0, swl, |swl|);
    assert k !in RealTable(pid, ix, swl);
    assert (Early(pid, ix, swl) + RealTable(pid, ix, swl))[z.stime := z][k] == m[k];
  }

  /** Some event stores a segment of positive length that starts at x. */
  ghost predicate SegmentStartsAt(pid: int, ix: SoftIndex, swl: seq<Switch>, x: int)
    requires swl != []
  {
    exists n, v :: 0 <= n < |swl| && Stores(pid, ix, InitialState(pid, swl), swl, n, v) && v.stime == x < v.etime
  }

  /** What starts in the map is read off the events. */
  lemma StartsTold(pid: int, ix: SoftIndex, swl: seq<Switch>, x: u64)
    requires swl != [] && Sorted(swl) && Clean(pid, ix, swl)
    ensures x in RealTable(pid, ix, swl) && x < RealTable(pid, ix, swl)[x].etime <==> SegmentStartsAt(pid, ix, swl, x)
  {
    var ps0 := InitialState(pid, swl);
    RealKeyed(pid, ix, ps0, swl, |swl|);
    if x in RealTable(pid, ix, swl) && x < RealTable(pid, ix, swl)[x].etime {
      var i := RealIsStored(pid, ix, ps0, swl, |swl|, x);
    }
    if n, v :| 0 <= n < |swl| && Stores(pid, ix, ps0, swl, n, v) && v.stime == x < v.etime {
      StoredStays(pid, ix, ps0, swl, n, |swl|, v);
    }
  }

  /** For a thread that exits, the partition holds exactly when no softirq is cut out between the exit and a later first
      event, and the exit is not the start of one of the thread's segments. */
  lemma PartitionExit(pid: int, ix: SoftIndex, swl: seq<Switch>)
    requires swl != [] && Sorted(swl) && Clean(pid, ix, swl) && ExitTime(pid, swl).Some? && Seen(pid, swl)
    ensures Broken(pid, ix, InitialState(pid, swl), swl, map[]).Some?
    ensures Partitions(Broken(pid, ix, InitialState(pid, swl), swl, map[]).value, FirstSeen(pid, swl), LastSeen(pid, swl))
      <==> !CarvedEarly(pid, ix, swl) && !SegmentStartsAt(pid, ix, swl, ExitTime(pid, swl).value)
  {
    StartsTold(pid, ix, swl, ExitTime(pid, swl).value);
    var z := ExitTable(pid, ix, swl);
    EarlyIs(pid, ix, swl);
    RealTiles(pid, ix, InitialState(pid, swl), swl, |swl|);
    if CarvedEarly(pid, ix, swl) {
      EarlyIsOutside(pid, ix, swl, z);
    } else {
      assert Early(pid, ix, swl) + RealTable(pid, ix, swl) == RealTable(pid, ix, swl);
      ZeroLength(RealTable(pid, ix, swl), FirstSeen(pid, swl), LastSeen(pid, swl), z);
    }
  }

  /** A wait of positive length in the finished map is one of the event loop's. */
  lemma LongWaitIsReal(pid: int, ix: SoftIndex, swl: seq<Switch>, k: u64)
    requires swl != [] && Sorted(swl) && Clean(pid, ix, swl)
    requires var r := Broken(pid, ix, InitialState(pid, swl), swl, map[]);
      r.Some? && k in r.value && r.value[k].state == BLOCKED && k < r.value[k].etime
    ensures k in RealTable(pid, ix, swl) && RealTable(pid, ix, swl)[k] == Broken(pid, ix, InitialState(pid, swl), swl, map[]).value[k]
  {
    if ExitTime(pid, swl).None? {
      NoExitTable(pid, ix, swl);
    } else {
      DiesIff(pid, ix, swl);
      EarlyNoWaits(pid, ix, swl);
      var z := ExitTable(pid, ix, swl);
    }
  }

  /** BreakIntoSegments dereferences nil exactly for a thread that exits without ever being switched in or out. */
  lemma DiesIff(pid: int, ix: SoftIndex, swl: seq<Switch>)
    requires swl != [] && Keyed(ix)
    ensures Broken(pid, ix, InitialState(pid, swl), swl, map[]).None? <==> ExitTime(pid, swl).Some? && !Seen(pid, swl)
  {
    var ps0 := InitialState(pid, swl);
    var n := |swl|;
    TabSplits(pid, ix, ps0, swl, n, map[]);
    SeenOrNot(pid, ix, ps0, swl, n);
    if Seen(pid, swl) { StampStored(pid, ix, ps0, swl, n); }
  }

  lemma {:induction false} PutAllHas(m: Table, segs: seq<Seg>, k: u64)
    requires k in m || (segs != [] && segs[0].stime == k)
    ensures k in PutAll(m, segs)
    decreases |segs|
  {
    if segs != [] { PutAllHas(m[segs[0].stime := segs[0]], segs[1..], k); }
  }

  lemma {:induction false} StampStored(pid: int, ix: SoftIndex, ps0: PrevState, swl: seq<Switch>, n: nat)
    requires n <= |swl| && ps0.state == UNSEEN && Ps(pid, ps0, swl, n).state != UNSEEN
    ensures ps0.time in First(pid, ix, ps0, swl, n)
  {
    var ps, sw := Ps(pid, ps0, swl, n - 1), swl[n - 1];
    if ps.state == UNSEEN {
      SeenOrNot(pid, ix, ps0, swl, n - 1);
      PutAllHas(First(pid, ix, ps0, swl, n - 1), Puts(pid, ix, ps, sw), ps0.time);
    } else {
      StampStored(pid, ix, ps0, swl, n - 1);
    }
  }

  lemma OverItself(a: Table, x: u64, s: Seg)
    ensures (a[x := s] + a)[x := s] == a[x := s]
  {
  }

  /** Breaking a thread again over its own finished map leaves the map as it was. */
  lemma BrokenTwice(pid: int, ix: SoftIndex, swl: seq<Switch>)
    requires swl != [] && Broken(pid, ix, InitialState(pid, swl), swl, map[]).Some?
    ensures var m := Broken(pid, ix, InitialState(pid, swl), swl, map[]).value;
      Broken(pid, ix, InitialState(pid, swl), swl, m) == Some(m)
  {
    var ps0 := InitialState(pid, swl);
    var n := |swl|;
    var m := Broken(pid, ix, ps0, swl, map[]).value;
    var a, b := Tab(pid, ix, ps0, swl, n, map[]), Tab(pid, ix, ps0, swl, n, m);
    TabSplits(pid, ix, ps0, swl, n, map[]);
    TabSplits(pid, ix, ps0, swl, n, m);
    SeenOrNot(pid, ix, ps0, swl, n);
    assert b == m + a;
    if ExitTime(pid, swl).Some? {
      var x := ExitTime(pid, swl).value;
      if Seen(pid, swl) { StampStored(pid, ix, ps0, swl, n); }
      CloseAtExit(pid, swl, a);
      CloseAtExit(pid, swl, b);
      OverItself(a, x, a[x].(etime := x));
    } else {
      OverItself(a, ps0.time, m[ps0.time]);
    }
  }
}
