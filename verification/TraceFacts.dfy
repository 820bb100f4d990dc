/** From facts about a trace to the facts the cascade needs of the segments. */
module TraceFacts {
  import opened Events
  import opened Tables
  import opened SoftIndexes
  import opened Breaking
  import opened Tiling
  import opened Partition
  import opened Matching
  import opened Cascades

  lemma {:induction false} PsMonotone(pid: int, ps0: PrevState, swl: seq<Switch>, a: nat, b: nat)
    requires a <= b <= |swl| && ps0.state == UNSEEN && Sorted(swl) && Ps(pid, ps0, swl, a).state != UNSEEN
    ensures Ps(pid, ps0, swl, b).state != UNSEEN && Ps(pid, ps0, swl, a).time <= Ps(pid, ps0, swl, b).time
    decreases b
  {
    if a < b {
      PsMonotone(pid, ps0, swl, a, b - 1);
      var i := LastEvent(pid, ps0, swl, b - 1);
    }
  }

  /** In tiles, a segment that is not the last is followed at once by another. */
  lemma TilesFollow(m: Table, lo: int, hi: int, k: u64)
    requires Tiles(m, lo, hi) && k in m && m[k].etime < hi
    ensures m[k].etime in m
  {
    assert Holds(m, m[k].etime);
    var l :| l in m && l <= m[k].etime < m[l].etime;
  }

  /** As far as the trace tells, the thread is awake at event j: running, not yet seen, or runnable with an event to come. */
  ghost predicate AwakeBy(pid: int, swl: seq<Switch>, j: nat)
    requires swl != [] && j < |swl|
  {
    var ps := Ps(pid, InitialState(pid, swl), swl, j);
    ps.state in {RUNNING, UNSEEN} || (ps.state == RUNNABLE && ps.time < LastSeen(pid, swl))
  }

  lemma InOrder(swl: seq<Switch>, i: nat, j: nat)
    requires StrictlySorted(swl) && i < |swl| && j < |swl|
    ensures i < j <==> swl[i].time < swl[j].time
  {
  }

  /** A wait that began before an event at which the thread is awake ended before it, too. */
  lemma WokenBefore(pid: int, ix: SoftIndex, swl: seq<Switch>, j: nat, k: u64) returns (b: nat)
    requires swl != [] && StrictlySorted(swl) && Clean(pid, ix, swl) && j < |swl| && AwakeBy(pid, swl, j)
    requires k in RealTable(pid, ix, swl) && RealTable(pid, ix, swl)[k].state == BLOCKED && k < swl[j].time
    ensures b < j && k < swl[b].time == RealTable(pid, ix, swl)[k].etime
    ensures Ps(pid, InitialState(pid, swl), swl, b + 1) == PrevState(swl[b].time, RUNNABLE)
  {
    var i, n := WaitStored(pid, ix, swl, k, j);
    InOrder(swl, i, j);
    assert n < j;
    InOrder(swl, i, n);
    InOrder(swl, n, j);
    b := n;
  }

  lemma AwakeWaitOver(pid: int, ix: SoftIndex, swl: seq<Switch>, j: nat, k: u64)
    requires swl != [] && StrictlySorted(swl) && Clean(pid, ix, swl) && j < |swl| && AwakeBy(pid, swl, j)
    requires k in RealTable(pid, ix, swl) && RealTable(pid, ix, swl)[k].state == BLOCKED && k < swl[j].time
    ensures var v := RealTable(pid, ix, swl)[k]; k < v.etime < swl[j].time && v.etime in RealTable(pid, ix, swl)
  {
    var b := WokenBefore(pid, ix, swl, j, k);
    BeforeLast(pid, swl, b, j);
    RealTiles(pid, ix, InitialState(pid, swl), swl, |swl|);
    TilesFollow(RealTable(pid, ix, swl), FirstSeen(pid, swl), LastSeen(pid, swl), k);
  }

  /** A wakeup before an event at which the thread is awake is not the last thing known of it. */
  lemma BeforeLast(pid: int, swl: seq<Switch>, b: nat, j: nat)
    requires swl != [] && StrictlySorted(swl) && b < j < |swl| && AwakeBy(pid, swl, j)
    requires Ps(pid, InitialState(pid, swl), swl, b + 1) == PrevState(swl[b].time, RUNNABLE)
    ensures Seen(pid, swl) && swl[b].time < LastSeen(pid, swl)
  {
    var ps0 := InitialState(pid, swl);
    PsMonotone(pid, ps0, swl, b + 1, j);
    PsMonotone(pid, ps0, swl, j, |swl|);
    var i := LastEvent(pid, ps0, swl, j);
  }

  /** Then each of its stored waits that began earlier is over. */
  lemma AwakeWaitsOver(pid: int, ix: SoftIndex, swl: seq<Switch>, j: nat)
    requires swl != [] && StrictlySorted(swl) && Clean(pid, ix, swl) && j < |swl| && AwakeBy(pid, swl, j)
    ensures AwakeAt(RealTable(pid, ix, swl), swl[j].time)
  {
    var m := RealTable(pid, ix, swl);
    forall k | k in m && m[k].state == BLOCKED && k < swl[j].time
      ensures k < m[k].etime < swl[j].time && m[k].etime in m
    {
      AwakeWaitOver(pid, ix, swl, j, k);
    }
  }

  /** Whenever a listed thread wakes somebody from its own context, it is awake as far as the trace tells. */
  ghost predicate WakersRun(pl: seq<int>, swl: seq<Switch>)
    requires swl != []
  {
    forall j :: 0 <= j < |swl| && swl[j].kind == WAKEUP && swl[j].ctx == PROCESS && swl[j].prevPid in pl ==>
      AwakeBy(swl[j].prevPid, swl, j)
  }

  /** Thread ids are positive, contexts are not negative. */
  ghost predicate Numbered(pl: seq<int>, swl: seq<Switch>) {
    (forall p :: p in pl ==> 0 < p) && (forall j :: 0 <= j < |swl| && swl[j].kind == WAKEUP ==> 0 <= swl[j].ctx)
  }

  ghost predicate AllClean(pl: seq<int>, ix: SoftIndex, swl: seq<Switch>)
    requires swl != []
  {
    forall p :: p in pl ==> Clean(p, ix, swl)
  }

  ghost predicate NoneExits(pl: seq<int>, swl: seq<Switch>) {
    forall p :: p in pl ==> ExitTime(p, swl).None?
  }

  /** A thread that exits is switched in or out at least once. */
  ghost predicate ExitsSeen(pl: seq<int>, swl: seq<Switch>)
    requires swl != []
  {
    forall p :: p in pl && ExitTime(p, swl).Some? ==> Seen(p, swl)
  }

  /** The maps of all listed threads after the first phase. */
  ghost function AllBroken(pl: seq<int>, ix: SoftIndex, swl: seq<Switch>): SegMap
    requires swl != [] && forall p :: p in pl ==> Broken(p, ix, InitialState(p, swl), swl, map[]).Some?
  {
    map p | p in pl :: Broken(p, ix, InitialState(p, swl), swl, map[]).value
  }

  /** The maps when the threads among the first i listed have been broken. */
  ghost function PartlyBroken(pl: seq<int>, ix: SoftIndex, swl: seq<Switch>, i: nat): SegMap
    requires swl != [] && i <= |pl| && forall p :: p in pl[..i] ==> Broken(p, ix, InitialState(p, swl), swl, map[]).Some?
  {
    map p | p in pl :: if p in pl[..i] then Broken(p, ix, InitialState(p, swl), swl, map[]).value else map[]
  }

  /** Breaking the next thread, or one already broken once more, is one step. */
  lemma BreakNext(pl: seq<int>, ix: SoftIndex, swl: seq<Switch>, i: nat)
    requires swl != [] && i < |pl| && forall p :: p in pl[..i] ==> Broken(p, ix, InitialState(p, swl), swl, map[]).Some?
    ensures var p := pl[i];
      var before := PartlyBroken(pl, ix, swl, i);
      var r := Broken(p, ix, InitialState(p, swl), swl, map[]);
      && p in before && Broken(p, ix, InitialState(p, swl), swl, before[p]) == r
      && (r.Some? ==> (forall q :: q in pl[..i + 1] ==> Broken(q, ix, InitialState(q, swl), swl, map[]).Some?)
                      && PartlyBroken(pl, ix, swl, i + 1) == before[p := r.value])
  {
    assert pl[..i + 1] == pl[..i] + [pl[i]];
    if pl[i] in pl[..i] { BrokenTwice(pl[i], ix, swl); }
  }

  lemma AllAreBroken(pl: seq<int>, ix: SoftIndex, swl: seq<Switch>)
    requires swl != [] && forall p :: p in pl[..|pl|] ==> Broken(p, ix, InitialState(p, swl), swl, map[]).Some?
    ensures forall p :: p in pl ==> Broken(p, ix, InitialState(p, swl), swl, map[]).Some?
    ensures PartlyBroken(pl, ix, swl, |pl|) == AllBroken(pl, ix, swl)
  {
    assert pl[..|pl|] == pl;
  }

  /** The first phase survives exactly when every listed thread that exits was switched in or out at least once. */
  lemma SurvivesIff(pl: seq<int>, ix: SoftIndex, swl: seq<Switch>)
    requires swl != [] && Keyed(ix)
    ensures (forall p :: p in pl ==> Broken(p, ix, InitialState(p, swl), swl, map[]).Some?)
      <==> forall p :: p in pl && ExitTime(p, swl).Some? ==> Seen(p, swl)
  {
    forall p | p in pl
      ensures Broken(p, ix, InitialState(p, swl), swl, map[]).Some? <==> (ExitTime(p, swl).Some? ==> Seen(p, swl))
    {
      DiesIff(p, ix, swl);
    }
  }

  /** All but what is stored under x is fair. */
  ghost predicate FairBut(p: int, x: int, m: Table) {
    forall k :: k in m ==> m[k].pid == p && m[k].stime == k && (k != x ==> Fair(m[k]))
  }

  lemma {:induction false} PutAllFair(p: int, x: int, m: Table, segs: seq<Seg>)
    requires FairBut(p, x, m) && forall v :: v in segs ==> v.pid == p && (v.stime != x ==> Fair(v))
    ensures FairBut(p, x, PutAll(m, segs))
    decreases |segs|
  {
    if segs != [] { PutAllFair(p, x, m[segs[0].stime := segs[0]], segs[1..]); }
  }

  /** Cutting a softirq out of a run may turn its pieces round, but not those of a wait. */
  lemma PutsFair(p: int, ix: SoftIndex, ps: PrevState, sw: Switch)
    requires Keyed(ix) && (ps.state != UNSEEN ==> ps.time <= sw.time)
    ensures forall v :: v in Puts(p, ix, ps, sw) ==> v.pid == p && (Fair(v) || (ps.state == UNSEEN && v.stime == ps.time))
  {
  }

  lemma {:induction false} TabFair(p: int, ix: SoftIndex, ps0: PrevState, swl: seq<Switch>, n: nat)
    requires n <= |swl| && ps0.state == UNSEEN && Sorted(swl) && Keyed(ix)
    ensures FairBut(p, ps0.time, Tab(p, ix, ps0, swl, n, map[]))
  {
    if n > 0 {
      var ps := Ps(p, ps0, swl, n - 1);
      TabFair(p, ix, ps0, swl, n - 1);
      if ps.state == UNSEEN {
        SeenOrNot(p, ix, ps0, swl, n - 1);
      } else {
        var i := LastEvent(p, ps0, swl, n - 1);
      }
      PutsFair(p, ix, ps, swl[n - 1]);
      PutAllFair(p, ps0.time, Tab(p, ix, ps0, swl, n - 1, map[]), Puts(p, ix, ps, swl[n - 1]));
    }
  }

  /** Whatever the softirqs, the finished map is upright. */
  lemma OneUpright(p: int, ix: SoftIndex, swl: seq<Switch>)
    requires swl != [] && Sorted(swl) && Keyed(ix) && (ExitTime(p, swl).Some? ==> Seen(p, swl))
    ensures var m := Broken(p, ix, InitialState(p, swl), swl, map[]);
      m.Some? && Upright(m.value) && forall k :: k in m.value ==> m.value[k].pid == p
  {
    var ps0, n := InitialState(p, swl), |swl|;
    TabFair(p, ix, ps0, swl, n);
    if ExitTime(p, swl).Some? {
      TabSplits(p, ix, ps0, swl, n, map[]);
      StampStored(p, ix, ps0, swl, n);
      CloseAtExit(p, swl, Tab(p, ix, ps0, swl, n, map[]));
    }
  }

  lemma OneForward(p: int, ix: SoftIndex, swl: seq<Switch>)
    requires swl != [] && Sorted(swl) && Clean(p, ix, swl) && (ExitTime(p, swl).Some? ==> Seen(p, swl))
    ensures var m := Broken(p, ix, InitialState(p, swl), swl, map[]); m.Some? && Forward(m.value)
  {
    RealForward(p, ix, swl);
    if ExitTime(p, swl).None? {
      NoExitTable(p, ix, swl);
    } else {
      EarlyIs(p, ix, swl);
      EarlyForward(First(p, ix, InitialState(p, swl), swl, |swl|), InitialState(p, swl).time, FirstSeen(p, swl));
      var z := ExitTable(p, ix, swl);
    }
  }

  lemma RealForward(p: int, ix: SoftIndex, swl: seq<Switch>)
    requires swl != [] && Sorted(swl) && Clean(p, ix, swl)
    ensures Forward(RealTable(p, ix, swl))
  {
    var ps0 := InitialState(p, swl);
    if Seen(p, swl) { RealTiles(p, ix, ps0, swl, |swl|); } else { SeenOrNot(p, ix, ps0, swl, |swl|); }
  }

  lemma EarlyForward(m: Table, x: u64, hi: int)
    requires if x < hi then Tiles(m, x, hi) else m.Keys == {x}
    ensures Forward(m - {x})
  {
  }

  /** Whatever the exit does to the map, waits do not overlap. */
  lemma WaitsApart(p: int, ix: SoftIndex, swl: seq<Switch>)
    requires swl != [] && Sorted(swl) && Clean(p, ix, swl) && (ExitTime(p, swl).Some? ==> Seen(p, swl))
    ensures var m := Broken(p, ix, InitialState(p, swl), swl, map[]); m.Some? && Apart(m.value)
  {
    var m, x := RealTable(p, ix, swl), InitialState(p, swl).time;
    if Seen(p, swl) { RealTiles(p, ix, InitialState(p, swl), swl, |swl|); }
    if ExitTime(p, swl).None? {
      FinishedAlive(p, ix, swl);
      NoExitTable(p, ix, swl);
    } else {
      EarlyIs(p, ix, swl);
      var z := ExitTable(p, ix, swl);
    }
  }

  /** What the shipped second phase needs. */
  lemma GoodAsShipped(pl: seq<int>, ix: SoftIndex, swl: seq<Switch>)
    requires swl != [] && Sorted(swl) && Keyed(ix) && ExitsSeen(pl, swl)
    ensures forall p :: p in pl ==> Broken(p, ix, InitialState(p, swl), swl, map[]).Some?
    ensures Good(AllBroken(pl, ix, swl), false)
  {
    forall p | p in pl
      ensures var m := Broken(p, ix, InitialState(p, swl), swl, map[]);
        m.Some? && Upright(m.value) && forall k :: k in m.value ==> m.value[k].pid == p
    {
      OneUpright(p, ix, swl);
    }
  }

  lemma AllApart(pl: seq<int>, ix: SoftIndex, swl: seq<Switch>)
    requires swl != [] && Sorted(swl) && AllClean(pl, ix, swl) && ExitsSeen(pl, swl)
    ensures forall p :: p in pl ==> Broken(p, ix, InitialState(p, swl), swl, map[]).Some?
    ensures forall p :: p in pl ==> Apart(AllBroken(pl, ix, swl)[p])
  {
    forall p | p in pl
      ensures var m := Broken(p, ix, InitialState(p, swl), swl, map[]); m.Some? && Apart(m.value)
    {
      WaitsApart(p, ix, swl);
    }
  }

  // ---- the finished map of one thread ----

  lemma {:induction false} NoExit(pid: int, swl: seq<Switch>)
    requires forall j :: 0 <= j < |swl| ==> !(swl[j].kind == EXIT && swl[j].prevPid == pid)
    ensures ExitTime(pid, swl).None?
  {
    if swl != [] { NoExit(pid, swl[..|swl| - 1]); }
  }

  lemma {:induction false} LastExit(pid: int, swl: seq<Switch>, x: nat)
    requires x < |swl| && swl[x].kind == EXIT && swl[x].prevPid == pid
    requires forall j :: x < j < |swl| ==> !(swl[j].kind == EXIT && swl[j].prevPid == pid)
    ensures ExitTime(pid, swl) == Some(swl[x].time)
    decreases |swl|
  {
    if x < |swl| - 1 { LastExit(pid, swl[..|swl| - 1], x); }
  }

  lemma {:induction false} ExitAt(pid: int, swl: seq<Switch>) returns (x: nat)
    requires ExitTime(pid, swl).Some?
    ensures x < |swl| && swl[x].kind == EXIT && swl[x].prevPid == pid && swl[x].time == ExitTime(pid, swl).value
  {
    x := |swl| - 1;
    if !(swl[x].kind == EXIT && swl[x].prevPid == pid) { x := ExitAt(pid, swl[..|swl| - 1]); }
  }

  /** Whenever the thread exits it is awake, as far as the trace tells. */
  ghost predicate RunsAtExit(p: int, swl: seq<Switch>)
    requires swl != []
  {
    forall j :: 0 <= j < |swl| && swl[j].kind == EXIT && swl[j].prevPid == p ==> AwakeBy(p, swl, j)
  }

  /** The same, and it was seen at some time. */
  ghost predicate ExitsRunning(p: int, swl: seq<Switch>)
    requires swl != []
  {
    (ExitTime(p, swl).Some? ==> Seen(p, swl)) && RunsAtExit(p, swl)
  }

  lemma TilesIsolated(m: Table, lo: int, hi: int, z: Seg)
    requires Tiles(m, lo, hi) && z.stime == z.etime && (hi <= z.stime || (z.state != BLOCKED && AwakeAt(m, z.stime)))
    ensures Isolated(m[z.stime := z])
  {
  }

  lemma FinishedAlive(p: int, ix: SoftIndex, swl: seq<Switch>)
    requires swl != [] && Sorted(swl) && Clean(p, ix, swl) && ExitTime(p, swl).None?
    ensures var z := Seg(p, BLOCKED, TraceEnd(swl), TraceEnd(swl), -UNKNOWN);
      Isolated(RealTable(p, ix, swl)[z.stime := z])
  {
    var ps0, n, te := InitialState(p, swl), |swl|, TraceEnd(swl);
    SeenOrNot(p, ix, ps0, swl, n);
    if Seen(p, swl) {
      RealTiles(p, ix, ps0, swl, n);
      var i := LastEvent(p, ps0, swl, n);
      TilesIsolated(RealTable(p, ix, swl), FirstSeen(p, swl), LastSeen(p, swl), Seg(p, BLOCKED, te, te, -UNKNOWN));
    }
  }

  /** No blocked segment is stored under the time of an exit of a running thread. */
  lemma NotBlockedAtExit(p: int, ix: SoftIndex, swl: seq<Switch>, x: nat)
    requires swl != [] && StrictlySorted(swl) && Clean(p, ix, swl) && x < |swl| && swl[x].kind == EXIT
    ensures swl[x].time in RealTable(p, ix, swl) ==> RealTable(p, ix, swl)[swl[x].time].state != BLOCKED
  {
    if swl[x].time in RealTable(p, ix, swl) && RealTable(p, ix, swl)[swl[x].time].state == BLOCKED {
      var i, j := WaitStored(p, ix, swl, swl[x].time, 0);
      assert false;
    }
  }

  lemma FinishedExit(p: int, ix: SoftIndex, swl: seq<Switch>, z: Seg)
    requires swl != [] && StrictlySorted(swl) && Clean(p, ix, swl) && ExitsRunning(p, swl) && ExitTime(p, swl).Some?
    requires z.stime == z.etime == ExitTime(p, swl).value
    requires z.stime !in RealTable(p, ix, swl) ==> z.state != BLOCKED
    requires z.stime in RealTable(p, ix, swl) ==> z == RealTable(p, ix, swl)[z.stime].(etime := z.stime)
    ensures z.state != BLOCKED && Isolated(RealTable(p, ix, swl)[z.stime := z])
  {
    var x := ExitAt(p, swl);
    NotBlockedAtExit(p, ix, swl, x);
    AwakeWaitsOver(p, ix, swl, x);
    RealTiles(p, ix, InitialState(p, swl), swl, |swl|);
    if z.stime < FirstSeen(p, swl) {
      TilesIsolated(RealTable(p, ix, swl), FirstSeen(p, swl), LastSeen(p, swl), z);
    } else {
      TilesIsolated(RealTable(p, ix, swl), FirstSeen(p, swl), LastSeen(p, swl), z);
    }
  }

  /** Segments before the first event that are no waits change nothing about waits. */
  lemma EarlyIsolated(p: int, ix: SoftIndex, swl: seq<Switch>, z: Seg)
    requires swl != [] && Sorted(swl) && Clean(p, ix, swl) && Seen(p, swl) && z.stime == InitialState(p, swl).time
    requires Isolated(RealTable(p, ix, swl)[z.stime := z]) && z.state != BLOCKED && z.stime == z.etime
    ensures Isolated((Early(p, ix, swl) + RealTable(p, ix, swl))[z.stime := z])
  {
    EarlyIs(p, ix, swl);
    RealTiles(p, ix, InitialState(p, swl), swl, |swl|);
    var early, rest := Early(p, ix, swl), RealTable(p, ix, swl);
    forall k | k in early ensures z.stime < k && early[k].state != BLOCKED && early[k].etime <= FirstSeen(p, swl) {
      assert early[k] == First(p, ix, InitialState(p, swl), swl, |swl|)[k];
    }
    OverlayIsolated(early, rest, FirstSeen(p, swl), z);
  }

  lemma OverlayIsolated(early: Table, later: Table, t: u64, z: Seg)
    requires forall k :: k in early ==> z.stime < k < t && early[k].state != BLOCKED && early[k].etime <= t
    requires (forall k :: k in later ==> t <= k) && Isolated(later[z.stime := z]) && z.state != BLOCKED && z.stime == z.etime
    ensures Isolated((early + later)[z.stime := z])
  {
    var m, r := later[z.stime := z], (early + later)[z.stime := z];
    forall k, l | k in r && l in r && k < l && (r[k].state == BLOCKED || r[l].state == BLOCKED) ensures r[k].etime <= l {
      if l in m && k in m {
        assert m[k] == r[k] && m[l] == r[l];
      } else if l in m {
        assert l in later;
      }
    }
  }

  /** The last segment stored starts at the exit or the end of the trace, is no known wait, and overlaps no other wait. */
  lemma Finished(p: int, ix: SoftIndex, swl: seq<Switch>) returns (z: Seg)
    requires swl != [] && StrictlySorted(swl) && Clean(p, ix, swl) && ExitsRunning(p, swl)
    ensures var m := Broken(p, ix, InitialState(p, swl), swl, map[]);
      m.Some? && Isolated(m.value)
      && m.value == ((if ExitTime(p, swl).Some? then Early(p, ix, swl) else map[]) + RealTable(p, ix, swl))[z.stime := z]
    ensures z.stime == z.etime == if ExitTime(p, swl).Some? then ExitTime(p, swl).value else TraceEnd(swl)
    ensures if ExitTime(p, swl).Some? then z.state != BLOCKED else z.waitFor == -UNKNOWN
  {
    if ExitTime(p, swl).None? {
      z := Seg(p, BLOCKED, TraceEnd(swl), TraceEnd(swl), -UNKNOWN);
      NoExitTable(p, ix, swl);
      FinishedAlive(p, ix, swl);
      assert map[] + RealTable(p, ix, swl) == RealTable(p, ix, swl);
    } else {
      z := ExitTable(p, ix, swl);
      FinishedExit(p, ix, swl, z);
      EarlyIsolated(p, ix, swl, z);
    }
  }

  /** Nothing the first event leaves is a wait, so the known waits are those stored later. */
  lemma WaitsAreReal(p: int, ix: SoftIndex, swl: seq<Switch>, z: Seg, k: u64)
    requires swl != [] && Clean(p, ix, swl) && (ExitTime(p, swl).Some? ==> Seen(p, swl))
    requires var m := ((if ExitTime(p, swl).Some? then Early(p, ix, swl) else map[]) + RealTable(p, ix, swl))[z.stime := z];
      k in m && m[k].state == BLOCKED && k != z.stime
    ensures k in RealTable(p, ix, swl) && RealTable(p, ix, swl)[k].state == BLOCKED
  {
    if ExitTime(p, swl).Some? { EarlyIs(p, ix, swl); }
  }

  /** Finishing the map changes nothing about being awake. */
  lemma StaysAwake(p: int, ix: SoftIndex, swl: seq<Switch>, j: nat)
    requires swl != [] && StrictlySorted(swl) && Clean(p, ix, swl) && ExitsRunning(p, swl) && j < |swl|
    requires AwakeBy(p, swl, j)
    ensures var m := Broken(p, ix, InitialState(p, swl), swl, map[]);
      m.Some? && AwakeAt(m.value, swl[j].time)
  {
    var z := Finished(p, ix, swl);
    AwakeWaitsOver(p, ix, swl, j);
    var m := Broken(p, ix, InitialState(p, swl), swl, map[]).value;
    forall k | k in m && m[k].state == BLOCKED && k < swl[j].time ensures k < m[k].etime < swl[j].time && m[k].etime in m {
      WaitsAreReal(p, ix, swl, z, k);
      assert m[k] == RealTable(p, ix, swl)[k];
    }
  }

  /** A stored wait for a listed thread ends at a wakeup that thread sent. */
  lemma WaitEndsAwake(pl: seq<int>, ix: SoftIndex, swl: seq<Switch>, p: int, k: u64) returns (j: nat)
    requires swl != [] && StrictlySorted(swl) && Clean(p, ix, swl) && ExitsRunning(p, swl)
    requires Numbered(pl, swl)
    requires Broken(p, ix, InitialState(p, swl), swl, map[]).Some?
    requires var m := Broken(p, ix, InitialState(p, swl), swl, map[]).value;
      k in m && m[k].state == BLOCKED && m[k].waitFor in pl
    ensures var v := Broken(p, ix, InitialState(p, swl), swl, map[]).value[k];
      && j < |swl| && k < v.etime == swl[j].time
      && swl[j].kind == WAKEUP && swl[j].ctx == PROCESS && swl[j].prevPid == v.waitFor
  {
    var z := Finished(p, ix, swl);
    var v := Broken(p, ix, InitialState(p, swl), swl, map[]).value[k];
    assert v.waitFor > 0;
    WaitsAreReal(p, ix, swl, z, k);
    assert v == RealTable(p, ix, swl)[k];
    var i, n := WaitStored(p, ix, swl, k, 0);
    j := n;
  }

  ghost predicate AllExitRunning(pl: seq<int>, swl: seq<Switch>)
    requires swl != []
  {
    forall p :: p in pl ==> ExitsRunning(p, swl)
  }

  /** What the cascade needs, from what the probes guarantee. */
  lemma GoodForCascade(pl: seq<int>, ix: SoftIndex, swl: seq<Switch>)
    requires swl != [] && StrictlySorted(swl) && AllClean(pl, ix, swl) && AllExitRunning(pl, swl)
    requires WakersRun(pl, swl) && Numbered(pl, swl)
    ensures forall p :: p in pl ==> Broken(p, ix, InitialState(p, swl), swl, map[]).Some?
    ensures Good(AllBroken(pl, ix, swl), true)
  {
    if pl != [] { assert Clean(pl[0], ix, swl); }
    forall p | p in pl ensures Broken(p, ix, InitialState(p, swl), swl, map[]).Some? { OneUpright(p, ix, swl); }
    if pl != [] { GoodAsShipped(pl, ix, swl); }
    var sm := AllBroken(pl, ix, swl);
    forall p | p in sm ensures Isolated(sm[p]) { var z := Finished(p, ix, swl); }
    forall p, k | p in sm && k in sm[p] && sm[p][k].state == BLOCKED && sm[p][k].waitFor in sm
      ensures k < sm[p][k].etime && AwakeAt(sm[sm[p][k].waitFor], sm[p][k].etime)
    {
      var j := WaitEndsAwake(pl, ix, swl, p, k);
      StaysAwake(sm[p][k].waitFor, ix, swl, j);
    }
  }

  // ---- when the search stays inside the maps ----

  /** No listed thread is named as a waker after its exit. */
  ghost predicate WakersAlive(pl: seq<int>, swl: seq<Switch>) {
    forall p :: p in pl && ExitTime(p, swl).Some? ==>
      0 < p && forall j :: 0 <= j < |swl| && swl[j].kind == WAKEUP && Waker(swl[j]) == p ==> swl[j].time <= ExitTime(p, swl).value
  }

  /** The stored key at the thread's exit, or at the end of the trace. */
  lemma LastKey(p: int, ix: SoftIndex, swl: seq<Switch>)
    requires swl != [] && Sorted(swl) && Clean(p, ix, swl)
    requires ExitTime(p, swl).Some? ==> Seen(p, swl)
    ensures var m := Broken(p, ix, InitialState(p, swl), swl, map[]);
      m.Some? && (if ExitTime(p, swl).Some? then ExitTime(p, swl).value else TraceEnd(swl)) in m.value
  {
    if ExitTime(p, swl).None? { NoExitTable(p, ix, swl); } else { var z := ExitTable(p, ix, swl); }
  }

  /** A stored wait is one the trace tells of, and is over by the end of the trace; if anybody but the unknown is waited for,
      it is over by a wakeup that one sent (WaitTold). */
  lemma WaitIsOver(p: int, ix: SoftIndex, swl: seq<Switch>, k: u64)
    requires swl != [] && Sorted(swl) && Clean(p, ix, swl)
    requires ExitTime(p, swl).Some? ==> Seen(p, swl)
    requires Broken(p, ix, InitialState(p, swl), swl, map[]).Some?
    requires var m := Broken(p, ix, InitialState(p, swl), swl, map[]).value; k in m && m[k].state == BLOCKED
    ensures var v := Broken(p, ix, InitialState(p, swl), swl, map[]).value[k];
      k <= v.etime <= TraceEnd(swl) && StoredWait(p, swl, k, v.etime, v.waitFor)
  {
    OneUpright(p, ix, swl);
    var v := Broken(p, ix, InitialState(p, swl), swl, map[]).value[k];
    MatchingFinished(p, ix, swl, k, v.etime, v.waitFor);
    WaitTold(p, swl, k, v.etime, v.waitFor);
  }

  lemma WaitTold(p: int, swl: seq<Switch>, s: u64, e: u64, q: int)
    requires swl != [] && Sorted(swl) && StoredWait(p, swl, s, e, q)
    ensures e <= TraceEnd(swl)
    ensures q == -UNKNOWN || exists j :: 0 <= j < |swl| && swl[j].kind == WAKEUP && Waker(swl[j]) == q && e <= swl[j].time
  {
    if !(ExitTime(p, swl).None? && s == TraceEnd(swl)) {
      var i, j :| KeptPair(p, swl, i, j, |swl|) && s == swl[i].time && q == WaitSeg(p, swl, i, j).waitFor
        && e == if ExitTime(p, swl) == Some(swl[i].time) then s else swl[j].time;
      assert Waker(swl[j]) == q && e <= swl[j].time;
    }
  }

  lemma AliveIsClosed(pl: seq<int>, ix: SoftIndex, swl: seq<Switch>)
    requires swl != [] && Sorted(swl) && AllClean(pl, ix, swl) && ExitsSeen(pl, swl) && WakersAlive(pl, swl)
    requires forall p :: p in pl ==> Broken(p, ix, InitialState(p, swl), swl, map[]).Some?
    ensures Closed(AllBroken(pl, ix, swl))
  {
    var sm: SegMap := AllBroken(pl, ix, swl);
    forall p: int, k: u64 | p in sm && k in sm[p] && sm[p][k].state == BLOCKED && sm[p][k].waitFor in sm
      ensures exists x :: x in sm[sm[p][k].waitFor] && sm[p][k].etime <= x <= sm[sm[p][k].waitFor][x].etime
    {
      WaitIsOver(p, ix, swl, k);
      WaitTold(p, swl, k, sm[p][k].etime, sm[p][k].waitFor);
      LastKey(sm[p][k].waitFor, ix, swl);
      OneForward(sm[p][k].waitFor, ix, swl);
    }
  }
}
