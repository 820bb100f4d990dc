/** The labels of the segments are the states of a replay of the thread's events. */
module Labels {
  import opened Events
  import opened TreeMaps
  import opened Tables
  import opened SoftIndexes
  import opened Breaking
  import opened Tiling
  import opened Partition
  import opened TraceFacts

  /** A thread is switched out while running, switched in while runnable. */
  ghost predicate Accepts(pid: int, ps0: PrevState, swl: seq<Switch>) {
    forall n :: 0 <= n < |swl| ==> AcceptsAt(pid, ps0, swl, n)
  }

  ghost predicate AcceptsAt(pid: int, ps0: PrevState, swl: seq<Switch>, n: nat)
    requires n < |swl|
  {
    && (Out(pid, swl[n]) ==> Ps(pid, ps0, swl, n).state in {UNSEEN, RUNNING})
    && (In(pid, swl[n]) ==> Ps(pid, ps0, swl, n).state in {UNSEEN, RUNNABLE})
  }

  /** The number of events up to and including instant t. */
  ghost function CountUpTo(swl: seq<Switch>, t: int): (n: nat)
    ensures n <= |swl|
  {
    if swl == [] then 0
    else if swl[|swl| - 1].time <= t then |swl|
    else CountUpTo(swl[..|swl| - 1], t)
  }

  lemma {:induction false} CountIs(swl: seq<Switch>, n: nat, t: int)
    requires Sorted(swl) && n <= |swl| && (n > 0 ==> swl[n - 1].time <= t) && (n < |swl| ==> t < swl[n].time)
    ensures CountUpTo(swl, t) == n
    decreases |swl|
  {
    if n < |swl| {
      assert swl[n].time <= swl[|swl| - 1].time;
      CountIs(swl[..|swl| - 1], n, t);
    }
  }

  /** Event n ends the run of the thread that holds t, and t lies in the softirq of its CPU that is cut out of that run. */
  ghost predicate CutAt(pid: int, ix: SoftIndex, ps0: PrevState, swl: seq<Switch>, n: nat, t: int)
    requires n < |swl|
  {
    var ps, sf := Ps(pid, ps0, swl, n), CeilingSoft(ix, swl[n].cpu, Ps(pid, ps0, swl, n).time);
    && Out(pid, swl[n]) && ps.state != UNSEEN && ps.time <= t < swl[n].time
    && sf.Some? && sf.value.stime < swl[n].time && sf.value.etime < swl[n].time && sf.value.stime <= t < sf.value.etime
  }

  ghost predicate CutOut(pid: int, ix: SoftIndex, swl: seq<Switch>, t: int)
    requires swl != []
  {
    exists n :: 0 <= n < |swl| && CutAt(pid, ix, InitialState(pid, swl), swl, n, t)
  }

  /** What the label at t should be: RUNNABLE in the softirq cut out of the run that holds t, otherwise the state in which a
      replay of the thread's events up to t ends. */
  ghost function LabelAt(pid: int, ix: SoftIndex, swl: seq<Switch>, t: int): int
    requires swl != []
  {
    if CutOut(pid, ix, swl, t) then RUNNABLE else Ps(pid, InitialState(pid, swl), swl, CountUpTo(swl, t)).state
  }

  /** The state in force at an instant between the last event and event n. */
  lemma StateSince(pid: int, ps0: PrevState, swl: seq<Switch>, n: nat, t: int)
    requires n < |swl| && ps0.state == UNSEEN && Sorted(swl) && Ps(pid, ps0, swl, n).state != UNSEEN
    requires Ps(pid, ps0, swl, n).time <= t < swl[n].time
    ensures Ps(pid, ps0, swl, CountUpTo(swl, t)) == Ps(pid, ps0, swl, n)
  {
    var i := LastEvent(pid, ps0, swl, n);
    var m := i + 1;
    while m < n && swl[m].time <= t
      invariant i < m <= n && swl[m - 1].time <= t
    {
      m := m + 1;
    }
    CountIs(swl, m, t);
  }

  /** Only the next event that concerns the thread can end the run that holds t. */
  lemma CutHere(pid: int, ix: SoftIndex, swl: seq<Switch>, n: nat, t: int)
    requires swl != [] && n < |swl| && Sorted(swl) && Ps(pid, InitialState(pid, swl), swl, n).state != UNSEEN
    requires Effective(pid, Ps(pid, InitialState(pid, swl), swl, n).state, swl[n])
    requires Ps(pid, InitialState(pid, swl), swl, n).time <= t < swl[n].time
    ensures CutOut(pid, ix, swl, t) <==> CutAt(pid, ix, InitialState(pid, swl), swl, n, t)
  {
    var ps0 := InitialState(pid, swl);
    forall o | 0 <= o < |swl| && CutAt(pid, ix, ps0, swl, o, t) ensures o == n {
      if o < n {
        EventIsOver(pid, ps0, swl, o, n);
      } else if n < o {
        EventIsOver(pid, ps0, swl, n, o);
      }
    }
  }

  /** What is known of the thread dates from no earlier than any of its events so far. */
  lemma {:induction false} EventIsOver(pid: int, ps0: PrevState, swl: seq<Switch>, a: nat, b: nat)
    requires a < b <= |swl| && ps0.state == UNSEEN && Sorted(swl) && Ps(pid, ps0, swl, a).state != UNSEEN
    requires Effective(pid, Ps(pid, ps0, swl, a).state, swl[a])
    ensures swl[a].time <= Ps(pid, ps0, swl, b).time
  {
    var ps := NextPs(pid, Ps(pid, ps0, swl, a), swl[a]);
    assert ps == Ps(pid, ps0, swl, a + 1) && ps.time == swl[a].time;
    PsMonotone(pid, ps0, swl, a + 1, b);
  }

  /** Each segment an accepted event stores carries the label its instants should have. */
  lemma PutsFit(pid: int, ix: SoftIndex, swl: seq<Switch>, n: nat, v: Seg, t: int)
    requires swl != [] && n < |swl| && Sorted(swl) && Ps(pid, InitialState(pid, swl), swl, n).state != UNSEEN
    requires Clean(pid, ix, swl) && Accepts(pid, InitialState(pid, swl), swl)
    requires v in Puts(pid, ix, Ps(pid, InitialState(pid, swl), swl, n), swl[n]) && v.stime <= t < v.etime
    ensures v.state == LabelAt(pid, ix, swl, t)
  {
    assert CleanAt(pid, ix, InitialState(pid, swl), swl, n) && AcceptsAt(pid, InitialState(pid, swl), swl, n);
    PutsStart(pid, ix, Ps(pid, InitialState(pid, swl), swl, n), swl[n]);
    PutsEnd(pid, ix, Ps(pid, InitialState(pid, swl), swl, n), swl[n], v);
    StateSince(pid, InitialState(pid, swl), swl, n, t);
    CutHere(pid, ix, swl, n, t);
  }

  lemma {:induction false} RealLabels(pid: int, ix: SoftIndex, swl: seq<Switch>, n: nat, k: u64, t: int)
    requires swl != [] && n <= |swl| && Sorted(swl)
    requires Clean(pid, ix, swl) && Accepts(pid, InitialState(pid, swl), swl)
    requires var m := Real(pid, ix, InitialState(pid, swl), swl, n); k in m && k <= t < m[k].etime
    ensures Real(pid, ix, InitialState(pid, swl), swl, n)[k].state == LabelAt(pid, ix, swl, t)
  {
    var ps0 := InitialState(pid, swl);
    var ps, before := Ps(pid, ps0, swl, n - 1), Real(pid, ix, ps0, swl, n - 1);
    if ps.state == UNSEEN {
      RealLabels(pid, ix, swl, n - 1, k, t);
    } else {
      var puts := Puts(pid, ix, ps, swl[n - 1]);
      PutAllOrigin(before, puts, k);
      RealKeyed(pid, ix, ps0, swl, n);
      var v := Real(pid, ix, ps0, swl, n)[k];
      if v in puts {
        PutsFit(pid, ix, swl, n - 1, v, t);
      } else {
        RealLabels(pid, ix, swl, n - 1, k, t);
      }
    }
  }

  /** In tiles with one segment of length zero put in or cut, and others before them, Floor(t) is the tile that holds t, or
      the one of length zero if that lies between the start of the tile and t. */
  lemma FloorInTiles(early: Table, m: Table, lo: int, hi: int, z: Seg, t: u64, k: u64)
    requires Tiles(m, lo, hi) && lo <= t < hi && k in m && k <= t < m[k].etime && forall x :: x in early ==> x < lo
    ensures FloorOf((early + m)[z.stime := z].Keys, t) == Some(if k < z.stime <= t then z.stime else k)
  {
    var r := (early + m)[z.stime := z];
    var f := if k < z.stime <= t then z.stime else k;
    assert IsFloor(r.Keys, t, f);
  }

  /** No event stores a segment that starts between the exit and t: t lies in the one the exit cuts, or behind it. */
  ghost predicate InCutSegment(pid: int, ix: SoftIndex, swl: seq<Switch>, t: int)
    requires swl != []
  {
    ExitTime(pid, swl).Some? && ExitTime(pid, swl).value <= t
    && forall n, v :: 0 <= n < |swl| && Stores(pid, ix, InitialState(pid, swl), swl, n, v) && v.stime < v.etime && v.stime <= t ==>
         v.stime < ExitTime(pid, swl).value
  }

  lemma InCutIff(pid: int, ix: SoftIndex, swl: seq<Switch>, t: u64, k: u64)
    requires swl != [] && Sorted(swl) && Clean(pid, ix, swl) && Seen(pid, swl) && ExitTime(pid, swl).Some?
    requires k in RealTable(pid, ix, swl) && k <= t < RealTable(pid, ix, swl)[k].etime
    ensures InCutSegment(pid, ix, swl, t) <==> k < ExitTime(pid, swl).value <= t
  {
    var ps0 := InitialState(pid, swl);
    RealTiles(pid, ix, ps0, swl, |swl|);
    var i := RealIsStored(pid, ix, ps0, swl, |swl|, k);
    forall n, v | 0 <= n < |swl| && Stores(pid, ix, ps0, swl, n, v) && v.stime < v.etime && v.stime <= t ensures v.stime <= k {
      StoredStays(pid, ix, ps0, swl, n, |swl|, v);
    }
  }

  lemma {:induction false} FloorAlive(pid: int, ix: SoftIndex, swl: seq<Switch>, t: u64, k: u64)
    requires swl != [] && Sorted(swl) && Clean(pid, ix, swl) && Seen(pid, swl) && ExitTime(pid, swl).None?
    requires k in RealTable(pid, ix, swl) && k <= t < RealTable(pid, ix, swl)[k].etime
    requires FirstSeen(pid, swl) <= t < LastSeen(pid, swl)
    ensures var r := Broken(pid, ix, InitialState(pid, swl), swl, map[]);
      r.Some? && FloorOf(r.value.Keys, t) == Some(k) && k in r.value && r.value[k] == RealTable(pid, ix, swl)[k]
  {
    var ps0, m, te := InitialState(pid, swl), RealTable(pid, ix, swl), TraceEnd(swl);
    NoExitTable(pid, ix, swl);
    RealTiles(pid, ix, ps0, swl, |swl|);
    var i := LastEvent(pid, ps0, swl, |swl|);
    assert map[] + m == m;
    FloorInTiles(map[], m, FirstSeen(pid, swl), LastSeen(pid, swl), Seg(pid, BLOCKED, te, te, -UNKNOWN), t, k);
  }

  lemma FloorExited(pid: int, ix: SoftIndex, swl: seq<Switch>, t: u64, k: u64)
    requires swl != [] && Sorted(swl) && Clean(pid, ix, swl) && Seen(pid, swl) && ExitTime(pid, swl).Some?
    requires k in RealTable(pid, ix, swl) && k <= t < RealTable(pid, ix, swl)[k].etime
    requires FirstSeen(pid, swl) <= t < LastSeen(pid, swl)
    ensures var r := Broken(pid, ix, InitialState(pid, swl), swl, map[]); var x := ExitTime(pid, swl).value;
      r.Some? && x in r.value && k in r.value
      && FloorOf(r.value.Keys, t) == Some(if k < x <= t then x else k) && r.value[k].state == RealTable(pid, ix, swl)[k].state
  {
    RealTiles(pid, ix, InitialState(pid, swl), swl, |swl|);
    EarlyIs(pid, ix, swl);
    var z := ExitTable(pid, ix, swl);
    FloorInTiles(Early(pid, ix, swl), RealTable(pid, ix, swl), FirstSeen(pid, swl), LastSeen(pid, swl), z, t, k);
  }

  /** Between the first and the last event of a thread, whether it exits or not, the segment found by Floor(t) carries the
      label it should, except inside a segment the exit falls into, where Floor finds the end of the thread instead. */
  lemma LabelsRefineReplay(pid: int, ix: SoftIndex, swl: seq<Switch>, t: u64)
    requires swl != [] && Sorted(swl) && Clean(pid, ix, swl) && Seen(pid, swl)
    requires Accepts(pid, InitialState(pid, swl), swl) && FirstSeen(pid, swl) <= t < LastSeen(pid, swl)
    ensures var r := Broken(pid, ix, InitialState(pid, swl), swl, map[]);
      r.Some? && var f := FloorOf(r.value.Keys, t);
      f.Some? && f.value in r.value
      && if InCutSegment(pid, ix, swl, t) then f == ExitTime(pid, swl)
         else r.value[f.value].state == LabelAt(pid, ix, swl, t)
  {
    RealTiles(pid, ix, InitialState(pid, swl), swl, |swl|);
    assert Holds(RealTable(pid, ix, swl), t);
    var k :| k in RealTable(pid, ix, swl) && k <= t < RealTable(pid, ix, swl)[k].etime;
    RealLabels(pid, ix, swl, |swl|, k, t);
    if ExitTime(pid, swl).None? {
      FloorAlive(pid, ix, swl, t, k);
    } else {
      FloorExited(pid, ix, swl, t, k);
      InCutIff(pid, ix, swl, t, k);
    }
  }
}
