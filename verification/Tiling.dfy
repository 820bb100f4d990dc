/** The segments of a thread tile the time between its first and its last event. */
module Tiling {
  import opened Events
  import opened Tables
  import opened SoftIndexes
  import opened Breaking

  /** What the events store once the thread has been seen. */
  ghost function Real(pid: int, ix: SoftIndex, ps0: PrevState, swl: seq<Switch>, n: nat): Table
    requires n <= |swl|
  {
    if n == 0 then map[]
    else if Ps(pid, ps0, swl, n - 1).state == UNSEEN then Real(pid, ix, ps0, swl, n - 1)
    else PutAll(Real(pid, ix, ps0, swl, n - 1), Puts(pid, ix, Ps(pid, ps0, swl, n - 1), swl[n - 1]))
  }

  /** What the thread's first event stores. */
  ghost function First(pid: int, ix: SoftIndex, ps0: PrevState, swl: seq<Switch>, n: nat): Table
    requires n <= |swl|
  {
    if n == 0 then map[]
    else if Ps(pid, ps0, swl, n - 1).state == UNSEEN then
      PutAll(First(pid, ix, ps0, swl, n - 1), Puts(pid, ix, Ps(pid, ps0, swl, n - 1), swl[n - 1]))
    else First(pid, ix, ps0, swl, n - 1)
  }

  lemma {:induction false} PutAllMerges(m: Table, a: Table, segs: seq<Seg>)
    ensures PutAll(m + a, segs) == m + PutAll(a, segs)
    decreases |segs|
  {
    if segs != [] {
      var s := segs[0];
      assert (m + a)[s.stime := s] == m + a[s.stime := s];
      PutAllMerges(m, a[s.stime := s], segs[1..]);
    }
  }

  lemma {:induction false} SeenOrNot(pid: int, ix: SoftIndex, ps0: PrevState, swl: seq<Switch>, n: nat)
    requires n <= |swl| && ps0.state == UNSEEN
    ensures Ps(pid, ps0, swl, n).state in {UNSEEN, RUNNING, RUNNABLE, BLOCKED}
    ensures Ps(pid, ps0, swl, n).state == UNSEEN ==>
      Ps(pid, ps0, swl, n) == ps0 && First(pid, ix, ps0, swl, n) == map[] == Real(pid, ix, ps0, swl, n)
      && forall i :: 0 <= i < n ==> !Out(pid, swl[i]) && !In(pid, swl[i])
  {
    if n > 0 { SeenOrNot(pid, ix, ps0, swl, n - 1); }
  }

  /** The map is whatever was there before, overlaid by the first event's segments, overlaid by all the others. Running
      the same thread a second time therefore changes nothing. */
  lemma {:induction false} TabSplits(pid: int, ix: SoftIndex, ps0: PrevState, swl: seq<Switch>, n: nat, m0: Table)
    requires n <= |swl| && ps0.state == UNSEEN
    ensures Tab(pid, ix, ps0, swl, n, m0) == m0 + First(pid, ix, ps0, swl, n) + Real(pid, ix, ps0, swl, n)
  {
    if n > 0 {
      TabSplits(pid, ix, ps0, swl, n - 1, m0);
      var puts := Puts(pid, ix, Ps(pid, ps0, swl, n - 1), swl[n - 1]);
      var first, later := First(pid, ix, ps0, swl, n - 1), Real(pid, ix, ps0, swl, n - 1);
      PutAllMerges(m0 + first, later, puts);
      if Ps(pid, ps0, swl, n - 1).state == UNSEEN {
        SeenOrNot(pid, ix, ps0, swl, n - 1);
        FirstMerges(m0, first, puts);
      }
    }
  }

  lemma FirstMerges(m0: Table, first: Table, segs: seq<Seg>)
    ensures PutAll(m0 + first + map[], segs) == m0 + PutAll(first, segs) + map[]
  {
    assert m0 + first + map[] == m0 + first && m0 + PutAll(first, segs) + map[] == m0 + PutAll(first, segs);
    PutAllMerges(m0, first, segs);
  }

  /** Some segment of m holds instant t. */
  ghost predicate Holds(m: Table, t: int) {
    exists k :: k in m && k <= t < m[k].etime
  }

  /** Segments cover [lo, hi) without gap or overlap, each under its own start. */
  ghost predicate Tiles(m: Table, lo: int, hi: int) {
    && (forall k :: k in m ==> lo <= k == m[k].stime <= m[k].etime <= hi)
    && (forall k, l :: k in m && l in m && k < l ==> m[k].etime <= l)
    && (forall t :: lo <= t < hi ==> Holds(m, t))
  }

  /** Appending a segment at the right end. A segment it replaces had length zero. */
  lemma TilesGrow(m: Table, lo: int, v: Seg)
    requires Tiles(m, lo, v.stime) && lo <= v.stime <= v.etime
    ensures Tiles(m[v.stime := v], lo, v.etime)
    ensures v.stime in m ==> m[v.stime].stime == m[v.stime].etime
  {
    var r := m[v.stime := v];
    forall t | lo <= t < v.etime ensures Holds(r, t) {
      if t < v.stime {
        assert Holds(m, t);
        var k :| k in m && k <= t < m[k].etime;
        assert k in r && r[k] == m[k];
      } else {
        assert v.stime in r;
      }
    }
  }

  /** The ceiling softirq passes the test of line 280 but does not lie inside [pt, sw.time). */
  ghost predicate Straddles(ix: SoftIndex, pt: u64, sw: Switch) {
    var sf := CeilingSoft(ix, sw.cpu, pt);
    sf.Some? && sf.value.stime < sw.time && sf.value.etime < sw.time && !(pt <= sf.value.stime <= sf.value.etime)
  }

  lemma PutOne(m: Table, v: Seg)
    ensures PutAll(m, [v]) == m[v.stime := v]
  {
    assert [v][1..] == [];
  }

  lemma PutThree(m: Table, a: Seg, b: Seg, c: Seg)
    ensures PutAll(m, [a, b, c]) == m[a.stime := a][b.stime := b][c.stime := c]
  {
    assert [a, b, c][1..] == [b, c] && [b, c][1..] == [c];
    PutOne(m[a.stime := a][b.stime := b], c);
  }

  /** What storing the pieces of a run amounts to. */
  lemma PutRunPieces(m: Table, pid: int, ix: SoftIndex, pt: u64, sw: Switch)
    ensures var sf := CeilingSoft(ix, sw.cpu, pt);
      PutAll(m, RunPieces(pid, ix, pt, sw)) ==
        if sf.Some? && sf.value.stime < sw.time && sf.value.etime < sw.time then
          m[pt := Seg(pid, RUNNING, pt, sf.value.stime, NONE)]
           [sf.value.stime := Seg(pid, RUNNABLE, sf.value.stime, sf.value.etime, NONE)]
           [sf.value.etime := Seg(pid, RUNNING, sf.value.etime, sw.time, NONE)]
        else m[pt := Seg(pid, RUNNING, pt, sw.time, NONE)]
  {
    var ps := RunPieces(pid, ix, pt, sw);
    if |ps| == 3 { PutThree(m, ps[0], ps[1], ps[2]); } else { PutOne(m, ps[0]); }
  }

  lemma CutRun(m: Table, pid: int, ix: SoftIndex, pt: u64, sw: Switch, stime: u64, etime: u64)
    requires var sf := CeilingSoft(ix, sw.cpu, pt); sf.Some? && sf.value.stime == stime && sf.value.etime == etime
    requires stime < sw.time && etime < sw.time
    ensures PutAll(m, RunPieces(pid, ix, pt, sw)) == m[pt := Seg(pid, RUNNING, pt, stime, NONE)]
                                                      [stime := Seg(pid, RUNNABLE, stime, etime, NONE)]
                                                      [etime := Seg(pid, RUNNING, etime, sw.time, NONE)]
  {
    PutRunPieces(m, pid, ix, pt, sw);
  }

  lemma WholeRun(m: Table, pid: int, ix: SoftIndex, pt: u64, sw: Switch)
    requires var sf := CeilingSoft(ix, sw.cpu, pt); !(sf.Some? && sf.value.stime < sw.time && sf.value.etime < sw.time)
    ensures PutAll(m, RunPieces(pid, ix, pt, sw)) == m[pt := Seg(pid, RUNNING, pt, sw.time, NONE)]
  {
    PutRunPieces(m, pid, ix, pt, sw);
  }

  /** The pieces of a run partition it exactly when no softirq straddles its start. */
  lemma PiecesPartition(pid: int, ix: SoftIndex, pt: u64, sw: Switch)
    requires Keyed(ix) && pt <= sw.time
    ensures Tiles(PutAll(map[], RunPieces(pid, ix, pt, sw)), pt, sw.time) <==> !Straddles(ix, pt, sw)
  {
    var sf := CeilingSoft(ix, sw.cpu, pt);
    var ps := RunPieces(pid, ix, pt, sw);
    if |ps| == 3 {
      PutThree(map[], ps[0], ps[1], ps[2]);
      var b, e := sf.value.stime, sf.value.etime;
      var m: Table := map[];
      m := m[pt := ps[0]];
      if Straddles(ix, pt, sw) {
        assert b in PutAll(map[], ps);
      } else {
        TilesGrow(map[], pt, ps[0]);
        TilesGrow(m, pt, ps[1]);
        TilesGrow(m[b := ps[1]], pt, ps[2]);
      }
    } else {
      PutOne(map[], ps[0]);
      TilesGrow(map[], pt, ps[0]);
    }
  }

  /** The same on top of tiles that end where the run starts. */
  lemma PiecesExtend(m: Table, lo: int, pid: int, ix: SoftIndex, pt: u64, sw: Switch)
    requires Tiles(m, lo, pt) && lo <= pt <= sw.time && !Straddles(ix, pt, sw)
    ensures Tiles(PutAll(m, RunPieces(pid, ix, pt, sw)), lo, sw.time)
  {
    var sf := CeilingSoft(ix, sw.cpu, pt);
    var ps := RunPieces(pid, ix, pt, sw);
    if |ps| == 3 {
      PutThree(m, ps[0], ps[1], ps[2]);
      TilesGrow(m, lo, ps[0]);
      TilesGrow(m[pt := ps[0]], lo, ps[1]);
      TilesGrow(m[pt := ps[0]][sf.value.stime := ps[1]], lo, ps[2]);
    } else {
      PutOne(m, ps[0]);
      TilesGrow(m, lo, ps[0]);
    }
  }

  /** No softirq of the CPU a thread leaves straddles the start of the run that ends there. For the first event that start
      is the recorded time stamp; one that is not earlier than the event cannot be straddled. */
  ghost predicate NoStraddle(pid: int, ix: SoftIndex, ps0: PrevState, swl: seq<Switch>) {
    forall i :: 0 <= i < |swl| ==> CleanAt(pid, ix, ps0, swl, i)
  }

  ghost predicate CleanAt(pid: int, ix: SoftIndex, ps0: PrevState, swl: seq<Switch>, i: nat)
    requires i < |swl|
  {
    Out(pid, swl[i]) ==> !Straddles(ix, Ps(pid, ps0, swl, i).time, swl[i])
  }

  /** Time of the thread's first event among the first n. */
  ghost function FirstTime(pid: int, ps0: PrevState, swl: seq<Switch>, n: nat): u64
    requires n <= |swl| && Ps(pid, ps0, swl, n).state != UNSEEN && ps0.state == UNSEEN
  {
    if Ps(pid, ps0, swl, n - 1).state == UNSEEN then swl[n - 1].time else FirstTime(pid, ps0, swl, n - 1)
  }

  /** Where the last known state dates from. */
  lemma {:induction false} LastEvent(pid: int, ps0: PrevState, swl: seq<Switch>, n: nat) returns (i: nat)
    requires n <= |swl| && ps0.state == UNSEEN && Ps(pid, ps0, swl, n).state != UNSEEN
    ensures i < n && Effective(pid, Ps(pid, ps0, swl, i).state, swl[i])
    ensures Ps(pid, ps0, swl, n) == Ps(pid, ps0, swl, i + 1) && Ps(pid, ps0, swl, n).time == swl[i].time
    ensures forall j :: i < j < n ==> !Effective(pid, Ps(pid, ps0, swl, n).state, swl[j])
    ensures forall j :: i < j <= n ==> Ps(pid, ps0, swl, j) == Ps(pid, ps0, swl, n)
  {
    if Effective(pid, Ps(pid, ps0, swl, n - 1).state, swl[n - 1]) {
      i := n - 1;
    } else {
      i := LastEvent(pid, ps0, swl, n - 1);
    }
  }

  lemma TilesStep(m: Table, lo: int, pid: int, ix: SoftIndex, ps: PrevState, sw: Switch)
    requires Tiles(m, lo, ps.time) && lo <= ps.time <= sw.time && (Out(pid, sw) ==> !Straddles(ix, ps.time, sw))
    ensures lo <= NextPs(pid, ps, sw).time && Tiles(PutAll(m, Puts(pid, ix, ps, sw)), lo, NextPs(pid, ps, sw).time)
  {
    if Out(pid, sw) {
      PiecesExtend(m, lo, pid, ix, ps.time, sw);
    } else if Effective(pid, ps.state, sw) {
      PutOne(m, Puts(pid, ix, ps, sw)[0]);
      TilesGrow(m, lo, Puts(pid, ix, ps, sw)[0]);
    }
  }

  /** Loop invariant of BreakIntoSegments: the stored segments tile the time from the first event to ps.Timestamp. */
  lemma {:induction false} RealTiles(pid: int, ix: SoftIndex, ps0: PrevState, swl: seq<Switch>, n: nat)
    requires n <= |swl| && ps0.state == UNSEEN && Sorted(swl) && NoStraddle(pid, ix, ps0, swl)
    requires Ps(pid, ps0, swl, n).state != UNSEEN
    ensures FirstTime(pid, ps0, swl, n) <= Ps(pid, ps0, swl, n).time
    ensures Tiles(Real(pid, ix, ps0, swl, n), FirstTime(pid, ps0, swl, n), Ps(pid, ps0, swl, n).time)
  {
    var ps, sw := Ps(pid, ps0, swl, n - 1), swl[n - 1];
    if ps.state == UNSEEN {
      SeenOrNot(pid, ix, ps0, swl, n - 1);
    } else {
      RealTiles(pid, ix, ps0, swl, n - 1);
      var i := LastEvent(pid, ps0, swl, n - 1);
      assert CleanAt(pid, ix, ps0, swl, n - 1);
      TilesStep(Real(pid, ix, ps0, swl, n - 1), FirstTime(pid, ps0, swl, n - 1), pid, ix, ps, sw);
    }
  }

  // ---- what storing keeps ----

  /** Only a wakeup stores a blocked segment, and events store at or after the last event. */
  lemma {:induction false} PutAllFrom(m: Table, segs: seq<Seg>, lo: int)
    requires forall v :: v in segs ==> lo <= v.stime && v.state != BLOCKED
    ensures forall k :: k in m ==> k in PutAll(m, segs)
    ensures forall k :: k in PutAll(m, segs) ==>
      (k in m && PutAll(m, segs)[k] == m[k]) || (lo <= k && PutAll(m, segs)[k].state != BLOCKED)
    ensures forall k :: k in m && k < lo ==> PutAll(m, segs)[k] == m[k]
    decreases |segs|
  {
    if segs != [] { PutAllFrom(m[segs[0].stime := segs[0]], segs[1..], lo); }
  }

  lemma PutsStart(pid: int, ix: SoftIndex, ps: PrevState, sw: Switch)
    requires Out(pid, sw) ==> !Straddles(ix, ps.time, sw)
    ensures forall v :: v in Puts(pid, ix, ps, sw) ==> ps.time <= v.stime
    ensures (Out(pid, sw) || In(pid, sw)) ==> forall v :: v in Puts(pid, ix, ps, sw) ==> v.state != BLOCKED
  {
  }

  /** A stored segment starts at the last known time, or with or after the softirq cut out. */
  lemma PutsBegin(pid: int, ix: SoftIndex, ps: PrevState, sw: Switch, v: Seg)
    requires v in Puts(pid, ix, ps, sw)
    ensures v.stime == ps.time || (CeilingSoft(ix, sw.cpu, ps.time).Some?
              && (var s := CeilingSoft(ix, sw.cpu, ps.time).value; v.stime == s.stime || v.stime == s.etime))
  {
  }

  /** It ends no later than the event that stores it. */
  lemma PutsEnd(pid: int, ix: SoftIndex, ps: PrevState, sw: Switch, v: Seg)
    requires v in Puts(pid, ix, ps, sw)
    ensures NextPs(pid, ps, sw).state != UNSEEN && v.etime <= NextPs(pid, ps, sw).time
  {
  }

  /** The last known time never goes back. */
  lemma StampGrows(pid: int, ps0: PrevState, swl: seq<Switch>, n: nat)
    requires 0 < n <= |swl| && ps0.state == UNSEEN && Sorted(swl) && Ps(pid, ps0, swl, n - 1).state != UNSEEN
    ensures Ps(pid, ps0, swl, n).state != UNSEEN && Ps(pid, ps0, swl, n - 1).time <= Ps(pid, ps0, swl, n).time
  {
    var i := LastEvent(pid, ps0, swl, n - 1);
  }

  lemma EarlierStays(pid: int, ix: SoftIndex, ps: PrevState, sw: Switch, m: Table, k: u64)
    requires (Out(pid, sw) ==> !Straddles(ix, ps.time, sw)) && k in m && (Effective(pid, ps.state, sw) ==> k < ps.time)
    ensures k in PutAll(m, Puts(pid, ix, ps, sw)) && PutAll(m, Puts(pid, ix, ps, sw))[k] == m[k]
  {
    if Out(pid, sw) || In(pid, sw) {
      PutsStart(pid, ix, ps, sw);
      PutAllFrom(m, Puts(pid, ix, ps, sw), ps.time);
    } else if Effective(pid, ps.state, sw) {
      PutOne(m, Puts(pid, ix, ps, sw)[0]);
    }
  }

  lemma {:induction false} PutAllOrigin(m: Table, segs: seq<Seg>, k: u64)
    requires k in PutAll(m, segs)
    ensures PutAll(m, segs)[k] in segs || (k in m && PutAll(m, segs)[k] == m[k])
    decreases |segs|
  {
    if segs != [] { PutAllOrigin(m[segs[0].stime := segs[0]], segs[1..], k); }
  }

  /** Event n, which is not the thread's first, stores segment v. */
  ghost predicate Stores(pid: int, ix: SoftIndex, ps0: PrevState, swl: seq<Switch>, n: nat, v: Seg)
    requires n < |swl|
  {
    Ps(pid, ps0, swl, n).state != UNSEEN && v in Puts(pid, ix, Ps(pid, ps0, swl, n), swl[n])
  }

  /** Every segment of the map is one that some event stores. */
  lemma {:induction false} RealIsStored(pid: int, ix: SoftIndex, ps0: PrevState, swl: seq<Switch>, n: nat, k: u64) returns (i: nat)
    requires n <= |swl| && k in Real(pid, ix, ps0, swl, n)
    ensures i < n && Stores(pid, ix, ps0, swl, i, Real(pid, ix, ps0, swl, n)[k])
  {
    var before := Real(pid, ix, ps0, swl, n - 1);
    if Ps(pid, ps0, swl, n - 1).state != UNSEEN {
      PutAllOrigin(before, Puts(pid, ix, Ps(pid, ps0, swl, n - 1), swl[n - 1]), k);
    }
    if k in before && before[k] == Real(pid, ix, ps0, swl, n)[k] {
      i := RealIsStored(pid, ix, ps0, swl, n - 1, k);
    } else {
      i := n - 1;
    }
  }

  /** A segment of positive length stays when it is stored with the others of its event. */
  lemma PieceStays(pid: int, ix: SoftIndex, ps: PrevState, sw: Switch, m: Table, v: Seg)
    requires v in Puts(pid, ix, ps, sw) && v.stime < v.etime && (Out(pid, sw) ==> !Straddles(ix, ps.time, sw))
    ensures var r := PutAll(m, Puts(pid, ix, ps, sw)); v.stime in r && r[v.stime] == v
  {
    if Out(pid, sw) { PutRunPieces(m, pid, ix, ps.time, sw); } else { PutOne(m, Puts(pid, ix, ps, sw)[0]); }
  }

  lemma JustStored(pid: int, ix: SoftIndex, ps0: PrevState, swl: seq<Switch>, i: nat, v: Seg)
    requires i < |swl| && NoStraddle(pid, ix, ps0, swl) && Stores(pid, ix, ps0, swl, i, v) && v.stime < v.etime
    ensures v.stime in Real(pid, ix, ps0, swl, i + 1) && Real(pid, ix, ps0, swl, i + 1)[v.stime] == v
    ensures Ps(pid, ps0, swl, i + 1).state != UNSEEN && v.etime <= Ps(pid, ps0, swl, i + 1).time
  {
    assert CleanAt(pid, ix, ps0, swl, i);
    PieceStays(pid, ix, Ps(pid, ps0, swl, i), swl[i], Real(pid, ix, ps0, swl, i), v);
    PutsEnd(pid, ix, Ps(pid, ps0, swl, i), swl[i], v);
  }

  lemma StaysOn(pid: int, ix: SoftIndex, ps0: PrevState, swl: seq<Switch>, n: nat, v: Seg)
    requires 0 < n <= |swl| && NoStraddle(pid, ix, ps0, swl) && Ps(pid, ps0, swl, n - 1).state != UNSEEN
    requires v.stime in Real(pid, ix, ps0, swl, n - 1) && Real(pid, ix, ps0, swl, n - 1)[v.stime] == v
    requires v.stime < Ps(pid, ps0, swl, n - 1).time
    ensures v.stime in Real(pid, ix, ps0, swl, n) && Real(pid, ix, ps0, swl, n)[v.stime] == v
  {
    assert CleanAt(pid, ix, ps0, swl, n - 1);
    EarlierStays(pid, ix, Ps(pid, ps0, swl, n - 1), swl[n - 1], Real(pid, ix, ps0, swl, n - 1), v.stime);
  }

  /** A segment of positive length that an event stores stays in the map. */
  lemma {:induction false} StoredStays(pid: int, ix: SoftIndex, ps0: PrevState, swl: seq<Switch>, i: nat, n: nat, v: Seg)
    requires i < n <= |swl| && ps0.state == UNSEEN && Sorted(swl) && NoStraddle(pid, ix, ps0, swl)
    requires Stores(pid, ix, ps0, swl, i, v) && v.stime < v.etime
    ensures v.stime in Real(pid, ix, ps0, swl, n) && Real(pid, ix, ps0, swl, n)[v.stime] == v
    ensures Ps(pid, ps0, swl, n).state != UNSEEN && v.etime <= Ps(pid, ps0, swl, n).time
    decreases n
  {
    if i == n - 1 {
      JustStored(pid, ix, ps0, swl, i, v);
    } else {
      StoredStays(pid, ix, ps0, swl, i, n - 1, v);
      StampGrows(pid, ps0, swl, n);
      StaysOn(pid, ix, ps0, swl, n, v);
    }
  }
}
