/** The analyzer program: its package-level state and the two phases over it. */
module Analyzers {
  import opened Events
  import opened TreeMaps
  import opened Tables
  import opened Cascades
  import opened Redistribution
  import opened WaitForGraphs
  import opened SoftIndexes
  import opened SoftMaps
  import opened SegmentStore
  import opened Breaking
  import opened Tiling
  import opened TraceFacts
  import opened Program

  // ---- values the initialisation loops compute ----

  /** Exit times as recorded: the last event of a thread wins. */
  ghost predicate ExitList(exits: map<int, u64>, swl: seq<Switch>) {
    forall p :: (p in exits <==> ExitTime(p, swl).Some?) && (p in exits ==> ExitTime(p, swl) == Some(exits[p]))
  }

  lemma NextClip(found: seq<Seg>, s: u64, e: u64, i: nat)
    requires i < |found|
    ensures var rest := ClipAll(found, s, e)[i..];
      rest[0] == Clip(found[i], s, e) && rest[1..] == ClipAll(found, s, e)[i + 1..]
  {
  }

  class Analyzer {
    /** Whether findAllWaitingSegments hands on what it collected. Line 393 returns nil, so as shipped: no. */
    const cascades: bool
    const soft: SoftMap
    const graph: GraphStore

    var createTimeList: map<int, u64>
    var exitTimeList: map<int, u64>
    var prevStateMap: map<int, PrevState>
    var segMap: map<int, Segments>
    var commMap: Comms

    /** The objects the maps of the threads consist of, and which thread each belongs to. */
    ghost var owner: map<object, int>

    /** Thread p keeps its segments in objects of its own. */
    ghost predicate Kept(p: int)
      reads `segMap, `owner, owner.Keys
    {
      && p in segMap && segMap[p].tm in owner && owner[segMap[p].tm] == p
      && (forall s {:trigger s in segMap[p].tm.vals.Values} :: s in segMap[p].tm.vals.Values ==> s in owner && owner[s] == p)
      && segMap[p].Valid()
    }

    lemma OwnObjects(p: int)
      requires Kept(p) && this !in owner && graph !in owner
      ensures this !in segMap[p].Repr() && graph !in segMap[p].Repr()
      ensures forall o {:trigger o in segMap[p].Repr()} :: o in segMap[p].Repr() ==> o in owner && owner[o] == p
    {
    }

    lemma Apart(p: int, q: int)
      requires Kept(p) && Kept(q) && p != q
      ensures segMap[p].Repr() !! segMap[q].Repr()
    {
    }

    /** The maps of all threads hold the segments sm. */
    ghost predicate Shows(sm: SegMap)
      reads `segMap, `owner, owner.Keys
    {
      && this !in owner && graph !in owner && segMap.Keys == sm.Keys
      && (forall p :: p in sm ==> Kept(p))
      && (forall p :: p in sm ==> segMap[p].View() == sm[p])
    }

    /** The softirq index holds ix, in objects that belong to no thread. */
    ghost predicate SoftReady(ix: SoftIndex)
      reads soft, soft.trees.Values, `owner
    {
      soft.Valid() && soft.View() == ix && forall t :: t in soft.trees.Values ==> t as object !in owner
    }

    constructor (cascades: bool)
      ensures this.cascades == cascades && segMap == map[] && exitTimeList == map[] && owner == map[]
      ensures createTimeList == map[] && prevStateMap == map[] && commMap == map[]
      ensures fresh(graph) && graph.weights == map[] && fresh(soft) && soft.Valid() && soft.trees == map[]
    {
      this.cascades := cascades;
      soft := new SoftMap();
      createTimeList, exitTimeList, prevStateMap := map[], map[], map[];
      segMap, commMap, owner := map[], map[], map[];
      graph := new GraphStore();
    }

    function GetPrevState(pid: int): PrevState
      reads `prevStateMap
    {
      if pid in prevStateMap then prevStateMap[pid] else PrevState(0, 0)
    }

    method InitSegMap(pl: seq<int>)
      requires segMap == map[] && owner == map[]
      modifies `segMap, `owner
      ensures Shows(map p | p in pl :: map[]) && fresh(owner.Keys)
    {
      for i := 0 to |pl|
        invariant segMap.Keys == set j | 0 <= j < i :: pl[j]
        invariant fresh(owner.Keys)
        invariant forall p :: p in segMap ==> segMap[p].tm in owner && owner[segMap[p].tm] == p
        invariant forall p :: p in segMap ==> segMap[p].tm.Valid() && segMap[p].tm.vals == map[]
      {
        var s := new Segments();
        segMap := segMap[pl[i] := s];
        owner := owner[s.tm := pl[i]];
      }
    }

    method InitCommMap(swl: seq<Switch>)
      requires commMap == map[]
      modifies `commMap
      ensures commMap == CommsOf(swl)
    {
      for i := 0 to |swl|
        invariant commMap == CommsOf(swl[..i])
      {
        var v := swl[i];
        assert swl[..i + 1][..i] == swl[..i];
        if v.prevPid !in commMap {
          commMap := commMap[v.prevPid := v.prevComm];
        }
        if v.nextPid !in commMap {
          commMap := commMap[v.nextPid := v.nextComm];
        }
      }
      assert swl[..|swl|] == swl;
    }

    /** The start time computed first is always overwritten. An empty trace is an index out of range (not ok). */
    method InitPrevStates(pl: seq<int>, swl: seq<Switch>) returns (ok: bool)
      requires exitTimeList == map[] && prevStateMap == map[]
      modifies `createTimeList, `exitTimeList, `prevStateMap
      ensures ok <==> swl != []
      ensures ok ==> ExitList(exitTimeList, swl)
      ensures ok ==> forall p :: p in pl ==> GetPrevState(p) == InitialState(p, swl)
    {
      if |swl| == 0 {
        return false;
      }
      var traceSTime, traceETime := swl[0].time, swl[|swl| - 1].time;
      for i := 0 to |swl|
        invariant ExitList(exitTimeList, swl[..i])
      {
        var v := swl[i];
        assert swl[..i + 1][..i] == swl[..i];
        if v.kind == CREATE {
          createTimeList := createTimeList[v.nextPid := v.time];
        } else if v.kind == EXIT {
          exitTimeList := exitTimeList[v.prevPid := v.time];
        }
      }
      assert swl[..|swl|] == swl;
      for i := 0 to |pl|
        invariant ExitList(exitTimeList, swl)
        invariant forall j :: 0 <= j < i ==> pl[j] in prevStateMap && prevStateMap[pl[j]] == InitialState(pl[j], swl)
      {
        var v := pl[i];
        if v in createTimeList {
          prevStateMap := prevStateMap[v := PrevState(createTimeList[v], UNSEEN)];
        } else {
          prevStateMap := prevStateMap[v := PrevState(traceSTime, UNSEEN)];
        }
        if v in exitTimeList {
          prevStateMap := prevStateMap[v := PrevState(exitTimeList[v], UNSEEN)];
        } else {
          prevStateMap := prevStateMap[v := PrevState(traceETime, UNSEEN)];
        }
      }
      ok := true;
    }

    /** The segments a run leaves behind, with the first softirq that fits cut out. */
    method PutRun(segs: Segments, pid: int, pt: u64, sw: Switch)
      requires segs.Valid() && soft.Valid()
      modifies segs.tm
      ensures segs.Valid() && segs.View() == old(PutAll(segs.View(), RunPieces(pid, soft.View(), pt, sw)))
      ensures fresh(segs.Repr() - old(segs.Repr()))
    {
      ghost var m, ix := segs.View(), soft.View();
      var sf := soft.GetCeilingSoft(sw.cpu, pt);
      assert segs.View() == m;
      if sf.Some? && sf.value.stime < sw.time && sf.value.etime < sw.time {
        var stime, etime := sf.value.stime, sf.value.etime;
        CutRun(m, pid, ix, pt, sw, stime, etime);
        segs.PutAround(pid, pt, stime, etime, sw.time);
      } else {
        WholeRun(m, pid, ix, pt, sw);
        segs.Put(pid, RUNNING, pt, sw.time, NONE);
      }
    }

    /** One event of the loop of BreakIntoSegments. */
    method StepEvent(segs: Segments, pid: int, ps: PrevState, sw: Switch) returns (next: PrevState)
      requires segs.Valid() && soft.Valid()
      modifies segs.tm
      ensures segs.Valid() && segs.View() == old(PutAll(segs.View(), Puts(pid, soft.View(), ps, sw)))
      ensures fresh(segs.Repr() - old(segs.Repr()))
      ensures next == NextPs(pid, ps, sw)
    {
      var pt := ps.time;
      next := ps;
      if sw.kind == WAIT {
        if sw.prevPid == pid {
          next := PrevState(sw.time, if sw.prevState == 0 then RUNNABLE else BLOCKED);
          PutRun(segs, pid, pt, sw);
        } else if sw.nextPid == pid {
          PutOne(segs.View(), Seg(pid, RUNNABLE, pt, sw.time, NONE));
          segs.Put(pid, RUNNABLE, pt, sw.time, NONE);
          next := PrevState(sw.time, RUNNING);
        }
      } else if sw.kind == WAKEUP && sw.nextPid == pid && ps.state == BLOCKED {
        PutOne(segs.View(), Seg(pid, BLOCKED, pt, sw.time, Waker(sw)));
        next := PrevState(sw.time, RUNNABLE);
        if sw.ctx == PROCESS {
          segs.Put(pid, BLOCKED, pt, sw.time, sw.prevPid);
        } else {
          segs.Put(pid, BLOCKED, pt, sw.time, -sw.ctx);
        }
      }
    }

    /** The event loop. */
    method Replay(segs: Segments, pid: int, ps0: PrevState, swl: seq<Switch>)
      requires segs.Valid() && soft.Valid() && forall t :: t in soft.trees.Values ==> t as object != segs.tm
      modifies segs.tm
      ensures soft.Valid() && soft.View() == old(soft.View()) && soft.trees == old(soft.trees)
      ensures segs.Valid() && segs.View() == old(Tab(pid, soft.View(), ps0, swl, |swl|, segs.View()))
      ensures fresh(segs.Repr() - old(segs.Repr()))
    {
      ghost var ix, m0 := soft.View(), segs.View();
      var ps := ps0;
      for i := 0 to |swl|
        invariant segs.Valid() && soft.Valid() && soft.View() == ix && soft.trees == old(soft.trees)
        invariant ps == Ps(pid, ps0, swl, i) && segs.View() == Tab(pid, ix, ps0, swl, i, m0)
        invariant fresh(segs.Repr() - old(segs.Repr()))
      {
        ghost var r := segs.Repr();
        ps := StepEvent(segs, pid, ps, swl[i]);
        assert segs.Repr() - old(segs.Repr()) <= (segs.Repr() - r) + (r - old(segs.Repr()));
      }
    }

    /** The last segment, from the state recorded at initialisation. Not ok: the nil segment is dereferenced. */
    method CloseLast(segs: Segments, pid: int, ps: PrevState, swl: seq<Switch>) returns (ok: bool)
      requires segs.Valid() && swl != [] && ExitList(exitTimeList, swl)
      requires soft.Valid() && forall t :: t in soft.trees.Values ==> t as object != segs.tm
      modifies segs.Repr()
      ensures soft.Valid() && soft.View() == old(soft.View()) && soft.trees == old(soft.trees)
      ensures segs.Valid() && fresh(segs.Repr() - old(segs.Repr()))
      ensures ok <==> old(Close(pid, swl, ps, segs.View())).Some?
      ensures ok ==> Some(segs.View()) == old(Close(pid, swl, ps, segs.View()))
    {
      var traceEtime := swl[|swl| - 1].time;
      ok := true;
      if ps.state == RUNNING {
        segs.Put(pid, RUNNING, ps.time, traceEtime, NONE);
      } else if ps.state == RUNNABLE {
        segs.Put(pid, RUNNABLE, ps.time, traceEtime, NONE);
      } else if pid in exitTimeList {
        ok := segs.CutFloor(exitTimeList[pid]);
      } else {
        segs.Put(pid, BLOCKED, ps.time, traceEtime, -UNKNOWN);
      }
      assert unchanged(soft) && forall t :: t in old(soft.trees.Values) ==> unchanged(t);
    }

    /** First phase for one thread; r is what its map becomes, if the thread does not make the program panic. */
    method BreakIntoSegments(segs: Segments, pid: int, swl: seq<Switch>, ghost ix: SoftIndex, ghost m: Table)
      returns (ok: bool, ghost r: Option<Table>)
      requires segs.Valid() && segs.View() == m && soft.Valid() && soft.View() == ix
      requires swl != [] && ExitList(exitTimeList, swl)
      requires forall t :: t in soft.trees.Values ==> t as object != segs.tm
      modifies segs.Repr()
      ensures segs.Valid() && fresh(segs.Repr() - old(segs.Repr()))
      ensures soft.Valid() && soft.View() == ix && soft.trees == old(soft.trees)
      ensures r == Broken(pid, ix, GetPrevState(pid), swl, m)
      ensures (ok <==> r.Some?) && (ok ==> segs.View() == r.value)
    {
      ghost var r0 := segs.Repr();
      r := Broken(pid, ix, GetPrevState(pid), swl, m);
      Replay(segs, pid, GetPrevState(pid), swl);
      ghost var r1 := segs.Repr();
      ok := CloseLast(segs, pid, GetPrevState(pid), swl);
      assert segs.Repr() - r0 <= (segs.Repr() - r1) + (r1 - r0);
    }

    lemma ShowsAll(pid: int, sm: SegMap, m: Table)
      requires this !in owner && graph !in owner && segMap.Keys == sm.Keys && pid in sm
      requires Kept(pid) && segMap[pid].View() == m
      requires forall q :: q in sm && q != pid ==> Kept(q) && segMap[q].View() == sm[q]
      ensures Shows(sm[pid := m])
    {
    }

    /** The objects thread pid uses now are its own. */
    ghost method Adopt(pid: int, sm: SegMap, m: Table)
      requires segMap.Keys == sm.Keys && pid in sm && this !in owner && graph !in owner && {this, graph} !! segMap[pid].Repr()
      requires segMap[pid].Valid() && segMap[pid].View() == m
      requires forall o :: o in segMap[pid].Repr() && o in owner ==> owner[o] == pid
      requires forall q :: q in sm && q != pid ==> Kept(q) && segMap[q].View() == sm[q]
      modifies `owner
      ensures Shows(sm[pid := m])
      ensures forall o :: o in owner ==> o in old(owner) || o in segMap[pid].Repr()
    {
      var mine := segMap[pid].Repr();
      owner := owner + map o | o in mine :: pid;
      assert segMap[pid].View() == m;
      forall q | q in sm && q != pid ensures Kept(q) && segMap[q].View() == sm[q] {
        assert old(Kept(q)) && old(segMap[q].View()) == sm[q];
        assert forall o :: o in old(segMap[q].Repr()) ==> unchanged(o);
        assert segMap[q].View() == old(segMap[q].View());
      }
      ShowsAll(pid, sm, m);
    }

    /** The same as a step of the whole: the other threads' maps stay as they are. */
    method BreakThread(pid: int, swl: seq<Switch>, ghost ix: SoftIndex, ghost sm: SegMap)
      returns (ok: bool, ghost r: Option<Table>)
      requires Shows(sm) && pid in sm && SoftReady(ix)
      requires swl != [] && ExitList(exitTimeList, swl)
      modifies segMap[pid].Repr(), `owner
      ensures r == Broken(pid, ix, GetPrevState(pid), swl, sm[pid])
      ensures (ok <==> r.Some?) && (ok ==> Shows(sm[pid := r.value]) && SoftReady(ix))
      ensures forall o :: o in owner ==> o in old(owner) || fresh(o)
    {
      OwnObjects(pid);
      ok, r := Rebuild(pid, swl, ix, sm);
      label Built:
      if ok {
        Adopt(pid, sm, r.value);
        assert unchanged@Built(soft) && forall t :: t in soft.trees.Values ==> unchanged@Built(t);
      }
    }

    /** Thread pid's map is rebuilt, out of its own objects and new ones. */
    method RebuildMap(pid: int, swl: seq<Switch>, ghost ix: SoftIndex, ghost sm: SegMap)
      returns (ok: bool, ghost r: Option<Table>)
      requires Shows(sm) && pid in sm && SoftReady(ix)
      requires swl != [] && ExitList(exitTimeList, swl)
      modifies segMap[pid].Repr()
      ensures r == Broken(pid, ix, GetPrevState(pid), swl, sm[pid]) && (ok <==> r.Some?)
      ensures segMap[pid].Valid() && (ok ==> segMap[pid].View() == r.value)
      ensures fresh(segMap[pid].Repr() - old(segMap[pid].Repr())) && {this, graph} !! segMap[pid].Repr()
      ensures forall o :: o in segMap[pid].Repr() && o in owner ==> owner[o] == pid
      ensures SoftReady(ix) && forall t :: t in soft.trees.Values ==> t as object !in segMap[pid].Repr()
    {
      OwnObjects(pid);
      ok, r := BreakIntoSegments(segMap[pid], pid, swl, ix, sm[pid]);
    }

    /** The maps of the other threads stay as they are. */
    method Rebuild(pid: int, swl: seq<Switch>, ghost ix: SoftIndex, ghost sm: SegMap)
      returns (ok: bool, ghost r: Option<Table>)
      requires Shows(sm) && pid in sm && SoftReady(ix)
      requires swl != [] && ExitList(exitTimeList, swl)
      modifies segMap[pid].Repr()
      ensures r == Broken(pid, ix, GetPrevState(pid), swl, sm[pid]) && (ok <==> r.Some?)
      ensures segMap[pid].Valid() && (ok ==> segMap[pid].View() == r.value)
      ensures fresh(segMap[pid].Repr() - old(segMap[pid].Repr())) && {this, graph} !! segMap[pid].Repr()
      ensures forall o :: o in segMap[pid].Repr() && o in owner ==> owner[o] == pid
      ensures SoftReady(ix) && forall t :: t in soft.trees.Values ==> t as object !in segMap[pid].Repr()
      ensures forall q :: q in sm && q != pid ==> Kept(q) && segMap[q].View() == sm[q]
    {
      OwnObjects(pid);
      forall q | q in sm && q != pid ensures segMap[q].Repr() !! segMap[pid].Repr() {
        Apart(q, pid);
      }
      ok, r := RebuildMap(pid, swl, ix, sm);
      forall q | q in sm && q != pid ensures Kept(q) && segMap[q].View() == sm[q] {
        assert old(Kept(q));
        assert forall o :: o in old(segMap[q].Repr()) ==> unchanged(o);
      }
    }

    // ---- second phase ----

    /** Not ok is the panic in Ceiling. What was collected is returned only if line 393 does so. */
    method FindAllWaitingSegments(wakerID: int, etime: u64, stime: u64, ghost sm: SegMap)
      returns (ok: bool, segs: seq<Segment>)
      requires Shows(sm) && (wakerID in sm ==> Upright(sm[wakerID]))
      ensures (forall s :: s in segs ==> fresh(s)) && Distinct(segs)
      ensures ok <==> !WindowDies(sm, wakerID, stime, etime)
      ensures ok ==> Values(segs) == Found(sm, cascades, wakerID, stime, etime)
      ensures Shows(sm)
    {
      if wakerID !in segMap {
        return true, [];
      }
      var waitSegs;
      ok, waitSegs := segMap[wakerID].Waiting(etime, stime);
      segs := if cascades then waitSegs else [];
    }

    /** Lines 336-341. */
    method ClipTo(seg: Segment, s: u64, e: u64)
      modifies seg`stime, seg`etime
      ensures seg.Value() == old(Clip(seg.Value(), s, e))
    {
      if seg.stime < s {
        seg.stime := s;
      }
      if seg.etime > e {
        seg.etime := e;
      }
    }

    method Charge(w: Segment, ghost sm: SegMap)
      requires Shows(sm)
      modifies graph
      ensures Shows(sm)
      ensures graph.weights == AddWeight(old(graph.weights), commMap, Edge(w.pid, w.waitFor, w.stime, w.etime))
    {
      graph.Add(commMap, w.pid, w.waitFor, w.etime, w.stime);
    }

    /** Lines 333-334: charge the wait, then find the waits to cascade to. */
    method ChargeAndFind(w: Segment, ghost sm: SegMap, ghost v: Seg)
      returns (ok: bool, segs: seq<Segment>, ghost found: seq<Seg>, ghost copies: set<object>)
      requires Shows(sm) && v == w.Value() && Good(sm, cascades) && Rooted(sm, v)
      modifies graph
      ensures Shows(sm)
      ensures graph.weights == AddWeight(old(graph.weights), commMap, Edge(v.pid, v.waitFor, v.stime, v.etime))
      ensures ok <==> !WindowDies(sm, v.waitFor, v.stime, v.etime)
      ensures ok ==> found == Found(sm, cascades, v.waitFor, v.stime, v.etime) && |segs| == |found|
      ensures ok ==> forall i :: 0 <= i < |segs| ==> segs[i].Value() == found[i]
      ensures Distinct(segs) && fresh(copies) && copies !! owner.Keys && forall i :: 0 <= i < |segs| ==> segs[i] in copies
    {
      Charge(w, sm);
      ok, segs, found, copies := FindCopies(w, sm, v);
    }

    method FindCopies(w: Segment, ghost sm: SegMap, ghost v: Seg)
      returns (ok: bool, segs: seq<Segment>, ghost found: seq<Seg>, ghost copies: set<object>)
      requires Shows(sm) && v == w.Value() && (v.waitFor in sm ==> Upright(sm[v.waitFor]))
      ensures Shows(sm)
      ensures ok <==> !WindowDies(sm, v.waitFor, v.stime, v.etime)
      ensures ok ==> found == Found(sm, cascades, v.waitFor, v.stime, v.etime) && |segs| == |found|
      ensures ok ==> forall i :: 0 <= i < |segs| ==> segs[i].Value() == found[i]
      ensures Distinct(segs) && fresh(copies) && copies !! owner.Keys && forall i :: 0 <= i < |segs| ==> segs[i] in copies
    {
      ok, segs := FindAllWaitingSegments(w.waitFor, w.etime, w.stime, sm);
      found, copies := Values(segs), set s | s in segs;
      assert forall i :: 0 <= i < |segs| ==> found[i] == segs[i].Value();
    }

    /** Stored segments are never touched: the only thing this changes is the graph. */
    method Cascade(w: Segment, ghost sm: SegMap, ghost v: Seg) returns (ok: bool)
      requires Shows(sm) && v == w.Value()
      requires Good(sm, cascades) && (v.state == BLOCKED ==> Rooted(sm, v))
      modifies graph
      ensures Shows(sm)
      ensures v.state != BLOCKED ==> ok && graph.weights == old(graph.weights)
      ensures v.state == BLOCKED ==> (ok <==> !CascadeDies(sm, cascades, v))
      ensures v.state == BLOCKED && ok ==> graph.weights == AddAll(old(graph.weights), commMap, CascadeEdges(sm, cascades, v))
      decreases v.etime, 1, 0
    {
      if w.state != BLOCKED {
        return true;
      }
      CascadeTrack(sm, cascades, commMap, graph.weights, v);
      ghost var goal := AddAll(graph.weights, commMap, CascadeEdges(sm, cascades, v));
      ghost var dies := CascadeDies(sm, cascades, v);
      ghost var found, copies;
      var segs;
      ok, segs, found, copies := ChargeAndFind(w, sm, v);
      if ok {
        ok := CascadeAll(segs, w.stime, w.etime, sm, found, copies, goal, dies);
      }
    }

    /** One round of the loop of Cascade: clip the copy to [s, e), then cascade it. */
    method CascadeClipped(seg: Segment, s: u64, e: u64, ghost sm: SegMap, ghost rest: seq<Seg>,
                          ghost goal: Graph, ghost dies: bool) returns (ok: bool)
      requires Shows(sm) && seg !in owner
      requires OnTrack(sm, cascades, commMap, graph.weights, rest, e, goal, dies)
      requires rest != [] && rest[0] == Clip(seg.Value(), s, e)
      modifies graph, seg
      ensures Shows(sm) && (!ok ==> dies)
      ensures ok ==> OnTrack(sm, cascades, commMap, graph.weights, rest[1..], e, goal, dies)
      decreases e, 0, 0
    {
      TrackStep(sm, cascades, commMap, graph.weights, rest, e, goal, dies);
      ClipCopy(seg, s, e, sm);
      ok := Cascade(seg, sm, rest[0]);
    }

    /** Clipping a copy leaves what the threads have stored alone. */
    method ClipCopy(seg: Segment, s: u64, e: u64, ghost sm: SegMap)
      requires Shows(sm) && seg !in owner
      modifies seg
      ensures Shows(sm) && seg.Value() == old(Clip(seg.Value(), s, e))
    {
      ClipTo(seg, s, e);
    }

    /** The loop of Cascade, for the window [s, e). */
    method CascadeAll(segs: seq<Segment>, s: u64, e: u64, ghost sm: SegMap, ghost found: seq<Seg>,
                      ghost copies: set<object>, ghost goal: Graph, ghost dies: bool) returns (ok: bool)
      requires Shows(sm) && OnTrack(sm, cascades, commMap, graph.weights, ClipAll(found, s, e), e, goal, dies)
      requires |segs| == |found| && Distinct(segs) && graph !in copies && this !in copies
      requires copies !! owner.Keys && forall i :: 0 <= i < |segs| ==> segs[i] in copies
      requires forall i {:trigger segs[i].Value()} :: 0 <= i < |segs| ==> segs[i].Value() == found[i]
      modifies graph, copies
      ensures Shows(sm) && (ok <==> !dies)
      ensures ok ==> graph.weights == goal
      decreases e, 0, 1
    {
      ghost var rest := ClipAll(found, s, e);
      for i := 0 to |segs|
        invariant Shows(sm) && rest == ClipAll(found, s, e)[i..]
        invariant forall j :: i <= j < |segs| ==> unchanged(segs[j])
        invariant OnTrack(sm, cascades, commMap, graph.weights, rest, e, goal, dies)
      {
        NextClip(found, s, e, i);
        ok := CascadeClipped(segs[i], s, e, sm, rest, goal, dies);
        if !ok {
          return;
        }
        rest := rest[1..];
      }
      TrackEnd(sm, cascades, commMap, graph.weights, e, goal, dies);
      ok := true;
    }

    /** Cascade for the segment a thread has stored under k; rest are its blocked segments from k on. */
    method CascadeStored(pid: int, k: u64, ghost sm: SegMap, ghost rest: seq<Seg>, ghost tail: seq<Seg>,
                         ghost goal: Graph, ghost dies: bool) returns (ok: bool)
      requires Shows(sm) && pid in sm && k in sm[pid]
      requires OnTrack(sm, cascades, commMap, graph.weights, rest, U64_LIMIT, goal, dies)
      requires rest == BlockedOnly(sm[pid][k]) + tail
      modifies graph
      ensures Shows(sm) && (!ok ==> dies)
      ensures ok ==> OnTrack(sm, cascades, commMap, graph.weights, tail, U64_LIMIT, goal, dies)
    {
      assert Kept(pid);
      var w := segMap[pid].tm.vals[k];
      assert sm[pid][k] == w.Value();
      TrackNext(sm, cascades, commMap, graph.weights, sm[pid][k], rest, tail, U64_LIMIT, goal, dies);
      ok := Cascade(w, sm, sm[pid][k]);
    }

    /** The sorted keys of a thread's map. */
    method KeysOf(pid: int, ghost sm: SegMap) returns (keys: seq<u64>)
      requires Shows(sm) && pid in sm
      ensures Lists(keys, sm[pid].Keys)
    {
      assert Kept(pid);
      assert sm[pid].Keys == segMap[pid].tm.vals.Keys;
      keys := segMap[pid].tm.keys;
    }

    /** ForEach over one thread's map, in the order of its keys. */
    method CascadeThread(pid: int, ghost sm: SegMap) returns (ok: bool)
      requires Shows(sm) && pid in sm && Good(sm, cascades)
      modifies graph
      ensures Shows(sm) && (ok <==> !ThreadDies(sm, cascades, pid))
      ensures ok ==> graph.weights == AddAll(old(graph.weights), commMap, ThreadEdges(sm, cascades, pid))
    {
      var keys := KeysOf(pid, sm);
      ghost var m := sm[pid];
      ThreadTrack(sm, cascades, commMap, graph.weights, pid, keys);
      ghost var goal := AddAll(graph.weights, commMap, ThreadEdges(sm, cascades, pid));
      ghost var dies := ThreadDies(sm, cascades, pid);
      assert keys[0..] == keys;
      for i := 0 to |keys|
        invariant Shows(sm)
        invariant OnTrack(sm, cascades, commMap, graph.weights, BlockedSegs(m, keys[i..]), U64_LIMIT, goal, dies)
      {
        BlockedSegsFrom(m, keys, i);
        assert keys[i] in m;
        ok := CascadeStored(pid, keys[i], sm, BlockedSegs(m, keys[i..]), BlockedSegs(m, keys[i + 1..]), goal, dies);
        if !ok {
          return;
        }
      }
      TrackEnd(sm, cascades, commMap, graph.weights, U64_LIMIT, goal, dies);
      ok := true;
    }

    // ---- main ----

    /** First phase: every listed thread is broken into segments. */
    method BreakAll(pl: seq<int>, swl: seq<Switch>, ghost ix: SoftIndex) returns (ok: bool)
      requires Shows(map p | p in pl :: map[]) && SoftReady(ix) && swl != [] && ExitList(exitTimeList, swl)
      requires forall p :: p in pl ==> GetPrevState(p) == InitialState(p, swl)
      modifies owner.Keys, `owner
      ensures ok <==> forall p :: p in pl ==> Broken(p, ix, InitialState(p, swl), swl, map[]).Some?
      ensures ok ==> Shows(AllBroken(pl, ix, swl))
    {
      for i := 0 to |pl|
        invariant forall p :: p in pl[..i] ==> Broken(p, ix, InitialState(p, swl), swl, map[]).Some?
        invariant Shows(PartlyBroken(pl, ix, swl, i)) && SoftReady(ix)
        invariant forall o :: o in owner ==> o in old(owner) || fresh(o)
      {
        BreakNext(pl, ix, swl, i);
        OwnObjects(pl[i]);
        ghost var r;
        ok, r := BreakThread(pl[i], swl, ix, PartlyBroken(pl, ix, swl, i));
        if !ok {
          assert pl[i] in pl && Broken(pl[i], ix, InitialState(pl[i], swl), swl, map[]).None?;
          return;
        }
      }
      AllAreBroken(pl, ix, swl);
      ok := true;
    }

    /** Second phase: every segment of every listed thread is cascaded. */
    method CascadeEverything(pl: seq<int>, ghost sm: SegMap) returns (ok: bool)
      requires Shows(sm) && Good(sm, cascades) && forall p :: p in pl ==> p in sm
      modifies graph
      ensures Shows(sm) && (ok <==> !DriverDies(sm, cascades, pl))
      ensures ok ==> graph.weights == AddAll(old(graph.weights), commMap, DriverEdges(sm, cascades, pl))
    {
      ghost var goal := AddAll(graph.weights, commMap, DriverEdges(sm, cascades, pl));
      assert pl[0..] == pl;
      for i := 0 to |pl|
        invariant Shows(sm)
        invariant DriverDies(sm, cascades, pl) <==> DriverDies(sm, cascades, pl[i..])
        invariant goal == AddAll(graph.weights, commMap, DriverEdges(sm, cascades, pl[i..]))
      {
        assert pl[i..][0] == pl[i] && pl[i..][1..] == pl[i + 1..];
        AddAllConcat(graph.weights, commMap, ThreadEdges(sm, cascades, pl[i]), DriverEdges(sm, cascades, pl[i + 1..]));
        ok := CascadeThread(pl[i], sm);
        if !ok {
          return;
        }
      }
      ok := true;
    }

    /** The initialisation in main, once the files are read. */
    method Prepare(pl: seq<int>, swl: seq<Switch>, sl: seq<Soft>) returns (ok: bool)
      requires segMap == map[] && owner == map[] && commMap == map[]
      requires exitTimeList == map[] && prevStateMap == map[] && soft.Valid() && soft.trees == map[]
      modifies `segMap, `owner, `commMap, `createTimeList, `exitTimeList, `prevStateMap, soft
      ensures ok <==> swl != []
      ensures ok ==> Shows(map p | p in pl :: map[]) && fresh(owner.Keys) && SoftReady(IndexOf(sl))
      ensures ok ==> commMap == CommsOf(swl) && ExitList(exitTimeList, swl)
      ensures ok ==> forall p :: p in pl ==> GetPrevState(p) == InitialState(p, swl)
    {
      ok := InitThreads(pl, swl);
      if ok {
        soft.Init(sl);
      }
    }

    /** The maps by thread. */
    method InitThreads(pl: seq<int>, swl: seq<Switch>) returns (ok: bool)
      requires segMap == map[] && owner == map[] && commMap == map[] && exitTimeList == map[] && prevStateMap == map[]
      modifies `segMap, `owner, `commMap, `createTimeList, `exitTimeList, `prevStateMap
      ensures ok <==> swl != []
      ensures Shows(map p | p in pl :: map[]) && fresh(owner.Keys) && commMap == CommsOf(swl)
      ensures ok ==> ExitList(exitTimeList, swl) && forall p :: p in pl ==> GetPrevState(p) == InitialState(p, swl)
    {
      InitSegMap(pl);
      InitCommMap(swl);
      ok := InitPrevStates(pl, swl);
    }

    method BothPhases(pl: seq<int>, swl: seq<Switch>, ghost ix: SoftIndex) returns (ok: bool)
      requires Shows(map p | p in pl :: map[]) && SoftReady(ix) && swl != [] && ExitList(exitTimeList, swl)
      requires forall p :: p in pl ==> GetPrevState(p) == InitialState(p, swl)
      requires Inputs(cascades, pl, ix, swl)
      modifies owner.Keys, `owner, graph
      ensures ok <==> Outcome(cascades, pl, ix, swl).Some?
      ensures ok ==> graph.weights == AddAll(old(graph.weights), commMap, Outcome(cascades, pl, ix, swl).value)
    {
      ok := BreakAll(pl, swl, ix);
      if ok {
        InputsAreGood(cascades, pl, ix, swl);
        ok := CascadeEverything(pl, AllBroken(pl, ix, swl));
      }
    }

    /** The program, after its files are read. Not ok is a panic. */
    method Run(pl: seq<int>, swl: seq<Switch>, sl: seq<Soft>) returns (ok: bool)
      requires segMap == map[] && owner == map[] && commMap == map[] && graph.weights == map[]
      requires exitTimeList == map[] && prevStateMap == map[] && soft.Valid() && soft.trees == map[]
      requires swl != [] ==> Inputs(cascades, pl, IndexOf(sl), swl)
      modifies `segMap, `owner, `commMap, `createTimeList, `exitTimeList, `prevStateMap, soft, graph
      ensures ok <==> Outcome(cascades, pl, IndexOf(sl), swl).Some?
      ensures ok ==> graph.weights == AddAll(map[], CommsOf(swl), Outcome(cascades, pl, IndexOf(sl), swl).value)
    {
      ok := Prepare(pl, swl, sl);
      if ok {
        ok := BothPhases(pl, swl, IndexOf(sl));
      }
    }
  }
}
