/** A thread's segments as the program keeps them: objects in an ordered map. */
module SegmentStore {
  import opened Events
  import opened TreeMaps
  import opened Tables

  class Segment {
    var pid: int
    var state: int
    var stime: u64
    var etime: u64
    var waitFor: int

    constructor (pid: int, state: int, stime: u64, etime: u64, waitFor: int)
      ensures Value() == Seg(pid, state, stime, etime, waitFor)
    {
      this.pid, this.state, this.stime, this.etime, this.waitFor := pid, state, stime, etime, waitFor;
    }

    ghost function Value(): Seg
      reads this
    {
      Seg(pid, state, stime, etime, waitFor)
    }

    /** Lines 376-381: a blocked segment is copied, so that clipping touches only the copy. */
    method Collect(segs: seq<Segment>) returns (r: seq<Segment>)
      requires Distinct(segs)
      ensures Distinct(r) && forall s :: s in r ==> s in segs || fresh(s)
      ensures Values(r) == Values(segs) + BlockedOnly(Value())
    {
      r := segs;
      if state == BLOCKED {
        var copy := new Segment(pid, state, stime, etime, waitFor);
        r := segs + [copy];
      }
    }
  }

  ghost function Values(segs: seq<Segment>): seq<Seg>
    reads segs
  {
    seq(|segs|, i requires 0 <= i < |segs| reads segs => segs[i].Value())
  }

  /** What has been collected before segment k, and what the walk from k still collects, make up the walk from f. */
  ghost predicate OnWalk(m: Table, f: u64, k: u64, e: u64, got: seq<Seg>)
    requires Upright(m) && f in m && k in m
  {
    got + Walk(m, k, e) == Walk(m, f, e) && (WalkDies(m, k, e) <==> WalkDies(m, f, e))
  }

  /** The walk ends with segment k: it reaches e, or the next one starts there or later. */
  lemma StopHere(m: Table, f: u64, k: u64, e: u64, got: seq<Seg>)
    requires Upright(m) && f in m && k in m && OnWalk(m, f, k, e, got)
    requires m[k].etime >= e || (CeilingOf(m.Keys, k + 1).Some? && CeilingOf(m.Keys, k + 1).value >= e)
    ensures got + BlockedOnly(m[k]) == Walk(m, f, e) && !WalkDies(m, f, e)
  {
  }

  /** The walk goes on with the next segment. */
  lemma GoOn(m: Table, f: u64, k: u64, e: u64, got: seq<Seg>)
    requires Upright(m) && f in m && k in m && OnWalk(m, f, k, e, got)
    requires m[k].etime < e && CeilingOf(m.Keys, k + 1).Some? && CeilingOf(m.Keys, k + 1).value < e
    ensures OnWalk(m, f, CeilingOf(m.Keys, k + 1).value, e, got + BlockedOnly(m[k]))
  {
    var next := CeilingOf(m.Keys, k + 1).value;
    assert got + BlockedOnly(m[k]) + Walk(m, next, e) == got + (BlockedOnly(m[k]) + Walk(m, next, e));
  }

  ghost predicate Distinct(segs: seq<Segment>) {
    forall i, j :: 0 <= i < j < |segs| ==> segs[i] != segs[j]
  }

  class Segments {
    const tm: TreeMap<Segment>

    ghost predicate Valid()
      reads tm, tm.vals.Values
    {
      && tm.Valid()
      && (forall k :: k in tm.vals ==> tm.vals[k].stime == k)
      && (forall k, l :: k in tm.vals && l in tm.vals && k != l ==> tm.vals[k] != tm.vals[l])
    }

    ghost function View(): Table
      reads tm, tm.vals.Values
    {
      map k | k in tm.vals :: tm.vals[k].Value()
    }

    /** The objects the map consists of. */
    ghost function Repr(): set<object>
      reads tm
    {
      {tm} + tm.vals.Values
    }

    constructor ()
      ensures Valid() && tm.vals == map[] && fresh(tm)
    {
      tm := new TreeMap<Segment>();
    }

    method Put(pid: int, state: int, stime: u64, etime: u64, waitFor: int)
      requires Valid()
      modifies tm
      ensures Valid() && View() == old(View())[stime := Seg(pid, state, stime, etime, waitFor)]
      ensures fresh(Repr() - old(Repr()))
    {
      ghost var m := View();
      var s := new Segment(pid, state, stime, etime, waitFor);
      tm.Put(stime, s);
      assert View() == m[stime := s.Value()];
    }

    /** Lines 281-283: a run with a softirq cut out. */
    method PutAround(pid: int, pt: u64, stime: u64, etime: u64, t: u64)
      requires Valid()
      modifies tm
      ensures Valid()
      ensures View() == old(View())[pt := Seg(pid, RUNNING, pt, stime, NONE)]
                                   [stime := Seg(pid, RUNNABLE, stime, etime, NONE)]
                                   [etime := Seg(pid, RUNNING, etime, t, NONE)]
      ensures fresh(Repr() - old(Repr()))
    {
      Put(pid, RUNNING, pt, stime, NONE);
      ghost var r1 := Repr();
      Put(pid, RUNNABLE, stime, etime, NONE);
      ghost var r2 := Repr();
      Put(pid, RUNNING, etime, t, NONE);
      assert Repr() - old(Repr()) <= (Repr() - r2) + (r2 - r1) + (r1 - old(Repr()));
    }

    method Floor(t: u64) returns (k: u64, seg: Option<Segment>)
      requires Valid()
      ensures seg.None? <==> FloorOf(tm.vals.Keys, t).None?
      ensures seg.Some? ==> FloorOf(tm.vals.Keys, t) == Some(k) && k in tm.vals && seg.value == tm.vals[k]
    {
      k, seg := tm.Floor(t);
    }

    /** Line 320: a stored segment is changed in place. */
    method SetEtime(k: u64, seg: Segment, t: u64)
      requires Valid() && k in tm.vals && seg == tm.vals[k]
      modifies seg
      ensures Valid() && View() == old(View())[k := old(View())[k].(etime := t)]
    {
      ghost var m := View();
      seg.etime := t;
      assert forall l :: l in tm.vals ==> tm.vals[l].Value() == m[k := m[k].(etime := t)][l];
      assert tm.vals.Keys == m.Keys;
    }

    /** Lines 319-320: the segment at or before t now ends at t. Not ok: there is none. */
    method CutFloor(t: u64) returns (ok: bool)
      requires Valid()
      modifies tm.vals.Values
      ensures Valid()
      ensures ok <==> FloorOf(old(View()).Keys, t).Some?
      ensures ok ==> var f := FloorOf(old(View()).Keys, t).value;
        f in old(View()) && View() == old(View())[f := old(View())[f].(etime := t)]
    {
      assert View().Keys == tm.vals.Keys;
      var f, seg := Floor(t);
      ok := seg.Some?;
      if ok {
        SetEtime(f, seg.value, t);
      }
    }

    /** Panics (not ok) when there is nothing to find: the nil key fails its type assertion. */
    method Ceiling(t: u64) returns (ok: bool, k: u64, seg: Option<Segment>)
      requires Valid()
      ensures ok <==> CeilingOf(tm.vals.Keys, t).Some?
      ensures ok ==> CeilingOf(tm.vals.Keys, t) == Some(k) && k in tm.vals && seg == Some(tm.vals[k])
    {
      k, seg := tm.Ceiling(t);
      ok := seg.Some?;
    }

    /** Lines 383-390: whether the walk goes on after seg, and with which segment. Not ok is the panic in Ceiling. */
    method Advance(ghost m: Table, ghost f: u64, ghost got: seq<Seg>, k: u64, seg: Segment, etime: u64)
      returns (stop: bool, ok: bool, next: u64, found: Segment)
      requires Valid() && m == View() && Upright(m) && k in tm.vals && seg == tm.vals[k]
      requires f in m && OnWalk(m, f, k, etime, got)
      ensures stop && ok ==> got + BlockedOnly(m[k]) == Walk(m, f, etime) && !WalkDies(m, f, etime)
      ensures !ok ==> stop && WalkDies(m, f, etime)
      ensures !stop ==> k < next && next in tm.vals && found == tm.vals[next]
      ensures !stop ==> OnWalk(m, f, next, etime, got + BlockedOnly(m[k]))
    {
      assert m.Keys == tm.vals.Keys && m[k] == seg.Value();
      stop, ok, next, found := true, true, k, seg;
      if seg.etime >= etime {
        StopHere(m, f, k, etime, got);
        return;
      }
      var more, c, v := Ceiling(Add64(seg.stime, 1));
      if !more {
        ok := false;
        return;
      }
      stop, next, found := v.value.stime >= etime, c, v.value;
      if stop {
        StopHere(m, f, k, etime, got);
      } else {
        GoOn(m, f, k, etime, got);
      }
    }

    /** Lines 374-391: copies of the blocked segments met from segment k on. */
    method WalkFrom(k0: u64, etime: u64) returns (ok: bool, waitSegs: seq<Segment>)
      requires Valid() && Upright(View()) && k0 in tm.vals
      ensures (forall s :: s in waitSegs ==> fresh(s)) && Distinct(waitSegs)
      ensures k0 in View() && (ok <==> !WalkDies(View(), k0, etime)) && (ok ==> Values(waitSegs) == Walk(View(), k0, etime))
    {
      waitSegs := [];
      ghost var m, got := View(), [];
      var k, seg := k0, tm.vals[k0];
      var stop := false;
      ok := true;
      assert OnWalk(m, k0, k, etime, got);
      while !stop
        invariant (forall s :: s in waitSegs ==> fresh(s)) && Distinct(waitSegs) && Values(waitSegs) == got
        invariant m == View()
        invariant !stop ==> k in tm.vals && seg == tm.vals[k] && OnWalk(m, k0, k, etime, got)
        invariant stop ==> (ok <==> !WalkDies(m, k0, etime)) && (ok ==> got == Walk(m, k0, etime))
        decreases !stop, U64_LIMIT - k
      {
        assert m[k] == seg.Value();
        waitSegs := seg.Collect(waitSegs);
        assert m == View();
        stop, ok, k, seg := Advance(m, k0, got, k, seg, etime);
        got := Values(waitSegs);
      }
    }

    /** Lines 369-391 of findAllWaitingSegments. */
    method Waiting(etime: u64, stime: u64) returns (ok: bool, waitSegs: seq<Segment>)
      requires Valid() && Upright(View())
      ensures (forall s :: s in waitSegs ==> fresh(s)) && Distinct(waitSegs)
      ensures FloorOf(View().Keys, stime).None? ==> ok && waitSegs == []
      ensures FloorOf(View().Keys, stime).Some? ==>
        var f := FloorOf(View().Keys, stime).value;
        (ok <==> !WalkDies(View(), f, etime)) && (ok ==> Values(waitSegs) == Walk(View(), f, etime))
    {
      var k, floor := Floor(stime);
      assert View().Keys == tm.vals.Keys;
      if floor.None? {
        return true, [];
      }
      ok, waitSegs := WalkFrom(k, etime);
    }
  }
}
