/** When the search in a thread's finished map runs off its end, read off the trace. */
module Searches {
  import opened Events
  import opened TreeMaps
  import opened Tables
  import opened SoftIndexes
  import opened Breaking
  import opened Tiling
  import opened Partition

  /** Where the last of the segments that an event stores starts. */
  ghost function LastPut(pid: int, ix: SoftIndex, ps: PrevState, sw: Switch): u64
    requires Effective(pid, ps.state, sw)
  {
    Puts(pid, ix, ps, sw)[|Puts(pid, ix, ps, sw)| - 1].stime
  }

  /** Where the segment stored last starts. */
  ghost function LastStart(pid: int, ix: SoftIndex, ps0: PrevState, swl: seq<Switch>, n: nat): u64
    requires n <= |swl| && ps0.state == UNSEEN && Ps(pid, ps0, swl, n).state != UNSEEN
  {
    var ps, sw := Ps(pid, ps0, swl, n - 1), swl[n - 1];
    if Effective(pid, ps.state, sw) then LastPut(pid, ix, ps, sw)
    else LastStart(pid, ix, ps0, swl, n - 1)
  }

  /** Some event after the thread's first one concerned it. */
  ghost predicate SeenTwice(pid: int, ps0: PrevState, swl: seq<Switch>, n: nat)
    requires n <= |swl|
  {
    exists i :: 0 <= i < n && SeenAgainAt(pid, ps0, swl, i)
  }

  ghost predicate SeenAgainAt(pid: int, ps0: PrevState, swl: seq<Switch>, i: nat)
    requires i < |swl|
  {
    Ps(pid, ps0, swl, i).state != UNSEEN && Effective(pid, Ps(pid, ps0, swl, i).state, swl[i])
  }

  /** The map of thread q has a segment that starts no later than s. */
  ghost predicate ReachesBack(q: int, swl: seq<Switch>, s: int)
    requires swl != []
  {
    var ps0 := InitialState(q, swl);
    ps0.time <= s || (Seen(q, swl) && FirstSeen(q, swl) <= s && SeenTwice(q, ps0, swl, |swl|))
  }

  /** The search for waits of thread q in [s, e) runs off the end of its map. That takes an exit at x before e, a map that
      reaches back to s, and that after x nothing reaches e: q was last seen before e, or its last run, the only one to do
      so, is the one that x cuts, or one that starts before x while the search starts at x. */
  ghost predicate SearchFails(q: int, ix: SoftIndex, swl: seq<Switch>, s: int, e: int)
    requires swl != []
  {
    ExitTime(q, swl).Some? && Seen(q, swl) &&
    var x, ps0 := ExitTime(q, swl).value, InitialState(q, swl);
    var last := LastStart(q, ix, ps0, swl, |swl|);
    && x < e
    && ReachesBack(q, swl, s)
    && (LastSeen(q, swl) < e || last == x || last <= x <= s)
  }

  // ---- the last segment of a map ----

  /** The last piece an event stores is the last of the map, and reaches to the event. */
  lemma LastPiece(pid: int, ix: SoftIndex, ps: PrevState, sw: Switch, m: Table)
    requires Effective(pid, ps.state, sw) && (Out(pid, sw) ==> !Straddles(ix, ps.time, sw)) && ps.time <= sw.time
    requires forall k :: k in m ==> k <= ps.time
    ensures var y := LastPut(pid, ix, ps, sw); var r := PutAll(m, Puts(pid, ix, ps, sw));
      y in r && r[y].etime == sw.time && (forall k :: k in r ==> k <= y) && ps.time in r && (forall k :: k in m ==> k in r)
  {
    if Out(pid, sw) { PutRunPieces(m, pid, ix, ps.time, sw); } else { PutOne(m, Puts(pid, ix, ps, sw)[0]); }
  }

  /** A thread of which only one event is known has nothing but what that one stored. */
  lemma {:induction false} OnlyEvent(pid: int, ix: SoftIndex, ps0: PrevState, swl: seq<Switch>, n: nat) returns (i: nat)
    requires n <= |swl| && ps0.state == UNSEEN && Ps(pid, ps0, swl, n).state != UNSEEN && !SeenTwice(pid, ps0, swl, n)
    ensures i < n && (Out(pid, swl[i]) || In(pid, swl[i])) && LastStart(pid, ix, ps0, swl, n) == LastPut(pid, ix, ps0, swl[i])
    ensures Real(pid, ix, ps0, swl, n) == map[] && First(pid, ix, ps0, swl, n) == PutAll(map[], Puts(pid, ix, ps0, swl[i]))
    ensures FirstTime(pid, ps0, swl, n) == Ps(pid, ps0, swl, n).time == swl[i].time && Ps(pid, ps0, swl, i) == ps0
  {
    SeenOrNot(pid, ix, ps0, swl, n - 1);
    if Ps(pid, ps0, swl, n - 1).state == UNSEEN {
      i := n - 1;
    } else {
      if Effective(pid, Ps(pid, ps0, swl, n - 1).state, swl[n - 1]) { assert SeenAgainAt(pid, ps0, swl, n - 1); }
      assert forall j :: 0 <= j < n - 1 ==> !SeenAgainAt(pid, ps0, swl, j);
      i := OnlyEvent(pid, ix, ps0, swl, n - 1);
    }
  }

  /** What an event that concerns the thread does to its map. */
  lemma LastTileStep(pid: int, ix: SoftIndex, ps0: PrevState, swl: seq<Switch>, n: nat)
    requires n < |swl| && ps0.state == UNSEEN && Sorted(swl) && NoStraddle(pid, ix, ps0, swl)
    requires Ps(pid, ps0, swl, n).state != UNSEEN && Effective(pid, Ps(pid, ps0, swl, n).state, swl[n])
    ensures var m := Real(pid, ix, ps0, swl, n + 1); var y := LastStart(pid, ix, ps0, swl, n + 1);
      y in m && m[y].etime == swl[n].time && (forall k :: k in m ==> k <= y)
      && Ps(pid, ps0, swl, n).time in m && (forall k :: k in Real(pid, ix, ps0, swl, n) ==> k in m)
  {
    RealTiles(pid, ix, ps0, swl, n);
    var j := LastEvent(pid, ps0, swl, n);
    assert CleanAt(pid, ix, ps0, swl, n);
    LastPiece(pid, ix, Ps(pid, ps0, swl, n), swl[n], Real(pid, ix, ps0, swl, n));
  }

  /** An event that does not concern the thread changes nothing. */
  lemma IdleStep(pid: int, ix: SoftIndex, ps0: PrevState, swl: seq<Switch>, n: nat)
    requires n < |swl| && ps0.state == UNSEEN && Ps(pid, ps0, swl, n).state != UNSEEN
    ensures FirstTime(pid, ps0, swl, n + 1) == FirstTime(pid, ps0, swl, n)
    ensures !Effective(pid, Ps(pid, ps0, swl, n).state, swl[n]) ==>
      && Real(pid, ix, ps0, swl, n + 1) == Real(pid, ix, ps0, swl, n) && Ps(pid, ps0, swl, n + 1) == Ps(pid, ps0, swl, n)
      && LastStart(pid, ix, ps0, swl, n + 1) == LastStart(pid, ix, ps0, swl, n)
  {
  }

  lemma {:induction false} KeyStays(pid: int, ix: SoftIndex, ps0: PrevState, swl: seq<Switch>, a: nat, b: nat, k: u64)
    requires a <= b <= |swl| && k in Real(pid, ix, ps0, swl, a)
    ensures k in Real(pid, ix, ps0, swl, b)
    decreases b
  {
    if a < b {
      KeyStays(pid, ix, ps0, swl, a, b - 1, k);
      PutAllHas(Real(pid, ix, ps0, swl, b - 1), Puts(pid, ix, Ps(pid, ps0, swl, b - 1), swl[b - 1]), k);
    }
  }

  /** From the second event on the map holds something. */
  lemma TwiceStored(pid: int, ix: SoftIndex, ps0: PrevState, swl: seq<Switch>, n: nat)
    requires n <= |swl| && ps0.state == UNSEEN && Sorted(swl) && NoStraddle(pid, ix, ps0, swl) && SeenTwice(pid, ps0, swl, n)
    ensures Real(pid, ix, ps0, swl, n) != map[]
  {
    var i :| 0 <= i < n && SeenAgainAt(pid, ps0, swl, i);
    LastTileStep(pid, ix, ps0, swl, i);
    KeyStays(pid, ix, ps0, swl, i + 1, n, Ps(pid, ps0, swl, i).time);
  }

  /** The last segment of a map that is not empty reaches to the last event, and its first starts with the first. */
  lemma {:induction false} LastTile(pid: int, ix: SoftIndex, ps0: PrevState, swl: seq<Switch>, n: nat)
    requires n <= |swl| && ps0.state == UNSEEN && Sorted(swl) && NoStraddle(pid, ix, ps0, swl)
    requires Ps(pid, ps0, swl, n).state != UNSEEN && Real(pid, ix, ps0, swl, n) != map[]
    ensures var m := Real(pid, ix, ps0, swl, n); var y := LastStart(pid, ix, ps0, swl, n);
      y in m && m[y].etime == Ps(pid, ps0, swl, n).time && forall k :: k in m ==> k <= y
  {
    SeenOrNot(pid, ix, ps0, swl, n - 1);
    if Effective(pid, Ps(pid, ps0, swl, n - 1).state, swl[n - 1]) {
      LastTileStep(pid, ix, ps0, swl, n - 1);
    } else {
      LastTile(pid, ix, ps0, swl, n - 1);
      IdleStep(pid, ix, ps0, swl, n - 1);
    }
  }

  lemma {:induction false} FirstStored(pid: int, ix: SoftIndex, ps0: PrevState, swl: seq<Switch>, n: nat)
    requires n <= |swl| && ps0.state == UNSEEN && Sorted(swl) && NoStraddle(pid, ix, ps0, swl)
    requires Ps(pid, ps0, swl, n).state != UNSEEN && Real(pid, ix, ps0, swl, n) != map[]
    ensures FirstTime(pid, ps0, swl, n) in Real(pid, ix, ps0, swl, n)
  {
    SeenOrNot(pid, ix, ps0, swl, n - 1);
    IdleStep(pid, ix, ps0, swl, n - 1);
    if Real(pid, ix, ps0, swl, n - 1) != map[] { FirstStored(pid, ix, ps0, swl, n - 1); }
    if Effective(pid, Ps(pid, ps0, swl, n - 1).state, swl[n - 1]) {
      LastTileStep(pid, ix, ps0, swl, n - 1);
      if Real(pid, ix, ps0, swl, n - 1) == map[] { OnceOnly(pid, ix, ps0, swl, n - 1); }
    }
  }

  lemma OnceOnly(pid: int, ix: SoftIndex, ps0: PrevState, swl: seq<Switch>, n: nat)
    requires n <= |swl| && ps0.state == UNSEEN && Sorted(swl) && NoStraddle(pid, ix, ps0, swl)
    requires Ps(pid, ps0, swl, n).state != UNSEEN && Real(pid, ix, ps0, swl, n) == map[]
    ensures FirstTime(pid, ps0, swl, n) == Ps(pid, ps0, swl, n).time
  {
    if SeenTwice(pid, ps0, swl, n) {
      TwiceStored(pid, ix, ps0, swl, n);
    } else {
      var i := OnlyEvent(pid, ix, ps0, swl, n);
    }
  }

  // ---- searching a map whose segment at x is cut ----

  /** Segments one after the other, none reaching beyond hi; the last starts at y and reaches hi. */
  ghost predicate Chain(c: Table, hi: int, y: int) {
    && (forall k :: k in c ==> k <= c[k].etime <= hi && k <= y)
    && (forall k, l :: k in c && l in c && k < l ==> c[k].etime <= l)
    && (c != map[] ==> y in c && c[y].etime == hi)
  }

  lemma CutFloor(c: Table, z: Seg, s: u64)
    ensures FloorOf(c[z.stime := z].Keys, s).Some? <==> z.stime <= s || exists k :: k in c && k <= s
  {
    var m := c[z.stime := z];
    var f := FloorOf(m.Keys, s);
    assert z.stime in m.Keys;
    if f.Some? {
      assert f.value == z.stime || f.value in c;
    } else {
      forall k | k in c ensures s < k { assert k in m.Keys; }
    }
  }

  lemma CutEnds(c: Table, z: Seg, hi: int, y: int, s: u64, e: u64, f: u64)
    requires Chain(c, hi, y) && z.stime == z.etime && s <= e && IsFloor(c[z.stime := z].Keys, s, f)
    ensures NoneReaches(c[z.stime := z], f, e)
      <==> z.stime < e && (c == map[] || hi < e || y == z.stime || y <= z.stime <= s)
  {
    var m := c[z.stime := z];
    if c != map[] && y != z.stime { assert y in m && m[y].etime == hi; }
    assert z.stime in m.Keys && m[z.stime].etime == z.stime;
    if z.stime < e && (c == map[] || hi < e || y == z.stime || y <= z.stime <= s) {
      forall x | x in m && f <= x ensures m[x].etime < e {
        if x != z.stime { assert x in c && m[x] == c[x]; }
      }
    }
  }

  lemma CutSearch(c: Table, z: Seg, hi: int, y: int, s: u64, e: u64)
    requires Chain(c, hi, y) && z.stime == z.etime && s <= e
    ensures var m := c[z.stime := z]; var f := FloorOf(m.Keys, s);
      (f.Some? && NoneReaches(m, f.value, e)) <==>
        && z.stime < e && (z.stime <= s || exists k :: k in c && k <= s)
        && (c == map[] || hi < e || y == z.stime || y <= z.stime <= s)
  {
    var f := FloorOf(c[z.stime := z].Keys, s);
    CutFloor(c, z, s);
    if f.Some? { CutEnds(c, z, hi, y, s, e, f.value); }
  }

  // ---- the finished map of a thread that exits ----

  /** All segments of the thread before the closing: with the first event's if that comes after the exit. */
  ghost function Whole(pid: int, ix: SoftIndex, swl: seq<Switch>): Table
    requires swl != [] && Seen(pid, swl)
  {
    if InitialState(pid, swl).time < FirstSeen(pid, swl)
    then First(pid, ix, InitialState(pid, swl), swl, |swl|) + RealTable(pid, ix, swl)
    else RealTable(pid, ix, swl)
  }

  /** With the first event before the exit. */
  lemma WholeLate(pid: int, ix: SoftIndex, swl: seq<Switch>)
    requires swl != [] && Sorted(swl) && Clean(pid, ix, swl) && Seen(pid, swl)
    requires FirstSeen(pid, swl) <= InitialState(pid, swl).time
    ensures var ps0 := InitialState(pid, swl); var c := Whole(pid, ix, swl);
      && Chain(c, LastSeen(pid, swl), LastStart(pid, ix, ps0, swl, |swl|))
      && (c == map[] ==> LastSeen(pid, swl) == FirstSeen(pid, swl) && !SeenTwice(pid, ps0, swl, |swl|))
      && (c != map[] ==> SeenTwice(pid, ps0, swl, |swl|) && FirstSeen(pid, swl) in c)
      && forall k :: k in c ==> FirstSeen(pid, swl) <= k
  {
    var ps0 := InitialState(pid, swl);
    RealTiles(pid, ix, ps0, swl, |swl|);
    if SeenTwice(pid, ps0, swl, |swl|) {
      TwiceStored(pid, ix, ps0, swl, |swl|);
      LastTile(pid, ix, ps0, swl, |swl|);
      FirstStored(pid, ix, ps0, swl, |swl|);
    } else {
      var i := OnlyEvent(pid, ix, ps0, swl, |swl|);
    }
  }

  lemma JoinChains(a: Table, b: Table, t: int, hi: int, y: int)
    requires Chain(b, hi, y) && b != map[] && t <= hi && (forall k :: k in b ==> t <= k)
    requires (forall k :: k in a ==> k < t && k <= a[k].etime <= t) && forall k, l :: k in a && l in a && k < l ==> a[k].etime <= l
    ensures Chain(a + b, hi, y)
  {
  }

  lemma WholeTwice(pid: int, ix: SoftIndex, swl: seq<Switch>)
    requires swl != [] && Sorted(swl) && Clean(pid, ix, swl) && Seen(pid, swl)
    requires InitialState(pid, swl).time < FirstSeen(pid, swl) && SeenTwice(pid, InitialState(pid, swl), swl, |swl|)
    ensures Chain(Whole(pid, ix, swl), LastSeen(pid, swl), LastStart(pid, ix, InitialState(pid, swl), swl, |swl|))
  {
    var ps0, n := InitialState(pid, swl), |swl|;
    RealTiles(pid, ix, ps0, swl, n);
    EarlyIs(pid, ix, swl);
    FirstBefore(pid, ix, swl);
    TwiceStored(pid, ix, ps0, swl, n);
    LastTile(pid, ix, ps0, swl, n);
    var a, b := First(pid, ix, ps0, swl, n), RealTable(pid, ix, swl);
    JoinChains(a, b, FirstSeen(pid, swl), LastSeen(pid, swl), LastStart(pid, ix, ps0, swl, n));
  }

  lemma WholeOnce(pid: int, ix: SoftIndex, swl: seq<Switch>)
    requires swl != [] && Sorted(swl) && Clean(pid, ix, swl) && Seen(pid, swl)
    requires InitialState(pid, swl).time < FirstSeen(pid, swl) && !SeenTwice(pid, InitialState(pid, swl), swl, |swl|)
    ensures Chain(Whole(pid, ix, swl), LastSeen(pid, swl), LastStart(pid, ix, InitialState(pid, swl), swl, |swl|))
  {
    var ps0, n := InitialState(pid, swl), |swl|;
    EarlyIs(pid, ix, swl);
    var i := OnlyEvent(pid, ix, ps0, swl, n);
    FirstRunClean(pid, ix, ps0, swl, i);
    LastPiece(pid, ix, ps0, swl[i], map[]);
    assert First(pid, ix, ps0, swl, n) + map[] == First(pid, ix, ps0, swl, n);
  }

  lemma FirstRunClean(pid: int, ix: SoftIndex, ps0: PrevState, swl: seq<Switch>, i: nat)
    requires i < |swl| && NoStraddle(pid, ix, ps0, swl) && Keyed(ix) && ps0.time < swl[i].time && ps0.state == UNSEEN
    requires Out(pid, swl[i]) || In(pid, swl[i])
    requires Ps(pid, ps0, swl, i).time == ps0.time
    ensures Out(pid, swl[i]) ==> !Straddles(ix, ps0.time, swl[i])
  {
    assert CleanAt(pid, ix, ps0, swl, i);
  }

  /** With the exit before the first event. */
  lemma WholeEarly(pid: int, ix: SoftIndex, swl: seq<Switch>)
    requires swl != [] && Sorted(swl) && Clean(pid, ix, swl) && Seen(pid, swl)
    requires InitialState(pid, swl).time < FirstSeen(pid, swl)
    ensures var ps0 := InitialState(pid, swl); var c := Whole(pid, ix, swl);
      && Chain(c, LastSeen(pid, swl), LastStart(pid, ix, ps0, swl, |swl|))
      && ps0.time in c && forall k :: k in c ==> ps0.time <= k
  {
    var ps0 := InitialState(pid, swl);
    EarlyIs(pid, ix, swl);
    RealTiles(pid, ix, ps0, swl, |swl|);
    if SeenTwice(pid, ps0, swl, |swl|) { WholeTwice(pid, ix, swl); } else { WholeOnce(pid, ix, swl); }
  }

  lemma FirstBefore(pid: int, ix: SoftIndex, swl: seq<Switch>)
    requires swl != [] && Clean(pid, ix, swl) && Seen(pid, swl) && InitialState(pid, swl).time < FirstSeen(pid, swl)
    ensures forall k :: k in First(pid, ix, InitialState(pid, swl), swl, |swl|) ==> k < FirstSeen(pid, swl)
  {
    EarlyIs(pid, ix, swl);
    forall k | k in First(pid, ix, InitialState(pid, swl), swl, |swl|) && k != InitialState(pid, swl).time
      ensures k < FirstSeen(pid, swl)
    {
      assert k in Early(pid, ix, swl);
    }
  }

  lemma WholeIsCut(pid: int, ix: SoftIndex, swl: seq<Switch>, z: Seg)
    requires swl != [] && Sorted(swl) && Clean(pid, ix, swl) && Seen(pid, swl) && z.stime == InitialState(pid, swl).time
    ensures Whole(pid, ix, swl)[z.stime := z] == (Early(pid, ix, swl) + RealTable(pid, ix, swl))[z.stime := z]
  {
    EarlyIs(pid, ix, swl);
    if z.stime < FirstSeen(pid, swl) {
      CutFirst(First(pid, ix, InitialState(pid, swl), swl, |swl|), RealTable(pid, ix, swl), z.stime, z);
    } else {
      NothingEarly(pid, ix, swl);
      assert map[] + RealTable(pid, ix, swl) == RealTable(pid, ix, swl);
    }
  }

  /** The search in the finished map runs off exactly as the trace tells. */
  lemma SearchFailsIff(q: int, ix: SoftIndex, swl: seq<Switch>, s: u64, e: u64)
    requires swl != [] && Sorted(swl) && Clean(q, ix, swl) && s <= e <= TraceEnd(swl)
    requires ExitTime(q, swl).Some? ==> Seen(q, swl)
    ensures var m := Broken(q, ix, InitialState(q, swl), swl, map[]);
      m.Some? && (FloorOf(m.value.Keys, s).Some? && NoneReaches(m.value, FloorOf(m.value.Keys, s).value, e)
        <==> SearchFails(q, ix, swl, s, e))
  {
    var ps0 := InitialState(q, swl);
    if ExitTime(q, swl).None? {
      NoExitTable(q, ix, swl);
      var m := Broken(q, ix, ps0, swl, map[]).value;
      assert TraceEnd(swl) in m && m[TraceEnd(swl)].etime == TraceEnd(swl);
    } else {
      var z := ExitTable(q, ix, swl);
      WholeIsCut(q, ix, swl, z);
      if FirstSeen(q, swl) <= ps0.time { WholeLate(q, ix, swl); } else { WholeEarly(q, ix, swl); }
      CutSearch(Whole(q, ix, swl), z, LastSeen(q, swl), LastStart(q, ix, ps0, swl, |swl|), s, e);
    }
  }
}
