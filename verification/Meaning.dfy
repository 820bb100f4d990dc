/** The weights of the finished graph, in terms of the trace alone. */
module Meaning {
  import opened Events
  import opened TreeMaps
  import opened Tables
  import opened Cascades
  import opened Instants
  import opened WaitForGraphs
  import opened Redistribution
  import opened WaitPaths
  import opened SoftIndexes
  import opened Breaking
  import opened Tiling
  import opened Partition
  import opened Matching
  import opened TraceFacts
  import opened Searches
  import opened Program

  // ---- when a map reaches back to the start of a wait ----

  lemma WholeReaches(q: int, ix: SoftIndex, swl: seq<Switch>, z: Seg, s: u64)
    requires swl != [] && Sorted(swl) && Clean(q, ix, swl) && Seen(q, swl) && z.stime == InitialState(q, swl).time
    ensures FloorOf(Whole(q, ix, swl)[z.stime := z].Keys, s).Some? <==> ReachesBack(q, swl, s)
  {
    CutFloor(Whole(q, ix, swl), z, s);
    if FirstSeen(q, swl) <= z.stime { WholeLate(q, ix, swl); } else { WholeEarly(q, ix, swl); }
  }

  lemma AliveReaches(q: int, ix: SoftIndex, swl: seq<Switch>, s: u64)
    requires swl != [] && Sorted(swl) && Clean(q, ix, swl) && ExitTime(q, swl).None?
    ensures var m := Broken(q, ix, InitialState(q, swl), swl, map[]);
      m.Some? && (FloorOf(m.value.Keys, s).Some? <==> ReachesBack(q, swl, s))
  {
    var ps0, z := InitialState(q, swl), Seg(q, BLOCKED, TraceEnd(swl), TraceEnd(swl), -UNKNOWN);
    NoExitTable(q, ix, swl);
    if Seen(q, swl) {
      FirstTimeIn(q, ps0, swl, |swl|);
      WholeReaches(q, ix, swl, z, s);
    } else {
      SeenOrNot(q, ix, ps0, swl, |swl|);
      CutFloor(map[], z, s);
    }
  }

  lemma FloorIff(q: int, ix: SoftIndex, swl: seq<Switch>, s: u64)
    requires swl != [] && Sorted(swl) && Clean(q, ix, swl) && (ExitTime(q, swl).Some? ==> Seen(q, swl))
    ensures var m := Broken(q, ix, InitialState(q, swl), swl, map[]);
      m.Some? && (FloorOf(m.value.Keys, s).Some? <==> ReachesBack(q, swl, s))
  {
    if ExitTime(q, swl).None? {
      AliveReaches(q, ix, swl, s);
    } else {
      var z := ExitTable(q, ix, swl);
      WholeIsCut(q, ix, swl, z);
      WholeReaches(q, ix, swl, z, s);
    }
  }

  /** Of every listed thread that a listed thread waits for, the map reaches back to the start of the wait. */
  ghost predicate TraceCovered(pl: seq<int>, swl: seq<Switch>)
    requires swl != []
  {
    forall p, q, s: u64, e: u64 :: p in pl && q in pl && StoredWait(p, swl, s, e, q) ==> ReachesBack(q, swl, s)
  }

  /** That the maps cover the waits can be read off the trace. */
  lemma CoveredIff(pl: seq<int>, ix: SoftIndex, swl: seq<Switch>)
    requires swl != [] && Sorted(swl) && AllClean(pl, ix, swl) && ExitsSeen(pl, swl) && AllSurvive(pl, ix, swl)
    ensures Covered(AllBroken(pl, ix, swl)) <==> TraceCovered(pl, swl)
  {
    var sm: SegMap := AllBroken(pl, ix, swl);
    if Covered(sm) {
      forall p, q, s: u64, e: u64 | p in pl && q in pl && StoredWait(p, swl, s, e, q) ensures ReachesBack(q, swl, s) {
        MatchingFinished(p, ix, swl, s, e, q);
        FloorIff(q, ix, swl, s);
        assert s in sm[p] && sm[p][s] == Seg(p, BLOCKED, s, e, q);
      }
    }
    if TraceCovered(pl, swl) {
      forall p: int, k: u64 | p in sm && k in sm[p] && sm[p][k].state == BLOCKED && sm[p][k].waitFor in sm
        ensures FloorOf(sm[sm[p][k].waitFor].Keys, k).Some?
      {
        WaitIsOver(p, ix, swl, k);
        FloorIff(sm[p][k].waitFor, ix, swl, k);
      }
    }
  }

  // ---- who waits for whom, read off the trace ----

  /** At instant t thread x is in a wait for y. */
  ghost predicate BlockedOn(swl: seq<Switch>, x: int, y: int, t: int)
    requires swl != []
  {
    exists s: u64, e: u64 :: StoredWait(x, swl, s, e, y) && s <= t < e
  }

  lemma WaitsOnIff(pl: seq<int>, ix: SoftIndex, swl: seq<Switch>, x: int, y: int, t: int)
    requires swl != [] && Sorted(swl) && AllClean(pl, ix, swl) && ExitsSeen(pl, swl) && AllSurvive(pl, ix, swl) && x in pl
    ensures WaitsOn(AllBroken(pl, ix, swl), x, y, t) <==> BlockedOn(swl, x, y, t)
  {
    var sm: SegMap := AllBroken(pl, ix, swl);
    if k: int :| BlockedAt(sm, x, k, t) && sm[x][k].waitFor == y {
      WaitIsOver(x, ix, swl, k);
      assert StoredWait(x, swl, k, sm[x][k].etime, y);
    }
    if s: u64, e: u64 :| StoredWait(x, swl, s, e, y) && s <= t < e {
      MatchingFinished(x, ix, swl, s, e, y);
      assert BlockedAt(sm, x, s, t);
    }
  }

  ghost predicate Waiting(swl: seq<Switch>, x: int, t: int)
    requires swl != []
  {
    exists y :: BlockedOn(swl, x, y, t)
  }

  /** Listed threads each in a wait for the next at instant t, the last in a wait for somebody. */
  ghost predicate WaitPath(swl: seq<Switch>, pl: seq<int>, t: int, ps: seq<int>)
    requires swl != []
  {
    && ps != [] && (forall i :: 0 <= i < |ps| ==> ps[i] in pl)
    && (forall i :: 0 < i < |ps| ==> BlockedOn(swl, ps[i - 1], ps[i], t))
    && Waiting(swl, ps[|ps| - 1], t)
  }

  /** Following at t who waits for whom, from p one gets to x. */
  ghost predicate LeadsTo(swl: seq<Switch>, pl: seq<int>, t: int, p: int, x: int)
    requires swl != []
  {
    exists ps :: WaitPath(swl, pl, t, ps) && ps[0] == p && ps[|ps| - 1] == x
  }

  /** How many of the threads ql wait at t, directly or through others, for what x waits for. */
  ghost function HowMany(swl: seq<Switch>, pl: seq<int>, ql: seq<int>, t: int, x: int): nat
    requires swl != []
  {
    if ql == [] then 0 else (if LeadsTo(swl, pl, t, ql[0], x) then 1 else 0) + HowMany(swl, pl, ql[1..], t, x)
  }

  /** That number summed over the instants of [lo, hi) at which x waits for y. */
  ghost function WaitedTime(swl: seq<Switch>, pl: seq<int>, x: int, y: int, lo: int, hi: int): nat
    requires swl != []
    decreases hi - lo
  {
    if lo >= hi then 0
    else (if BlockedOn(swl, x, y, lo) then HowMany(swl, pl, pl, lo, x) else 0) + WaitedTime(swl, pl, x, y, lo + 1, hi)
  }

  // ---- the maps tell the same ----

  /** The inputs for which the whole second phase is defined. */
  ghost predicate Ready(pl: seq<int>, ix: SoftIndex, swl: seq<Switch>)
    requires swl != []
  {
    Inputs(true, pl, ix, swl) && ExitsSeen(pl, swl) && AllSurvive(pl, ix, swl) && Good(AllBroken(pl, ix, swl), true)
  }

  lemma {:induction false} ReachIsPath(pl: seq<int>, ix: SoftIndex, swl: seq<Switch>, p: int, k: int, t: int, x: int)
    requires swl != [] && Ready(pl, ix, swl) && BlockedAt(AllBroken(pl, ix, swl), p, k, t)
    requires Reaches(AllBroken(pl, ix, swl), p, k, t, x)
    ensures LeadsTo(swl, pl, t, p, x)
    decreases AllBroken(pl, ix, swl)[p][k].etime
  {
    var sm: SegMap := AllBroken(pl, ix, swl);
    var q := sm[p][k].waitFor;
    assert WaitsOn(sm, p, q, t);
    WaitsOnIff(pl, ix, swl, p, q, t);
    assert p in pl;
    if p == x {
      assert Waiting(swl, p, t);
      assert WaitPath(swl, pl, t, [p]);
    } else {
      var l :| BlockedAt(sm, q, l, t) && Earlier(sm, p, k, l, t) && Reaches(sm, q, l, t, x);
      ReachIsPath(pl, ix, swl, q, l, t, x);
      LeadsOn(swl, pl, t, p, q, x);
    }
  }

  lemma LeadsOn(swl: seq<Switch>, pl: seq<int>, t: int, p: int, q: int, x: int)
    requires swl != [] && LeadsTo(swl, pl, t, q, x) && p in pl && BlockedOn(swl, p, q, t)
    ensures LeadsTo(swl, pl, t, p, x)
  {
    var ps :| WaitPath(swl, pl, t, ps) && ps[0] == q && ps[|ps| - 1] == x;
    PathGrows(swl, pl, t, p, ps);
  }

  lemma PathGrows(swl: seq<Switch>, pl: seq<int>, t: int, p: int, ps: seq<int>)
    requires swl != [] && WaitPath(swl, pl, t, ps) && p in pl && BlockedOn(swl, p, ps[0], t)
    ensures LeadsTo(swl, pl, t, p, ps[|ps| - 1])
  {
    var more := [p] + ps;
    assert more[|more| - 1] == ps[|ps| - 1];
    forall i | 0 < i < |more| ensures BlockedOn(swl, more[i - 1], more[i], t) {
      if i > 1 { assert BlockedOn(swl, ps[i - 1 - 1], ps[i - 1], t); }
    }
    assert WaitPath(swl, pl, t, more);
  }

  lemma {:induction false} PathIsReach(pl: seq<int>, ix: SoftIndex, swl: seq<Switch>, ps: seq<int>, t: int, k: int)
    requires swl != [] && Ready(pl, ix, swl) && WaitPath(swl, pl, t, ps) && BlockedAt(AllBroken(pl, ix, swl), ps[0], k, t)
    ensures Reaches(AllBroken(pl, ix, swl), ps[0], k, t, ps[|ps| - 1])
    decreases |ps|
  {
    if |ps| > 1 {
      var sm: SegMap := AllBroken(pl, ix, swl);
      var rest := ps[1..];
      assert BlockedOn(swl, ps[1 - 1], ps[1], t);
      WaitsOnIff(pl, ix, swl, ps[0], ps[1], t);
      SameSegment(sm, ps[0], k, t);
      assert sm[ps[0]][k].waitFor == ps[1];
      RestIsPath(swl, pl, t, ps);
      var l := PathHead(pl, ix, swl, rest, t);
      WaitsEndEarlier(sm, ps[0], k, l, t);
      PathIsReach(pl, ix, swl, rest, t, l);
    }
  }

  lemma RestIsPath(swl: seq<Switch>, pl: seq<int>, t: int, ps: seq<int>)
    requires swl != [] && WaitPath(swl, pl, t, ps) && |ps| > 1
    ensures WaitPath(swl, pl, t, ps[1..])
  {
    var rest := ps[1..];
    assert forall i :: 0 <= i < |rest| ==> rest[i] == ps[i + 1];
    forall i | 0 < i < |rest| ensures BlockedOn(swl, rest[i - 1], rest[i], t) { assert BlockedOn(swl, ps[i + 1 - 1], ps[i + 1], t); }
  }

  /** The first thread of a path is in a stored wait. */
  lemma PathHead(pl: seq<int>, ix: SoftIndex, swl: seq<Switch>, ps: seq<int>, t: int) returns (k: int)
    requires swl != [] && Ready(pl, ix, swl) && WaitPath(swl, pl, t, ps)
    ensures BlockedAt(AllBroken(pl, ix, swl), ps[0], k, t)
  {
    var y: int;
    if |ps| > 1 {
      assert BlockedOn(swl, ps[1 - 1], ps[1], t);
      y := ps[1];
    } else {
      y :| BlockedOn(swl, ps[|ps| - 1], y, t);
    }
    WaitsOnIff(pl, ix, swl, ps[0], y, t);
    k :| BlockedAt(AllBroken(pl, ix, swl), ps[0], k, t) && AllBroken(pl, ix, swl)[ps[0]][k].waitFor == y;
  }

  /** Following the stored waits, or the waits the trace tells of, is the same. */
  lemma LeadsIff(pl: seq<int>, ix: SoftIndex, swl: seq<Switch>, p: int, t: int, x: int)
    requires swl != [] && Ready(pl, ix, swl)
    ensures PathReaches(AllBroken(pl, ix, swl), p, t, x) <==> LeadsTo(swl, pl, t, p, x)
  {
    var sm: SegMap := AllBroken(pl, ix, swl);
    if k: int :| BlockedAt(sm, p, k, t) && Reaches(sm, p, k, t, x) { ReachIsPath(pl, ix, swl, p, k, t, x); }
    if ps :| WaitPath(swl, pl, t, ps) && ps[0] == p && ps[|ps| - 1] == x {
      var k := PathHead(pl, ix, swl, ps, t);
      PathIsReach(pl, ix, swl, ps, t, k);
    }
  }

  lemma {:induction false} HowManyIs(pl: seq<int>, ix: SoftIndex, swl: seq<Switch>, ql: seq<int>, t: int, x: int)
    requires swl != [] && Ready(pl, ix, swl)
    ensures Crowd(AllBroken(pl, ix, swl), ql, t, x) == HowMany(swl, pl, ql, t, x)
  {
    if ql != [] {
      LeadsIff(pl, ix, swl, ql[0], t, x);
      HowManyIs(pl, ix, swl, ql[1..], t, x);
    }
  }

  /** Nobody gets to a thread that is not listed. */
  lemma {:induction false} NobodyThere(swl: seq<Switch>, pl: seq<int>, ql: seq<int>, t: int, x: int)
    requires swl != [] && x !in pl
    ensures HowMany(swl, pl, ql, t, x) == 0
  {
    if ql != [] { NobodyThere(swl, pl, ql[1..], t, x); }
  }

  /** At instant t the maps charge the wait of x for y as the trace tells. */
  ghost predicate Agree(sm: SegMap, swl: seq<Switch>, pl: seq<int>, x: int, y: int, t: int)
    requires swl != [] && Good(sm, true)
  {
    && (WaitsOn(sm, x, y, t) <==> BlockedOn(swl, x, y, t))
    && (BlockedOn(swl, x, y, t) ==> Crowd(sm, pl, t, x) == HowMany(swl, pl, pl, t, x))
  }

  lemma MapsAgree(pl: seq<int>, ix: SoftIndex, swl: seq<Switch>, x: int, y: int, t: int)
    requires swl != [] && Ready(pl, ix, swl) && x in pl
    ensures Agree(AllBroken(pl, ix, swl), swl, pl, x, y, t)
  {
    WaitsOnIff(pl, ix, swl, x, y, t);
    HowManyIs(pl, ix, swl, pl, t, x);
  }

  lemma {:induction false} SameTime(sm: SegMap, swl: seq<Switch>, pl: seq<int>, x: int, y: int, lo: int, hi: int)
    requires swl != [] && Good(sm, true) && forall t :: Agree(sm, swl, pl, x, y, t)
    ensures PairTime(sm, pl, x, y, lo, hi) == WaitedTime(swl, pl, x, y, lo, hi)
    decreases hi - lo
  {
    if lo < hi {
      assert Agree(sm, swl, pl, x, y, lo);
      SameTime(sm, swl, pl, x, y, lo + 1, hi);
    }
  }

  lemma {:induction false} NoTime(sm: SegMap, swl: seq<Switch>, pl: seq<int>, x: int, y: int, lo: int, hi: int)
    requires swl != [] && Good(sm, true) && x !in pl && x !in sm
    ensures PairTime(sm, pl, x, y, lo, hi) == 0 == WaitedTime(swl, pl, x, y, lo, hi)
    decreases hi - lo
  {
    if lo < hi {
      NobodyThere(swl, pl, pl, lo, x);
      NoTime(sm, swl, pl, x, y, lo + 1, hi);
    }
  }

  lemma WaitedTimeIs(pl: seq<int>, ix: SoftIndex, swl: seq<Switch>, x: int, y: int, lo: int, hi: int)
    requires swl != [] && Ready(pl, ix, swl)
    ensures PairTime(AllBroken(pl, ix, swl), pl, x, y, lo, hi) == WaitedTime(swl, pl, x, y, lo, hi)
  {
    var sm: SegMap := AllBroken(pl, ix, swl);
    if x in pl {
      forall t ensures Agree(sm, swl, pl, x, y, t) { MapsAgree(pl, ix, swl, x, y, t); }
      SameTime(sm, swl, pl, x, y, lo, hi);
    } else {
      NoTime(sm, swl, pl, x, y, lo, hi);
    }
  }

  // ---- the weights ----

  lemma OutcomeIsReady(pl: seq<int>, ix: SoftIndex, swl: seq<Switch>)
    requires swl != [] && Inputs(true, pl, ix, swl) && Outcome(true, pl, ix, swl).Some?
    ensures Ready(pl, ix, swl) && Outcome(true, pl, ix, swl).value == DriverEdges(AllBroken(pl, ix, swl), true, pl)
  {
    SurvivesIff(pl, ix, swl);
    InputsAreGood(true, pl, ix, swl);
  }

  /** The meaning of the graph: with what the search finds handed on, the weight of (x, y) is the sum, over the instants at
      which x waits for y, of how many listed threads then wait, directly or through others, for x, x itself included. */
  lemma WeightIsWaitedTime(pl: seq<int>, ix: SoftIndex, swl: seq<Switch>, x: int, y: int)
    requires swl != [] && Inputs(true, pl, ix, swl) && TraceCovered(pl, swl) && Outcome(true, pl, ix, swl).Some?
    ensures EdgeTime(Outcome(true, pl, ix, swl).value, Pair(x, y)) == WaitedTime(swl, pl, x, y, 0, U64_LIMIT)
  {
    OutcomeIsReady(pl, ix, swl);
    CoveredIff(pl, ix, swl);
    PairWeight(AllBroken(pl, ix, swl), pl, x, y);
    WaitedTimeIs(pl, ix, swl, x, y, 0, U64_LIMIT);
  }

  /** The same for the graph itself, under a key that the names of only one pair of threads make. */
  lemma GraphIsWaitedTime(pl: seq<int>, ix: SoftIndex, swl: seq<Switch>, k: string, x: int, y: int)
    requires swl != [] && Inputs(true, pl, ix, swl) && TraceCovered(pl, swl) && Outcome(true, pl, ix, swl).Some?
    requires forall a, b :: Filed(swl, k, a, b) <==> a == x && b == y
    ensures WeightOf(AddAll(map[], CommsOf(swl), Outcome(true, pl, ix, swl).value), k)
      == WaitedTime(swl, pl, x, y, 0, U64_LIMIT) % U64_LIMIT
  {
    forall a, b ensures Into(CommsOf(swl), k)(a, b) <==> a == x && b == y { IntoIsFiled(swl, k, a, b); }
    WeightIsWaitedTime(pl, ix, swl, x, y);
    WeightOfPair(Outcome(true, pl, ix, swl).value, CommsOf(swl), k, x, y);
  }

  /** Instants of [lo, hi) at which x waits for y. */
  ghost function OwnTime(swl: seq<Switch>, x: int, y: int, lo: int, hi: int): nat
    requires swl != []
    decreases hi - lo
  {
    if lo >= hi then 0 else (if BlockedOn(swl, x, y, lo) then 1 else 0) + OwnTime(swl, x, y, lo + 1, hi)
  }

  lemma {:induction false} OwnTimeIs(pl: seq<int>, ix: SoftIndex, swl: seq<Switch>, x: int, y: int, lo: int, hi: int)
    requires swl != [] && Sorted(swl) && AllClean(pl, ix, swl) && ExitsSeen(pl, swl) && AllSurvive(pl, ix, swl) && x in pl
    ensures TimeOn(AllBroken(pl, ix, swl), x, y, lo, hi) == OwnTime(swl, x, y, lo, hi)
    decreases hi - lo
  {
    if lo < hi {
      WaitsOnIff(pl, ix, swl, x, y, lo);
      OwnTimeIs(pl, ix, swl, x, y, lo + 1, hi);
    }
  }

  /** As shipped, the weight of (x, y) is the time x waits for y, as often as x is listed. */
  lemma ShippedWeightIsOwnTime(pl: seq<int>, ix: SoftIndex, swl: seq<Switch>, x: int, y: int)
    requires swl != [] && Inputs(false, pl, ix, swl) && AllClean(pl, ix, swl) && Outcome(false, pl, ix, swl).Some?
    ensures EdgeTime(Outcome(false, pl, ix, swl).value, Pair(x, y)) == OwnTime(swl, x, y, 0, U64_LIMIT) * multiset(pl)[x]
  {
    SurvivesIff(pl, ix, swl);
    GoodAsShipped(pl, ix, swl);
    AllApart(pl, ix, swl);
    ShippedWeight(AllBroken(pl, ix, swl), pl, x, y);
    if x in pl { OwnTimeIs(pl, ix, swl, x, y, 0, U64_LIMIT); } else { assert multiset(pl)[x] == 0; }
  }
}
