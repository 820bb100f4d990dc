/** Wait paths read off the stored segments, and the bounds they put on the weights. */
module WaitPaths {
  import opened Events
  import opened TreeMaps
  import opened Tables
  import opened Cascades
  import opened Instants
  import opened WaitForGraphs
  import opened Redistribution

  /** Every waker's map starts no later than the waits it ends. */
  ghost predicate Covered(sm: SegMap) {
    forall p, k :: p in sm && k in sm[p] && sm[p][k].state == BLOCKED && sm[p][k].waitFor in sm ==>
      FloorOf(sm[sm[p][k].waitFor].Keys, k).Some?
  }

  /** At instant t thread x is blocked on y. */
  ghost predicate WaitsOn(sm: SegMap, x: int, y: int, t: int) {
    exists k :: BlockedAt(sm, x, k, t) && sm[x][k].waitFor == y
  }

  /** x is p, blocked at t in segment k, or is met by following who is blocked on whom at t. */
  ghost predicate Reaches(sm: SegMap, p: int, k: int, t: int, x: int)
    requires Good(sm, true) && BlockedAt(sm, p, k, t)
    decreases sm[p][k].etime
  {
    p == x || exists l :: BlockedAt(sm, sm[p][k].waitFor, l, t) && Earlier(sm, p, k, l, t)
                          && Reaches(sm, sm[p][k].waitFor, l, t, x)
  }

  /** The waker's own wait ends before the wait it ends. */
  ghost predicate Earlier(sm: SegMap, p: int, k: int, l: int, t: int)
    requires BlockedAt(sm, p, k, t) && BlockedAt(sm, sm[p][k].waitFor, l, t)
  {
    sm[sm[p][k].waitFor][l].etime < sm[p][k].etime
  }

  /** The wait relation at one instant has no cycle: along it, waits end ever earlier. */
  lemma WaitsEndEarlier(sm: SegMap, p: int, k: int, l: int, t: int)
    requires Good(sm, true) && BlockedAt(sm, p, k, t) && BlockedAt(sm, sm[p][k].waitFor, l, t)
    ensures Earlier(sm, p, k, l, t)
  {
    assert AwakeAt(sm[sm[p][k].waitFor], sm[p][k].etime);
  }

  ghost predicate OnlyFrom(pick: EdgeSet, x: int) {
    forall a, b :: pick(a, b) ==> a == x
  }

  /** Once the path is past x's wait at t, it does not come back to x. */
  lemma {:induction false} NeverBack(sm: SegMap, w: Seg, t: int, pick: EdgeSet, x: int)
    requires Good(sm, true) && Rooted(sm, w) && Contains(w, t) && OnlyFrom(pick, x)
    requires forall l :: BlockedAt(sm, x, l, t) ==> w.etime < sm[x][l].etime
    ensures Hops(sm, true, w, t, pick) == 0
    decreases w.etime
  {
    var k :| ClipOf(sm, w, k);
    assert BlockedAt(sm, w.pid, k, t);
    if HasNext(sm, true, w, t) {
      NeverBack(sm, NextAt(sm, true, w, t), t, pick, x);
    }
  }

  /** At each instant a wait path leaves x at most once, and only when x is blocked. */
  lemma {:induction false} OnceAtMost(sm: SegMap, w: Seg, t: int, pick: EdgeSet, x: int)
    requires Good(sm, true) && Rooted(sm, w) && Contains(w, t) && OnlyFrom(pick, x)
    ensures Hops(sm, true, w, t, pick) <= 1
    ensures (forall l :: !BlockedAt(sm, x, l, t)) ==> Hops(sm, true, w, t, pick) == 0
    decreases w.etime
  {
    var k :| ClipOf(sm, w, k);
    assert BlockedAt(sm, w.pid, k, t);
    if HasNext(sm, true, w, t) {
      if w.pid == x {
        PastIt(sm, w, t, pick);
      } else {
        OnceAtMost(sm, NextAt(sm, true, w, t), t, pick, x);
      }
    }
  }

  lemma PastIt(sm: SegMap, w: Seg, t: int, pick: EdgeSet)
    requires Good(sm, true) && Rooted(sm, w) && Contains(w, t) && OnlyFrom(pick, w.pid) && HasNext(sm, true, w, t)
    ensures Hops(sm, true, NextAt(sm, true, w, t), t, pick) == 0
  {
    var k :| ClipOf(sm, w, k);
    SameSegment(sm, w.pid, k, t);
    NeverBack(sm, NextAt(sm, true, w, t), t, pick, w.pid);
  }

  /** A thread is in one blocked segment at a time. */
  lemma SameSegment(sm: SegMap, x: int, k: int, t: int)
    requires Good(sm, true) && BlockedAt(sm, x, k, t)
    ensures forall l :: BlockedAt(sm, x, l, t) ==> l == k
  {
  }

  ghost function Pair(x: int, y: int): EdgeSet {
    (a, b) => a == x && b == y
  }

  /** When every waker's map covers the waits it ends, the path of a window is the path on the stored segments: edge
      (x, y) is passed exactly if x is reached and is blocked on y. */
  lemma {:induction false} HopsIsReach(sm: SegMap, w: Seg, k: int, t: int, x: int, y: int)
    requires Good(sm, true) && Covered(sm) && Rooted(sm, w) && Contains(w, t) && ClipOf(sm, w, k)
    requires BlockedAt(sm, w.pid, k, t)
    ensures Hops(sm, true, w, t, Pair(x, y)) == if Reaches(sm, w.pid, k, t, x) && WaitsOn(sm, x, y, t) then 1 else 0
    decreases w.etime
  {
    OnceAtMost(sm, w, t, Pair(x, y), x);
    SameSegment(sm, w.pid, k, t);
    if HasNext(sm, true, w, t) {
      var v := NextAt(sm, true, w, t);
      var l :| ClipOf(sm, v, l);
      assert BlockedAt(sm, v.pid, l, t);
      SameSegment(sm, v.pid, l, t);
      if w.pid == x {
        NeverBack(sm, v, t, Pair(x, y), x);
      } else {
        WaitsEndEarlier(sm, w.pid, k, l, t);
        HopsIsReach(sm, v, l, t, x, y);
      }
    } else if w.pid != x {
      assert w.waitFor in sm ==> FloorOf(sm[w.waitFor].Keys, k).Some?;
    }
  }

  /** p is blocked at t and its wait path reaches x. */
  ghost predicate PathReaches(sm: SegMap, p: int, t: int, x: int)
    requires Good(sm, true)
  {
    exists k :: BlockedAt(sm, p, k, t) && Reaches(sm, p, k, t, x)
  }

  /** How many of the listed threads reach x at t. */
  ghost function Crowd(sm: SegMap, pl: seq<int>, t: int, x: int): nat
    requires Good(sm, true)
  {
    if pl == [] then 0 else (if PathReaches(sm, pl[0], t, x) then 1 else 0) + Crowd(sm, pl[1..], t, x)
  }

  ghost function PairTime(sm: SegMap, pl: seq<int>, x: int, y: int, lo: int, hi: int): nat
    requires Good(sm, true)
    decreases hi - lo
  {
    if lo >= hi then 0
    else (if WaitsOn(sm, x, y, lo) then Crowd(sm, pl, lo, x) else 0) + PairTime(sm, pl, x, y, lo + 1, hi)
  }

  lemma WaitHopsIsReach(sm: SegMap, p: int, t: int, x: int, y: int)
    requires Good(sm, true) && Covered(sm) && p in sm
    ensures WaitHops(sm, true, p, t, Pair(x, y)) == if PathReaches(sm, p, t, x) && WaitsOn(sm, x, y, t) then 1 else 0
  {
    WaitHopsIs(sm, true, p, t, Pair(x, y));
    if k :| BlockedAt(sm, p, k, t) {
      SameSegment(sm, p, k, t);
      HopsIsReach(sm, sm[p][k], k, t, x, y);
    }
  }

  lemma {:induction false} CrowdHopsIsCrowd(sm: SegMap, pl: seq<int>, t: int, x: int, y: int)
    requires Good(sm, true) && Covered(sm) && forall p :: p in pl ==> p in sm
    ensures CrowdHops(sm, true, pl, t, Pair(x, y)) == if WaitsOn(sm, x, y, t) then Crowd(sm, pl, t, x) else 0
  {
    if pl != [] {
      WaitHopsIsReach(sm, pl[0], t, x, y);
      CrowdHopsIsCrowd(sm, pl[1..], t, x, y);
    }
  }

  lemma {:induction false} CrowdTimeIsPairTime(sm: SegMap, pl: seq<int>, x: int, y: int, lo: int, hi: int)
    requires Good(sm, true) && Covered(sm) && forall p :: p in pl ==> p in sm
    ensures CrowdTime(sm, true, pl, Pair(x, y), lo, hi) == PairTime(sm, pl, x, y, lo, hi)
    decreases hi - lo
  {
    if lo < hi {
      CrowdHopsIsCrowd(sm, pl, lo, x, y);
      CrowdTimeIsPairTime(sm, pl, x, y, lo + 1, hi);
    }
  }

  /** Cascaded re-distribution: the weight of (x, y) sums, over the instants at which x is blocked on y, how many listed
      threads wait, directly or through others, for x. */
  lemma PairWeight(sm: SegMap, pl: seq<int>, x: int, y: int)
    requires Good(sm, true) && Covered(sm) && forall p :: p in pl ==> p in sm
    ensures EdgeTime(DriverEdges(sm, true, pl), Pair(x, y)) == PairTime(sm, pl, x, y, 0, U64_LIMIT)
  {
    DriverMeaning(sm, true, pl, Pair(x, y));
    CrowdTimeIsPairTime(sm, pl, x, y, 0, U64_LIMIT);
  }

  lemma WeightOfPair(es: seq<Edge>, comms: Comms, k: string, x: int, y: int)
    requires forall a, b :: Into(comms, k)(a, b) <==> a == x && b == y
    ensures WeightOf(AddAll(map[], comms, es), k) == EdgeTime(es, Pair(x, y)) % U64_LIMIT
  {
    SamePick(es, Into(comms, k), Pair(x, y));
    AddAllWeight(map[], comms, es, k);
  }

  /** The same, read off the finished graph: under a key that the names of only one pair of threads make. */
  lemma NamedPairWeight(sm: SegMap, pl: seq<int>, comms: Comms, k: string, x: int, y: int)
    requires Good(sm, true) && Covered(sm) && forall p :: p in pl ==> p in sm
    requires forall a, b :: Into(comms, k)(a, b) <==> a == x && b == y
    ensures WeightOf(AddAll(map[], comms, DriverEdges(sm, true, pl)), k) == PairTime(sm, pl, x, y, 0, U64_LIMIT) % U64_LIMIT
  {
    PairWeight(sm, pl, x, y);
    WeightOfPair(DriverEdges(sm, true, pl), comms, k, x, y);
  }

  // ---- bounds ----

  /** Instants of [lo, hi) at which x is blocked. */
  ghost function BlockedTime(sm: SegMap, x: int, lo: int, hi: int): nat
    decreases hi - lo
  {
    if lo >= hi then 0 else (if exists k :: BlockedAt(sm, x, k, lo) then 1 else 0) + BlockedTime(sm, x, lo + 1, hi)
  }

  lemma {:induction false} CrowdOnce(sm: SegMap, pl: seq<int>, t: int, pick: EdgeSet, x: int)
    requires Good(sm, true) && OnlyFrom(pick, x) && forall p :: p in pl ==> p in sm
    ensures CrowdHops(sm, true, pl, t, pick) <= if exists k :: BlockedAt(sm, x, k, t) then |pl| else 0
  {
    if pl != [] {
      WaitHopsIs(sm, true, pl[0], t, pick);
      if k :| BlockedAt(sm, pl[0], k, t) {
        OnceAtMost(sm, sm[pl[0]][k], t, pick, x);
      }
      CrowdOnce(sm, pl[1..], t, pick, x);
    }
  }

  /** n for every instant of [lo, hi) at which x is blocked. */
  ghost function BlockedBudget(sm: SegMap, x: int, n: nat, lo: int, hi: int): nat
    decreases hi - lo
  {
    if lo >= hi then 0
    else (if exists k :: BlockedAt(sm, x, k, lo) then n else 0) + BlockedBudget(sm, x, n, lo + 1, hi)
  }

  lemma {:induction false} BlockedBudgetIs(sm: SegMap, x: int, n: nat, lo: int, hi: int)
    ensures BlockedBudget(sm, x, n, lo, hi) == BlockedTime(sm, x, lo, hi) * n
    decreases hi - lo
  {
    if lo < hi {
      BlockedBudgetIs(sm, x, n, lo + 1, hi);
      OneMore(BlockedTime(sm, x, lo + 1, hi), n);
    }
  }

  lemma {:induction false} CrowdTimeOnce(sm: SegMap, pl: seq<int>, pick: EdgeSet, x: int, lo: int, hi: int)
    requires Good(sm, true) && OnlyFrom(pick, x) && forall p :: p in pl ==> p in sm
    ensures CrowdTime(sm, true, pl, pick, lo, hi) <= BlockedBudget(sm, x, |pl|, lo, hi)
    decreases hi - lo
  {
    if lo < hi {
      CrowdOnce(sm, pl, lo, pick, x);
      CrowdTimeOnce(sm, pl, pick, x, lo + 1, hi);
    }
  }

  /** All that is charged to the waits of x is at most the number of listed threads times the time x is blocked. */
  lemma OutWeightBound(sm: SegMap, pl: seq<int>, pick: EdgeSet, x: int)
    requires Good(sm, true) && OnlyFrom(pick, x) && forall p :: p in pl ==> p in sm
    ensures EdgeTime(DriverEdges(sm, true, pl), pick) <= BlockedTime(sm, x, 0, U64_LIMIT) * |pl|
  {
    DriverMeaning(sm, true, pl, pick);
    CrowdTimeOnce(sm, pl, pick, x, 0, U64_LIMIT);
    BlockedBudgetIs(sm, x, |pl|, 0, U64_LIMIT);
  }

  /** Threads whose wait at t ends before e. */
  ghost function EndingBefore(sm: SegMap, t: int, e: int): set<int> {
    set q | q in sm && exists k :: BlockedAt(sm, q, k, t) && sm[q][k].etime < e
  }

  /** A wait path at one instant meets every thread at most once. */
  lemma {:induction false} PathLength(sm: SegMap, w: Seg, t: int, pick: EdgeSet)
    requires Good(sm, true) && Rooted(sm, w) && Contains(w, t)
    ensures Hops(sm, true, w, t, pick) <= 1 + |EndingBefore(sm, t, w.etime)|
    decreases w.etime
  {
    if HasNext(sm, true, w, t) {
      var v := NextAt(sm, true, w, t);
      PathLength(sm, v, t, pick);
      FewerEnd(sm, t, v, w.etime);
    }
  }

  lemma FewerEnd(sm: SegMap, t: int, v: Seg, e: int)
    requires Good(sm, true) && Rooted(sm, v) && Contains(v, t) && v.etime < e
    ensures |EndingBefore(sm, t, v.etime)| < |EndingBefore(sm, t, e)|
  {
    var k :| ClipOf(sm, v, k);
    assert BlockedAt(sm, v.pid, k, t);
    SameSegment(sm, v.pid, k, t);
    var later, earlier := EndingBefore(sm, t, e), EndingBefore(sm, t, v.etime);
    assert v.pid in later && v.pid !in earlier;
    SmallerSet(earlier, later - {v.pid});
  }

  lemma SmallerSet(a: set<int>, b: set<int>)
    requires a <= b
    ensures |a| <= |b|
  {
    assert b == a + (b - a);
  }

  lemma OneMore(n: nat, m: nat)
    ensures (n + 1) * m == m + n * m
  {
  }

  lemma {:induction false} CrowdBound(sm: SegMap, pl: seq<int>, t: int, pick: EdgeSet)
    requires Good(sm, true) && forall p :: p in pl ==> p in sm
    ensures CrowdHops(sm, true, pl, t, pick) <= |pl| * |sm.Keys|
  {
    if pl != [] {
      WaitHopsIs(sm, true, pl[0], t, pick);
      if k :| BlockedAt(sm, pl[0], k, t) {
        var w := sm[pl[0]][k];
        PathLength(sm, w, t, pick);
        SameSegment(sm, pl[0], k, t);
        assert pl[0] !in EndingBefore(sm, t, w.etime);
        SmallerSet(EndingBefore(sm, t, w.etime), sm.Keys - {pl[0]});
      }
      CrowdBound(sm, pl[1..], t, pick);
      OneMore(|pl[1..]|, |sm.Keys|);
    }
  }

  /** No stored blocked segment leaves [lo, hi). */
  ghost predicate Within(sm: SegMap, lo: int, hi: int) {
    forall p, k, t :: BlockedAt(sm, p, k, t) ==> lo <= t < hi
  }

  /** n for every instant of [a, b) that lies in [lo, hi). */
  ghost function Budget(n: nat, lo: int, hi: int, a: int, b: int): nat
    decreases b - a
  {
    if a >= b then 0 else (if lo <= a < hi then n else 0) + Budget(n, lo, hi, a + 1, b)
  }

  lemma {:induction false} BudgetIs(n: nat, lo: int, hi: int, a: int, b: int)
    requires lo <= hi
    ensures a >= hi ==> Budget(n, lo, hi, a, b) == 0
    ensures lo <= a <= hi ==> Budget(n, lo, hi, a, b) <= (hi - a) * n
    ensures a <= lo ==> Budget(n, lo, hi, a, b) <= (hi - lo) * n
    decreases b - a
  {
    if a < b {
      BudgetIs(n, lo, hi, a + 1, b);
      if lo <= a < hi { OneMore(hi - (a + 1), n); }
    }
  }

  lemma {:induction false} CrowdTimeBound(sm: SegMap, pl: seq<int>, pick: EdgeSet, lo: int, hi: int, n: nat, a: int, b: int)
    requires Good(sm, true) && Within(sm, lo, hi) && n == |pl| * |sm.Keys| && forall p :: p in pl ==> p in sm
    ensures CrowdTime(sm, true, pl, pick, a, b) <= Budget(n, lo, hi, a, b)
    decreases b - a
  {
    if a < b {
      CrowdTimeBound(sm, pl, pick, lo, hi, n, a + 1, b);
      CrowdBound(sm, pl, a, pick);
      if !(lo <= a < hi) { CrowdZero(sm, pl, a, pick); }
    }
  }

  lemma {:induction false} CrowdZero(sm: SegMap, pl: seq<int>, t: int, pick: EdgeSet)
    requires Good(sm, true) && forall p :: p in pl ==> p in sm
    requires forall p, k :: !BlockedAt(sm, p, k, t)
    ensures CrowdHops(sm, true, pl, t, pick) == 0
  {
    if pl != [] {
      WaitHopsIs(sm, true, pl[0], t, pick);
      CrowdZero(sm, pl[1..], t, pick);
    }
  }

  lemma TotalBound(sm: SegMap, pl: seq<int>, pick: EdgeSet, lo: nat, hi: nat, n: nat)
    requires Good(sm, true) && forall p :: p in pl ==> p in sm
    requires Within(sm, lo, hi) && lo <= hi && n == |pl| * |sm.Keys|
    ensures 0 <= EdgeTime(DriverEdges(sm, true, pl), pick) <= (hi - lo) * n
  {
    DriverMeaning(sm, true, pl, pick);
    CrowdTimeBound(sm, pl, pick, lo, hi, n, 0, U64_LIMIT);
    BudgetIs(n, lo, hi, 0, U64_LIMIT);
  }

  /** No weight wraps as long as (span of the waits) x (listed threads) x (threads with segments) fits in 64 bits. */
  lemma NoOverflow(sm: SegMap, pl: seq<int>, comms: Comms, k: string, lo: nat, hi: nat)
    requires Good(sm, true) && forall p :: p in pl ==> p in sm
    requires Within(sm, lo, hi) && lo <= hi && (hi - lo) * (|pl| * |sm.Keys|) < U64_LIMIT
    ensures WeightOf(AddAll(map[], comms, DriverEdges(sm, true, pl)), k)
      == EdgeTime(DriverEdges(sm, true, pl), Into(comms, k))
  {
    TotalBound(sm, pl, Into(comms, k), lo, hi, |pl| * |sm.Keys|);
    ExactWhenSmall(comms, DriverEdges(sm, true, pl), k);
  }

  /** Under a key whose waits are all of one thread, (listed threads) x (time that thread is blocked) is enough. */
  lemma OneWaiterExact(sm: SegMap, pl: seq<int>, comms: Comms, k: string, x: int)
    requires Good(sm, true) && OnlyFrom(Into(comms, k), x) && forall p :: p in pl ==> p in sm
    requires BlockedTime(sm, x, 0, U64_LIMIT) * |pl| < U64_LIMIT
    ensures WeightOf(AddAll(map[], comms, DriverEdges(sm, true, pl)), k)
      == EdgeTime(DriverEdges(sm, true, pl), Into(comms, k))
  {
    OutWeightBound(sm, pl, Into(comms, k), x);
    DriverMeaning(sm, true, pl, Into(comms, k));
    ExactWhenSmall(comms, DriverEdges(sm, true, pl), k);
  }

  // ---- the weights of the shipped program ----

  /** Instants of [lo, hi) at which x is blocked on y. */
  ghost function TimeOn(sm: SegMap, x: int, y: int, lo: int, hi: int): nat
    decreases hi - lo
  {
    if lo >= hi then 0 else (if WaitsOn(sm, x, y, lo) then 1 else 0) + TimeOn(sm, x, y, lo + 1, hi)
  }

  /** One step of the wait path is all there is. */
  lemma ShippedHops(sm: SegMap, p: int, t: int, x: int, y: int)
    requires Good(sm, false) && p in sm && Apart(sm[p])
    ensures WaitHops(sm, false, p, t, Pair(x, y)) == if p == x && WaitsOn(sm, x, y, t) then 1 else 0
  {
    WaitHopsIs(sm, false, p, t, Pair(x, y));
    if k :| BlockedAt(sm, p, k, t) {
      assert forall l :: BlockedAt(sm, p, l, t) ==> l == k;
    }
  }

  lemma {:induction false} ShippedCrowd(sm: SegMap, pl: seq<int>, t: int, x: int, y: int)
    requires Good(sm, false) && forall p :: p in pl ==> p in sm && Apart(sm[p])
    ensures CrowdHops(sm, false, pl, t, Pair(x, y)) == if WaitsOn(sm, x, y, t) then multiset(pl)[x] else 0
  {
    if pl != [] {
      ShippedHops(sm, pl[0], t, x, y);
      ShippedCrowd(sm, pl[1..], t, x, y);
      assert pl == [pl[0]] + pl[1..];
    }
  }

  lemma {:induction false} ShippedTime(sm: SegMap, pl: seq<int>, x: int, y: int, lo: int, hi: int)
    requires Good(sm, false) && forall p :: p in pl ==> p in sm && Apart(sm[p])
    ensures CrowdTime(sm, false, pl, Pair(x, y), lo, hi) == TimeOn(sm, x, y, lo, hi) * multiset(pl)[x]
    decreases hi - lo
  {
    if lo < hi {
      ShippedCrowd(sm, pl, lo, x, y);
      ShippedTime(sm, pl, x, y, lo + 1, hi);
      OneMore(TimeOn(sm, x, y, lo + 1, hi), multiset(pl)[x]);
    }
  }

  /** As shipped, the weight of (x, y) is the time x is blocked on y, as often as x is listed. */
  lemma ShippedWeight(sm: SegMap, pl: seq<int>, x: int, y: int)
    requires Good(sm, false) && forall p :: p in pl ==> p in sm && Apart(sm[p])
    ensures EdgeTime(DriverEdges(sm, false, pl), Pair(x, y)) == TimeOn(sm, x, y, 0, U64_LIMIT) * multiset(pl)[x]
  {
    DriverMeaning(sm, false, pl, Pair(x, y));
    ShippedTime(sm, pl, x, y, 0, U64_LIMIT);
  }

  /** The same, read off the finished graph, under a key that the names of only one pair of threads make; it is exact if it
      fits in 64 bits. */
  lemma ShippedNamedWeight(sm: SegMap, pl: seq<int>, comms: Comms, k: string, x: int, y: int)
    requires Good(sm, false) && forall p :: p in pl ==> p in sm && Apart(sm[p])
    requires forall a, b :: Into(comms, k)(a, b) <==> a == x && b == y
    ensures WeightOf(AddAll(map[], comms, DriverEdges(sm, false, pl)), k)
      == (TimeOn(sm, x, y, 0, U64_LIMIT) * multiset(pl)[x]) % U64_LIMIT
  {
    ShippedWeight(sm, pl, x, y);
    WeightOfPair(DriverEdges(sm, false, pl), comms, k, x, y);
  }
}
