/** The whole program on values: what a run computes, when it panics, and what its output depends on. */
module Program {
  import opened Events
  import opened TreeMaps
  import opened Tables
  import opened Cascades
  import opened Instants
  import opened Redistribution
  import opened SoftIndexes
  import opened Breaking
  import opened Partition
  import opened Matching
  import opened TraceFacts
  import opened Searches

  /** What the input has to satisfy: time order. The cascade also needs that no softirq lies across the start of a run and
      that threads are awake when they wake somebody and when they exit. */
  ghost predicate Inputs(cascades: bool, pl: seq<int>, ix: SoftIndex, swl: seq<Switch>)
    requires swl != []
  {
    && Sorted(swl) && Keyed(ix)
    && (cascades ==> StrictlySorted(swl) && AllClean(pl, ix, swl) && WakersRun(pl, swl) && Numbered(pl, swl)
                     && forall p :: p in pl ==> RunsAtExit(p, swl))
  }

  ghost predicate AllSurvive(pl: seq<int>, ix: SoftIndex, swl: seq<Switch>)
    requires swl != []
  {
    forall p :: p in pl ==> Broken(p, ix, InitialState(p, swl), swl, map[]).Some?
  }

  lemma InputsAreGood(cascades: bool, pl: seq<int>, ix: SoftIndex, swl: seq<Switch>)
    requires swl != [] && Inputs(cascades, pl, ix, swl) && AllSurvive(pl, ix, swl)
    ensures Good(AllBroken(pl, ix, swl), cascades)
  {
    SurvivesIff(pl, ix, swl);
    if cascades {
      GoodForCascade(pl, ix, swl);
    } else {
      GoodAsShipped(pl, ix, swl);
    }
  }

  /** The addWeight calls of a run, or None if the program panics. */
  ghost function Outcome(cascades: bool, pl: seq<int>, ix: SoftIndex, swl: seq<Switch>): Option<seq<Edge>>
    requires swl != [] ==> Inputs(cascades, pl, ix, swl)
  {
    if swl == [] || !AllSurvive(pl, ix, swl) then None else
    InputsAreGood(cascades, pl, ix, swl);
    if DriverDies(AllBroken(pl, ix, swl), cascades, pl) then None
    else Some(DriverEdges(AllBroken(pl, ix, swl), cascades, pl))
  }

  // ---- when the program panics ----

  /** Stored blocked segment k of p makes the search in its waker's map run off the end. */
  ghost predicate StoredDies(sm: SegMap, p: int, k: int)
    requires Good(sm, false)
  {
    p in sm && k in sm[p] && sm[p][k].state == BLOCKED
    && sm[p][k].waitFor in sm && FloorOf(sm[sm[p][k].waitFor].Keys, k).Some?
    && EndsShort(sm[sm[p][k].waitFor], FloorOf(sm[sm[p][k].waitFor].Keys, k).value, sm[p][k].etime)
  }

  lemma {:induction false} AnyDiesIff(sm: SegMap, ws: seq<Seg>, bound: nat)
    requires Good(sm, false) && AllRooted(sm, ws, bound)
    ensures AnyDies(sm, false, ws, bound) <==> exists w :: w in ws && WindowDies(sm, w.waitFor, w.stime, w.etime)
    decreases |ws|
  {
    if ws != [] {
      AnyDiesIff(sm, ws[1..], bound);
      assert Children(sm, false, ws[0]) == [];
      assert CascadeDies(sm, false, ws[0]) <==> WindowDies(sm, ws[0].waitFor, ws[0].stime, ws[0].etime);
      assert forall w :: w in ws <==> w == ws[0] || w in ws[1..];
    }
  }

  lemma ThreadDiesIff(sm: SegMap, p: int)
    requires Good(sm, false) && p in sm
    ensures ThreadDies(sm, false, p) <==> exists k :: StoredDies(sm, p, k)
  {
    var keys := KeyList(sm[p].Keys);
    BlockedSegsMembers(sm[p], keys);
    WindowsRooted(sm, false, p);
    AnyDiesIff(sm, Windows(sm[p]), U64_LIMIT);
    forall k | k in sm[p] && sm[p][k].state == BLOCKED
      ensures WindowDies(sm, sm[p][k].waitFor, sm[p][k].stime, sm[p][k].etime) <==> StoredDies(sm, p, k)
    {
      var q := sm[p][k].waitFor;
      if q in sm && FloorOf(sm[q].Keys, k).Some? {
        WalkDiesIff(sm[q], FloorOf(sm[q].Keys, k).value, sm[p][k].etime);
      }
    }
    if k :| StoredDies(sm, p, k) { assert k in keys && sm[p][k] in Windows(sm[p]); }
  }

  lemma {:induction false} DriverDiesIff(sm: SegMap, pl: seq<int>)
    requires Good(sm, false) && forall p :: p in pl ==> p in sm
    ensures DriverDies(sm, false, pl) <==> exists p, k :: p in pl && StoredDies(sm, p, k)
  {
    if pl != [] {
      ThreadDiesIff(sm, pl[0]);
      DriverDiesIff(sm, pl[1..]);
      assert forall p :: p in pl <==> p == pl[0] || p in pl[1..];
    }
  }

  /** A stored wait makes the search run off exactly if the trace has a wait that does. */
  lemma StoredDiesIff(pl: seq<int>, ix: SoftIndex, swl: seq<Switch>, p: int, s: u64, e: u64, q: int)
    requires swl != [] && Inputs(false, pl, ix, swl) && AllClean(pl, ix, swl)
    requires AllSurvive(pl, ix, swl) && Good(AllBroken(pl, ix, swl), false)
    requires p in pl && q in pl
    ensures StoredWait(p, swl, s, e, q) && SearchFails(q, ix, swl, s, e)
      <==> var m := AllBroken(pl, ix, swl)[p];
           s in m && m[s] == Seg(p, BLOCKED, s, e, q) && StoredDies(AllBroken(pl, ix, swl), p, s)
  {
    SurvivesIff(pl, ix, swl);
    MatchingFinished(p, ix, swl, s, e, q);
    var m := AllBroken(pl, ix, swl)[p];
    if s in m && m[s] == Seg(p, BLOCKED, s, e, q) {
      WaitIsOver(p, ix, swl, s);
      SearchFailsIff(q, ix, swl, s, e);
      OneForward(q, ix, swl);
      if FloorOf(AllBroken(pl, ix, swl)[q].Keys, s).Some? {
        ShortIsNone(AllBroken(pl, ix, swl)[q], FloorOf(AllBroken(pl, ix, swl)[q].Keys, s).value, e);
      }
    }
  }

  /** Some wait of a listed thread makes the search in the map of another run off. */
  ghost predicate SomeSearchFails(pl: seq<int>, ix: SoftIndex, swl: seq<Switch>)
    requires swl != []
  {
    exists p, q, s: u64, e: u64 :: p in pl && q in pl && StoredWait(p, swl, s, e, q) && SearchFails(q, ix, swl, s, e)
  }

  /** As shipped, the program completes exactly when the trace is not empty, every listed thread that exits is switched in
      or out, and no wait of a listed thread for another makes the search run off, all of which the trace tells. */
  lemma ShippedCompletesIff(pl: seq<int>, ix: SoftIndex, swl: seq<Switch>)
    requires swl != [] ==> Inputs(false, pl, ix, swl) && AllClean(pl, ix, swl)
    ensures Outcome(false, pl, ix, swl).Some?
      <==> swl != [] && ExitsSeen(pl, swl) && !SomeSearchFails(pl, ix, swl)
  {
    if swl != [] {
      SurvivesIff(pl, ix, swl);
      if AllSurvive(pl, ix, swl) {
        InputsAreGood(false, pl, ix, swl);
        DriverDiesIff(AllBroken(pl, ix, swl), pl);
        DiesAsTold(pl, ix, swl);
      }
    }
  }

  lemma DiesAsTold(pl: seq<int>, ix: SoftIndex, swl: seq<Switch>)
    requires swl != [] && Inputs(false, pl, ix, swl) && AllClean(pl, ix, swl)
    requires AllSurvive(pl, ix, swl) && Good(AllBroken(pl, ix, swl), false)
    ensures (exists p, k :: p in pl && StoredDies(AllBroken(pl, ix, swl), p, k)) <==> SomeSearchFails(pl, ix, swl)
  {
    var sm: SegMap := AllBroken(pl, ix, swl);
    if p: int, k: int :| p in pl && StoredDies(sm, p, k) {
      StoredDiesIff(pl, ix, swl, p, k, sm[p][k].etime, sm[p][k].waitFor);
    }
    if p, q, s: u64, e: u64 :| p in pl && q in pl && StoredWait(p, swl, s, e, q) && SearchFails(q, ix, swl, s, e) {
      StoredDiesIff(pl, ix, swl, p, s, e, q);
    }
  }

  lemma {:induction false} NothingDies(sm: SegMap, cascades: bool, pl: seq<int>)
    requires Good(sm, cascades) && Closed(sm) && forall p :: p in pl ==> p in sm
    ensures !DriverDies(sm, cascades, pl)
  {
    if pl != [] {
      WindowsRooted(sm, cascades, pl[0]);
      ClosedNoneDies(sm, cascades, Windows(sm[pl[0]]), U64_LIMIT);
      NothingDies(sm, cascades, pl[1..]);
    }
  }

  /** As long as no listed thread is named as a waker after its exit, nothing but an exit of a thread never switched in or
      out can make the program panic on a trace that is not empty. */
  lemma AliveNoPanic(cascades: bool, pl: seq<int>, ix: SoftIndex, swl: seq<Switch>)
    requires swl != [] && Inputs(cascades, pl, ix, swl) && AllClean(pl, ix, swl) && WakersAlive(pl, swl)
    requires forall p :: p in pl && ExitTime(p, swl).Some? ==> Seen(p, swl)
    ensures AllSurvive(pl, ix, swl) && Good(AllBroken(pl, ix, swl), cascades)
    ensures Outcome(cascades, pl, ix, swl) == Some(DriverEdges(AllBroken(pl, ix, swl), cascades, pl))
  {
    SurvivesIff(pl, ix, swl);
    InputsAreGood(cascades, pl, ix, swl);
    AliveIsClosed(pl, ix, swl);
    NothingDies(AllBroken(pl, ix, swl), cascades, pl);
  }

  /** If none of the listed threads exits, the program never panics on a trace that is not empty. */
  lemma NoExitNoPanic(cascades: bool, pl: seq<int>, ix: SoftIndex, swl: seq<Switch>)
    requires swl != [] && Inputs(cascades, pl, ix, swl) && AllClean(pl, ix, swl) && NoneExits(pl, swl)
    ensures AllSurvive(pl, ix, swl) && Good(AllBroken(pl, ix, swl), cascades)
    ensures Outcome(cascades, pl, ix, swl) == Some(DriverEdges(AllBroken(pl, ix, swl), cascades, pl))
  {
    AliveNoPanic(cascades, pl, ix, swl);
  }

  // ---- what line 393 costs ----

  ghost predicate IsBlocked(sm: SegMap, q: int, t: int) {
    exists l :: BlockedAt(sm, q, l, t)
  }

  /** A wait on a thread that was itself blocked during it, and whose map reaches back to its start. */
  ghost predicate Nested(sm: SegMap, p: int, k: int) {
    p in sm && k in sm[p] && sm[p][k].state == BLOCKED && sm[p][k].waitFor in sm
    && FloorOf(sm[sm[p][k].waitFor].Keys, k).Some?
    && exists t :: k <= t < sm[p][k].etime && IsBlocked(sm, sm[p][k].waitFor, t)
  }

  /** One call as shipped, and more exactly if there is something to cascade to. */
  lemma WindowCount(sm: SegMap, w: Seg)
    requires Good(sm, true) && Good(sm, false) && Rooted(sm, w)
    ensures |CascadeEdges(sm, false, w)| == 1 <= |CascadeEdges(sm, true, w)|
    ensures if Children(sm, true, w) == [] then CascadeEdges(sm, true, w) == CascadeEdges(sm, false, w)
            else |CascadeEdges(sm, true, w)| > 1
  {
    ShippedEdges(sm, w);
    ChildrenNest(sm, true, w);
    var cs := Children(sm, true, w);
    if cs != [] {
      assert AllEdges(sm, true, cs, w.etime) == CascadeEdges(sm, true, cs[0]) + AllEdges(sm, true, cs[1..], w.etime);
    }
  }

  lemma {:induction false} WindowsCount(sm: SegMap, ws: seq<Seg>, bound: nat)
    requires Good(sm, true) && Good(sm, false) && AllRooted(sm, ws, bound)
    ensures |AllEdges(sm, false, ws, bound)| == |ws| <= |AllEdges(sm, true, ws, bound)|
    ensures AllEdges(sm, false, ws, bound) == AllEdges(sm, true, ws, bound)
      <==> forall w :: w in ws ==> Children(sm, true, w) == []
    ensures |AllEdges(sm, true, ws, bound)| == |ws| <==> forall w :: w in ws ==> Children(sm, true, w) == []
    decreases |ws|
  {
    if ws != [] {
      var w := ws[0];
      WindowsCount(sm, ws[1..], bound);
      WindowCount(sm, w);
      assert forall v :: v in ws <==> v == w || v in ws[1..];
    }
  }

  /** A wait has children exactly if its waker was blocked during it. */
  lemma NestedIff(sm: SegMap, p: int, k: u64)
    requires Good(sm, true) && p in sm && k in sm[p] && sm[p][k].state == BLOCKED
    ensures Children(sm, true, sm[p][k]) != [] <==> Nested(sm, p, k)
  {
    var w := sm[p][k];
    StoredRooted(sm, true, p, k);
    ChildrenNest(sm, true, w);
    if c :| c in Children(sm, true, w) {
      ChildAt(sm, w, c.stime);
      assert Contains(c, c.stime);
      assert IsBlocked(sm, w.waitFor, c.stime);
    }
    if Children(sm, true, w) != [] { assert Children(sm, true, w)[0] in Children(sm, true, w); }
    if Nested(sm, p, k) {
      var t :| k <= t < w.etime && IsBlocked(sm, w.waitFor, t);
      ChildAt(sm, w, t);
    }
  }

  lemma ThreadCount(sm: SegMap, p: int)
    requires Good(sm, true) && Good(sm, false) && p in sm
    ensures |ThreadEdges(sm, false, p)| <= |ThreadEdges(sm, true, p)|
    ensures ThreadEdges(sm, false, p) == ThreadEdges(sm, true, p) <==> forall k :: !Nested(sm, p, k)
    ensures |ThreadEdges(sm, false, p)| == |ThreadEdges(sm, true, p)| <==> forall k :: !Nested(sm, p, k)
  {
    WindowsRooted(sm, true, p);
    var ws, keys := Windows(sm[p]), KeyList(sm[p].Keys);
    WindowsCount(sm, ws, U64_LIMIT);
    BlockedSegsMembers(sm[p], keys);
    forall k | k in sm[p] && sm[p][k].state == BLOCKED
      ensures sm[p][k] in ws && (Children(sm, true, sm[p][k]) != [] <==> Nested(sm, p, k))
    {
      NestedIff(sm, p, k);
      assert k in keys;
    }
    forall w | w in ws ensures exists k :: k in sm[p] && sm[p][k].state == BLOCKED && w == sm[p][k] { }
  }

  lemma SameConcat<T>(a: seq<T>, b: seq<T>, c: seq<T>, d: seq<T>)
    requires |a| <= |c| && |b| <= |d| && (|a| == |c| <==> a == c)
    ensures a + b == c + d <==> a == c && b == d
  {
    if a + b == c + d {
      assert |a| == |c|;
      assert b == (a + b)[|a|..] == (c + d)[|c|..] == d;
    }
  }

  /** The shipped program makes the same addWeight calls as one that hands on what it collects exactly when no listed
      thread ever waits for a thread that is itself blocked meanwhile; otherwise it makes fewer. */
  lemma {:induction false} ShippedMisses(sm: SegMap, pl: seq<int>)
    requires Good(sm, true) && Good(sm, false) && forall p :: p in pl ==> p in sm
    ensures |DriverEdges(sm, false, pl)| <= |DriverEdges(sm, true, pl)|
    ensures DriverEdges(sm, false, pl) == DriverEdges(sm, true, pl) <==> forall p, k :: p in pl ==> !Nested(sm, p, k)
    ensures |DriverEdges(sm, false, pl)| == |DriverEdges(sm, true, pl)| <==> forall p, k :: p in pl ==> !Nested(sm, p, k)
  {
    if pl != [] {
      var p := pl[0];
      ShippedMisses(sm, pl[1..]);
      ThreadCount(sm, p);
      SameConcat(ThreadEdges(sm, false, p), DriverEdges(sm, false, pl[1..]),
                 ThreadEdges(sm, true, p), DriverEdges(sm, true, pl[1..]));
      assert forall q :: q in pl <==> q == p || q in pl[1..];
    }
  }

  /** Every edge. */
  ghost function AnyEdge(): EdgeSet { (x, y) => true }

  lemma EdgesLast(sm: SegMap, cascades: bool, ws: seq<Seg>, bound: nat, pick: EdgeSet)
    requires Good(sm, cascades) && AllRooted(sm, ws, bound)
    ensures 0 <= EdgeTime(AllEdges(sm, cascades, ws, bound), pick)
  {
    AllEdgesMeaning(sm, cascades, ws, bound, pick, 0, U64_LIMIT);
  }

  lemma {:induction false} CascadeTime(sm: SegMap, cascades: bool, w: Seg, pick: EdgeSet)
    requires Good(sm, cascades) && Rooted(sm, w)
    ensures AllRooted(sm, Children(sm, cascades, w), w.etime)
    ensures EdgeTime(CascadeEdges(sm, cascades, w), pick)
      == (if pick(w.pid, w.waitFor) then w.etime - w.stime else 0)
         + EdgeTime(AllEdges(sm, cascades, Children(sm, cascades, w), w.etime), pick)
  {
    ChildrenNest(sm, cascades, w);
    EdgeTimeConcat([Edge(w.pid, w.waitFor, w.stime, w.etime)],
                   AllEdges(sm, cascades, Children(sm, cascades, w), w.etime), pick);
  }

  lemma SplitTime(sm: SegMap, cascades: bool, ws: seq<Seg>, bound: nat, pick: EdgeSet)
    requires Good(sm, cascades) && AllRooted(sm, ws, bound) && ws != []
    ensures EdgeTime(AllEdges(sm, cascades, ws, bound), pick)
      == EdgeTime(CascadeEdges(sm, cascades, ws[0]), pick) + EdgeTime(AllEdges(sm, cascades, ws[1..], bound), pick)
  {
    EdgeTimeConcat(CascadeEdges(sm, cascades, ws[0]), AllEdges(sm, cascades, ws[1..], bound), pick);
  }

  /** What is cascaded to takes time. */
  lemma ChildrenTakeTime(sm: SegMap, w: Seg)
    requires Good(sm, true) && Rooted(sm, w)
    ensures AllRooted(sm, Children(sm, true, w), w.etime)
    ensures EdgeTime(AllEdges(sm, true, Children(sm, true, w), w.etime), AnyEdge()) > 0 <==> Children(sm, true, w) != []
  {
    ChildrenNest(sm, true, w);
    var cs := Children(sm, true, w);
    if cs != [] {
      assert cs[0] in cs;
      FirstTakesTime(sm, cs, w.etime);
    }
  }

  lemma FirstTakesTime(sm: SegMap, ws: seq<Seg>, bound: nat)
    requires Good(sm, true) && AllRooted(sm, ws, bound) && ws != [] && ws[0].stime < ws[0].etime
    ensures EdgeTime(AllEdges(sm, true, ws, bound), AnyEdge()) > 0
  {
    SplitTime(sm, true, ws, bound, AnyEdge());
    CascadeTime(sm, true, ws[0], AnyEdge());
    EdgesLast(sm, true, Children(sm, true, ws[0]), ws[0].etime, AnyEdge());
    EdgesLast(sm, true, ws[1..], bound, AnyEdge());
  }

  lemma {:induction false} WindowsTime(sm: SegMap, ws: seq<Seg>, bound: nat, pick: EdgeSet)
    requires Good(sm, true) && Good(sm, false) && AllRooted(sm, ws, bound)
    ensures EdgeTime(AllEdges(sm, false, ws, bound), pick) <= EdgeTime(AllEdges(sm, true, ws, bound), pick)
    ensures pick == AnyEdge() ==>
      (EdgeTime(AllEdges(sm, false, ws, bound), pick) == EdgeTime(AllEdges(sm, true, ws, bound), pick)
       <==> forall w :: w in ws ==> Children(sm, true, w) == [])
    decreases |ws|
  {
    if ws != [] {
      var w := ws[0];
      WindowsTime(sm, ws[1..], bound, pick);
      SplitTime(sm, false, ws, bound, pick);
      SplitTime(sm, true, ws, bound, pick);
      CascadeTime(sm, false, w, pick);
      CascadeTime(sm, true, w, pick);
      EdgesLast(sm, true, Children(sm, true, w), w.etime, pick);
      ChildrenTakeTime(sm, w);
      assert forall v :: v in ws <==> v == w || v in ws[1..];
    }
  }

  lemma ThreadTime(sm: SegMap, p: int, pick: EdgeSet)
    requires Good(sm, true) && Good(sm, false) && p in sm
    ensures EdgeTime(ThreadEdges(sm, false, p), pick) <= EdgeTime(ThreadEdges(sm, true, p), pick)
    ensures pick == AnyEdge() ==>
      (EdgeTime(ThreadEdges(sm, false, p), pick) == EdgeTime(ThreadEdges(sm, true, p), pick) <==> forall k :: !Nested(sm, p, k))
  {
    WindowsRooted(sm, true, p);
    var ws, keys := Windows(sm[p]), KeyList(sm[p].Keys);
    WindowsTime(sm, ws, U64_LIMIT, pick);
    BlockedSegsMembers(sm[p], keys);
    forall k | k in sm[p] && sm[p][k].state == BLOCKED
      ensures sm[p][k] in ws && (Children(sm, true, sm[p][k]) != [] <==> Nested(sm, p, k))
    {
      NestedIff(sm, p, k);
      assert k in keys;
    }
    forall w | w in ws ensures exists k :: k in sm[p] && sm[p][k].state == BLOCKED && w == sm[p][k] { }
  }

  /** No edge is charged more by the shipped program, and together the edges are charged less exactly if some listed thread
      waits for a thread that is itself blocked meanwhile. */
  lemma {:induction false} ShippedChargesLess(sm: SegMap, pl: seq<int>, pick: EdgeSet)
    requires Good(sm, true) && Good(sm, false) && forall p :: p in pl ==> p in sm
    ensures EdgeTime(DriverEdges(sm, false, pl), pick) <= EdgeTime(DriverEdges(sm, true, pl), pick)
    ensures pick == AnyEdge() ==>
      (EdgeTime(DriverEdges(sm, false, pl), pick) < EdgeTime(DriverEdges(sm, true, pl), pick)
       <==> exists p, k :: p in pl && Nested(sm, p, k))
  {
    if pl != [] {
      ShippedChargesLess(sm, pl[1..], pick);
      ThreadTime(sm, pl[0], pick);
      EdgeTimeConcat(ThreadEdges(sm, false, pl[0]), DriverEdges(sm, false, pl[1..]), pick);
      EdgeTimeConcat(ThreadEdges(sm, true, pl[0]), DriverEdges(sm, true, pl[1..]), pick);
      assert forall q :: q in pl <==> q == pl[0] || q in pl[1..];
    }
  }
}
