/** What a weight means: the instants at which somebody's wait runs through the edge. */
module Instants {
  import opened TreeMaps
  import opened Tables
  import opened Cascades

  /** A choice of edges, by waiter and waker. */
  type EdgeSet = (int, int) -> bool

  /** Total length of the chosen addWeight calls. */
  ghost function EdgeTime(es: seq<Edge>, pick: EdgeSet): int {
    if es == [] then 0
    else (if pick(es[0].waiter, es[0].waker) then es[0].etime - es[0].stime else 0) + EdgeTime(es[1..], pick)
  }

  lemma {:induction false} EdgeTimeConcat(a: seq<Edge>, b: seq<Edge>, pick: EdgeSet)
    ensures EdgeTime(a + b, pick) == EdgeTime(a, pick) + EdgeTime(b, pick)
  {
    if a == [] {
      assert a + b == b;
    } else {
      assert (a + b)[1..] == a[1..] + b;
      EdgeTimeConcat(a[1..], b, pick);
    }
  }

  lemma {:induction false} SamePick(es: seq<Edge>, pick: EdgeSet, pick': EdgeSet)
    requires forall a, b :: pick(a, b) <==> pick'(a, b)
    ensures EdgeTime(es, pick) == EdgeTime(es, pick')
  {
    if es != [] { SamePick(es[1..], pick, pick'); }
  }

  // ---- following, at one instant, who waits for whom ----

  /** At instant t the waker of window w is itself blocked, and its map reaches back to the start of w. */
  ghost predicate HasNext(sm: SegMap, cascades: bool, w: Seg, t: int) {
    cascades && w.waitFor in sm && FloorOf(sm[w.waitFor].Keys, w.stime).Some? && exists k :: BlockedAt(sm, w.waitFor, k, t)
  }

  /** The waker's blocked segment at t, seen through w. */
  ghost function NextAt(sm: SegMap, cascades: bool, w: Seg, t: int): (v: Seg)
    requires Good(sm, cascades) && Rooted(sm, w) && Contains(w, t) && HasNext(sm, cascades, w, t)
    ensures Rooted(sm, v) && Contains(v, t) && v.pid == w.waitFor && v.etime < w.etime
    ensures v in Children(sm, cascades, w)
  {
    var k :| BlockedAt(sm, w.waitFor, k, t);
    ChildAt(sm, w, t);
    ChildrenNest(sm, cascades, w);
    Clip(sm[w.waitFor][k], w.stime, w.etime)
  }

  /** How many chosen edges the wait path that starts in w passes at instant t. */
  ghost function Hops(sm: SegMap, cascades: bool, w: Seg, t: int, pick: EdgeSet): nat
    requires Good(sm, cascades) && Rooted(sm, w) && Contains(w, t)
    decreases w.etime
  {
    (if pick(w.pid, w.waitFor) then 1 else 0)
    + (if HasNext(sm, cascades, w, t) then Hops(sm, cascades, NextAt(sm, cascades, w, t), t, pick) else 0)
  }

  ghost function HopsIn(sm: SegMap, cascades: bool, w: Seg, t: int, pick: EdgeSet): nat
    requires Good(sm, cascades) && Rooted(sm, w)
  {
    if Contains(w, t) then Hops(sm, cascades, w, t, pick) else 0
  }

  ghost function ListHops(sm: SegMap, cascades: bool, ws: seq<Seg>, bound: int, t: int, pick: EdgeSet): nat
    requires Good(sm, cascades) && AllRooted(sm, ws, bound)
  {
    if ws == [] then 0 else HopsIn(sm, cascades, ws[0], t, pick) + ListHops(sm, cascades, ws[1..], bound, t, pick)
  }

  lemma {:induction false} NoneHolds(sm: SegMap, cascades: bool, ws: seq<Seg>, bound: int, t: int, pick: EdgeSet)
    requires Good(sm, cascades) && AllRooted(sm, ws, bound) && forall w :: w in ws ==> !Contains(w, t)
    ensures ListHops(sm, cascades, ws, bound, t, pick) == 0
  {
    if ws != [] { NoneHolds(sm, cascades, ws[1..], bound, t, pick); }
  }

  /** Among windows that follow each other at most one holds t. */
  lemma {:induction false} ListHopsIs(sm: SegMap, cascades: bool, ws: seq<Seg>, bound: int, t: int, pick: EdgeSet, lo: int, hi: int)
    requires Good(sm, cascades) && AllRooted(sm, ws, bound) && Ordered(ws, lo, hi)
    ensures (forall w :: w in ws ==> !Contains(w, t)) ==> ListHops(sm, cascades, ws, bound, t, pick) == 0
    ensures forall w :: w in ws && Contains(w, t) ==>
      Rooted(sm, w) && ListHops(sm, cascades, ws, bound, t, pick) == Hops(sm, cascades, w, t, pick)
  {
    if ws != [] {
      assert forall w :: w in ws <==> w == ws[0] || w in ws[1..];
      if Contains(ws[0], t) {
        OthersMiss(ws, t, lo, hi);
        NoneHolds(sm, cascades, ws[1..], bound, t, pick);
      } else {
        ListHopsIs(sm, cascades, ws[1..], bound, t, pick, lo, hi);
      }
    }
  }

  lemma OthersMiss(ws: seq<Seg>, t: int, lo: int, hi: int)
    requires Ordered(ws, lo, hi) && ws != [] && Contains(ws[0], t)
    ensures forall w :: w in ws[1..] ==> !Contains(w, t)
  {
  }

  /** One step of the path is one level of the cascade. */
  lemma HopsStep(sm: SegMap, cascades: bool, w: Seg, t: int, pick: EdgeSet)
    requires Good(sm, cascades) && Rooted(sm, w) && Contains(w, t)
    ensures AllRooted(sm, Children(sm, cascades, w), w.etime)
    ensures Hops(sm, cascades, w, t, pick)
      == (if pick(w.pid, w.waitFor) then 1 else 0) + ListHops(sm, cascades, Children(sm, cascades, w), w.etime, t, pick)
  {
    ChildrenNest(sm, cascades, w);
    if cascades { ChildAt(sm, w, t); }
    var cs := Children(sm, cascades, w);
    forall i | 0 <= i < |cs| ensures Rooted(sm, cs[i]) && cs[i].etime < w.etime { assert cs[i] in cs; }
    ListHopsIs(sm, cascades, cs, w.etime, t, pick, w.stime, w.etime);
  }

  // ---- summing over instants ----

  ghost function HopTime(sm: SegMap, cascades: bool, w: Seg, pick: EdgeSet, lo: int, hi: int): nat
    requires Good(sm, cascades) && Rooted(sm, w)
    decreases hi - lo
  {
    if lo >= hi then 0 else HopsIn(sm, cascades, w, lo, pick) + HopTime(sm, cascades, w, pick, lo + 1, hi)
  }

  ghost function ListTime(sm: SegMap, cascades: bool, ws: seq<Seg>, bound: int, pick: EdgeSet, lo: int, hi: int): nat
    requires Good(sm, cascades) && AllRooted(sm, ws, bound)
    decreases hi - lo
  {
    if lo >= hi then 0 else ListHops(sm, cascades, ws, bound, lo, pick) + ListTime(sm, cascades, ws, bound, pick, lo + 1, hi)
  }

  lemma {:induction false} ListTimeSplit(sm: SegMap, cascades: bool, ws: seq<Seg>, bound: int, pick: EdgeSet, lo: int, hi: int)
    requires Good(sm, cascades) && AllRooted(sm, ws, bound)
    ensures ListTime(sm, cascades, ws, bound, pick, lo, hi)
      == if ws == [] then 0 else HopTime(sm, cascades, ws[0], pick, lo, hi) + ListTime(sm, cascades, ws[1..], bound, pick, lo, hi)
    decreases hi - lo
  {
    if lo < hi { ListTimeSplit(sm, cascades, ws, bound, pick, lo + 1, hi); }
  }

  /** Instants outside the window contribute nothing. */
  lemma {:induction false} HopTimeShrinks(sm: SegMap, cascades: bool, w: Seg, pick: EdgeSet, lo: int, hi: int)
    requires Good(sm, cascades) && Rooted(sm, w) && w.etime <= hi
    ensures lo <= w.stime ==> HopTime(sm, cascades, w, pick, lo, hi) == HopTime(sm, cascades, w, pick, w.stime, w.etime)
    ensures w.stime <= lo ==> HopTime(sm, cascades, w, pick, lo, hi) == HopTime(sm, cascades, w, pick, lo, w.etime)
    decreases hi - lo
  {
    if lo < hi { HopTimeShrinks(sm, cascades, w, pick, lo + 1, hi); }
  }

  lemma {:induction false} HopTimeStep(sm: SegMap, cascades: bool, w: Seg, pick: EdgeSet, lo: int)
    requires Good(sm, cascades) && Rooted(sm, w) && w.stime <= lo <= w.etime
    requires AllRooted(sm, Children(sm, cascades, w), w.etime)
    ensures HopTime(sm, cascades, w, pick, lo, w.etime)
      == (if pick(w.pid, w.waitFor) then w.etime - lo else 0)
         + ListTime(sm, cascades, Children(sm, cascades, w), w.etime, pick, lo, w.etime)
    decreases w.etime - lo
  {
    if lo < w.etime {
      HopsStep(sm, cascades, w, lo, pick);
      HopTimeStep(sm, cascades, w, pick, lo + 1);
    }
  }

  /** The chosen calls of one cascade add up to the chosen hops of its root over all its instants. */
  lemma {:induction false} CascadeMeaning(sm: SegMap, cascades: bool, w: Seg, pick: EdgeSet)
    requires Good(sm, cascades) && Rooted(sm, w)
    ensures EdgeTime(CascadeEdges(sm, cascades, w), pick) == HopTime(sm, cascades, w, pick, w.stime, w.etime)
    decreases w.etime + 1, 0
  {
    ChildrenNest(sm, cascades, w);
    var cs := Children(sm, cascades, w);
    AllEdgesMeaning(sm, cascades, cs, w.etime, pick, w.stime, w.etime);
    EdgeTimeConcat([Edge(w.pid, w.waitFor, w.stime, w.etime)], AllEdges(sm, cascades, cs, w.etime), pick);
    HopTimeStep(sm, cascades, w, pick, w.stime);
  }

  lemma {:induction false} AllEdgesMeaning(sm: SegMap, cascades: bool, ws: seq<Seg>, bound: nat, pick: EdgeSet, lo: int, hi: int)
    requires Good(sm, cascades) && AllRooted(sm, ws, bound)
    requires forall w :: w in ws ==> lo <= w.stime && w.etime <= hi
    ensures EdgeTime(AllEdges(sm, cascades, ws, bound), pick) == ListTime(sm, cascades, ws, bound, pick, lo, hi)
    decreases bound, |ws|
  {
    ListTimeSplit(sm, cascades, ws, bound, pick, lo, hi);
    if ws != [] {
      CascadeMeaning(sm, cascades, ws[0], pick);
      AllEdgesMeaning(sm, cascades, ws[1..], bound, pick, lo, hi);
      EdgeTimeConcat(CascadeEdges(sm, cascades, ws[0]), AllEdges(sm, cascades, ws[1..], bound), pick);
      HopTimeShrinks(sm, cascades, ws[0], pick, lo, hi);
    }
  }
}
