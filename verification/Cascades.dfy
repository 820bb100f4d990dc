/** Cascaded re-distribution on values: which addWeight calls one blocked segment leads to. */
module Cascades {
  import opened Events
  import opened TreeMaps
  import opened Tables

  /** One addWeight call. */
  datatype Edge = Edge(waiter: int, waker: int, stime: u64, etime: u64)

  /** In table m every blocked segment that starts before e is over before e, and a later segment starts where it ends. */
  ghost predicate AwakeAt(m: Table, e: int) {
    forall k :: k in m && m[k].state == BLOCKED && k < e ==> k < m[k].etime < e && m[k].etime in m
  }

  /** Every traced waker is awake at the instant of its wakeup. */
  ghost predicate Live(sm: SegMap) {
    forall p, k :: p in sm && k in sm[p] && sm[p][k].state == BLOCKED && sm[p][k].waitFor in sm ==>
      k < sm[p][k].etime && AwakeAt(sm[sm[p][k].waitFor], sm[p][k].etime)
  }

  /** What the cascade needs of the stored segments. When find returns nothing, nothing but upright segments. */
  ghost predicate Good(sm: SegMap, cascades: bool) {
    && (forall p :: p in sm ==> Upright(sm[p]))
    && (forall p, k :: p in sm && k in sm[p] ==> sm[p][k].pid == p)
    && (cascades ==> Live(sm) && forall p :: p in sm ==> Isolated(sm[p]))
  }

  /** w is the stored blocked segment of its thread that starts at k, possibly clipped on the left. */
  ghost predicate ClipOf(sm: SegMap, w: Seg, k: int) {
    && w.pid in sm && k in sm[w.pid] && sm[w.pid][k].state == BLOCKED
    && k <= w.stime && w == sm[w.pid][k].(stime := w.stime)
    && (w.stime < w.etime || k == w.stime)
  }

  ghost predicate Rooted(sm: SegMap, w: Seg) {
    w.stime <= w.etime && exists k :: ClipOf(sm, w, k)
  }

  /** Lines 335-341: cut a copy to the window. */
  function Clip(v: Seg, s: u64, e: u64): Seg {
    v.(stime := if v.stime < s then s else v.stime, etime := if v.etime > e then e else v.etime)
  }

  ghost function ClipAll(vs: seq<Seg>, s: u64, e: u64): (r: seq<Seg>)
    ensures |r| == |vs| && forall i :: 0 <= i < |vs| ==> r[i] == Clip(vs[i], s, e)
  {
    seq(|vs|, i requires 0 <= i < |vs| => Clip(vs[i], s, e))
  }

  /** What findAllWaitingSegments collects; cascades says whether line 393 hands it on. */
  ghost function Found(sm: SegMap, cascades: bool, waker: int, s: u64, e: u64): seq<Seg>
    requires waker in sm ==> Upright(sm[waker])
  {
    if !cascades || waker !in sm then [] else
    var f := FloorOf(sm[waker].Keys, s);
    if f.None? then [] else Walk(sm[waker], f.value, e)
  }

  /** The clipped copies the cascade recurses on. */
  ghost function Children(sm: SegMap, cascades: bool, w: Seg): seq<Seg>
    requires w.waitFor in sm ==> Upright(sm[w.waitFor])
  {
    ClipAll(Found(sm, cascades, w.waitFor, w.stime, w.etime), w.stime, w.etime)
  }

  /** Windows follow each other inside [lo, hi). */
  ghost predicate Ordered(ws: seq<Seg>, lo: int, hi: int) {
    && (forall i :: 0 <= i < |ws| ==> lo <= ws[i].stime <= ws[i].etime <= hi)
    && (forall i, j :: 0 <= i < j < |ws| ==> ws[i].etime <= ws[j].stime)
  }

  /** Stored blocked segment k of thread q holds instant t. */
  ghost predicate BlockedAt(sm: SegMap, q: int, k: int, t: int) {
    q in sm && k in sm[q] && sm[q][k].state == BLOCKED && k <= t < sm[q][k].etime
  }

  ghost predicate Contains(w: Seg, t: int) { w.stime <= t < w.etime }

  // ---- keys of a finite map can be listed in order ----

  lemma {:induction false} KeysCanBeListed(ks: set<u64>) returns (keys: seq<u64>)
    ensures Lists(keys, ks)
  {
    if ks == {} {
      keys := [];
    } else {
      var x :| x in ks;
      var c := CeilingOf(ks, 0);
      var rest := KeysCanBeListed(ks - {c.value});
      forall i | 0 <= i < |rest| ensures c.value < rest[i] {
        assert rest[i] in rest;
        assert IsCeiling(ks, 0, c.value);
      }
      keys := [c.value] + rest;
    }
  }

  lemma {:induction false} ScanOrdered(m: Table, keys: seq<u64>, s: int, e: int)
    requires Upright(m) && Isolated(m) && Ascending(keys)
    requires forall k :: k in keys ==> k in m
    ensures forall i, j :: 0 <= i < j < |Scan(m, keys, s, e)| ==>
      Scan(m, keys, s, e)[i].etime <= Scan(m, keys, s, e)[j].stime
  {
    if keys != [] {
      ScanOrdered(m, keys[1..], s, e);
      ScanMembers(m, keys[1..], s, e);
      var rest := Scan(m, keys[1..], s, e);
      forall v | v in rest && m[keys[0]].state == BLOCKED ensures m[keys[0]].etime <= v.stime {
        var k :| k in keys[1..] && m[k] == v;
      }
    }
  }

  /** For a rooted window the search finds exactly the waker's blocked segments overlapping it. */
  lemma FoundIsScan(sm: SegMap, w: Seg, keys: seq<u64>)
    requires Good(sm, true) && Rooted(sm, w) && w.waitFor in sm
    requires Lists(keys, sm[w.waitFor].Keys)
    ensures w.stime < w.etime
    ensures FloorOf(sm[w.waitFor].Keys, w.stime).Some? ==>
      Found(sm, true, w.waitFor, w.stime, w.etime) == Scan(sm[w.waitFor], keys, w.stime, w.etime)
  {
    var k :| ClipOf(sm, w, k);
    var m := sm[w.waitFor];
    assert AwakeAt(m, w.etime);
    var f := FloorOf(m.Keys, w.stime);
    if f.Some? {
      if StaleFloor(m, f.value, w.stime) {
        assert false;
      }
      WalkIsScan(m, keys, f.value, w.stime, w.etime);
    }
  }

  /** Everything the search finds lies inside the thread it searched, overlaps w and is over strictly before w is. */
  lemma FoundInside(sm: SegMap, w: Seg)
    requires Good(sm, true) && Rooted(sm, w) && w.waitFor in sm
    ensures forall v :: v in Found(sm, true, w.waitFor, w.stime, w.etime) ==>
      v.pid == w.waitFor && Overlaps(v, w.stime, w.etime) && v.stime < v.etime < w.etime
      && ClipOf(sm, v, v.stime)
    ensures forall i, j :: 0 <= i < j < |Found(sm, true, w.waitFor, w.stime, w.etime)| ==>
      Found(sm, true, w.waitFor, w.stime, w.etime)[i].etime <= Found(sm, true, w.waitFor, w.stime, w.etime)[j].stime
  {
    var m := sm[w.waitFor];
    var keys := KeysCanBeListed(m.Keys);
    FoundIsScan(sm, w, keys);
    ScanMembers(m, keys, w.stime, w.etime);
    ScanOrdered(m, keys, w.stime, w.etime);
    var k0 :| ClipOf(sm, w, k0);
    assert AwakeAt(m, w.etime);
  }

  /** Every copy the cascade recurses on is again a window of a stored segment, nested in w, and ends strictly earlier.
      The right-hand clip of line 339 never changes anything. */
  lemma ChildrenNest(sm: SegMap, cascades: bool, w: Seg)
    requires Good(sm, cascades) && Rooted(sm, w)
    ensures Ordered(Children(sm, cascades, w), w.stime, w.etime)
    ensures forall c :: c in Children(sm, cascades, w) ==>
      Rooted(sm, c) && c.pid == w.waitFor && w.stime <= c.stime < c.etime < w.etime
    ensures forall v :: v in Found(sm, cascades, w.waitFor, w.stime, w.etime) ==> v.etime < w.etime
  {
    if cascades && w.waitFor in sm {
      FoundInside(sm, w);
      var vs := Found(sm, cascades, w.waitFor, w.stime, w.etime);
      forall i | 0 <= i < |vs|
        ensures var c := Clip(vs[i], w.stime, w.etime);
          Rooted(sm, c) && c.pid == w.waitFor && w.stime <= c.stime < c.etime < w.etime && c.etime == vs[i].etime
      {
        assert vs[i] in vs;
        assert ClipOf(sm, Clip(vs[i], w.stime, w.etime), vs[i].stime);
      }
    }
  }

  /** What the search finds, by membership. */
  lemma FoundMembers(sm: SegMap, w: Seg)
    requires Good(sm, true) && Rooted(sm, w) && w.waitFor in sm && FloorOf(sm[w.waitFor].Keys, w.stime).Some?
    ensures forall v :: v in Found(sm, true, w.waitFor, w.stime, w.etime) ==>
      v.stime in sm[w.waitFor] && sm[w.waitFor][v.stime] == v && v.state == BLOCKED
    ensures var m := sm[w.waitFor];
      forall k :: k in m && m[k].state == BLOCKED && Overlaps(m[k], w.stime, w.etime) ==>
        m[k] in Found(sm, true, w.waitFor, w.stime, w.etime)
  {
    var m := sm[w.waitFor];
    var keys := KeysCanBeListed(m.Keys);
    FoundIsScan(sm, w, keys);
    ScanMembers(m, keys, w.stime, w.etime);
  }

  /** The child that holds instant t is the waker's blocked segment at t, and it exists unless the waker's map starts
      after the window. */
  lemma ChildAt(sm: SegMap, w: Seg, t: int)
    requires Good(sm, true) && Rooted(sm, w) && Contains(w, t)
    ensures forall c :: c in Children(sm, true, w) && Contains(c, t) ==>
      FloorOf(sm[w.waitFor].Keys, w.stime).Some? &&
      exists k :: BlockedAt(sm, w.waitFor, k, t) && c == Clip(sm[w.waitFor][k], w.stime, w.etime)
    ensures forall k :: BlockedAt(sm, w.waitFor, k, t) && FloorOf(sm[w.waitFor].Keys, w.stime).Some? ==>
      Clip(sm[w.waitFor][k], w.stime, w.etime) in Children(sm, true, w)
      && Contains(Clip(sm[w.waitFor][k], w.stime, w.etime), t)
  {
    if w.waitFor in sm && FloorOf(sm[w.waitFor].Keys, w.stime).Some? {
      FoundMembers(sm, w);
      var cs := Children(sm, true, w);
      forall c | c in cs && Contains(c, t)
        ensures exists k :: BlockedAt(sm, w.waitFor, k, t) && c == Clip(sm[w.waitFor][k], w.stime, w.etime)
      {
        var v := ClippedFrom(Found(sm, true, w.waitFor, w.stime, w.etime), w.stime, w.etime, c);
        assert BlockedAt(sm, w.waitFor, v.stime, t);
      }
      forall k | BlockedAt(sm, w.waitFor, k, t) ensures Clip(sm[w.waitFor][k], w.stime, w.etime) in cs {
        ClippedTo(Found(sm, true, w.waitFor, w.stime, w.etime), w.stime, w.etime, sm[w.waitFor][k]);
      }
    }
  }

  lemma ClippedFrom(vs: seq<Seg>, s: u64, e: u64, c: Seg) returns (v: Seg)
    requires c in ClipAll(vs, s, e)
    ensures v in vs && c == Clip(v, s, e)
  {
    var i :| 0 <= i < |vs| && ClipAll(vs, s, e)[i] == c;
    v := vs[i];
  }

  lemma ClippedTo(vs: seq<Seg>, s: u64, e: u64, v: Seg)
    requires v in vs
    ensures Clip(v, s, e) in ClipAll(vs, s, e)
  {
    var i :| 0 <= i < |vs| && vs[i] == v;
    assert ClipAll(vs, s, e)[i] == Clip(v, s, e);
  }

  // ---- the edges of a cascade ----

  ghost predicate AllRooted(sm: SegMap, ws: seq<Seg>, bound: int) {
    forall i :: 0 <= i < |ws| ==> Rooted(sm, ws[i]) && ws[i].etime < bound
  }

  /** The addWeight calls of Cascade(w), in call order. The recursion ends because windows end ever earlier. */
  ghost function CascadeEdges(sm: SegMap, cascades: bool, w: Seg): seq<Edge>
    requires Good(sm, cascades) && Rooted(sm, w)
    decreases w.etime + 1, 0
  {
    ChildrenNest(sm, cascades, w);
    [Edge(w.pid, w.waitFor, w.stime, w.etime)] + AllEdges(sm, cascades, Children(sm, cascades, w), w.etime)
  }

  ghost function AllEdges(sm: SegMap, cascades: bool, ws: seq<Seg>, bound: nat): seq<Edge>
    requires Good(sm, cascades) && AllRooted(sm, ws, bound)
    decreases bound, |ws|
  {
    if ws == [] then []
    else CascadeEdges(sm, cascades, ws[0]) + AllEdges(sm, cascades, ws[1..], bound)
  }

  /** As shipped, nothing is handed on: one call per blocked segment. */
  lemma ShippedEdges(sm: SegMap, w: Seg)
    requires Good(sm, false) && Rooted(sm, w)
    ensures CascadeEdges(sm, false, w) == [Edge(w.pid, w.waitFor, w.stime, w.etime)]
  {
  }

  // ---- how long the windows are together ----

  ghost function TotalLength(ws: seq<Seg>): int {
    if ws == [] then 0 else ws[0].etime - ws[0].stime + TotalLength(ws[1..])
  }

  lemma {:induction false} OrderedFits(ws: seq<Seg>, lo: int, hi: int)
    requires Ordered(ws, lo, hi) && lo <= hi
    ensures 0 <= TotalLength(ws) <= hi - lo
  {
    if ws != [] { OrderedFits(ws[1..], ws[0].etime, hi); }
  }

  /** Total length of the windows d levels of recursion below ws. */
  ghost function LengthBelow(sm: SegMap, cascades: bool, ws: seq<Seg>, bound: nat, d: nat): int
    requires Good(sm, cascades) && AllRooted(sm, ws, bound)
    decreases d, |ws|
  {
    if ws == [] then 0
    else if d == 0 then TotalLength(ws)
    else
      ChildrenNest(sm, cascades, ws[0]);
      LengthBelow(sm, cascades, Children(sm, cascades, ws[0]), ws[0].etime, d - 1)
      + LengthBelow(sm, cascades, ws[1..], bound, d)
  }

  lemma {:induction false} RootedLength(sm: SegMap, ws: seq<Seg>, bound: nat)
    requires AllRooted(sm, ws, bound)
    ensures 0 <= TotalLength(ws)
  {
    if ws != [] { RootedLength(sm, ws[1..], bound); }
  }

  /** At no depth of the recursion are the windows together longer than at the top. */
  lemma {:induction false} NothingAdded(sm: SegMap, cascades: bool, ws: seq<Seg>, bound: nat, d: nat)
    requires Good(sm, cascades) && AllRooted(sm, ws, bound)
    ensures 0 <= LengthBelow(sm, cascades, ws, bound, d) <= TotalLength(ws)
    decreases d, |ws|
  {
    if d == 0 {
      RootedLength(sm, ws, bound);
    } else if ws != [] {
      var w := ws[0];
      ChildrenNest(sm, cascades, w);
      var cs := Children(sm, cascades, w);
      assert AllRooted(sm, cs, w.etime);
      NothingAdded(sm, cascades, cs, w.etime, d - 1);
      OrderedFits(cs, w.stime, w.etime);
      NothingAdded(sm, cascades, ws[1..], bound, d);
    }
  }

  // ---- when the search panics ----

  /** The search in the waker's map runs off its end. */
  ghost predicate WindowDies(sm: SegMap, waker: int, s: u64, e: u64)
    requires waker in sm ==> Upright(sm[waker])
  {
    waker in sm && FloorOf(sm[waker].Keys, s).Some? && WalkDies(sm[waker], FloorOf(sm[waker].Keys, s).value, e)
  }

  /** Cascade(w) panics somewhere. */
  ghost predicate CascadeDies(sm: SegMap, cascades: bool, w: Seg)
    requires Good(sm, cascades) && Rooted(sm, w)
    decreases w.etime + 1, 0
  {
    ChildrenNest(sm, cascades, w);
    WindowDies(sm, w.waitFor, w.stime, w.etime) || AnyDies(sm, cascades, Children(sm, cascades, w), w.etime)
  }

  ghost predicate AnyDies(sm: SegMap, cascades: bool, ws: seq<Seg>, bound: nat)
    requires Good(sm, cascades) && AllRooted(sm, ws, bound)
    decreases bound, |ws|
  {
    ws != [] && (CascadeDies(sm, cascades, ws[0]) || AnyDies(sm, cascades, ws[1..], bound))
  }

  /** Whatever is waited for in a traced thread's map, that map has a segment that neither starts nor ends before the wait
      ends. */
  ghost predicate Closed(sm: SegMap) {
    forall p, k :: p in sm && k in sm[p] && sm[p][k].state == BLOCKED && sm[p][k].waitFor in sm ==>
      exists x :: x in sm[sm[p][k].waitFor] && sm[p][k].etime <= x <= sm[sm[p][k].waitFor][x].etime
  }

  lemma {:induction false} ClosedNeverDies(sm: SegMap, cascades: bool, w: Seg)
    requires Good(sm, cascades) && Rooted(sm, w) && Closed(sm)
    ensures !CascadeDies(sm, cascades, w)
    decreases w.etime + 1, 0
  {
    ChildrenNest(sm, cascades, w);
    WindowLives(sm, cascades, w);
    ClosedNoneDies(sm, cascades, Children(sm, cascades, w), w.etime);
  }

  lemma WindowLives(sm: SegMap, cascades: bool, w: Seg)
    requires Good(sm, cascades) && Rooted(sm, w) && Closed(sm)
    ensures !WindowDies(sm, w.waitFor, w.stime, w.etime)
  {
    var k :| ClipOf(sm, w, k);
    if w.waitFor in sm && FloorOf(sm[w.waitFor].Keys, w.stime).Some? {
      var f := FloorOf(sm[w.waitFor].Keys, w.stime).value;
      WalkDiesIff(sm[w.waitFor], f, w.etime);
      var x :| x in sm[w.waitFor] && sm[w.pid][k].etime <= x <= sm[w.waitFor][x].etime;
      assert f <= x && w.etime <= sm[w.waitFor][x].etime;
    }
  }

  lemma {:induction false} ClosedNoneDies(sm: SegMap, cascades: bool, ws: seq<Seg>, bound: nat)
    requires Good(sm, cascades) && AllRooted(sm, ws, bound) && Closed(sm)
    ensures !AnyDies(sm, cascades, ws, bound)
    decreases bound, |ws|
  {
    if ws != [] {
      ClosedNeverDies(sm, cascades, ws[0]);
      ClosedNoneDies(sm, cascades, ws[1..], bound);
    }
  }
}
