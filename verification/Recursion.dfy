/** When the recursion of Cascade ends. */
module Recursion {
  import opened Events
  import opened TreeMaps
  import opened Tables
  import opened Cascades

  // ---- recursion in general ----

  /** For each window the ones it is followed by. */
  type Followers = Seg -> seq<Seg>

  /** No chain of calls from w on is longer than n. */
  ghost predicate EndsWithin(kids: Followers, w: Seg, n: nat)
    decreases n
  {
    n > 0 && forall c :: c in kids(w) ==> EndsWithin(kids, c, n - 1)
  }

  /** Windows each of which calls the next. */
  ghost predicate Calls(kids: Followers, ws: seq<Seg>) {
    ws != [] && forall i :: 0 < i < |ws| ==> ws[i] in kids(ws[i - 1])
  }

  ghost predicate Repeats(ws: seq<Seg>) {
    exists i, j :: 0 <= i < j < |ws| && ws[i] == ws[j]
  }

  /** Some chain of calls from w on comes back to a thread and window it has been at. */
  ghost predicate ComesBack(kids: Followers, w: Seg) {
    exists ws :: Calls(kids, ws) && ws[0] == w && Repeats(ws)
  }

  lemma EndsNext(kids: Followers, w: Seg, c: Seg, n: nat)
    requires EndsWithin(kids, w, n) && c in kids(w)
    ensures n > 1 && EndsWithin(kids, c, n - 1)
  {
    assert EndsWithin(kids, c, n - 1);
  }

  lemma {:induction false} EndsAlong(kids: Followers, ws: seq<Seg>, n: nat)
    requires Calls(kids, ws) && EndsWithin(kids, ws[0], n)
    ensures |ws| <= n && EndsWithin(kids, ws[|ws| - 1], n - |ws| + 1)
    decreases |ws|
  {
    if |ws| > 1 {
      EndsAlong(kids, ws[..|ws| - 1], n);
      EndsNext(kids, ws[|ws| - 2], ws[|ws| - 1], n - |ws| + 2);
    }
  }

  lemma {:induction false} NoLoop(kids: Followers, ws: seq<Seg>, n: nat)
    requires Calls(kids, ws) && |ws| > 1 && ws[0] == ws[|ws| - 1]
    ensures !EndsWithin(kids, ws[0], n)
    decreases n
  {
    if EndsWithin(kids, ws[0], n) {
      EndsAlong(kids, ws, n);
      NoLoop(kids, ws, n - |ws| + 1);
    }
  }

  lemma BackNeverEnds(kids: Followers, w: Seg, n: nat)
    requires ComesBack(kids, w)
    ensures !EndsWithin(kids, w, n)
  {
    var ws :| Calls(kids, ws) && ws[0] == w && Repeats(ws);
    var i, j :| 0 <= i < j < |ws| && ws[i] == ws[j];
    if EndsWithin(kids, w, n) {
      EndsAlong(kids, ws[..i + 1], n);
      NoLoop(kids, ws[i..j + 1], n - i);
    }
  }

  ghost predicate ClosedUnder(kids: Followers, u: set<Seg>) {
    forall x, c :: x in u && c in kids(x) ==> c in u
  }

  lemma {:induction false} StaysIn(kids: Followers, ws: seq<Seg>, u: set<Seg>)
    requires Calls(kids, ws) && ws[0] in u && ClosedUnder(kids, u)
    ensures forall i :: 0 <= i < |ws| ==> ws[i] in u
    decreases |ws|
  {
    if |ws| > 1 {
      StaysIn(kids, ws[..|ws| - 1], u);
      assert ws[|ws| - 1] in kids(ws[|ws| - 2]);
      assert forall i :: 0 <= i < |ws| - 1 ==> ws[..|ws| - 1][i] == ws[i];
    }
  }

  lemma {:induction false} AtMostAll(ws: seq<Seg>, u: set<Seg>)
    requires !Repeats(ws) && forall i :: 0 <= i < |ws| ==> ws[i] in u
    ensures |ws| <= |u|
    decreases |ws|
  {
    if ws != [] {
      var last := ws[|ws| - 1];
      assert forall i :: 0 <= i < |ws| - 1 ==> ws[i] != last;
      AtMostAll(ws[..|ws| - 1], u - {last});
      assert last in u;
    }
  }

  /** Without coming back, what is left of the windows bounds what is left of the chain. */
  lemma {:induction false} EndsAfter(kids: Followers, ws: seq<Seg>, u: set<Seg>)
    requires Calls(kids, ws) && !ComesBack(kids, ws[0]) && ws[0] in u && ClosedUnder(kids, u)
    ensures |ws| <= |u| && EndsWithin(kids, ws[|ws| - 1], |u| - |ws| + 1)
    decreases |u| - |ws|
  {
    StaysIn(kids, ws, u);
    AtMostAll(ws, u);
    var last, left := ws[|ws| - 1], |u| - |ws|;
    forall c | c in kids(last) ensures left > 0 && EndsWithin(kids, c, left) {
      var more := ws + [c];
      assert Calls(kids, more);
      StaysIn(kids, more, u);
      AtMostAll(more, u);
      EndsAfter(kids, more, u);
    }
  }

  lemma EndsIffNotBack(kids: Followers, w: Seg, u: set<Seg>)
    requires w in u && ClosedUnder(kids, u)
    ensures (exists n: nat :: EndsWithin(kids, w, n)) <==> !ComesBack(kids, w)
  {
    if ComesBack(kids, w) {
      forall n: nat ensures !EndsWithin(kids, w, n) { BackNeverEnds(kids, w, n); }
    } else {
      EndsAfter(kids, [w], u);
      assert EndsWithin(kids, w, |u|);
    }
  }

  lemma {:induction false} EndsLonger(kids: Followers, w: Seg, n: nat, m: nat)
    requires EndsWithin(kids, w, n) && n <= m
    ensures EndsWithin(kids, w, m)
    decreases n
  {
    forall c | c in kids(w) ensures EndsWithin(kids, c, m - 1) { EndsLonger(kids, c, n - 1, m - 1); }
  }

  // ---- the recursion of Cascade ----

  ghost predicate AllUpright(sm: SegMap) {
    forall p :: p in sm ==> Upright(sm[p])
  }

  /** The windows that Cascade(w) calls itself on; none if the search panics. */
  ghost function KidsOf(sm: SegMap, w: Seg): seq<Seg> {
    if AllUpright(sm) && !WindowDies(sm, w.waitFor, w.stime, w.etime) then Children(sm, true, w) else []
  }

  ghost function Kids(sm: SegMap): Followers {
    w => KidsOf(sm, w)
  }

  /** The times at which segments start or end. */
  ghost function Times(sm: SegMap): set<u64> {
    (set p, k | p in sm && k in sm[p] :: sm[p][k].stime) + (set p, k | p in sm && k in sm[p] :: sm[p][k].etime)
  }

  /** All stored segments, cut at times that occur. */
  ghost function AllWindows(sm: SegMap, w: Seg): set<Seg> {
    {w} + set p, k, a, b | p in sm && k in sm[p] && a in Times(sm) + {w.stime, w.etime} && b in Times(sm) + {w.stime, w.etime} ::
            sm[p][k].(stime := a, etime := b)
  }

  lemma {:induction false} WalkMembers(m: Table, k: u64, e: u64)
    requires Upright(m) && k in m
    ensures forall v :: v in Walk(m, k, e) ==> v.stime in m && m[v.stime] == v
    decreases U64_LIMIT - k
  {
    var next := CeilingOf(m.Keys, k + 1);
    if m[k].etime < e && next.Some? && next.value < e { WalkMembers(m, next.value, e); }
  }

  /** A window that is called is a stored segment, clipped to the window that calls it. */
  lemma KidIsClip(sm: SegMap, x: Seg, c: Seg) returns (k: u64)
    requires c in KidsOf(sm, x)
    ensures x.waitFor in sm && k in sm[x.waitFor] && sm[x.waitFor][k].stime == k && c == Clip(sm[x.waitFor][k], x.stime, x.etime)
  {
    var m := sm[x.waitFor];
    WalkMembers(m, FloorOf(m.Keys, x.stime).value, x.etime);
    var vs := Found(sm, true, x.waitFor, x.stime, x.etime);
    var i :| 0 <= i < |vs| && c == Clip(vs[i], x.stime, x.etime);
    assert vs[i] in vs;
    k := vs[i].stime;
  }

  lemma KidsAreWindows(sm: SegMap, w: Seg, x: Seg, c: Seg)
    requires x in AllWindows(sm, w) && c in KidsOf(sm, x)
    ensures c in AllWindows(sm, w)
  {
    var k := KidIsClip(sm, x, c);
    var v := sm[x.waitFor][k];
    assert v.stime in Times(sm) && v.etime in Times(sm);
    CutAtKnownTimes(sm, w, x);
    assert c == v.(stime := c.stime, etime := c.etime);
  }

  lemma CutAtKnownTimes(sm: SegMap, w: Seg, x: Seg)
    requires x in AllWindows(sm, w)
    ensures x.stime in Times(sm) + {w.stime, w.etime} && x.etime in Times(sm) + {w.stime, w.etime}
  {
  }

  /** The recursion from a window ends exactly if no chain of calls comes back to a thread and window it has been at. */
  lemma EndsIff(sm: SegMap, w: Seg)
    ensures (exists n: nat :: EndsWithin(Kids(sm), w, n)) <==> !ComesBack(Kids(sm), w)
  {
    var u := AllWindows(sm, w);
    forall x, c | x in u && c in Kids(sm)(x) ensures c in u { KidsAreWindows(sm, w, x, c); }
    EndsIffNotBack(Kids(sm), w, u);
  }

  lemma AwakeKids(sm: SegMap, w: Seg, c: Seg)
    requires Good(sm, true) && Rooted(sm, w) && c in KidsOf(sm, w)
    ensures Rooted(sm, c) && c.etime < w.etime
  {
    ChildrenNest(sm, true, w);
  }

  /** Wakers that are awake are enough: the chain is no longer than the wait has instants before its end. */
  lemma {:induction false} AwakeEnds(sm: SegMap, w: Seg)
    requires Good(sm, true) && Rooted(sm, w)
    ensures EndsWithin(Kids(sm), w, w.etime + 1)
    decreases w.etime
  {
    forall c | c in Kids(sm)(w) ensures EndsWithin(Kids(sm), c, w.etime) {
      AwakeKids(sm, w, c);
      AwakeEnds(sm, c);
      EndsLonger(Kids(sm), c, c.etime + 1, w.etime);
    }
  }
}
