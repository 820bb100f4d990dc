/** The second phase of the analyzer on values: cascading every segment of every listed thread. */
module Redistribution {
  import opened Events
  import opened TreeMaps
  import opened Tables
  import opened Cascades
  import opened Instants
  import opened WaitForGraphs

  lemma KeyListExists(ks: set<u64>)
    ensures exists keys :: Lists(keys, ks)
  {
    var keys := KeysCanBeListed(ks);
  }

  /** The keys in ascending order. */
  ghost function KeyList(ks: set<u64>): (keys: seq<u64>)
    ensures Lists(keys, ks)
  {
    KeyListExists(ks);
    var keys :| Lists(keys, ks);
    keys
  }

  lemma EmptyList(keys: seq<u64>, ks: set<u64>)
    requires Lists(keys, ks)
    ensures keys == [] <==> ks == {}
  {
    if keys != [] { assert keys[0] in ks; }
    if ks != {} {
      var x :| x in ks;
      assert x in keys;
    }
  }

  lemma {:induction false} ListsUnique(a: seq<u64>, b: seq<u64>, ks: set<u64>)
    requires Lists(a, ks) && Lists(b, ks)
    ensures a == b
  {
    EmptyList(a, ks);
    EmptyList(b, ks);
    if ks != {} {
      assert a[0] in b && b[0] in a;
      assert a[0] == b[0];
      forall x | x in a[1..] ensures x in ks - {a[0]} { }
      forall x | x in ks - {a[0]} ensures x in a[1..] && x in b[1..] { assert x in a && x in b; }
      forall x | x in b[1..] ensures x in ks - {a[0]} { }
      ListsUnique(a[1..], b[1..], ks - {a[0]});
    }
  }

  ghost function BlockedSegs(m: Table, keys: seq<u64>): seq<Seg>
    requires forall k :: k in keys ==> k in m
  {
    if keys == [] then [] else BlockedOnly(m[keys[0]]) + BlockedSegs(m, keys[1..])
  }

  lemma BlockedSegsFrom(m: Table, keys: seq<u64>, i: nat)
    requires i < |keys| && forall k :: k in keys ==> k in m
    ensures BlockedSegs(m, keys[i..]) == BlockedOnly(m[keys[i]]) + BlockedSegs(m, keys[i + 1..])
  {
    assert keys[i..][1..] == keys[i + 1..];
  }

  lemma {:induction false} BlockedSegsMembers(m: Table, keys: seq<u64>)
    requires forall k :: k in keys ==> k in m
    ensures forall v :: v in BlockedSegs(m, keys) <==> exists k :: k in keys && m[k].state == BLOCKED && v == m[k]
  {
    if keys != [] {
      BlockedSegsMembers(m, keys[1..]);
      assert forall k :: k in keys <==> k == keys[0] || k in keys[1..];
    }
  }

  lemma {:induction false} BlockedSegsOrdered(m: Table, keys: seq<u64>)
    requires Upright(m) && Apart(m) && Ascending(keys) && forall k :: k in keys ==> k in m
    ensures Ordered(BlockedSegs(m, keys), 0, U64_LIMIT)
  {
    if keys != [] {
      BlockedSegsOrdered(m, keys[1..]);
      BlockedSegsMembers(m, keys[1..]);
      var rest := BlockedSegs(m, keys[1..]);
      forall i | 0 <= i < |rest| && m[keys[0]].state == BLOCKED ensures m[keys[0]].etime <= rest[i].stime {
        assert rest[i] in rest;
      }
    }
  }

  /** The blocked segments of a thread, in order of time. */
  ghost function Windows(m: Table): seq<Seg> {
    BlockedSegs(m, KeyList(m.Keys))
  }

  lemma StoredRooted(sm: SegMap, cascades: bool, p: int, k: u64)
    requires Good(sm, cascades) && p in sm && k in sm[p] && sm[p][k].state == BLOCKED
    ensures Rooted(sm, sm[p][k])
  {
    assert ClipOf(sm, sm[p][k], k);
  }

  lemma WindowsRooted(sm: SegMap, cascades: bool, p: int)
    requires Good(sm, cascades) && p in sm
    ensures AllRooted(sm, Windows(sm[p]), U64_LIMIT)
  {
    var keys := KeyList(sm[p].Keys);
    BlockedSegsMembers(sm[p], keys);
    var ws := Windows(sm[p]);
    forall i | 0 <= i < |ws| ensures Rooted(sm, ws[i]) {
      assert ws[i] in ws;
      var k :| k in keys && sm[p][k].state == BLOCKED && ws[i] == sm[p][k];
      StoredRooted(sm, cascades, p, k);
    }
  }

  ghost function ThreadEdges(sm: SegMap, cascades: bool, p: int): seq<Edge>
    requires Good(sm, cascades) && p in sm
  {
    WindowsRooted(sm, cascades, p);
    AllEdges(sm, cascades, Windows(sm[p]), U64_LIMIT)
  }

  /** Every addWeight call of the whole phase. */
  ghost function DriverEdges(sm: SegMap, cascades: bool, pl: seq<int>): seq<Edge>
    requires Good(sm, cascades) && forall p :: p in pl ==> p in sm
  {
    if pl == [] then [] else ThreadEdges(sm, cascades, pl[0]) + DriverEdges(sm, cascades, pl[1..])
  }

  // ---- the meaning of a weight ----

  /** Chosen edges on the wait path of thread p at instant t; none when p is not blocked. */
  ghost function WaitHops(sm: SegMap, cascades: bool, p: int, t: int, pick: EdgeSet): nat
    requires Good(sm, cascades) && p in sm
  {
    WindowsRooted(sm, cascades, p);
    ListHops(sm, cascades, Windows(sm[p]), U64_LIMIT, t, pick)
  }

  lemma WaitHopsIs(sm: SegMap, cascades: bool, p: int, t: int, pick: EdgeSet)
    requires Good(sm, cascades) && p in sm && Apart(sm[p])
    ensures (forall k :: !BlockedAt(sm, p, k, t)) ==> WaitHops(sm, cascades, p, t, pick) == 0
    ensures forall k :: BlockedAt(sm, p, k, t) ==>
      Rooted(sm, sm[p][k]) && Contains(sm[p][k], t)
      && WaitHops(sm, cascades, p, t, pick) == Hops(sm, cascades, sm[p][k], t, pick)
  {
    var keys := KeyList(sm[p].Keys);
    WindowsRooted(sm, cascades, p);
    BlockedSegsMembers(sm[p], keys);
    BlockedSegsOrdered(sm[p], keys);
    var ws := Windows(sm[p]);
    ListHopsIs(sm, cascades, ws, U64_LIMIT, t, pick, 0, U64_LIMIT);
    forall w | w in ws && Contains(w, t) ensures exists k :: BlockedAt(sm, p, k, t) {
      var k :| k in keys && sm[p][k].state == BLOCKED && w == sm[p][k];
      assert BlockedAt(sm, p, k, t);
    }
    forall k | BlockedAt(sm, p, k, t) ensures sm[p][k] in ws { assert k in keys; }
  }

  ghost function CrowdHops(sm: SegMap, cascades: bool, pl: seq<int>, t: int, pick: EdgeSet): nat
    requires Good(sm, cascades) && forall p :: p in pl ==> p in sm
  {
    if pl == [] then 0 else WaitHops(sm, cascades, pl[0], t, pick) + CrowdHops(sm, cascades, pl[1..], t, pick)
  }

  ghost function CrowdTime(sm: SegMap, cascades: bool, pl: seq<int>, pick: EdgeSet, lo: int, hi: int): nat
    requires Good(sm, cascades) && forall p :: p in pl ==> p in sm
    decreases hi - lo
  {
    if lo >= hi then 0 else CrowdHops(sm, cascades, pl, lo, pick) + CrowdTime(sm, cascades, pl, pick, lo + 1, hi)
  }

  lemma {:induction false} CrowdTimeSplit(sm: SegMap, cascades: bool, pl: seq<int>, pick: EdgeSet, lo: int, hi: int)
    requires Good(sm, cascades) && forall p :: p in pl ==> p in sm
    requires pl != [] ==> pl[0] in sm && AllRooted(sm, Windows(sm[pl[0]]), U64_LIMIT)
    ensures CrowdTime(sm, cascades, pl, pick, lo, hi)
      == if pl == [] then 0 else ListTime(sm, cascades, Windows(sm[pl[0]]), U64_LIMIT, pick, lo, hi)
                                 + CrowdTime(sm, cascades, pl[1..], pick, lo, hi)
    decreases hi - lo
  {
    if lo < hi { CrowdTimeSplit(sm, cascades, pl, pick, lo + 1, hi); }
  }

  /** The weight put on any chosen set of edges is a sum over instants of how often the wait paths of the listed threads
      pass those edges. As shipped (cascades false) a path is only its first hop. */
  lemma {:induction false} DriverMeaning(sm: SegMap, cascades: bool, pl: seq<int>, pick: EdgeSet)
    requires Good(sm, cascades) && forall p :: p in pl ==> p in sm
    ensures EdgeTime(DriverEdges(sm, cascades, pl), pick) == CrowdTime(sm, cascades, pl, pick, 0, U64_LIMIT)
  {
    if pl == [] {
      CrowdTimeSplit(sm, cascades, pl, pick, 0, U64_LIMIT);
    } else {
      WindowsRooted(sm, cascades, pl[0]);
      CrowdTimeSplit(sm, cascades, pl, pick, 0, U64_LIMIT);
      AllEdgesMeaning(sm, cascades, Windows(sm[pl[0]]), U64_LIMIT, pick, 0, U64_LIMIT);
      DriverMeaning(sm, cascades, pl[1..], pick);
      EdgeTimeConcat(ThreadEdges(sm, cascades, pl[0]), DriverEdges(sm, cascades, pl[1..]), pick);
    }
  }

  /** The finished graph, key by key. */
  lemma {:induction false} GraphMeaning(sm: SegMap, cascades: bool, pl: seq<int>, comms: Comms, k: string)
    requires Good(sm, cascades) && forall p :: p in pl ==> p in sm
    ensures WeightOf(AddAll(map[], comms, DriverEdges(sm, cascades, pl)), k)
      == CrowdTime(sm, cascades, pl, Into(comms, k), 0, U64_LIMIT) % U64_LIMIT
  {
    AddAllWeight(map[], comms, DriverEdges(sm, cascades, pl), k);
    DriverMeaning(sm, cascades, pl, Into(comms, k));
  }

  /** The whole phase panics: some listed thread has a blocked segment whose cascade does. */
  ghost predicate ThreadDies(sm: SegMap, cascades: bool, p: int)
    requires Good(sm, cascades) && p in sm
  {
    WindowsRooted(sm, cascades, p);
    AnyDies(sm, cascades, Windows(sm[p]), U64_LIMIT)
  }

  ghost predicate DriverDies(sm: SegMap, cascades: bool, pl: seq<int>)
    requires Good(sm, cascades) && forall p :: p in pl ==> p in sm
  {
    pl != [] && (ThreadDies(sm, cascades, pl[0]) || DriverDies(sm, cascades, pl[1..]))
  }

  // ---- progress of a loop that cascades one window after the other ----

  /** Cascading the windows rest, starting from graph g, ends in goal, or panics. */
  ghost predicate OnTrack(sm: SegMap, cascades: bool, comms: Comms, g: Graph, rest: seq<Seg>, bound: nat,
                          goal: Graph, dies: bool)
  {
    && Good(sm, cascades) && AllRooted(sm, rest, bound)
    && (dies <==> AnyDies(sm, cascades, rest, bound))
    && goal == AddAll(g, comms, AllEdges(sm, cascades, rest, bound))
  }

  lemma TrackStep(sm: SegMap, cascades: bool, comms: Comms, g: Graph, rest: seq<Seg>, bound: nat, goal: Graph, dies: bool)
    requires OnTrack(sm, cascades, comms, g, rest, bound, goal, dies)
    ensures rest == [] ==> !dies && goal == g
    ensures rest != [] ==> Rooted(sm, rest[0]) && rest[0].state == BLOCKED && rest[0].etime < bound
    ensures rest != [] ==> if CascadeDies(sm, cascades, rest[0]) then dies
      else OnTrack(sm, cascades, comms, AddAll(g, comms, CascadeEdges(sm, cascades, rest[0])), rest[1..], bound, goal, dies)
  {
    if rest != [] {
      AddAllConcat(g, comms, CascadeEdges(sm, cascades, rest[0]), AllEdges(sm, cascades, rest[1..], bound));
    }
  }

  /** The same for a stored segment, which counts only if it is a wait. */
  lemma TrackNext(sm: SegMap, cascades: bool, comms: Comms, g: Graph, v: Seg, rest: seq<Seg>, tail: seq<Seg>,
                  bound: nat, goal: Graph, dies: bool)
    requires OnTrack(sm, cascades, comms, g, rest, bound, goal, dies) && rest == BlockedOnly(v) + tail
    ensures v.state != BLOCKED ==> OnTrack(sm, cascades, comms, g, tail, bound, goal, dies)
    ensures v.state == BLOCKED ==> Rooted(sm, v)
    ensures v.state == BLOCKED ==> if CascadeDies(sm, cascades, v) then dies
      else OnTrack(sm, cascades, comms, AddAll(g, comms, CascadeEdges(sm, cascades, v)), tail, bound, goal, dies)
  {
    if v.state == BLOCKED {
      TrackStep(sm, cascades, comms, g, rest, bound, goal, dies);
      assert rest[0] == v && rest[1..] == tail;
    } else {
      assert rest == tail;
    }
  }

  lemma TrackEnd(sm: SegMap, cascades: bool, comms: Comms, g: Graph, bound: nat, goal: Graph, dies: bool)
    requires OnTrack(sm, cascades, comms, g, [], bound, goal, dies)
    ensures !dies && goal == g
  {
  }

  /** A cascade is the call for its own wait, then the cascades of its children. */
  lemma CascadeTrack(sm: SegMap, cascades: bool, comms: Comms, g: Graph, v: Seg)
    requires Good(sm, cascades) && Rooted(sm, v)
    ensures OnTrack(sm, cascades, comms, AddWeight(g, comms, Edge(v.pid, v.waitFor, v.stime, v.etime)),
                    Children(sm, cascades, v), v.etime, AddAll(g, comms, CascadeEdges(sm, cascades, v)),
                    CascadeDies(sm, cascades, v) && !WindowDies(sm, v.waitFor, v.stime, v.etime))
      || WindowDies(sm, v.waitFor, v.stime, v.etime)
  {
    ChildrenNest(sm, cascades, v);
    var e := Edge(v.pid, v.waitFor, v.stime, v.etime);
    var cs := Children(sm, cascades, v);
    forall i | 0 <= i < |cs| ensures Rooted(sm, cs[i]) && cs[i].etime < v.etime { assert cs[i] in cs; }
    AddAllConcat(g, comms, [e], AllEdges(sm, cascades, cs, v.etime));
    assert AddAll(g, comms, [e]) == AddAll(AddWeight(g, comms, e), comms, []);
  }

  /** A thread's part of the phase is the cascades of its blocked segments, in the order of any sorted list of its keys. */
  lemma ThreadTrack(sm: SegMap, cascades: bool, comms: Comms, g: Graph, p: int, keys: seq<u64>)
    requires Good(sm, cascades) && p in sm && Lists(keys, sm[p].Keys)
    ensures OnTrack(sm, cascades, comms, g, BlockedSegs(sm[p], keys), U64_LIMIT,
                    AddAll(g, comms, ThreadEdges(sm, cascades, p)), ThreadDies(sm, cascades, p))
  {
    WindowsRooted(sm, cascades, p);
    ListsUnique(keys, KeyList(sm[p].Keys), sm[p].Keys);
  }
}
