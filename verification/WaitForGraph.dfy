/** The wait-for graph: weights per pair of thread names, in wrapping uint64 arithmetic. */
module WaitForGraphs {
  import opened Events
  import opened Cascades
  import opened Instants

  type Comms = map<int, string>
  type Graph = map<string, u64>

  /** A thread without a recorded name has the empty one. */
  function Comm(comms: Comms, pid: int): string {
    if pid in comms then comms[pid] else ""
  }

  /** Thread names: the first one met for a pid, previous thread before next. */
  ghost function CommsOf(swl: seq<Switch>): Comms {
    if swl == [] then map[]
    else
      var sw, c := swl[|swl| - 1], CommsOf(swl[..|swl| - 1]);
      var d := if sw.prevPid in c then c else c[sw.prevPid := sw.prevComm];
      if sw.nextPid in d then d else d[sw.nextPid := sw.nextComm]
  }

  predicate Names(sw: Switch, p: int) { sw.prevPid == p || sw.nextPid == p }

  /** A thread's name is the one in the first event that names it, and it has none exactly if no event does. */
  lemma {:induction false} FirstName(swl: seq<Switch>, p: int)
    ensures p in CommsOf(swl) <==> exists i :: 0 <= i < |swl| && Names(swl[i], p)
    ensures forall i :: 0 <= i < |swl| && Names(swl[i], p) && (forall j :: 0 <= j < i ==> !Names(swl[j], p)) ==>
      p in CommsOf(swl) && CommsOf(swl)[p] == if swl[i].prevPid == p then swl[i].prevComm else swl[i].nextComm
  {
    if swl != [] {
      var init := swl[..|swl| - 1];
      FirstName(init, p);
      assert forall i :: 0 <= i < |init| ==> init[i] == swl[i];
    }
  }

  function Key(waiter: string, waker: string): string {
    waiter + "," + waker + ","
  }

  // ---- when two pairs of names make the same key ----

  /** The same text comes about by cutting the names at another comma: a' goes on after a with what b starts with. */
  ghost predicate CutElsewhere(a: string, b: string, a': string, b': string) {
    exists m :: a' == a + "," + m && b == m + "," + b'
  }

  lemma KeyAt(a: string, b: string)
    ensures var k := Key(a, b); |k| == |a| + |b| + 2 && k[..|a|] == a && k[|a|] == ',' && k[|a| + 1..|k| - 1] == b
  {
  }

  lemma SameLengths(a: string, b: string, a': string, b': string)
    requires |a| == |a'|
    ensures Key(a, b) == Key(a', b') <==> a == a' && b == b'
  {
    KeyAt(a, b);
    KeyAt(a', b');
  }

  lemma JoinedKey(a: string, m: string, b': string)
    ensures Key(a, m + "," + b') == Key(a + "," + m, b')
  {
    assert a + "," + (m + "," + b') + "," == (a + "," + m) + "," + b' + ",";
  }

  lemma LongerName(a: string, b: string, a': string, b': string)
    requires |a| < |a'|
    ensures Key(a, b) == Key(a', b') <==> CutElsewhere(a, b, a', b')
  {
    var k, k' := Key(a, b), Key(a', b');
    KeyAt(a, b);
    KeyAt(a', b');
    if m :| a' == a + "," + m && b == m + "," + b' { JoinedKey(a, m, b'); }
    if k == k' {
      var m := a'[|a| + 1..];
      assert a' == k[..|a'|] == a + "," + m;
      assert b == k[|a| + 1..|k| - 1] == m + "," + b';
    }
  }

  /** Two pairs of names make the same key exactly if they are the same, or one comes from the other by cutting the names at
      another comma. */
  lemma KeyTellsNames(a: string, b: string, a': string, b': string)
    ensures Key(a, b) == Key(a', b')
      <==> (a == a' && b == b') || CutElsewhere(a, b, a', b') || CutElsewhere(a', b', a, b)
  {
    if |a| == |a'| {
      SameLengths(a, b, a', b');
    } else if |a| < |a'| {
      LongerName(a, b, a', b');
    } else {
      LongerName(a', b', a, b);
    }
  }

  /** Some pairs among the names are cut from the same text. */
  ghost predicate Ambiguous(names: set<string>) {
    exists a, b, a', b' :: a in names && b in names && a' in names && b' in names && CutElsewhere(a, b, a', b')
  }

  /** Among given names, every key tells its two names exactly if no such cut exists among them. */
  lemma KeysTellNames(names: set<string>)
    ensures (forall a, b, a', b' :: a in names && b in names && a' in names && b' in names && Key(a, b) == Key(a', b') ==>
               a == a' && b == b')
      <==> !Ambiguous(names)
  {
    forall a, b, a', b' | a in names && b in names && a' in names && b' in names
      ensures CutElsewhere(a, b, a', b') ==> Key(a, b) == Key(a', b') && a != a'
      ensures Key(a, b) == Key(a', b') ==> (a == a' && b == b') || CutElsewhere(a, b, a', b') || CutElsewhere(a', b', a, b)
    {
      KeyTellsNames(a, b, a', b');
    }
  }

  /** Two pairs of names that share a key. */
  lemma CommaConfuses()
    ensures Key("a,b", "c") == Key("a", "b,c") && Ambiguous({"a", "b,c", "a,b", "c"})
  {
    assert "a,b" == "a" + "," + "b" && "b,c" == "b" + "," + "c";
    assert CutElsewhere("a", "b,c", "a,b", "c");
  }

  function WeightOf(g: Graph, k: string): u64 {
    if k in g then g[k] else 0
  }

  function AddWeight(g: Graph, comms: Comms, e: Edge): Graph {
    var waiter, waker := Comm(comms, e.waiter), Comm(comms, e.waker);
    if waiter == "" || waker == "" then g
    else g[Key(waiter, waker) := Add64(WeightOf(g, Key(waiter, waker)), Sub64(e.etime, e.stime))]
  }

  ghost function AddAll(g: Graph, comms: Comms, es: seq<Edge>): Graph
    decreases |es|
  {
    if es == [] then g else AddAll(AddWeight(g, comms, es[0]), comms, es[1..])
  }

  lemma {:induction false} AddAllConcat(g: Graph, comms: Comms, a: seq<Edge>, b: seq<Edge>)
    ensures AddAll(g, comms, a + b) == AddAll(AddAll(g, comms, a), comms, b)
    decreases |a|
  {
    if a == [] {
      assert a + b == b;
    } else {
      assert (a + b)[0] == a[0] && (a + b)[1..] == a[1..] + b;
      AddAllConcat(AddWeight(g, comms, a[0]), comms, a[1..], b);
    }
  }

  /** The pairs of named threads whose weight is kept under k. Threads that share a name share their weight. */
  ghost function Into(comms: Comms, k: string): EdgeSet {
    (x, y) => Comm(comms, x) != "" && Comm(comms, y) != "" && Key(Comm(comms, x), Comm(comms, y)) == k
  }

  /** A call between two threads with recorded, non-empty names adds its length to the weight under the one key these names
      make and leaves every other key alone. Any other call changes nothing. */
  lemma AddWeightIs(g: Graph, comms: Comms, e: Edge)
    ensures e.waiter !in comms || e.waker !in comms || comms[e.waiter] == "" || comms[e.waker] == "" ==>
      AddWeight(g, comms, e) == g
    ensures e.waiter in comms && e.waker in comms && comms[e.waiter] != "" && comms[e.waker] != "" ==>
      var k := comms[e.waiter] + "," + comms[e.waker] + ",";
      && AddWeight(g, comms, e).Keys == g.Keys + {k}
      && AddWeight(g, comms, e)[k] == ((if k in g then g[k] else 0) + (e.etime - e.stime)) % U64_LIMIT
      && forall o :: o in g && o != k ==> AddWeight(g, comms, e)[o] == g[o]
  {
    SumWraps(WeightOf(g, Key(Comm(comms, e.waiter), Comm(comms, e.waker))), e.etime, e.stime);
  }

  lemma WeightStep(g: Graph, comms: Comms, e: Edge, k: string)
    ensures WeightOf(AddWeight(g, comms, e), k)
      == (WeightOf(g, k) + if Into(comms, k)(e.waiter, e.waker) then e.etime - e.stime else 0) % U64_LIMIT
    ensures k in AddWeight(g, comms, e) <==> k in g || Into(comms, k)(e.waiter, e.waker)
  {
    SumWraps(WeightOf(g, k), e.etime, e.stime);
  }

  lemma SumWraps(w: u64, a: u64, b: u64)
    ensures Add64(w, Sub64(a, b)) == (w + (a - b)) % U64_LIMIT && w == w % U64_LIMIT
  {
    WrapTwice(a - b, w);
  }

  lemma WrapTwice(a: int, b: int)
    ensures (a % U64_LIMIT + b) % U64_LIMIT == (a + b) % U64_LIMIT
  {
  }

  /** The weight under k is the total length of the calls filed under k, modulo 2^64. */
  lemma {:induction false} AddAllWeight(g: Graph, comms: Comms, es: seq<Edge>, k: string)
    ensures WeightOf(AddAll(g, comms, es), k) == (WeightOf(g, k) + EdgeTime(es, Into(comms, k))) % U64_LIMIT
    decreases |es|
  {
    if es != [] {
      WeightStep(g, comms, es[0], k);
      AddAllWeight(AddWeight(g, comms, es[0]), comms, es[1..], k);
      var d := if Into(comms, k)(es[0].waiter, es[0].waker) then es[0].etime - es[0].stime else 0;
      WrapTwice(WeightOf(g, k) + d, EdgeTime(es[1..], Into(comms, k)));
    }
  }

  lemma ExactWhenSmall(comms: Comms, es: seq<Edge>, k: string)
    requires 0 <= EdgeTime(es, Into(comms, k)) < U64_LIMIT
    ensures WeightOf(AddAll(map[], comms, es), k) == EdgeTime(es, Into(comms, k))
  {
    AddAllWeight(map[], comms, es, k);
  }

  /** A key is in the graph exactly when some call was filed under it, be its length zero. */
  lemma {:induction false} AddAllKeys(g: Graph, comms: Comms, es: seq<Edge>, k: string)
    ensures k in AddAll(g, comms, es) <==> k in g || exists e :: e in es && Into(comms, k)(e.waiter, e.waker)
    decreases |es|
  {
    if es != [] {
      WeightStep(g, comms, es[0], k);
      AddAllKeys(AddWeight(g, comms, es[0]), comms, es[1..], k);
      assert forall e :: e in es <==> e == es[0] || e in es[1..];
    }
  }

  // ---- the same, told by the trace ----

  ghost predicate FirstNames(swl: seq<Switch>, p: int, i: int) {
    0 <= i < |swl| && Names(swl[i], p) && forall j :: 0 <= j < i ==> !Names(swl[j], p)
  }

  /** The first event that names p gives it the name n. */
  ghost predicate Called(swl: seq<Switch>, p: int, n: string) {
    exists i :: FirstNames(swl, p, i) && n == if swl[i].prevPid == p then swl[i].prevComm else swl[i].nextComm
  }

  lemma {:induction false} FirstOne(swl: seq<Switch>, p: int, n: nat) returns (i: nat)
    requires n < |swl| && Names(swl[n], p)
    ensures FirstNames(swl, p, i)
    decreases n
  {
    if j: nat :| j < n && Names(swl[j], p) { i := FirstOne(swl, p, j); } else { i := n; }
  }

  lemma CalledIs(swl: seq<Switch>, p: int, n: string)
    ensures Called(swl, p, n) <==> p in CommsOf(swl) && CommsOf(swl)[p] == n
    ensures p in CommsOf(swl) <==> exists i :: 0 <= i < |swl| && Names(swl[i], p)
  {
    FirstName(swl, p);
    if p in CommsOf(swl) {
      var m: nat :| m < |swl| && Names(swl[m], p);
      var i := FirstOne(swl, p, m);
      assert FirstNames(swl, p, i);
    }
  }

  /** Events of the trace call x and y by names, not empty, that make the key k: the waiter's, a comma, the waker's, a comma. */
  ghost predicate Filed(swl: seq<Switch>, k: string, x: int, y: int) {
    exists a, b :: Called(swl, x, a) && Called(swl, y, b) && a != "" && b != "" && k == a + "," + b + ","
  }

  ghost function FiledUnder(swl: seq<Switch>, k: string): EdgeSet { (x, y) => Filed(swl, k, x, y) }

  lemma IntoIsFiled(swl: seq<Switch>, k: string, x: int, y: int)
    ensures Into(CommsOf(swl), k)(x, y) <==> Filed(swl, k, x, y)
  {
    var comms := CommsOf(swl);
    CalledIs(swl, x, Comm(comms, x));
    CalledIs(swl, y, Comm(comms, y));
    if a, b :| Called(swl, x, a) && Called(swl, y, b) && a != "" && b != "" && k == a + "," + b + "," {
      CalledIs(swl, x, a);
      CalledIs(swl, y, b);
    }
  }

  lemma KeptFor(comms: Comms, es: seq<Edge>, k: string, pick: EdgeSet)
    requires forall x, y :: Into(comms, k)(x, y) <==> pick(x, y)
    ensures k in AddAll(map[], comms, es) <==> exists e :: e in es && pick(e.waiter, e.waker)
    ensures k in AddAll(map[], comms, es) ==> AddAll(map[], comms, es)[k] == EdgeTime(es, pick) % U64_LIMIT
  {
    AddAllKeys(map[], comms, es, k);
    AddAllWeight(map[], comms, es, k);
    SamePick(es, Into(comms, k), pick);
  }

  /** What the graph holds, in terms of the trace and the calls: a key is there exactly if some call has both its threads
      named by events, not empty, with names that make the key; its weight is the length of these calls modulo 2^64. */
  lemma GraphOfTrace(swl: seq<Switch>, es: seq<Edge>, k: string)
    ensures k in AddAll(map[], CommsOf(swl), es) <==> exists e :: e in es && FiledUnder(swl, k)(e.waiter, e.waker)
    ensures k in AddAll(map[], CommsOf(swl), es) ==>
      AddAll(map[], CommsOf(swl), es)[k] == EdgeTime(es, FiledUnder(swl, k)) % U64_LIMIT
  {
    forall x, y ensures Into(CommsOf(swl), k)(x, y) <==> FiledUnder(swl, k)(x, y) { IntoIsFiled(swl, k, x, y); }
    KeptFor(CommsOf(swl), es, k, FiledUnder(swl, k));
  }

  /** A wait ended by a context, or by a thread, that no event names as a pid is charged to nobody. */
  lemma UnnamedAddsNothing(swl: seq<Switch>, g: Graph, e: Edge)
    requires (forall i :: 0 <= i < |swl| ==> swl[i].prevPid != e.waker && swl[i].nextPid != e.waker)
    ensures AddWeight(g, CommsOf(swl), e) == g
  {
    CalledIs(swl, e.waker, "");
    AddWeightIs(g, CommsOf(swl), e);
  }

  /** The graph as the program keeps it. */
  class GraphStore {
    var weights: Graph

    constructor ()
      ensures weights == map[]
    {
      weights := map[];
    }

    method Add(comms: Comms, waitID: int, wakerID: int, etime: u64, stime: u64)
      modifies this
      ensures weights == AddWeight(old(weights), comms, Edge(waitID, wakerID, stime, etime))
      ensures waitID !in comms || wakerID !in comms || comms[waitID] == "" || comms[wakerID] == "" ==> weights == old(weights)
      ensures waitID in comms && wakerID in comms && comms[waitID] != "" && comms[wakerID] != "" ==>
        var k := comms[waitID] + "," + comms[wakerID] + ",";
        weights == old(weights)[k := ((if k in old(weights) then old(weights)[k] else 0) + (etime - stime)) % U64_LIMIT]
    {
      AddWeightIs(weights, comms, Edge(waitID, wakerID, stime, etime));
      var waitComm, wakerComm := Comm(comms, waitID), Comm(comms, wakerID);
      if waitComm == "" || wakerComm == "" {
        return;
      }
      var k := Key(waitComm, wakerComm);
      if k !in weights {
        weights := weights[k := 0];
      }
      weights := weights[k := Add64(weights[k], Sub64(etime, stime))];
    }
  }
}
