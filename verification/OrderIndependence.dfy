/** The graph depends on which events and which threads are given, not on the order they are given in. */
module OrderIndependence {
  import opened Events
  import opened Tables
  import opened Cascades
  import opened Instants
  import opened WaitForGraphs
  import opened Redistribution
  import opened SoftIndexes
  import opened TraceFacts
  import opened Program

  lemma TakeOut<T>(s: seq<T>, i: nat)
    requires i < |s|
    ensures multiset(s) == multiset{s[i]} + multiset(s[..i] + s[i + 1..])
  {
    assert s == s[..i] + [s[i]] + s[i + 1..];
  }

  lemma TakeFirst<T>(s: seq<T>)
    requires s != []
    ensures multiset(s) == multiset{s[0]} + multiset(s[1..])
  {
    assert s == [s[0]] + s[1..];
  }

  lemma SameRests<T>(a: seq<T>, b: seq<T>, i: nat)
    requires a != [] && i < |b| && a[0] == b[i] && multiset(a) == multiset(b)
    ensures multiset(a[1..]) == multiset(b[..i] + b[i + 1..])
  {
    TakeFirst(a);
    TakeOut(b, i);
    assert multiset(a[1..]) == multiset(a) - multiset{a[0]};
  }

  lemma SameTails<T>(a: seq<T>, b: seq<T>)
    requires a != [] && b != [] && a[0] == b[0] && multiset(a) == multiset(b)
    ensures multiset(a[1..]) == multiset(b[1..])
  {
    TakeFirst(a);
    TakeFirst(b);
    assert multiset(a[1..]) == multiset(a) - multiset{a[0]};
  }

  /** The earliest event of a bag comes first in every sorted order. */
  lemma SameHead(a: seq<Switch>, b: seq<Switch>)
    requires StrictlySorted(a) && StrictlySorted(b) && multiset(a) == multiset(b) && a != [] && b != []
    ensures a[0] == b[0]
  {
    assert a[0] in multiset(b) && b[0] in multiset(a);
    var i :| 0 <= i < |b| && b[i] == a[0];
    var j :| 0 <= j < |a| && a[j] == b[0];
  }

  /** With distinct time stamps there is only one sorted order of a bag of events. */
  lemma {:induction false} SortedOnce(a: seq<Switch>, b: seq<Switch>)
    requires StrictlySorted(a) && StrictlySorted(b) && multiset(a) == multiset(b)
    ensures a == b
  {
    assert |multiset(a)| == |a| && |multiset(b)| == |b|;
    if a != [] {
      SameHead(a, b);
      SameTails(a, b);
      SortedOnce(a[1..], b[1..]);
      assert a == [a[0]] + a[1..] && b == [b[0]] + b[1..];
    }
  }

  lemma {:induction false} DriverMembers(sm: SegMap, cascades: bool, pl: seq<int>)
    requires Good(sm, cascades) && forall p :: p in pl ==> p in sm
    ensures forall e :: e in DriverEdges(sm, cascades, pl) <==> exists p :: p in pl && e in ThreadEdges(sm, cascades, p)
    ensures DriverDies(sm, cascades, pl) <==> exists p :: p in pl && ThreadDies(sm, cascades, p)
  {
    if pl != [] {
      DriverMembers(sm, cascades, pl[1..]);
      assert forall p :: p in pl <==> p == pl[0] || p in pl[1..];
    }
  }

  /** The sum of the shares of the listed threads. */
  ghost function SumOf(shares: map<int, int>, pl: seq<int>): int {
    if pl == [] then 0 else (if pl[0] in shares then shares[pl[0]] else 0) + SumOf(shares, pl[1..])
  }

  /** Taking one thread out of the list takes its share out of the sum. */
  lemma {:induction false} SumTakesOut(shares: map<int, int>, pl: seq<int>, i: nat)
    requires i < |pl|
    ensures SumOf(shares, pl) == SumOf(shares, [pl[i]]) + SumOf(shares, pl[..i] + pl[i + 1..])
  {
    if i == 0 {
      assert pl[..0] + pl[1..] == pl[1..];
    } else {
      SumTakesOut(shares, pl[1..], i - 1);
      assert pl[1..][..i - 1] + pl[1..][i..] == (pl[..i] + pl[i + 1..])[1..];
    }
  }

  lemma {:induction false} SameSums(shares: map<int, int>, pl: seq<int>, pl': seq<int>)
    requires multiset(pl) == multiset(pl')
    ensures SumOf(shares, pl) == SumOf(shares, pl')
    decreases |pl|
  {
    if pl == [] {
      assert |multiset(pl')| == |pl'|;
    } else {
      assert pl[0] in multiset(pl) && pl[0] in multiset(pl');
      var i: nat :| i < |pl'| && pl'[i] == pl[0];
      var rest := pl'[..i] + pl'[i + 1..];
      SumTakesOut(shares, pl', i);
      assert SumOf(shares, pl) == SumOf(shares, [pl[0]]) + SumOf(shares, pl[1..]);
      SameRests(pl, pl', i);
      SameSums(shares, pl[1..], rest);
    }
  }

  /** What each thread adds to the chosen edges. */
  ghost function Shares(sm: SegMap, cascades: bool, pick: EdgeSet): map<int, int>
    requires Good(sm, cascades)
  {
    map p | p in sm :: EdgeTime(ThreadEdges(sm, cascades, p), pick)
  }

  lemma {:induction false} TotalIsSum(sm: SegMap, cascades: bool, pl: seq<int>, pick: EdgeSet)
    requires Good(sm, cascades) && forall p :: p in pl ==> p in sm
    ensures EdgeTime(DriverEdges(sm, cascades, pl), pick) == SumOf(Shares(sm, cascades, pick), pl)
  {
    if pl != [] {
      TotalIsSum(sm, cascades, pl[1..], pick);
      EdgeTimeConcat(ThreadEdges(sm, cascades, pl[0]), DriverEdges(sm, cascades, pl[1..]), pick);
    }
  }

  lemma SameTotals(sm: SegMap, cascades: bool, pl: seq<int>, pl': seq<int>, pick: EdgeSet)
    requires Good(sm, cascades) && multiset(pl) == multiset(pl')
    requires (forall p :: p in pl ==> p in sm) && forall p :: p in pl' ==> p in sm
    ensures EdgeTime(DriverEdges(sm, cascades, pl), pick) == EdgeTime(DriverEdges(sm, cascades, pl'), pick)
  {
    TotalIsSum(sm, cascades, pl, pick);
    TotalIsSum(sm, cascades, pl', pick);
    SameSums(Shares(sm, cascades, pick), pl, pl');
  }

  lemma SameThreads(pl: seq<int>, pl': seq<int>)
    requires multiset(pl) == multiset(pl')
    ensures forall p :: p in pl <==> p in pl'
  {
    assert forall p :: p in pl <==> p in multiset(pl);
    assert forall p :: p in pl' <==> p in multiset(pl');
  }

  /** Two lists of calls with the same members and the same totals make the same graph. */
  lemma {:induction false} SameWeight(comms: Comms, es: seq<Edge>, es': seq<Edge>, k: string)
    requires forall e :: e in es <==> e in es'
    requires EdgeTime(es, Into(comms, k)) == EdgeTime(es', Into(comms, k))
    ensures var g, g' := AddAll(map[], comms, es), AddAll(map[], comms, es');
      (k in g <==> k in g') && WeightOf(g, k) == WeightOf(g', k)
  {
    AddAllKeys(map[], comms, es, k);
    AddAllKeys(map[], comms, es', k);
    AddAllWeight(map[], comms, es, k);
    AddAllWeight(map[], comms, es', k);
  }

  lemma SameWeights(g: Graph, g': Graph)
    requires forall k :: (k in g <==> k in g') && WeightOf(g, k) == WeightOf(g', k)
    ensures g == g'
  {
    forall k | k in g ensures k in g' && g[k] == g'[k] { assert WeightOf(g, k) == WeightOf(g', k); }
    forall k | k in g' ensures k in g { assert WeightOf(g, k) == WeightOf(g', k); }
  }

  /** For one set of maps, the order of the thread list does not show in the graph. */
  lemma SameGraph(sm: SegMap, cascades: bool, comms: Comms, pl: seq<int>, pl': seq<int>)
    requires Good(sm, cascades) && multiset(pl) == multiset(pl')
    requires (forall p :: p in pl ==> p in sm) && forall p :: p in pl' ==> p in sm
    ensures DriverDies(sm, cascades, pl) <==> DriverDies(sm, cascades, pl')
    ensures AddAll(map[], comms, DriverEdges(sm, cascades, pl)) == AddAll(map[], comms, DriverEdges(sm, cascades, pl'))
  {
    SameThreads(pl, pl');
    DriverMembers(sm, cascades, pl);
    DriverMembers(sm, cascades, pl');
    var es, es' := DriverEdges(sm, cascades, pl), DriverEdges(sm, cascades, pl');
    var g, g' := AddAll(map[], comms, es), AddAll(map[], comms, es');
    forall k ensures (k in g <==> k in g') && WeightOf(g, k) == WeightOf(g', k) {
      SameTotals(sm, cascades, pl, pl', Into(comms, k));
      SameWeight(comms, es, es', k);
    }
    SameWeights(g, g');
  }

  /** On each CPU at most one softirq of the list ends at any time. */
  ghost predicate EndsDiffer(sl: seq<Soft>) {
    forall s, o :: s in sl && o in sl && s.cpu == o.cpu && s.etime == o.etime ==> s == o
  }

  /** The index files each softirq of the list under its CPU and its end, and holds nothing else. */
  ghost predicate Files(ix: SoftIndex, sl: seq<Soft>) {
    && (forall cpu :: cpu in ix ==> exists s :: s in sl && s.cpu == cpu)
    && (forall cpu, k :: cpu in ix && k in ix[cpu] ==> ix[cpu][k] in sl && ix[cpu][k].cpu == cpu && ix[cpu][k].etime == k)
    && (forall s :: s in sl ==> s.cpu in ix && s.etime in ix[s.cpu] && ix[s.cpu][s.etime] == s)
  }

  /** One more softirq, whose end no other one of its CPU has. */
  lemma FilesNext(ix: SoftIndex, sl: seq<Soft>, last: Soft)
    requires Files(ix, sl) && forall s :: s in sl && s.cpu == last.cpu && s.etime == last.etime ==> s == last
    ensures Files(SoftPut(ix, last), sl + [last])
  {
    var ix' := SoftPut(ix, last);
    assert forall s :: s in sl + [last] <==> s in sl || s == last;
    assert last in sl + [last];
    forall s | s in sl + [last] ensures s.cpu in ix' && s.etime in ix'[s.cpu] && ix'[s.cpu][s.etime] == s { }
  }

  lemma LastEndDiffers(sl: seq<Soft>)
    requires EndsDiffer(sl) && sl != []
    ensures var init, last := sl[..|sl| - 1], sl[|sl| - 1];
      EndsDiffer(init) && forall s :: s in init && s.cpu == last.cpu && s.etime == last.etime ==> s == last
  {
    assert forall s :: s in sl[..|sl| - 1] ==> s in sl;
  }

  /** The softirq index then holds exactly the list, whatever its order. */
  lemma {:induction false} IndexIsList(sl: seq<Soft>)
    requires EndsDiffer(sl)
    ensures Files(IndexOf(sl), sl)
  {
    if sl != [] {
      var init, last := sl[..|sl| - 1], sl[|sl| - 1];
      LastEndDiffers(sl);
      IndexIsList(init);
      assert sl == init + [last] && IndexOf(sl) == SoftPut(IndexOf(init), last);
      FilesNext(IndexOf(init), init, last);
    }
  }

  lemma SameTree(ix: SoftIndex, ix': SoftIndex, sl: seq<Soft>, cpu: int)
    requires Files(ix, sl) && Files(ix', sl) && cpu in ix
    ensures cpu in ix' && ix'[cpu] == ix[cpu]
  {
    var s :| s in sl && s.cpu == cpu;
    forall k | k in ix[cpu] ensures k in ix'[cpu] && ix'[cpu][k] == ix[cpu][k] {
      assert ix[cpu][k] in sl;
    }
    forall k | k in ix'[cpu] ensures k in ix[cpu] {
      assert ix'[cpu][k] in sl;
    }
  }

  lemma SameIndex(sl: seq<Soft>, sl': seq<Soft>)
    requires EndsDiffer(sl) && multiset(sl) == multiset(sl')
    ensures IndexOf(sl) == IndexOf(sl')
  {
    SameSofts(sl, sl');
    IndexIsList(sl);
    IndexIsList(sl');
    SameFiles(IndexOf(sl), IndexOf(sl'), sl, sl');
  }

  lemma SameFiles(ix: SoftIndex, ix': SoftIndex, sl: seq<Soft>, sl': seq<Soft>)
    requires Files(ix, sl) && Files(ix', sl') && forall s :: s in sl <==> s in sl'
    ensures ix == ix'
  {
    forall cpu | cpu in ix ensures cpu in ix' && ix'[cpu] == ix[cpu] { SameTree(ix, ix', sl, cpu); }
    forall cpu | cpu in ix' ensures cpu in ix { SameTree(ix', ix, sl, cpu); }
  }

  lemma SameSofts(sl: seq<Soft>, sl': seq<Soft>)
    requires multiset(sl) == multiset(sl')
    ensures forall s :: s in sl <==> s in sl'
  {
    assert forall s :: s in sl <==> s in multiset(sl);
    assert forall s :: s in sl' <==> s in multiset(sl');
  }

  /** Permuting the lines of the switch file (with distinct time stamps, after sorting) and the list of threads changes
      neither whether the program panics nor the graph it ends with. */
  lemma OrderDoesNotMatter(cascades: bool, pl: seq<int>, pl': seq<int>, ix: SoftIndex, swl: seq<Switch>,
                           swl': seq<Switch>, comms: Comms)
    requires multiset(pl) == multiset(pl') && multiset(swl) == multiset(swl')
    requires StrictlySorted(swl) && StrictlySorted(swl')
    requires swl != [] ==> Inputs(cascades, pl, ix, swl)
    ensures swl' == swl && (swl != [] ==> Inputs(cascades, pl', ix, swl))
    ensures Outcome(cascades, pl, ix, swl).Some? <==> Outcome(cascades, pl', ix, swl).Some?
    ensures Outcome(cascades, pl, ix, swl).Some? ==>
      AddAll(map[], comms, Outcome(cascades, pl, ix, swl).value) == AddAll(map[], comms, Outcome(cascades, pl', ix, swl).value)
  {
    SortedOnce(swl, swl');
    SameThreads(pl, pl');
    if swl != [] {
      assert AllClean(pl, ix, swl) ==> AllClean(pl', ix, swl);
      if AllSurvive(pl, ix, swl) {
        InputsAreGood(cascades, pl, ix, swl);
        assert AllBroken(pl, ix, swl) == AllBroken(pl', ix, swl);
        SameGraph(AllBroken(pl, ix, swl), cascades, comms, pl, pl');
      }
    }
  }

  /** The same with the lines of the softirq file permuted, too, as long as no two softirqs of a CPU end at the same time. */
  lemma NoOrderMatters(cascades: bool, pl: seq<int>, pl': seq<int>, sl: seq<Soft>, sl': seq<Soft>, swl: seq<Switch>,
                       swl': seq<Switch>, comms: Comms)
    requires multiset(pl) == multiset(pl') && multiset(swl) == multiset(swl') && multiset(sl) == multiset(sl')
    requires StrictlySorted(swl) && StrictlySorted(swl') && EndsDiffer(sl)
    requires swl != [] ==> Inputs(cascades, pl, IndexOf(sl), swl)
    ensures swl' == swl && IndexOf(sl') == IndexOf(sl) && (swl != [] ==> Inputs(cascades, pl', IndexOf(sl), swl))
    ensures Outcome(cascades, pl, IndexOf(sl), swl).Some? <==> Outcome(cascades, pl', IndexOf(sl'), swl').Some?
    ensures Outcome(cascades, pl, IndexOf(sl), swl).Some? ==>
      AddAll(map[], comms, Outcome(cascades, pl, IndexOf(sl), swl).value)
      == AddAll(map[], comms, Outcome(cascades, pl', IndexOf(sl'), swl').value)
  {
    SameIndex(sl, sl');
    OrderDoesNotMatter(cascades, pl, pl', IndexOf(sl), swl, swl', comms);
  }
}
