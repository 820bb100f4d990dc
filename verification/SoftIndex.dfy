/** The softirq intervals of a trace, indexed per CPU by end time. */
module SoftIndexes {
  import opened Events
  import opened TreeMaps

  type SoftTree = map<u64, Soft>
  type SoftIndex = map<int, SoftTree>

  ghost function TreeOf(ix: SoftIndex, cpu: int): SoftTree {
    if cpu in ix then ix[cpu] else map[]
  }

  ghost function SoftPut(ix: SoftIndex, s: Soft): SoftIndex {
    ix[s.cpu := TreeOf(ix, s.cpu)[s.etime := s]]
  }

  ghost function IndexOf(sl: seq<Soft>): SoftIndex {
    if sl == [] then map[] else SoftPut(IndexOf(sl[..|sl| - 1]), sl[|sl| - 1])
  }

  ghost function CeilingSoft(ix: SoftIndex, cpu: int, t: u64): Option<Soft> {
    var c := CeilingOf(TreeOf(ix, cpu).Keys, t);
    if c.None? then None else Some(TreeOf(ix, cpu)[c.value])
  }

  /** Every interval sits under its CPU and its end. */
  ghost predicate Keyed(ix: SoftIndex) {
    forall cpu, k :: cpu in ix && k in ix[cpu] ==> ix[cpu][k].cpu == cpu && ix[cpu][k].etime == k
  }

  /** What the index holds is from the list, under its CPU and its end, and every CPU and end of the list is there. */
  lemma {:induction false} IndexHolds(sl: seq<Soft>)
    ensures Keyed(IndexOf(sl))
    ensures forall cpu, k :: k in TreeOf(IndexOf(sl), cpu) ==> TreeOf(IndexOf(sl), cpu)[k] in sl
    ensures forall s :: s in sl ==> s.etime in TreeOf(IndexOf(sl), s.cpu)
  {
    if sl != [] {
      var init, last := sl[..|sl| - 1], sl[|sl| - 1];
      IndexHolds(init);
      assert forall s :: s in sl <==> s in init || s == last;
      forall cpu, k | k in TreeOf(IndexOf(sl), cpu) ensures TreeOf(IndexOf(sl), cpu)[k] in sl {
        if cpu != last.cpu || k != last.etime { assert k in TreeOf(IndexOf(init), cpu); }
      }
    }
  }

  /** No later interval of the list has the CPU and the end of interval i. */
  ghost predicate LastOfItsEnd(sl: seq<Soft>, i: int) {
    0 <= i < |sl| && forall j :: i < j < |sl| ==> sl[j].cpu != sl[i].cpu || sl[j].etime != sl[i].etime
  }

  /** For each CPU and end time the index holds the last interval of the list with that CPU and end. */
  lemma {:induction false} IndexKeepsLast(sl: seq<Soft>, i: nat)
    requires LastOfItsEnd(sl, i)
    ensures var t := TreeOf(IndexOf(sl), sl[i].cpu); sl[i].etime in t && t[sl[i].etime] == sl[i]
    decreases |sl|
  {
    if i < |sl| - 1 { IndexKeepsLast(sl[..|sl| - 1], i); }
  }

  /** s ends on this CPU no earlier than t, and no interval of the CPU that does so ends before s. */
  ghost predicate FirstToEnd(sl: seq<Soft>, cpu: int, t: int, s: Soft) {
    s in sl && s.cpu == cpu && t <= s.etime && forall o :: o in sl && o.cpu == cpu && t <= o.etime ==> s.etime <= o.etime
  }

  /** The lookup by end time is a minimum over the whole list. */
  lemma CeilingIsMinimum(sl: seq<Soft>, cpu: int, t: u64)
    ensures CeilingSoft(IndexOf(sl), cpu, t).None? <==> forall s :: s in sl && s.cpu == cpu ==> s.etime < t
    ensures CeilingSoft(IndexOf(sl), cpu, t).Some? ==> FirstToEnd(sl, cpu, t, CeilingSoft(IndexOf(sl), cpu, t).value)
  {
    IndexHolds(sl);
    var tree := TreeOf(IndexOf(sl), cpu);
    var c := CeilingOf(tree.Keys, t);
    if c.Some? {
      assert tree[c.value] in sl && tree[c.value].etime == c.value;
    }
  }

  /** With no softirq across the start of a run, the test of line 280 passes exactly when some softirq of the CPU lies
      inside the run. */
  lemma CarvingIsComplete(sl: seq<Soft>, cpu: int, pt: u64, t: u64)
    requires forall s :: s in sl ==> s.stime <= s.etime
    requires forall s :: s in sl && s.cpu == cpu ==> !(s.stime < pt <= s.etime)
    ensures (var sf := CeilingSoft(IndexOf(sl), cpu, pt); sf.Some? && sf.value.stime < t && sf.value.etime < t)
      <==> exists s :: s in sl && s.cpu == cpu && pt <= s.stime && s.etime < t
  {
    CeilingIsMinimum(sl, cpu, pt);
    var sf := CeilingSoft(IndexOf(sl), cpu, pt);
    if s :| s in sl && s.cpu == cpu && pt <= s.stime && s.etime < t {
      assert sf.value.etime <= s.etime;
    }
  }
}
