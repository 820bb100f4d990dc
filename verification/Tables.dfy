/** A thread's segments as a value, and the search for its blocked segments inside a window. */
module Tables {
  import opened Events
  import opened TreeMaps

  datatype Seg = Seg(pid: int, state: int, stime: u64, etime: u64, waitFor: int)

  /** The content of one thread's ordered map, keyed by start time. */
  type Table = map<u64, Seg>
  type SegMap = map<int, Table>

  /** A segment that ends before it starts is no wait, and the successor of its start is a 64-bit number. */
  ghost predicate Fair(v: Seg) {
    v.stime <= v.etime || (v.state != BLOCKED && v.stime + 1 < U64_LIMIT)
  }

  /** Every segment is stored under its own start time, and no wait ends before it starts. */
  ghost predicate Upright(m: Table) {
    forall k :: k in m ==> m[k].stime == k && Fair(m[k])
  }

  /** No segment ends before it starts. */
  ghost predicate Forward(m: Table) {
    forall k :: k in m ==> m[k].stime == k <= m[k].etime
  }

  /** Blocked segments overlap none of their neighbours. */
  ghost predicate Isolated(m: Table) {
    forall k, l :: k in m && l in m && k < l && (m[k].state == BLOCKED || m[l].state == BLOCKED) ==> m[k].etime <= l
  }

  /** Blocked segments do not overlap each other. */
  ghost predicate Apart(m: Table) {
    forall k, l :: k in m && l in m && k < l && m[k].state == BLOCKED && m[l].state == BLOCKED ==> m[k].etime <= l
  }

  ghost predicate Overlaps(v: Seg, s: int, e: int) {
    v.stime < e && s < v.etime
  }

  function BlockedOnly(v: Seg): seq<Seg> {
    if v.state == BLOCKED then [v] else []
  }

  /** The loop of findAllWaitingSegments, entered with the segment stored under k. */
  ghost function Walk(m: Table, k: u64, e: u64): seq<Seg>
    requires Upright(m) && k in m
    decreases U64_LIMIT - k
  {
    if m[k].etime >= e then BlockedOnly(m[k]) else
    var next := CeilingOf(m.Keys, k + 1);
    if next.None? || next.value >= e then BlockedOnly(m[k])
    else BlockedOnly(m[k]) + Walk(m, next.value, e)
  }

  /** The loop runs off the end of the map: Segments.Ceiling then asserts the type of a nil key and panics. */
  ghost predicate WalkDies(m: Table, k: u64, e: u64)
    requires Upright(m) && k in m
    decreases U64_LIMIT - k
  {
    m[k].etime < e &&
    var next := CeilingOf(m.Keys, k + 1);
    next.None? || (next.value < e && WalkDies(m, next.value, e))
  }

  /** No segment from k on ends at e or later. */
  ghost predicate NoneReaches(m: Table, k: int, e: int) {
    forall x :: x in m && k <= x ==> m[x].etime < e
  }

  /** No segment from k on ends, and none after k starts, at e or later. */
  ghost predicate EndsShort(m: Table, k: int, e: int) {
    NoneReaches(m, k, e) && forall x :: x in m && k < x ==> x < e
  }

  lemma ShortIsNone(m: Table, k: int, e: int)
    requires Forward(m)
    ensures EndsShort(m, k, e) <==> NoneReaches(m, k, e)
  {
  }

  /** The walk panics exactly when no segment from the floor on ends, and none after it starts, at or after the end of the
      window. */
  lemma {:induction false} WalkDiesIff(m: Table, k: u64, e: u64)
    requires Upright(m) && k in m
    ensures WalkDies(m, k, e) <==> EndsShort(m, k, e)
    decreases U64_LIMIT - k
  {
    var next := CeilingOf(m.Keys, k + 1);
    if m[k].etime < e && next.Some? {
      if next.value < e {
        WalkDiesIff(m, next.value, e);
        forall x | x in m && k < x ensures next.value <= x { }
        assert EndsShort(m, next.value, e) <==> EndsShort(m, k, e);
      }
    }
  }

  /** The naive search: look at every segment, in order, and keep the blocked ones that overlap [s, e). */
  ghost function Scan(m: Table, keys: seq<u64>, s: int, e: int): seq<Seg>
    requires forall k :: k in keys ==> k in m
  {
    if keys == [] then []
    else (if m[keys[0]].state == BLOCKED && Overlaps(m[keys[0]], s, e) then [m[keys[0]]] else [])
         + Scan(m, keys[1..], s, e)
  }

  lemma {:induction false} ScanNothing(m: Table, keys: seq<u64>, s: int, e: int)
    requires forall k :: k in keys ==> k in m
    requires forall k :: k in keys && m[k].state == BLOCKED ==> !Overlaps(m[k], s, e)
    ensures Scan(m, keys, s, e) == []
  {
    if keys != [] { ScanNothing(m, keys[1..], s, e); }
  }

  /** The floor of the window is a blocked segment that is already over when the window starts. */
  ghost predicate StaleFloor(m: Table, f: int, s: int) {
    f in m && m[f].state == BLOCKED && m[f].etime <= s
  }

  /** In the sorted list of the keys, Ceiling(k + 1) is the next position. */
  lemma NextKey(keys: seq<u64>, ks: set<u64>, i: nat)
    requires Lists(keys, ks) && i < |keys|
    ensures CeilingOf(ks, keys[i] as int + 1) == if i + 1 < |keys| then Some(keys[i + 1]) else None
  {
    var next := CeilingOf(ks, keys[i] as int + 1);
    if next.Some? {
      assert next.value in keys;
      var j: nat :| j < |keys| && keys[j] == next.value;
      assert i < j;
    }
    if i + 1 < |keys| {
      assert keys[i + 1] in ks;
    }
  }

  /** From position i of the sorted keys on, the walk and the naive search agree. */
  lemma {:induction false} WalkIsScanFrom(m: Table, keys: seq<u64>, i: nat, s: u64, e: u64)
    requires Upright(m) && Isolated(m) && Lists(keys, m.Keys) && i < |keys| && keys[i] < e
    requires keys[i] <= s ==> i + 1 == |keys| || s < keys[i + 1]
    requires !StaleFloor(m, keys[i], s)
    ensures Walk(m, keys[i], e) == Scan(m, keys[i..], s, e)
    decreases |keys| - i
  {
    var k := keys[i];
    var rest := keys[i + 1..];
    assert keys[i..][1..] == rest;
    NextKey(keys, m.Keys, i);
    if m[k].etime >= e || i + 1 == |keys| || keys[i + 1] >= e {
      forall x | x in rest && m[x].state == BLOCKED ensures !Overlaps(m[x], s, e) {
        assert k < x && x in m;
      }
      ScanNothing(m, rest, s, e);
    } else {
      WalkIsScanFrom(m, keys, i + 1, s, e);
    }
  }

  /** Keys before the floor cannot contribute. */
  lemma {:induction false} ScanSkips(m: Table, keys: seq<u64>, i: nat, f: u64, s: u64, e: u64)
    requires Upright(m) && Isolated(m) && f in m && f <= s && i <= |keys|
    requires forall k :: k in keys ==> k in m
    requires forall j :: 0 <= j < i ==> keys[j] < f
    ensures Scan(m, keys, s, e) == Scan(m, keys[i..], s, e)
  {
    if i > 0 {
      assert keys[0] in keys;
      ScanSkips(m, keys[1..], i - 1, f, s, e);
      assert keys[1..][i - 1..] == keys[i..];
    } else {
      assert keys[0..] == keys;
    }
  }

  lemma {:induction false} ScanMembers(m: Table, keys: seq<u64>, s: int, e: int)
    requires forall k :: k in keys ==> k in m
    ensures forall v :: v in Scan(m, keys, s, e) ==> v.state == BLOCKED && Overlaps(v, s, e)
    ensures forall v :: v in Scan(m, keys, s, e) ==> exists k :: k in keys && m[k] == v
    ensures forall k :: k in keys && m[k].state == BLOCKED && Overlaps(m[k], s, e) ==> m[k] in Scan(m, keys, s, e)
  {
    if keys != [] {
      ScanMembers(m, keys[1..], s, e);
      assert forall k :: k in keys <==> k == keys[0] || k in keys[1..];
    }
  }

  /** The floor, when blocked, is the first segment found. */
  lemma WalkHead(m: Table, k: u64, e: u64)
    requires Upright(m) && k in m && m[k].state == BLOCKED
    ensures m[k] in Walk(m, k, e)
  {
  }

  /** The index walk finds what the naive scan finds, unless its floor is a blocked segment already over. */
  lemma WalkIsScan(m: Table, keys: seq<u64>, f: u64, s: u64, e: u64)
    requires Upright(m) && Isolated(m) && Lists(keys, m.Keys)
    requires s < e && IsFloor(m.Keys, s, f)
    ensures Walk(m, f, e) == Scan(m, keys, s, e) <==> !StaleFloor(m, f, s)
  {
    assert f in keys;
    var i: nat :| i < |keys| && keys[i] == f;
    if StaleFloor(m, f, s) {
      WalkHead(m, f, e);
      ScanMembers(m, keys, s, e);
      assert !Overlaps(m[f], s, e);
    } else {
      ScanSkips(m, keys, i, f, s, e);
      if i + 1 < |keys| { assert keys[i + 1] in m.Keys; }
      WalkIsScanFrom(m, keys, i, s, e);
    }
  }
}
