/** The ordered map behind both indexes. Only its contract matters here: a red-black tree keeps it fast. */
module TreeMaps {
  import opened Events

  ghost predicate IsFloor(ks: set<u64>, t: int, f: int) {
    f in ks && f <= t && forall x :: x in ks && x <= t ==> x <= f
  }

  ghost predicate IsCeiling(ks: set<u64>, t: int, c: int) {
    c in ks && t <= c && forall x :: x in ks && t <= x ==> c <= x
  }

  lemma {:induction false} FloorExists(ks: set<u64>, t: int, x: int)
    requires x in ks && x <= t
    ensures exists f :: IsFloor(ks, t, f)
    decreases t - x
  {
    if !IsFloor(ks, t, x) {
      var y :| y in ks && y <= t && x < y;
      FloorExists(ks, t, y);
    }
  }

  lemma {:induction false} CeilingExists(ks: set<u64>, t: int, x: int)
    requires x in ks && t <= x
    ensures exists c :: IsCeiling(ks, t, c)
    decreases x - t
  {
    if !IsCeiling(ks, t, x) {
      var y :| y in ks && t <= y && y < x;
      CeilingExists(ks, t, y);
    }
  }

  /** The largest key not above t. */
  ghost function FloorOf(ks: set<u64>, t: int): (r: Option<u64>)
    ensures r.Some? ==> IsFloor(ks, t, r.value)
    ensures r.None? ==> forall x :: x in ks ==> t < x
  {
    if exists f :: IsFloor(ks, t, f) then
      var f :| IsFloor(ks, t, f);
      Some(f)
    else
      assert forall x :: x in ks ==> t < x by {
        forall x | x in ks && x <= t ensures false { FloorExists(ks, t, x); }
      }
      None
  }

  /** The smallest key not below t. */
  ghost function CeilingOf(ks: set<u64>, t: int): (r: Option<u64>)
    ensures r.Some? ==> IsCeiling(ks, t, r.value)
    ensures r.None? ==> forall x :: x in ks ==> x < t
  {
    if exists c :: IsCeiling(ks, t, c) then
      var c :| IsCeiling(ks, t, c);
      Some(c)
    else
      assert forall x :: x in ks ==> x < t by {
        forall x | x in ks && t <= x ensures false { CeilingExists(ks, t, x); }
      }
      None
  }

  ghost predicate Ascending(keys: seq<u64>) {
    forall i, j :: 0 <= i < j < |keys| ==> keys[i] < keys[j]
  }

  /** keys lists the set ks from the smallest to the largest. */
  ghost predicate Lists(keys: seq<u64>, ks: set<u64>) {
    Ascending(keys) && forall x :: x in keys <==> x in ks
  }

  class TreeMap<V> {
    var keys: seq<u64>
    var vals: map<u64, V>

    ghost predicate Valid()
      reads this
    {
      Lists(keys, vals.Keys)
    }

    constructor ()
      ensures Valid() && vals == map[]
    {
      keys, vals := [], map[];
    }

    method Put(k: u64, v: V)
      requires Valid()
      modifies this
      ensures Valid() && vals == old(vals)[k := v]
    {
      var i := 0;
      while i < |keys| && keys[i] < k
        invariant i <= |keys|
        invariant forall j :: 0 <= j < i ==> keys[j] < k
      {
        i := i + 1;
      }
      vals := vals[k := v];
      if i == |keys| || keys[i] != k {
        assert forall j :: i <= j < |keys| ==> k < keys[j];
        keys := keys[..i] + [k] + keys[i..];
      }
      assert old(keys) == old(keys)[..i] + old(keys)[i..];
    }

    method Floor(t: u64) returns (k: u64, v: Option<V>)
      requires Valid()
      ensures v.None? <==> FloorOf(vals.Keys, t).None?
      ensures v.Some? ==> FloorOf(vals.Keys, t) == Some(k) && k in vals && v.value == vals[k]
    {
      var i := 0;
      while i < |keys| && keys[i] <= t
        invariant i <= |keys|
        invariant forall j :: 0 <= j < i ==> keys[j] <= t
      {
        i := i + 1;
      }
      if i == 0 {
        return 0, None;
      }
      k := keys[i - 1];
      assert IsFloor(vals.Keys, t, k);
      v := Some(vals[k]);
    }

    method Ceiling(t: u64) returns (k: u64, v: Option<V>)
      requires Valid()
      ensures v.None? <==> CeilingOf(vals.Keys, t).None?
      ensures v.Some? ==> CeilingOf(vals.Keys, t) == Some(k) && k in vals && v.value == vals[k]
    {
      var i := 0;
      while i < |keys| && keys[i] < t
        invariant i <= |keys|
        invariant forall j :: 0 <= j < i ==> keys[j] < t
      {
        i := i + 1;
      }
      if i == |keys| {
        return 0, None;
      }
      k := keys[i];
      assert IsCeiling(vals.Keys, t, k);
      v := Some(vals[k]);
    }
  }
}
