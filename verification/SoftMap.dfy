/** The softirq index as the program keeps it. */
module SoftMaps {
  import opened Events
  import opened TreeMaps
  import opened SoftIndexes

  class SoftMap {
    var trees: map<int, TreeMap<Soft>>

    ghost predicate Valid()
      reads this, trees.Values
    {
      && (forall c :: c in trees ==> trees[c].Valid())
      && (forall c, d :: c in trees && d in trees && c != d ==> trees[c] != trees[d])
    }

    ghost function View(): SoftIndex
      reads this, trees.Values
    {
      map c | c in trees :: trees[c].vals
    }

    constructor ()
      ensures Valid() && View() == map[] && trees == map[]
    {
      trees := map[];
    }

    /** Lines 31-34: a tree for a CPU met for the first time. */
    method EnsureTree(cpu: int)
      requires Valid()
      modifies this
      ensures Valid() && cpu in trees && View() == old(View())[cpu := TreeOf(old(View()), cpu)]
      ensures forall t :: t in trees.Values ==> t in old(trees.Values) || fresh(t)
    {
      if cpu !in trees {
        var t := new TreeMap<Soft>();
        trees := trees[cpu := t];
      }
    }

    /** Line 35. */
    method PutInto(v: Soft)
      requires Valid() && v.cpu in trees
      modifies trees[v.cpu]
      ensures Valid() && View() == SoftPut(old(View()), v)
    {
      trees[v.cpu].Put(v.etime, v);
      assert forall c :: c in trees && c != v.cpu ==> trees[c].vals == old(View())[c];
    }

    /** The body of the loop of Init. */
    method Add(v: Soft)
      requires Valid()
      modifies this, trees.Values
      ensures Valid() && View() == SoftPut(old(View()), v)
      ensures forall t :: t in trees.Values ==> t in old(trees.Values) || fresh(t)
    {
      EnsureTree(v.cpu);
      PutInto(v);
    }

    /** Later intervals replace earlier ones of the same CPU and end. */
    method Init(sl: seq<Soft>)
      requires Valid() && trees == map[]
      modifies this
      ensures Valid() && fresh(trees.Values)
      ensures View() == IndexOf(sl)
    {
      for i := 0 to |sl|
        invariant Valid() && fresh(trees.Values)
        invariant View() == IndexOf(sl[..i])
      {
        assert sl[..i + 1][..i] == sl[..i];
        Add(sl[i]);
      }
      assert sl[..|sl|] == sl;
    }

    method GetCeilingSoft(cpu: int, time: u64) returns (s: Option<Soft>)
      requires Valid()
      ensures s == CeilingSoft(View(), cpu, time)
    {
      if cpu !in trees {
        assert CeilingOf(TreeOf(View(), cpu).Keys, time).None?;
        return None;
      }
      assert TreeOf(View(), cpu) == trees[cpu].vals;
      var k, v := trees[cpu].Ceiling(time);
      s := v;
    }
  }
}
