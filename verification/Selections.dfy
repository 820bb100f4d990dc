/** Which places of a list are chosen, in order. */
module Selections {
  /** at lists, in order, exactly the chosen places below n. */
  ghost predicate Lists(at: seq<nat>, n: nat, chosen: nat -> bool) {
    && (forall i, j :: 0 <= i < j < |at| ==> at[i] < at[j])
    && (forall k :: 0 <= k < |at| ==> at[k] < n && chosen(at[k]))
    && (forall i: nat :: i < n && chosen(i) ==> i in at)
  }

  /** The last place is listed exactly if it is chosen, and before it nothing changes. */
  lemma ListsStep(at: seq<nat>, n: nat, chosen: nat -> bool)
    requires Lists(at, n + 1, chosen)
    ensures if chosen(n) then at != [] && at[|at| - 1] == n && Lists(at[..|at| - 1], n, chosen) else Lists(at, n, chosen)
  {
    if chosen(n) {
      assert n in at;
      var init := at[..|at| - 1];
      assert at == init + [n];
      forall i: nat | i < n && chosen(i) ensures i in init { assert i in at; }
    } else {
      assert forall k :: 0 <= k < |at| ==> at[k] != n;
    }
  }

  /** r holds the elements of s at the places listed. */
  ghost predicate Picked<T>(s: seq<T>, at: seq<nat>, r: seq<T>) {
    |r| == |at| && forall k :: 0 <= k < |at| ==> at[k] < |s| && r[k] == s[at[k]]
  }

  lemma PickedMore<T>(s: seq<T>, at: seq<nat>, r: seq<T>)
    requires at != [] && at[|at| - 1] < |s| && Picked(s, at[..|at| - 1], r)
    ensures Picked(s, at, r + [s[at[|at| - 1]]])
  {
    var init := at[..|at| - 1];
    assert forall k :: 0 <= k < |init| ==> init[k] == at[k];
  }

  lemma ListedIsBelow(at: seq<nat>, n: nat, chosen: nat -> bool, k: nat)
    requires Lists(at, n, chosen) && k < |at|
    ensures at[k] < n
  {
  }

  lemma ListsNothing(at: seq<nat>, chosen: nat -> bool)
    requires Lists(at, 0, chosen)
    ensures at == []
  {
    if at != [] {
      ListedIsBelow(at, 0, chosen, 0);
      assert false;
    }
  }
}
