/** Walking a finite set of numbers in ascending order, as a key scan or a sort does. */
module SortedSets {
  lemma MinOf(s: set<nat>) returns (m: nat)
    requires s != {}
    ensures m in s && forall x :: x in s ==> m <= x
  {
    var x :| x in s;
    var rest := s - {x};
    if rest == {} {
      assert s == {x};
      m := x;
    } else {
      var n := MinOf(rest);
      m := if n < x then n else x;
      assert forall y :: y in s ==> y == x || y in rest;
    }
  }

  ghost predicate SortedList(seqs: seq<nat>, keys: set<nat>) {
    && (forall i, j :: 0 <= i < j < |seqs| ==> seqs[i] < seqs[j])
    && (forall i :: 0 <= i < |seqs| ==> seqs[i] in keys)
    && (forall s :: s in keys ==> s in seqs)
  }

  method InOrder(keys: set<nat>) returns (seqs: seq<nat>)
    ensures SortedList(seqs, keys)
  {
    seqs := [];
    var rest := keys;
    while rest != {}
      invariant rest <= keys
      invariant forall s :: s in keys && s !in rest ==> s in seqs
      invariant forall i :: 0 <= i < |seqs| ==> seqs[i] in keys
      invariant forall i, x :: 0 <= i < |seqs| && x in rest ==> seqs[i] < x
      invariant forall i, j :: 0 <= i < j < |seqs| ==> seqs[i] < seqs[j]
      decreases |rest|
    {
      ghost var m := MinOf(rest);
      var s :| s in rest && forall x :: x in rest ==> s <= x;
      seqs := seqs + [s];
      rest := rest - {s};
    }
  }
}
