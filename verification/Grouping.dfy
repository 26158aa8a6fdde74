/** Keeping the first element of every group of a list. */
module Grouping {

  predicate Represented<T, K(==)>(xs: seq<T>, key: T -> K, k: K) {
    exists i :: 0 <= i < |xs| && key(xs[i]) == k
  }

  function FirstBy<T, K(==)>(xs: seq<T>, key: T -> K): seq<T> {
    if xs == [] then []
    else
      var out, last := FirstBy(xs[..|xs| - 1], key), xs[|xs| - 1];
      if Represented(out, key, key(last)) then out else out + [last]
  }

  lemma {:induction false} FirstByRepresents<T, K>(xs: seq<T>, key: T -> K, i: nat)
    requires i < |xs|
    ensures Represented(FirstBy(xs, key), key, key(xs[i]))
  {
    var out := FirstBy(xs[..|xs| - 1], key);
    if i == |xs| - 1 {
      if !Represented(out, key, key(xs[i])) { assert FirstBy(xs, key)[|out|] == xs[i]; }
    } else {
      FirstByRepresents(xs[..|xs| - 1], key, i);
      var j :| 0 <= j < |out| && key(out[j]) == key(xs[i]);
      assert FirstBy(xs, key)[j] == out[j];
    }
  }

  lemma {:induction false} FirstByDistinct<T, K>(xs: seq<T>, key: T -> K)
    ensures forall i, j :: 0 <= i < j < |FirstBy(xs, key)| ==> key(FirstBy(xs, key)[i]) != key(FirstBy(xs, key)[j])
  {
    if xs != [] { FirstByDistinct(xs[..|xs| - 1], key); }
  }

  /** A kept element has a place in the list with nothing of its group before it. */
  lemma {:induction false} FirstByIsFirst<T, K>(xs: seq<T>, key: T -> K, i: nat) returns (at: nat)
    requires i < |FirstBy(xs, key)|
    ensures at < |xs| && xs[at] == FirstBy(xs, key)[i]
    ensures forall j :: 0 <= j < at ==> key(xs[j]) != key(xs[at])
  {
    var out := FirstBy(xs[..|xs| - 1], key);
    if i < |out| {
      at := FirstByIsFirst(xs[..|xs| - 1], key, i);
    } else {
      at := |xs| - 1;
      forall j | 0 <= j < at ensures key(xs[j]) != key(xs[at]) {
        FirstByRepresents(xs[..|xs| - 1], key, j);
      }
    }
  }
}
