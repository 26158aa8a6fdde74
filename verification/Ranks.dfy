/**
 Sort keys and the stable sort that the repository takes from its runtime: a depth
 first, then a string compared code point by code point.  Sorting by a plain string
 uses depth 0.
 */
module Ranks {

  datatype Rank = Rank(depth: nat, text: string)

  /** Code-point order on strings, a prefix coming first. */
  predicate StringLe(a: string, b: string) {
    a == [] || (b != [] && (a[0] < b[0] || (a[0] == b[0] && StringLe(a[1..], b[1..]))))
  }

  /** The strings agree up to a place where the first has the smaller character. */
  predicate Smaller(a: string, b: string, k: nat) {
    k < |a| && k < |b| && a[..k] == b[..k] && a[k] < b[k]
  }

  /** Code-point order: a prefix, or smaller at the first difference. */
  lemma {:induction false} StringLeIff(a: string, b: string)
    ensures StringLe(a, b) <==> a <= b || exists k: nat :: Smaller(a, b, k)
    decreases |a|
  {
    if a == [] {
    } else if b == [] || a[0] != b[0] {
      assert forall k: nat :: 0 < k <= |a| && k <= |b| ==> a[..k][0] == a[0] && b[..k][0] == b[0];
      assert b != [] && a[0] < b[0] ==> Smaller(a, b, 0) by { assert b != [] ==> a[..0] == b[..0]; }
    } else {
      StringLeIff(a[1..], b[1..]);
      assert a == [a[0]] + a[1..] && b == [b[0]] + b[1..];
      assert a <= b <==> a[1..] <= b[1..];
      forall k: nat | Smaller(a[1..], b[1..], k) ensures Smaller(a, b, k + 1) {
        assert a[..k + 1] == [a[0]] + a[1..][..k] && b[..k + 1] == [b[0]] + b[1..][..k];
      }
      forall k: nat | Smaller(a, b, k) ensures k > 0 && Smaller(a[1..], b[1..], k - 1) {
        assert a[1..][..k - 1] == a[..k][1..] && b[1..][..k - 1] == b[..k][1..];
      }
    }
  }

  predicate RankLe(a: Rank, b: Rank) {
    a.depth < b.depth || (a.depth == b.depth && StringLe(a.text, b.text))
  }

  lemma {:induction false} StringLeTotal(a: string, b: string)
    ensures StringLe(a, b) || StringLe(b, a)
    ensures StringLe(a, b) && StringLe(b, a) ==> a == b
    decreases |a|
  {
    if a != [] && b != [] && a[0] == b[0] {
      StringLeTotal(a[1..], b[1..]);
      assert a == [a[0]] + a[1..] && b == [b[0]] + b[1..];
    }
  }

  lemma {:induction false} StringLeTransitive(a: string, b: string, c: string)
    requires StringLe(a, b) && StringLe(b, c)
    ensures StringLe(a, c)
    decreases |a|
  {
    if a != [] && a[0] == b[0] && b[0] == c[0] {
      StringLeTransitive(a[1..], b[1..], c[1..]);
    }
  }

  lemma RankLeTotal(a: Rank, b: Rank)
    ensures RankLe(a, b) || RankLe(b, a)
    ensures RankLe(a, b) && RankLe(b, a) ==> a == b
  {
    StringLeTotal(a.text, b.text);
  }

  lemma RankLeTransitive(a: Rank, b: Rank, c: Rank)
    requires RankLe(a, b) && RankLe(b, c)
    ensures RankLe(a, c)
  {
    if a.depth == b.depth == c.depth {
      StringLeTransitive(a.text, b.text, c.text);
    }
  }

  ghost predicate SortedBy<T>(xs: seq<T>, key: T -> Rank) {
    forall i, j :: 0 <= i < j < |xs| ==> RankLe(key(xs[i]), key(xs[j]))
  }

  /** Puts x in front of the first element that does not rank strictly below it. */
  function InsertBy<T>(x: T, xs: seq<T>, key: T -> Rank): seq<T> {
    if xs == [] || RankLe(key(x), key(xs[0])) then [x] + xs else [xs[0]] + InsertBy(x, xs[1..], key)
  }

  /** Stable sort. */
  function SortBy<T>(xs: seq<T>, key: T -> Rank): seq<T> {
    if xs == [] then [] else InsertBy(xs[0], SortBy(xs[1..], key), key)
  }

  lemma {:induction false} InsertBySorted<T>(x: T, xs: seq<T>, key: T -> Rank)
    requires SortedBy(xs, key)
    ensures SortedBy(InsertBy(x, xs, key), key)
    ensures multiset(InsertBy(x, xs, key)) == multiset{x} + multiset(xs)
  {
    if xs == [] {
    } else if RankLe(key(x), key(xs[0])) {
      var ys := [x] + xs;
      forall i, j | 0 <= i < j < |ys| ensures RankLe(key(ys[i]), key(ys[j])) {
        if i == 0 && j > 1 { RankLeTransitive(key(x), key(xs[0]), key(xs[j - 1])); }
      }
    } else {
      RankLeTotal(key(x), key(xs[0]));
      InsertBySorted(x, xs[1..], key);
      var rest := InsertBy(x, xs[1..], key);
      assert xs == [xs[0]] + xs[1..];
      forall y | y in rest ensures RankLe(key(xs[0]), key(y)) {
        assert y in multiset(rest);
        if y != x { assert y in xs[1..]; }
      }
    }
  }

  lemma {:induction false} SortBySorted<T>(xs: seq<T>, key: T -> Rank)
    ensures SortedBy(SortBy(xs, key), key)
    ensures multiset(SortBy(xs, key)) == multiset(xs)
    ensures |SortBy(xs, key)| == |xs|
  {
    if xs != [] {
      SortBySorted(xs[1..], key);
      InsertBySorted(xs[0], SortBy(xs[1..], key), key);
      assert xs == [xs[0]] + xs[1..];
    }
    assert |multiset(SortBy(xs, key))| == |multiset(xs)|;
  }

  lemma HeadRanksFirst<T>(xs: seq<T>, key: T -> Rank, x: T)
    requires SortedBy(xs, key) && x in xs
    ensures RankLe(key(xs[0]), key(x))
  {
    RankLeTotal(key(x), key(x));
  }

  lemma TailMultiset<T>(xs: seq<T>)
    requires xs != []
    ensures multiset(xs[1..]) == multiset(xs) - multiset{xs[0]}
  {
    assert xs == [xs[0]] + xs[1..];
  }

  lemma HeadsAgree<T>(xs: seq<T>, ys: seq<T>, key: T -> Rank)
    requires SortedBy(xs, key) && SortedBy(ys, key) && multiset(xs) == multiset(ys) && xs != [] && ys != []
    requires forall a, b :: a in xs && b in xs && key(a) == key(b) ==> a == b
    ensures xs[0] == ys[0]
  {
    assert xs[0] in multiset(ys) && ys[0] in multiset(xs);
    HeadRanksFirst(xs, key, ys[0]);
    HeadRanksFirst(ys, key, xs[0]);
    RankLeTotal(key(xs[0]), key(ys[0]));
  }

  /** Two sorted lists with the same elements are the same list when the key tells elements apart. */
  lemma {:induction false} SortedIsUnique<T>(xs: seq<T>, ys: seq<T>, key: T -> Rank)
    requires SortedBy(xs, key) && SortedBy(ys, key) && multiset(xs) == multiset(ys)
    requires forall a, b :: a in xs && b in xs && key(a) == key(b) ==> a == b
    ensures xs == ys
    decreases |xs|
  {
    hide SortedBy;
    assert |multiset(xs)| == |xs| && |multiset(ys)| == |ys|;
    if xs != [] {
      HeadsAgree(xs, ys, key);
      TailMultiset(xs);
      TailMultiset(ys);
      SortedTail(xs, key);
      SortedTail(ys, key);
      TailKeys(xs, key);
      SortedIsUnique(xs[1..], ys[1..], key);
      assert xs == [xs[0]] + xs[1..] && ys == [ys[0]] + ys[1..];
    }
  }

  lemma SortedTail<T>(xs: seq<T>, key: T -> Rank)
    requires SortedBy(xs, key) && xs != []
    ensures SortedBy(xs[1..], key)
  {
    var tail := xs[1..];
    forall i, j | 0 <= i < j < |tail| ensures RankLe(key(tail[i]), key(tail[j])) {
      assert tail[i] == xs[i + 1] && tail[j] == xs[j + 1];
    }
  }

  lemma TailKeys<T>(xs: seq<T>, key: T -> Rank)
    requires xs != [] && forall a, b :: a in xs && b in xs && key(a) == key(b) ==> a == b
    ensures forall a, b :: a in xs[1..] && b in xs[1..] && key(a) == key(b) ==> a == b
  {
    assert forall a :: a in xs[1..] ==> a in xs;
  }

  lemma InsertByMembers<T(!new)>(x: T, xs: seq<T>, key: T -> Rank)
    ensures forall y :: y in InsertBy(x, xs, key) <==> y == x || y in xs
  {
    if xs != [] && !RankLe(key(x), key(xs[0])) {
      InsertByMembers(x, xs[1..], key);
      assert xs == [xs[0]] + xs[1..];
    }
  }

  lemma SortByMembers<T(!new)>(xs: seq<T>, key: T -> Rank)
    ensures forall y :: y in SortBy(xs, key) <==> y in xs
  {
    if xs != [] {
      SortByMembers(xs[1..], key);
      InsertByMembers(xs[0], SortBy(xs[1..], key), key);
      assert xs == [xs[0]] + xs[1..];
    }
  }

  /** Elements with equal keys stand in strictly increasing order of `tie`. */
  ghost predicate TiesRise<T(!new)>(xs: seq<T>, key: T -> Rank, tie: T -> nat) {
    forall i, j :: 0 <= i < j < |xs| && key(xs[i]) == key(xs[j]) ==> tie(xs[i]) < tie(xs[j])
  }

  lemma {:induction false} InsertByStable<T(!new)>(x: T, xs: seq<T>, key: T -> Rank, tie: T -> nat)
    requires SortedBy(xs, key) && TiesRise(xs, key, tie)
    requires forall y :: y in xs && key(y) == key(x) ==> tie(x) < tie(y)
    ensures TiesRise(InsertBy(x, xs, key), key, tie)
  {
    if xs != [] && !RankLe(key(x), key(xs[0])) {
      var rest := InsertBy(x, xs[1..], key);
      assert xs == [xs[0]] + xs[1..];
      InsertByStable(x, xs[1..], key, tie);
      InsertByMembers(x, xs[1..], key);
      RankLeTotal(key(x), key(x));
      forall y | y in rest && key(y) == key(xs[0]) ensures tie(xs[0]) < tie(y) {
        assert y == x || y in xs[1..];
        var j :| 0 <= j < |xs| - 1 && xs[1..][j] == y;
        assert xs[j + 1] == y;
      }
    } else {
      forall j | 0 <= j < |xs| && key(xs[j]) == key(x) ensures tie(x) < tie(xs[j]) { assert xs[j] in xs; }
    }
  }

  /** The sort is stable: elements that tie keep the order they came in. */
  lemma {:induction false} SortByStable<T(!new)>(xs: seq<T>, key: T -> Rank, tie: T -> nat)
    requires TiesRise(xs, key, tie)
    ensures TiesRise(SortBy(xs, key), key, tie)
  {
    if xs != [] {
      SortByStable(xs[1..], key, tie);
      SortBySorted(xs[1..], key);
      SortByMembers(xs[1..], key);
      forall y | y in SortBy(xs[1..], key) && key(y) == key(xs[0]) ensures tie(xs[0]) < tie(y) {
        var j :| 0 <= j < |xs| - 1 && xs[1..][j] == y;
        assert xs[j + 1] == y;
      }
      InsertByStable(xs[0], SortBy(xs[1..], key), key, tie);
    }
  }
}
