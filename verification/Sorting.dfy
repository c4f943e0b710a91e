/** Stable sorting by a descending key, as `sorted(..., reverse=True)` does it. */
module Sorting {

  /** How many leading elements keep their place before an element of key k. */
  function Place<T>(key: T -> real, ys: seq<T>, k: real): (p: nat)
    ensures p <= |ys|
    ensures forall i | 0 <= i < p :: key(ys[i]) >= k
    ensures p < |ys| ==> key(ys[p]) < k
  {
    if ys == [] || key(ys[0]) < k then 0 else 1 + Place(key, ys[1..], k)
  }

  function Inserted<T>(key: T -> real, ys: seq<T>, x: T): seq<T> {
    var p := Place(key, ys, key(x));
    ys[..p] + [x] + ys[p..]
  }

  function SortDesc<T>(key: T -> real, xs: seq<T>): seq<T> {
    if xs == [] then [] else Inserted(key, SortDesc(key, xs[..|xs| - 1]), xs[|xs| - 1])
  }

  lemma {:induction false} SortedAlike<T>(key: T -> real, xs: seq<T>, k: real)
    requires forall i | 0 <= i < |xs| :: key(xs[i]) == k
    ensures SortDesc(key, xs) == xs
  {
    if xs != [] {
      var n := |xs| - 1;
      SortedAlike(key, xs[..n], k);
      InsertedLast(key, xs[..n], xs[n]);
      assert xs == xs[..n] + [xs[n]];
    }
  }

  lemma InsertedLast<T>(key: T -> real, ys: seq<T>, x: T)
    requires forall i | 0 <= i < |ys| :: key(ys[i]) >= key(x)
    ensures Inserted(key, ys, x) == ys + [x]
  {
    assert Place(key, ys, key(x)) == |ys|;
  }

  ghost predicate Descending<T>(key: T -> real, ys: seq<T>) {
    forall i, j | 0 <= i <= j < |ys| :: key(ys[i]) >= key(ys[j])
  }

  /** The elements of one key, in order. */
  function Level<T>(key: T -> real, xs: seq<T>, k: real): seq<T> {
    if xs == [] then []
    else Level(key, xs[..|xs| - 1], k) + if key(xs[|xs| - 1]) == k then [xs[|xs| - 1]] else []
  }

  lemma {:induction false} LevelAppend<T>(key: T -> real, a: seq<T>, b: seq<T>, k: real)
    ensures Level(key, a + b, k) == Level(key, a, k) + Level(key, b, k)
  {
    if b == [] {
      assert a + b == a;
    } else {
      assert (a + b)[..|a + b| - 1] == a + b[..|b| - 1];
      LevelAppend(key, a, b[..|b| - 1], k);
    }
  }

  lemma {:induction false} LevelNone<T>(key: T -> real, xs: seq<T>, k: real)
    requires forall i | 0 <= i < |xs| :: key(xs[i]) != k
    ensures Level(key, xs, k) == []
  {
    if xs != [] {
      LevelNone(key, xs[..|xs| - 1], k);
    }
  }

  lemma InsertedDescends<T>(key: T -> real, ys: seq<T>, x: T)
    requires Descending(key, ys)
    ensures Descending(key, Inserted(key, ys, x))
  {
  }

  lemma InsertedCounts<T>(key: T -> real, ys: seq<T>, x: T)
    ensures multiset(Inserted(key, ys, x)) == multiset(ys) + multiset{x}
  {
    var p := Place(key, ys, key(x));
    assert ys == ys[..p] + ys[p..];
  }

  lemma LevelOfThree<T>(key: T -> real, a: seq<T>, x: seq<T>, b: seq<T>, k: real)
    ensures Level(key, a + x + b, k) == Level(key, a, k) + Level(key, x, k) + Level(key, b, k)
  {
    LevelAppend(key, a + x, b, k);
    LevelAppend(key, a, x, k);
  }

  lemma InsertedIsStable<T>(key: T -> real, ys: seq<T>, x: T, k: real)
    requires Descending(key, ys)
    ensures Level(key, Inserted(key, ys, x), k) == Level(key, ys + [x], k)
  {
    hide Level;
    var p := Place(key, ys, key(x));
    assert ys[..p] + ys[p..] == ys;
    LevelOfThree(key, ys[..p], [x], ys[p..], k);
    LevelOfThree(key, ys[..p], ys[p..], [x], k);
    if key(x) == k {
      LevelNone(key, ys[p..], k);
      Swap(Level(key, ys[..p], k), Level(key, [x], k));
    } else {
      LevelNone(key, [x], k);
      Swap(Level(key, ys[..p], k), Level(key, ys[p..], k));
    }
  }

  lemma Swap<T>(a: seq<T>, b: seq<T>)
    ensures a + b + [] == a + [] + b
  {
  }

  /** The result is a descending permutation in which equal keys keep their order. */
  lemma {:induction false} SortDescFacts<T(!new)>(key: T -> real, xs: seq<T>)
    ensures Descending(key, SortDesc(key, xs))
    ensures multiset(SortDesc(key, xs)) == multiset(xs)
    ensures forall k :: Level(key, SortDesc(key, xs), k) == Level(key, xs, k)
  {
    if xs != [] {
      var n := |xs| - 1;
      var before := SortDesc(key, xs[..n]);
      SortDescFacts(key, xs[..n]);
      assert xs == xs[..n] + [xs[n]];
      InsertedDescends(key, before, xs[n]);
      InsertedCounts(key, before, xs[n]);
      forall k ensures Level(key, SortDesc(key, xs), k) == Level(key, xs, k) {
        InsertedIsStable(key, before, xs[n], k);
        LevelAppend(key, before, [xs[n]], k);
      }
    }
  }

  lemma SortDescMembers<T(!new)>(key: T -> real, xs: seq<T>)
    ensures |SortDesc(key, xs)| == |xs|
    ensures forall x :: x in SortDesc(key, xs) <==> x in xs
  {
    SortDescFacts(key, xs);
    assert |multiset(SortDesc(key, xs))| == |multiset(xs)|;
    forall x ensures x in SortDesc(key, xs) <==> x in xs {
      assert x in multiset(SortDesc(key, xs)) <==> x in multiset(xs);
    }
  }

  /** Sorting distinct elements leaves them distinct. */
  lemma SortDescDistinct<T(!new)>(key: T -> real, xs: seq<T>)
    requires forall i, j | 0 <= i < j < |xs| :: xs[i] != xs[j]
    ensures var ys := SortDesc(key, xs); forall i, j | 0 <= i < j < |ys| :: ys[i] != ys[j]
  {
    SortDescFacts(key, xs);
    var ys := SortDesc(key, xs);
    forall i, j | 0 <= i < j < |ys| ensures ys[i] != ys[j] {
      CountTwice(ys, i, j);
      CountOnce(xs, ys[i]);
    }
  }

  lemma CountTwice<T>(ys: seq<T>, i: nat, j: nat)
    requires i < j < |ys|
    ensures ys[i] == ys[j] ==> multiset(ys)[ys[i]] >= 2
  {
    assert ys == ys[..j] + ys[j..];
    assert ys[i] in ys[..j] && ys[j] in ys[j..];
  }

  lemma {:induction false} CountOnce<T>(xs: seq<T>, x: T)
    requires forall i, j | 0 <= i < j < |xs| :: xs[i] != xs[j]
    ensures multiset(xs)[x] <= 1
  {
    if xs != [] {
      var n := |xs| - 1;
      CountOnce(xs[..n], x);
      assert xs == xs[..n] + [xs[n]];
      if x == xs[n] {
        assert x !in xs[..n];
      }
    }
  }

  /** Nothing below the cut has a larger key than anything above it. */
  lemma TopBeatsRest<T>(key: T -> real, ys: seq<T>, n: nat, x: T, y: T)
    requires Descending(key, ys) && n <= |ys| && x in ys[..n] && y in ys && y !in ys[..n]
    ensures key(y) <= key(x)
  {
    var i :| 0 <= i < n && ys[i] == x;
    var j :| 0 <= j < |ys| && ys[j] == y;
    forall m | 0 <= m < n ensures ys[m] != y {
      assert ys[..n][m] in ys[..n];
    }
  }

  /** A strictly larger key comes strictly earlier. */
  lemma LargerComesFirst<T(!new)>(key: T -> real, xs: seq<T>, i: nat, j: nat)
    requires i < |SortDesc(key, xs)| && j < |SortDesc(key, xs)|
    requires key(SortDesc(key, xs)[i]) > key(SortDesc(key, xs)[j])
    ensures i < j
  {
    SortDescFacts(key, xs);
  }
}
