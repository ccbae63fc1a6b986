/** Sequence facts shared by the other modules: folds and sums that do not
    depend on the order of their elements, and a generic sort. */
module Sequences {

  datatype Option<+T> = None | Some(value: T)

  datatype Result<+T, +E> = Ok(value: T) | Err(error: E)

  type Byte = b: int | 0 <= b < 256

  type Bytes = seq<Byte>

  /** Left fold: the shape of every loop that threads a state through a list. */
  function Fold<S, X>(f: (S, X) -> S, s: S, xs: seq<X>): (r: S)
  {
    if xs == [] then s else Fold(f, f(s, xs[0]), xs[1..])
  }

  function SumOf<T>(f: T -> nat, xs: seq<T>): (n: nat)
  {
    if xs == [] then 0 else f(xs[0]) + SumOf(f, xs[1..])
  }

  /** The step may be exchanged with any other step, from every state. */
  ghost predicate Commutes<S(!new), X(!new)>(f: (S, X) -> S)
  {
    forall s, x, y {:trigger f(f(s, x), y)} :: f(f(s, x), y) == f(f(s, y), x)
  }

  ghost predicate Distinct<T>(xs: seq<T>)
  {
    forall i, j :: 0 <= i < j < |xs| ==> xs[i] != xs[j]
  }

  function Without<T>(xs: seq<T>, k: nat): (r: seq<T>)
    requires k < |xs|
    ensures |r| == |xs| - 1
  {
    xs[..k] + xs[k + 1..]
  }

  lemma WithoutMultiset<T>(xs: seq<T>, k: nat)
    requires k < |xs|
    ensures multiset(Without(xs, k)) == multiset(xs) - multiset{xs[k]}
  {
    assert xs == xs[..k] + [xs[k]] + xs[k + 1..];
  }

  /** A permutation of a non-empty list holds its first element somewhere, and
      what is left on both sides is again a permutation. */
  lemma PermutationHead<T>(xs: seq<T>, ys: seq<T>) returns (k: nat)
    requires xs != [] && multiset(xs) == multiset(ys)
    ensures k < |ys| && ys[k] == xs[0]
    ensures multiset(xs[1..]) == multiset(Without(ys, k))
  {
    assert xs == [xs[0]] + xs[1..];
    assert xs[0] in multiset(ys);
    k :| 0 <= k < |ys| && ys[k] == xs[0];
    WithoutMultiset(ys, k);
  }

  lemma {:induction false} FoldSplit<S, X>(f: (S, X) -> S, s: S, xs: seq<X>, ys: seq<X>)
    ensures Fold(f, s, xs + ys) == Fold(f, Fold(f, s, xs), ys)
  {
    if xs == [] {
      assert xs + ys == ys;
    } else {
      assert (xs + ys)[1..] == xs[1..] + ys;
      FoldSplit(f, f(s, xs[0]), xs[1..], ys);
    }
  }

  /** A commuting step can be done first instead of in its place. */
  lemma {:induction false} FoldHoist<S(!new), X(!new)>(f: (S, X) -> S, s: S, xs: seq<X>, k: nat)
    requires Commutes(f) && k < |xs|
    ensures Fold(f, s, xs) == Fold(f, f(s, xs[k]), Without(xs, k))
    decreases k
  {
    if k == 0 {
      assert Without(xs, 0) == xs[1..];
    } else {
      FoldHoist(f, f(s, xs[0]), xs[1..], k - 1);
      assert f(f(s, xs[0]), xs[k]) == f(f(s, xs[k]), xs[0]);
      assert Without(xs, k)[0] == xs[0];
      assert Without(xs, k)[1..] == Without(xs[1..], k - 1);
    }
  }

  lemma {:induction false} FoldPermutation<S(!new), X(!new)>(f: (S, X) -> S, s: S, xs: seq<X>, ys: seq<X>)
    requires Commutes(f) && multiset(xs) == multiset(ys)
    ensures Fold(f, s, xs) == Fold(f, s, ys)
    decreases |xs|
  {
    if xs == [] {
      assert |multiset(ys)| == 0;
    } else {
      var k := PermutationHead(xs, ys);
      FoldHoist(f, s, ys, k);
      FoldPermutation(f, f(s, xs[0]), xs[1..], Without(ys, k));
    }
  }

  lemma {:induction false} SumSplit<T>(f: T -> nat, xs: seq<T>, ys: seq<T>)
    ensures SumOf(f, xs + ys) == SumOf(f, xs) + SumOf(f, ys)
  {
    if xs == [] {
      assert xs + ys == ys;
    } else {
      assert (xs + ys)[1..] == xs[1..] + ys;
      SumSplit(f, xs[1..], ys);
    }
  }

  lemma {:induction false} SumPermutation<T>(f: T -> nat, xs: seq<T>, ys: seq<T>)
    requires multiset(xs) == multiset(ys)
    ensures SumOf(f, xs) == SumOf(f, ys)
    decreases |xs|
  {
    if xs == [] {
      assert |multiset(ys)| == 0;
    } else {
      var k := PermutationHead(xs, ys);
      SumPermutation(f, xs[1..], Without(ys, k));
      assert ys == ys[..k] + ([ys[k]] + ys[k + 1..]);
      SumSplit(f, ys[..k], [ys[k]] + ys[k + 1..]);
      SumSplit(f, ys[..k], ys[k + 1..]);
    }
  }

  lemma {:induction false} SumLast<T>(f: T -> nat, xs: seq<T>, x: T)
    ensures SumOf(f, xs + [x]) == SumOf(f, xs) + f(x)
  {
    SumSplit(f, xs, [x]);
  }

  /** Lists without repetition that hold the same elements are permutations. */
  lemma {:induction false} DistinctSameElements<T>(xs: seq<T>, ys: seq<T>)
    requires Distinct(xs) && Distinct(ys)
    requires forall x :: x in xs <==> x in ys
    ensures multiset(xs) == multiset(ys)
  {
    DistinctMultiplicity(xs);
    DistinctMultiplicity(ys);
    forall x ensures multiset(xs)[x] == multiset(ys)[x] {
      assert x in multiset(xs) <==> x in xs;
      assert x in multiset(ys) <==> x in ys;
    }
  }

  lemma {:induction false} DistinctMultiplicity<T>(xs: seq<T>)
    requires Distinct(xs)
    ensures forall x :: x in multiset(xs) ==> multiset(xs)[x] == 1
  {
    if xs != [] {
      var front, last := xs[..|xs| - 1], xs[|xs| - 1];
      DistinctMultiplicity(front);
      assert xs == front + [last];
      assert last !in front;
      assert last !in multiset(front);
    }
  }

  lemma SubsetSize<T>(s: set<T>, t: set<T>)
    requires s <= t
    ensures |s| <= |t|
  {
    assert t == s + (t - s);
  }

  // ----- sorting -----

  ghost predicate TotalOrder<T(!new)>(leq: (T, T) -> bool)
  {
    && (forall x, y :: leq(x, y) || leq(y, x))
    && (forall x, y, z :: leq(x, y) && leq(y, z) ==> leq(x, z))
  }

  ghost predicate Sorted<T>(leq: (T, T) -> bool, xs: seq<T>)
  {
    forall i, j :: 0 <= i < j < |xs| ==> leq(xs[i], xs[j])
  }

  function Insert<T>(leq: (T, T) -> bool, x: T, xs: seq<T>): (r: seq<T>)
    ensures multiset(r) == multiset(xs) + multiset{x}
  {
    if xs == [] then [x]
    else if leq(x, xs[0]) then [x] + xs
    else
      assert xs == [xs[0]] + xs[1..];
      [xs[0]] + Insert(leq, x, xs[1..])
  }

  function Sort<T>(leq: (T, T) -> bool, xs: seq<T>): (r: seq<T>)
    ensures multiset(r) == multiset(xs)
  {
    if xs == [] then []
    else
      assert xs == [xs[0]] + xs[1..];
      Insert(leq, xs[0], Sort(leq, xs[1..]))
  }

  lemma {:induction false} InsertSorted<T(!new)>(leq: (T, T) -> bool, x: T, xs: seq<T>)
    requires TotalOrder(leq) && Sorted(leq, xs)
    ensures Sorted(leq, Insert(leq, x, xs))
  {
    if xs != [] && !leq(x, xs[0]) {
      InsertSorted(leq, x, xs[1..]);
      var r := Insert(leq, x, xs[1..]);
      forall j | 0 <= j < |r| ensures leq(xs[0], r[j]) {
        assert r[j] in multiset(r);
        assert r[j] == x || r[j] in multiset(xs[1..]);
      }
    }
  }

  lemma {:induction false} SortSorts<T(!new)>(leq: (T, T) -> bool, xs: seq<T>)
    requires TotalOrder(leq)
    ensures Sorted(leq, Sort(leq, xs))
  {
    if xs != [] {
      SortSorts(leq, xs[1..]);
      InsertSorted(leq, xs[0], Sort(leq, xs[1..]));
    }
  }

  /** A sorted list is determined by its elements. */
  lemma {:induction false} SortedUnique<T(!new)>(leq: (T, T) -> bool, xs: seq<T>, ys: seq<T>)
    requires Sorted(leq, xs) && Sorted(leq, ys) && multiset(xs) == multiset(ys)
    requires forall x, y :: leq(x, y) && leq(y, x) ==> x == y
    ensures xs == ys
    decreases |xs|
  {
    assert |xs| == |multiset(xs)| == |multiset(ys)| == |ys|;
    if xs != [] {
      SameHead(leq, xs, ys);
      SortedUnique(leq, xs[1..], ys[1..]);
    }
  }

  lemma SameHead<T(!new)>(leq: (T, T) -> bool, xs: seq<T>, ys: seq<T>)
    requires Sorted(leq, xs) && Sorted(leq, ys) && multiset(xs) == multiset(ys)
    requires forall x, y :: leq(x, y) && leq(y, x) ==> x == y
    requires xs != [] && ys != []
    ensures xs[0] == ys[0] && multiset(xs[1..]) == multiset(ys[1..])
  {
    var k := PermutationHead(xs, ys);
    var l := PermutationHead(ys, xs);
    assert k == 0 || leq(ys[0], ys[k]);
    assert l == 0 || leq(xs[0], xs[l]);
    WithoutMultiset(xs, 0);
    WithoutMultiset(ys, 0);
    assert Without(xs, 0) == xs[1..] && Without(ys, 0) == ys[1..];
  }

  /** A list that holds each element of a set once. */
  lemma ListsSet<T>(xs: seq<T>, s: set<T>)
    requires multiset(xs) == multiset(s)
    ensures |xs| == |s| && Distinct(xs)
    ensures forall x :: x in xs <==> x in s
  {
    assert |multiset(xs)| == |xs| && |multiset(s)| == |s|;
    forall x ensures x in xs <==> x in s {
      assert x in xs <==> x in multiset(xs);
      assert x in s <==> x in multiset(s);
    }
    forall i, j | 0 <= i < j < |xs| ensures xs[i] != xs[j] {
      WithoutMultiset(xs, j);
      assert Without(xs, j)[i] == xs[i];
      assert xs[i] in multiset(Without(xs, j));
    }
  }
}
