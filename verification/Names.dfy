/** Lexicographic order on strings and the sorted listing of a set of names:
    what `sorted(...)` over a dictionary or a set of names gives. */
module Names {
  import opened Sequences

  predicate Leq(a: string, b: string)
  {
    a == "" || (b != "" && (a[0] < b[0] || (a[0] == b[0] && Leq(a[1..], b[1..]))))
  }

  lemma {:induction false} LeqTotal(a: string, b: string)
    ensures Leq(a, b) || Leq(b, a)
  {
    if a != "" && b != "" { LeqTotal(a[1..], b[1..]); }
  }

  lemma {:induction false} LeqTransitive(a: string, b: string, c: string)
    requires Leq(a, b) && Leq(b, c)
    ensures Leq(a, c)
  {
    if a != "" && a[0] == b[0] == c[0] { LeqTransitive(a[1..], b[1..], c[1..]); }
  }

  lemma {:induction false} LeqAntisymmetric(a: string, b: string)
    requires Leq(a, b) && Leq(b, a)
    ensures a == b
  {
    if a != "" {
      LeqAntisymmetric(a[1..], b[1..]);
      assert a == [a[0]] + a[1..] && b == [b[0]] + b[1..];
    }
  }

  lemma LeqIsTotalOrder()
    ensures TotalOrder(Leq)
  {
    forall a, b ensures Leq(a, b) || Leq(b, a) { LeqTotal(a, b); }
    forall a, b, c | Leq(a, b) && Leq(b, c) ensures Leq(a, c) { LeqTransitive(a, b, c); }
  }

  ghost function Elements(s: set<string>): (r: seq<string>)
    ensures multiset(r) == multiset(s)
  {
    if s == {} then []
    else
      var x :| x in s;
      assert s == {x} + (s - {x});
      [x] + Elements(s - {x})
  }

  /** The one sorted list that holds each element of the set once. */
  ghost function SortedNames(s: set<string>): (r: seq<string>)
  {
    SortedListingExists(s);
    var r :| IsSortedListing(r, s);
    r
  }

  ghost predicate IsSortedListing(r: seq<string>, s: set<string>)
  {
    multiset(r) == multiset(s) && Sorted(Leq, r)
  }

  lemma SortedListingExists(s: set<string>)
    ensures exists r :: IsSortedListing(r, s)
  {
    LeqIsTotalOrder();
    SortSorts(Leq, Elements(s));
    assert IsSortedListing(Sort(Leq, Elements(s)), s);
  }

  lemma SortedNamesFacts(s: set<string>)
    ensures |SortedNames(s)| == |s|
    ensures forall x :: x in SortedNames(s) <==> x in s
    ensures Distinct(SortedNames(s))
  {
    hide Leq;
    ListsSet(SortedNames(s), s);
  }

  lemma LeqIsAntisymmetric()
    ensures forall a, b :: Leq(a, b) && Leq(b, a) ==> a == b
  {
    forall a, b | Leq(a, b) && Leq(b, a) ensures a == b { LeqAntisymmetric(a, b); }
  }

  /** The listing is computed by collecting the set in any order and sorting. */
  method ListSorted(s: set<string>) returns (r: seq<string>)
    ensures r == SortedNames(s)
  {
    var rest, acc := s, [];
    while rest != {}
      invariant rest <= s && multiset(acc) == multiset(s - rest)
    {
      var x :| x in rest;
      assert s - (rest - {x}) == (s - rest) + {x};
      rest, acc := rest - {x}, acc + [x];
    }
    assert s - rest == s;
    r := Sort(Leq, acc);
    LeqIsTotalOrder();
    SortSorts(Leq, acc);
    LeqIsAntisymmetric();
    SortedUnique(Leq, r, SortedNames(s));
  }
}
