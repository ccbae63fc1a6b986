/** What a bucket and a window are (scripts/materialize_window.py), stated on the
    characters of the names and on ranks in the sorted order, without the
    functions that compute them. */
module BucketLaws {
  import opened Sequences
  import opened Arithmetic
  import opened BrainPaths
  import opened Names
  import opened PathTexts
  import opened Inventory
  import opened Windows

  // ----- the order of names -----

  /** The first difference decides; a proper prefix comes first. */
  ghost predicate ComesFirst(a: string, b: string)
  {
    a <= b || exists i :: DiffersAt(a, b, i) && a[i] < b[i]
  }

  ghost predicate DiffersAt(a: string, b: string, i: int)
  {
    0 <= i < |a| && i < |b| && a[..i] == b[..i] && a[i] != b[i]
  }

  lemma DiffersLater(a: string, b: string, i: int)
    requires a != "" && b != "" && a[0] == b[0]
    ensures DiffersAt(a[1..], b[1..], i) <==> i >= 0 && DiffersAt(a, b, i + 1)
  {
    if 0 <= i < |a| - 1 && i < |b| - 1 {
      assert a[..i + 1] == [a[0]] + a[1..][..i] && b[..i + 1] == [b[0]] + b[1..][..i];
      assert a[..i + 1][1..] == a[1..][..i] && b[..i + 1][1..] == b[1..][..i];
    }
  }

  lemma FirstDiffers(a: string, b: string, i: int)
    ensures DiffersAt(a, b, i) && i > 0 ==> a[0] == b[0]
  {
    if DiffersAt(a, b, i) && i > 0 { assert a[..i][0] == a[0] && b[..i][0] == b[0]; }
  }

  lemma {:induction false} LeqIsLexicographic(a: string, b: string)
    ensures Leq(a, b) <==> ComesFirst(a, b)
  {
    if a != "" && b != "" {
      if a[0] == b[0] {
        LeqIsLexicographic(a[1..], b[1..]);
        assert a == [a[0]] + a[1..] && b == [b[0]] + b[1..];
        assert a <= b <==> a[1..] <= b[1..];
        if exists i :: DiffersAt(a[1..], b[1..], i) && a[1..][i] < b[1..][i] {
          var i :| DiffersAt(a[1..], b[1..], i) && a[1..][i] < b[1..][i];
          DiffersLater(a, b, i);
          assert DiffersAt(a, b, i + 1) && a[i + 1] < b[i + 1];
        }
        if exists i :: DiffersAt(a, b, i) && a[i] < b[i] {
          var i :| DiffersAt(a, b, i) && a[i] < b[i];
          DiffersLater(a, b, i - 1);
          assert DiffersAt(a[1..], b[1..], i - 1);
        }
      } else {
        assert DiffersAt(a, b, 0);
        if exists i :: DiffersAt(a, b, i) && a[i] < b[i] {
          var i :| DiffersAt(a, b, i) && a[i] < b[i];
          FirstDiffers(a, b, i);
        }
      }
    }
  }

  // ----- ranks -----

  /** How many names of the set come before `x`. */
  function Rank(s: set<string>, x: string): (n: nat)
  {
    |set y | y in s && y != x && Leq(y, x)|
  }

  ghost function FirstOnes(xs: seq<string>, i: nat): (s: set<string>)
    requires i <= |xs| && Distinct(xs)
    ensures |s| == i && forall y :: y in s <==> exists k :: 0 <= k < i && xs[k] == y
  {
    if i == 0 then {} else FirstOnes(xs, i - 1) + {xs[i - 1]}
  }

  lemma EarlierIsLess(xs: seq<string>, k: nat, i: nat)
    requires Sorted(Leq, xs) && k < |xs| && i < |xs|
    ensures Leq(xs[k], xs[i]) && xs[k] != xs[i] ==> k < i
  {
    hide Leq;
    LeqIsAntisymmetric();
    if k > i { assert Leq(xs[i], xs[k]); }
  }

  /** The place of a name in the sorted listing is its rank. */
  lemma PlaceIsRank(s: set<string>, i: nat)
    requires i < |SortedNames(s)|
    ensures Rank(s, SortedNames(s)[i]) == i
  {
    hide Leq, SortedNames;
    var xs := SortedNames(s);
    SortedNamesFacts(s);
    SortedNamesSorted(s);
    LeqIsAntisymmetric();
    var before := FirstOnes(xs, i);
    forall y ensures y in s && y != xs[i] && Leq(y, xs[i]) <==> y in before {
      if y in s && y != xs[i] && Leq(y, xs[i]) {
        var k :| 0 <= k < |xs| && xs[k] == y;
        EarlierIsLess(xs, k, i);
      }
      if y in before {
        var k :| 0 <= k < i && xs[k] == y;
        assert Leq(xs[k], xs[i]);
      }
    }
    assert (set y | y in s && y != xs[i] && Leq(y, xs[i])) == before;
  }

  lemma SortedNamesSorted(s: set<string>)
    ensures Sorted(Leq, SortedNames(s))
  {
    hide Leq;
    SortedListingExists(s);
  }

  // ----- buckets by the first two characters -----

  ghost predicate Long(names: set<string>) { forall n :: n in names ==> |n| >= 2 }

  /** The bucket of `u` without the common names. */
  function BucketOf(common: set<string>, names: set<string>, u: string): (b: set<string>)
    requires |u| >= 2
  {
    set n | n in names && n !in common && |n| >= 2 && n[..2] == u[..2]
  }

  /** The beginnings that occur. */
  function Beginnings(names: set<string>): (ps: set<string>)
  {
    set n | n in names && |n| >= 2 :: n[..2]
  }

  lemma BeginningsAre(names: set<string>)
    requires Long(names)
    ensures PrefixSet(names) == Beginnings(names)
  {
    forall n | n in names ensures PrefixOf(n) == n[..2] { }
  }

  lemma BucketIs(common: set<string>, names: set<string>, u: string)
    requires Long(names) && |u| >= 2
    ensures Private(common, names, u[..2]) == BucketOf(common, names, u)
    ensures PrefixOf(u) == u[..2]
  {
  }

  /** Every unit picked begins with the two characters that the plan names. */
  lemma PickedShareTheBeginning(common: set<string>, names: set<string>, o: nat, n: string)
    requires 1 <= |common| < WINDOW_SIZE && n in Plan(common, names, o).picked && |n| >= 2
    ensures Plan(common, names, o).prefix == Some(n[..2])
  {
    hide Plan;
    SelectionShape(common, names, o);
  }

  /** The number of windows of a bucket is the least that holds its units, which
      are those with the same first two characters. */
  lemma WindowsAreLeast(common: set<string>, names: set<string>, u: string, w: nat)
    requires InPool(common, names, u) && Long(names)
    ensures |BucketOf(common, names, u)| <= w * (WINDOW_SIZE - |common|) <==> WindowsOf(common, names, u) <= w
  {
    hide SortedNames;
    var size, units := WINDOW_SIZE - |common|, |BucketOf(common, names, u)|;
    BucketIs(common, names, u);
    SortedNamesFacts(Private(common, names, PrefixOf(u)));
    assert u in BucketOf(common, names, u);
    assert WindowsOf(common, names, u) == WindowCount(units, size);
    LeastCover(units, size, w);
  }

  lemma LeastCover(units: nat, size: nat, w: nat)
    requires size > 0
    ensures units <= w * size <==> WindowCount(units, size) <= w
  {
    WindowCountCovers(units, size);
    var least := WindowCount(units, size);
    if w < least {
      if w < least - 1 { MulStep(w, least - 1, size); }
    } else if least < w {
      MulStep(least, w, size);
    }
  }

  /** Which ordinals pick a unit: those whose remainder is the rank of its first
      two characters and whose visit comes round to the window of its rank. */
  lemma PickedIffRank(common: set<string>, names: set<string>, u: string, o: nat)
    requires InPool(common, names, u) && Long(names)
    ensures |Beginnings(names)| > 0
    ensures u in Plan(common, names, o).picked <==>
      && o % |Beginnings(names)| == Rank(Beginnings(names), u[..2])
      && o / |Beginnings(names)| % WindowsOf(common, names, u)
         == Rank(BucketOf(common, names, u), u) / (WINDOW_SIZE - |common|)
  {
    hide SortedNames, Plan, Rank, WindowsOf, Visits, WindowCount;
    BeginningsAre(names);
    BucketIs(common, names, u);
    SortedNamesFacts(PrefixSet(names));
    assert PrefixOf(u) in PrefixSet(names) && u in Private(common, names, PrefixOf(u));
    var k := Position(PrefixSet(names), PrefixOf(u));
    var i := Position(Private(common, names, PrefixOf(u)), u);
    PlaceIsRank(PrefixSet(names), k);
    PlaceIsRank(Private(common, names, PrefixOf(u)), i);
    VisitHolds(common, names, u, o, k, i);
    VisitsAre(o, PrefixCount(names), WindowsOf(common, names, u), k, WindowAt(common, i));
    WindowAtIs(common, i);
  }

  lemma VisitsAre(o: nat, p: nat, w: nat, k: nat, v: nat)
    requires p > 0 && w > 0
    ensures Visits(o, p, w, k, v) <==> o % p == k && o / p % w == v
  {
  }

  lemma WindowAtIs(common: set<string>, i: nat)
    requires |common| < WINDOW_SIZE
    ensures WindowAt(common, i) == i / (WINDOW_SIZE - |common|)
  {
  }

  /** The other members of a plan, and the order of what it picks. */
  lemma PlanMembers(common: set<string>, names: set<string>, o: nat)
    requires 1 <= |common| < WINDOW_SIZE
    ensures var s, ps := Plan(common, names, o), PrefixSet(names);
      && Sorted(Leq, s.picked) && Sorted(Leq, s.common)
      && (ps == {} ==> s.prefix == None && s.picked == [] && s.window == None && s.windowCount == 0)
      && (ps != {} ==> s.prefix.Some? && s.prefix.value in ps && o % |ps| == Rank(ps, s.prefix.value))
      && (ps != {} ==> s.visit == o / |ps|)
      && (s.window == if s.windowCount == 0 then None else Some(s.visit % s.windowCount))
  {
    hide Leq, SortedNames, Rank, Visit, Sorted, PrefixSet, Private, Plan;
    var ps := PrefixSet(names);
    SortedNamesSorted(common);
    if ps != {} {
      var p := PlanAt(common, names, o);
      SortedNamesSorted(Private(common, names, p));
      VisitMembers(
        p, o / |ps|, SortedNames(Private(common, names, p)), SortedNames(common), WINDOW_SIZE - |common|);
    } else {
      NothingSorted();
      NothingPlanned(common, names, o);
    }
  }

  /** The prefix whose turn it is, and the plan as a visit of its bucket. */
  lemma PlanAt(common: set<string>, names: set<string>, o: nat) returns (p: string)
    requires 1 <= |common| < WINDOW_SIZE && PrefixSet(names) != {}
    ensures p in PrefixSet(names) && o % |PrefixSet(names)| == Rank(PrefixSet(names), p)
    ensures Plan(common, names, o) ==
      Visit(p, o / |PrefixSet(names)|, SortedNames(Private(common, names, p)), SortedNames(common),
        WINDOW_SIZE - |common|)
  {
    hide Leq, SortedNames, Rank, Visit, PrefixSet, Private;
    var ps := PrefixSet(names);
    SortedNamesFacts(ps);
    p := SortedNames(ps)[o % |SortedNames(ps)|];
    PlaceIsRank(ps, o % |SortedNames(ps)|);
  }

  lemma NothingPlanned(common: set<string>, names: set<string>, o: nat)
    requires 1 <= |common| < WINDOW_SIZE && PrefixSet(names) == {}
    ensures Plan(common, names, o) == Selection(None, 0, None, 0, SortedNames(common), [])
  {
    hide SortedNames, PrefixSet;
    SortedNamesFacts(PrefixSet(names));
  }

  /** The plan counts the least number of windows that hold the scheduled bucket. */
  lemma PlanWindowCount(common: set<string>, names: set<string>, o: nat, w: nat)
    requires 1 <= |common| < WINDOW_SIZE && Plan(common, names, o).prefix.Some?
    ensures var s := Plan(common, names, o);
      |set n | n in names && n !in common && PrefixOf(n) == s.prefix.value| <= w * (WINDOW_SIZE - |common|)
      <==> s.windowCount <= w
  {
    hide Leq, SortedNames, Rank, Visit, Sorted, WindowCount, Plan, PrefixSet;
    if PrefixSet(names) == {} { NothingPlanned(common, names, o); }
    var p := PlanAt(common, names, o);
    var bucket := SortedNames(Private(common, names, p));
    SortedNamesFacts(Private(common, names, p));
    SortedNamesSorted(Private(common, names, p));
    VisitMembers(p, o / |PrefixSet(names)|, bucket, SortedNames(common), WINDOW_SIZE - |common|);
    LeastCover(|bucket|, WINDOW_SIZE - |common|, w);
    assert Private(common, names, p) == set n | n in names && n !in common && PrefixOf(n) == p;
  }

  lemma NothingSorted()
    ensures Sorted(Leq, [])
  {
  }

  lemma VisitMembers(p: string, visit: nat, bucket: seq<string>, common: seq<string>, size: nat)
    requires size > 0 && Sorted(Leq, bucket)
    ensures var s := Visit(p, visit, bucket, common, size);
      && s.prefix == Some(p) && s.visit == visit && s.common == common && Sorted(Leq, s.picked)
      && s.windowCount == WindowCount(|bucket|, size)
      && s.window == (if s.windowCount == 0 then None else Some(s.visit % s.windowCount))
  {
    hide Leq, WindowCount;
  }

  // ----- the counters of the scan -----

  function BeginsWith(p: string): DirEntry -> nat
  {
    (e: DirEntry) => if |e.name| >= 2 && e.name[..2] == p then 1 else 0
  }

  function BytesBeginningWith(p: string): DirEntry -> nat
  {
    (e: DirEntry) => if |e.name| >= 2 && e.name[..2] == p then |e.content| else 0
  }

  lemma {:induction false} SumsSame(f: DirEntry -> nat, g: DirEntry -> nat, es: seq<DirEntry>)
    requires forall e :: e in es ==> f(e) == g(e)
    ensures SumOf(f, es) == SumOf(g, es)
  {
    if es != [] { SumsSame(f, g, es[1..]); }
  }

  /** There is a counter for each beginning that occurs; it holds the number and
      the size of the entries that begin so. */
  lemma CountersByBeginning(es: seq<DirEntry>, p: string)
    requires forall e :: e in es ==> |e.name| >= 2
    ensures p in Totals(es).bucketFiles <==> exists e :: e in es && e.name[..2] == p
    ensures p in Totals(es).bucketFiles <==> p in Totals(es).bucketBytes
    ensures p in Totals(es).bucketFiles ==>
      && Totals(es).bucketFiles[p] == SumOf(BeginsWith(p), es)
      && Totals(es).bucketBytes[p] == SumOf(BytesBeginningWith(p), es)
  {
    hide SumOf;
    forall e | e in es ensures Prefix(e) == e.name[..2] { }
    SumsSame(FilesIn(p), BeginsWith(p), es);
    SumsSame(BytesIn(p), BytesBeginningWith(p), es);
  }

  /** Accepted listings have such names only. */
  lemma AcceptedNamesAreLong(es: seq<DirEntry>)
    requires Admissible(es)
    ensures forall e :: e in es ==> |e.name| == 40
  {
    hide WithinCaps;
  }

  /** What the scan asks of one entry. */
  ghost predicate Fine(e: DirEntry)
  {
    && |e.name| == 40 && (forall c :: c in e.name ==> c in "0123456789abcdef")
    && e.statOk && e.kind == RegularFile && |e.content| <= 1_048_576
  }

  lemma FineIff(e: DirEntry)
    ensures WellFormed(e) <==> Fine(e)
  {
    hide IsUnitName;
    UnitNameIsHex(e.name);
  }

  /** The scan accepts exactly complete directories of fine entries: at most a
      million of them and 512 MiB, and of each beginning at most a hundred
      thousand and 128 MiB; every bound is itself allowed. */
  lemma AcceptsIff(sources: seq<Source>)
    ensures Accepts(sources) <==>
      && (forall i :: 0 <= i < |sources| ==> sources[i].Directory? && sources[i].complete)
      && (forall e :: e in AllEntries(sources) ==> Fine(e))
      && |AllEntries(sources)| <= 1_000_000 && SumOf(Size, AllEntries(sources)) <= 536_870_912
      && (forall p :: SumOf(BeginsWith(p), AllEntries(sources)) <= 100_000)
      && (forall p :: SumOf(BytesBeginningWith(p), AllEntries(sources)) <= 134_217_728)
  {
    hide SumOf, WellFormed, Fine, AllEntries;
    var es := AllEntries(sources);
    forall e ensures WellFormed(e) <==> Fine(e) { FineIff(e); }
    if forall e :: e in es ==> Fine(e) {
      forall p
        ensures SumOf(FilesIn(p), es) == SumOf(BeginsWith(p), es)
        ensures SumOf(BytesIn(p), es) == SumOf(BytesBeginningWith(p), es)
      {
        forall e | e in es ensures FilesIn(p)(e) == BeginsWith(p)(e) && BytesIn(p)(e) == BytesBeginningWith(p)(e) {
          FineName(e);
        }
        SumsSame(FilesIn(p), BeginsWith(p), es);
        SumsSame(BytesIn(p), BytesBeginningWith(p), es);
      }
    }
  }

  lemma FineName(e: DirEntry)
    requires Fine(e)
    ensures |e.name| >= 2
  {
  }
}
