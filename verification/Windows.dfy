/** The corpus-window scheduler (scripts/materialize_window.py): the ordinal of
    a shard within the stream of waves picks a prefix bucket by remainder and a
    window of that bucket by quotient.  Main result: every run of consecutive
    ordinals as long as (prefixes x windows of the bucket) selects each private
    unit of the bucket exactly once. */
module Windows {
  import opened Sequences
  import opened Arithmetic
  import opened Names
  import opened Inventory
  import BrainPaths

  const WINDOW_SIZE := 24
  const MAX_SHARDS := 4096
  const MAX_SHARDED_SOURCES := 64

  datatype Selection = Selection(
    prefix: Option<string>, visit: nat, window: Option<nat>, windowCount: nat,
    common: seq<string>, picked: seq<string>)

  // ----- the schedule -----

  function PrefixSet(names: set<string>): (ps: set<string>)
  {
    set n | n in names :: PrefixOf(n)
  }

  /** The non-common names of one bucket. */
  function Private(common: set<string>, names: set<string>, p: string): (ns: set<string>)
  {
    set n | n in names && PrefixOf(n) == p && n !in common
  }

  function WindowCount(units: nat, capacity: nat): (w: nat)
    requires capacity > 0
    ensures w > 0 <==> units > 0
  {
    WindowCountCovers(units, capacity);
    (units + capacity - 1) / capacity
  }

  /** The rounded quotient is the least number of windows that hold all units. */
  lemma WindowCountCovers(units: nat, capacity: nat)
    requires capacity > 0
    ensures var w := (units + capacity - 1) / capacity;
      && units <= w * capacity && (units > 0 ==> w > 0 && (w - 1) * capacity < units) && (units == 0 ==> w == 0)
  {
    DivisionBounds(units + capacity - 1, capacity);
    if units == 0 { DivModUnique(capacity - 1, capacity, 0, capacity - 1); }
  }

  /** A slice that, like the original's, stops at the end of the list. */
  function Slice(xs: seq<string>, start: nat, size: nat): (r: seq<string>)
  {
    if start >= |xs| then [] else if start + size >= |xs| then xs[start..] else xs[start..start + size]
  }

  /** The schedule of one bucket on its `visit`-th visit. */
  function Visit(p: string, visit: nat, bucket: seq<string>, common: seq<string>, capacity: nat): (s: Selection)
    requires capacity > 0
  {
    var count := WindowCount(|bucket|, capacity);
    if count == 0 then Selection(Some(p), visit, None, 0, common, [])
    else Selection(Some(p), visit, Some(visit % count), count, common,
      Slice(bucket, visit % count * capacity, capacity))
  }

  ghost function Plan(common: set<string>, names: set<string>, ordinal: nat): (s: Selection)
    requires 1 <= |common| < WINDOW_SIZE
  {
    var prefixes := SortedNames(PrefixSet(names));
    if prefixes == [] then Selection(None, 0, None, 0, SortedNames(common), [])
    else
      var p := prefixes[ordinal % |prefixes|];
      Visit(p, ordinal / |prefixes|, SortedNames(Private(common, names, p)), SortedNames(common),
        WINDOW_SIZE - |common|)
  }

  // ----- arithmetic of the schedule -----

  /** Remainder for the bucket and quotient's remainder for the window amount
      to one remainder modulo buckets times windows. */
  lemma Residue(o: nat, p: nat, w: nat)
    requires p > 0 && w > 0
    ensures p * w > 0
    ensures o % (p * w) == o / p % w * p + o % p
  {
    DivideTwice(o, p, w);
  }

  lemma Combine(p: nat, w: nat, v: nat, u: nat, r: nat)
    requires p > 0 && w > 0 && u < w && r < p
    ensures (v * w + u) * p + r == v * (p * w) + (u * p + r)
    ensures u * p + r < p * w && p * w > 0
  {
    Regroup(v, w, u, p);
    MulStep(u, w, p);
  }

  /** Two numbers less than `m` apart with one remainder modulo `m` are equal. */
  lemma SameRemainder(a: nat, b: nat, m: nat)
    requires m > 0 && Remainder(a, m) == Remainder(b, m) && a <= b < a + m
    ensures a == b
  {
    hide Times, Quotient, Remainder;
    Division(a, m);
    Division(b, m);
    if Quotient(a, m) < Quotient(b, m) {
      TimesStep(Quotient(a, m), Quotient(b, m), m);
    } else if Quotient(b, m) < Quotient(a, m) {
      TimesStep(Quotient(b, m), Quotient(a, m), m);
    }
  }

  lemma SameResidue(a: nat, b: nat, m: nat)
    requires m > 0 && a % m == b % m && a <= b < a + m
    ensures a == b
  {
    SameRemainder(a, b, m);
  }

  /** The next number from `lo` on with remainder `c`. */
  lemma NextWith(lo: nat, m: nat, c: nat) returns (o: nat)
    requires c < m
    ensures lo <= o < lo + m && Remainder(o, m) == c
  {
    hide Times, Quotient, Remainder;
    var b := Quotient(lo, m);
    Division(lo, m);
    TimesStep(b, b + 1, m);
    NextTimes(b, m);
    if Times(b, m) + c >= lo {
      o := Times(b, m) + c;
      DivModTimes(o, m, b, c);
    } else {
      o := Times(b + 1, m) + c;
      DivModTimes(o, m, b + 1, c);
    }
  }

  lemma NextTimes(b: nat, m: nat)
    ensures Times(b + 1, m) == Times(b, m) + m
  {
    assert (b + 1) * m == b * m + m;
  }

  /** Any `m` consecutive numbers hold each remainder modulo `m` once. */
  lemma ConsecutiveResidues(lo: nat, m: nat, c: nat) returns (o: nat)
    requires c < m
    ensures lo <= o < lo + m && o % m == c
    ensures forall o' :: lo <= o' < lo + m && o' % m == c ==> o' == o
  {
    o := NextWith(lo, m, c);
    forall o' | lo <= o' < lo + m && o' % m == c ensures o' == o {
      if o <= o' { SameResidue(o, o', m); } else { SameResidue(o', o, m); }
    }
  }

  // ----- which ordinals select a unit -----

  ghost predicate InPool(common: set<string>, names: set<string>, u: string)
  {
    1 <= |common| < WINDOW_SIZE && u in names && u !in common
  }

  ghost function PrefixCount(names: set<string>): nat { |SortedNames(PrefixSet(names))| }

  /** The number of windows of the bucket that holds `u`. */
  ghost function WindowsOf(common: set<string>, names: set<string>, u: string): (w: nat)
    requires InPool(common, names, u)
    ensures w > 0 && PrefixCount(names) > 0
  {
    var bucket := Private(common, names, PrefixOf(u));
    SortedNamesFacts(bucket);
    SortedNamesFacts(PrefixSet(names));
    assert u in bucket && PrefixOf(u) in PrefixSet(names);
    WindowCount(|SortedNames(bucket)|, WINDOW_SIZE - |common|)
  }

  lemma SliceHolds(xs: seq<string>, i: nat, w: nat, size: nat)
    requires Distinct(xs) && i < |xs| && size > 0
    ensures xs[i] in Slice(xs, w * size, size) <==> w == i / size
  {
    hide Slice, Distinct;
    SliceRange(xs, i, w * size, size);
    WindowOf(i, w, size);
  }

  lemma WindowOf(i: nat, w: nat, size: nat)
    requires size > 0
    ensures w * size <= i < w * size + size <==> w == i / size
  {
    if w * size <= i < w * size + size { DivModUnique(i, size, w, i - w * size); }
    DivisionBounds(i, size);
  }

  lemma SliceRange(xs: seq<string>, i: nat, start: nat, size: nat)
    requires Distinct(xs) && i < |xs|
    ensures xs[i] in Slice(xs, start, size) <==> start <= i < start + size
  {
    var s := Slice(xs, start, size);
    assert forall j :: 0 <= j < |s| ==> s[j] == xs[start + j];
    if start <= i < start + size { assert s[i - start] == xs[i]; }
  }

  /** How many ordinals pass before the schedule of the bucket of `u` repeats. */
  ghost function Cycle(common: set<string>, names: set<string>, u: string): (m: nat)
    requires InPool(common, names, u)
    ensures m > 0
  {
    Combine(PrefixCount(names), WindowsOf(common, names, u), 0, 0, 0);
    PrefixCount(names) * WindowsOf(common, names, u)
  }

  lemma Position(s: set<string>, x: string) returns (i: nat)
    requires x in s
    ensures i < |SortedNames(s)| && SortedNames(s)[i] == x
  {
    SortedNamesFacts(s);
    i :| 0 <= i < |SortedNames(s)| && SortedNames(s)[i] == x;
  }

  /** Unit `u`, at position i of the k-th bucket, is selected exactly by the
      ordinals congruent to (i / capacity) * P + k modulo P * W. */
  lemma SelectedWhen(common: set<string>, names: set<string>, u: string) returns (c: nat)
    requires InPool(common, names, u)
    ensures c < Cycle(common, names, u)
    ensures forall o: nat :: u in Plan(common, names, o).picked <==> o % Cycle(common, names, u) == c
  {
    hide SortedNames, WindowCount, Plan, Cycle, PrefixCount;
    assert PrefixOf(u) in PrefixSet(names) && u in Private(common, names, PrefixOf(u));
    var k := Position(PrefixSet(names), PrefixOf(u));
    var i := Position(Private(common, names, PrefixOf(u)), u);
    c := Slot(common, names, u, k, i);
    SlotBound(common, names, u, k, i);
    forall o: nat ensures u in Plan(common, names, o).picked <==> o % Cycle(common, names, u) == c {
      OrdinalSelects(common, names, u, o, k, i);
    }
  }

  /** `u` is at position `i` of the `k`-th bucket. */
  ghost predicate At(common: set<string>, names: set<string>, u: string, k: nat, i: nat)
  {
    var b := SortedNames(Private(common, names, PrefixOf(u)));
    k < |SortedNames(PrefixSet(names))| && SortedNames(PrefixSet(names))[k] == PrefixOf(u) && i < |b| && b[i] == u
  }

  /** The window that holds position `i` of a bucket. */
  function WindowAt(common: set<string>, i: nat): (v: nat)
    requires |common| < WINDOW_SIZE
  {
    Quotient(i, WINDOW_SIZE - |common|)
  }

  ghost function Slot(common: set<string>, names: set<string>, u: string, k: nat, i: nat): (c: nat)
    requires InPool(common, names, u)
  {
    WindowAt(common, i) * PrefixCount(names) + k
  }

  /** The bucket is one of the prefixes, the window one of the bucket's. */
  lemma SlotParts(common: set<string>, names: set<string>, u: string, k: nat, i: nat)
    requires InPool(common, names, u) && At(common, names, u, k, i)
    ensures k < PrefixCount(names) && WindowAt(common, i) < WindowsOf(common, names, u)
  {
    hide SortedNames, WindowCount, Quotient;
    WindowIndexBound(i, |SortedNames(Private(common, names, PrefixOf(u)))|, WINDOW_SIZE - |common|);
  }

  lemma SlotBound(common: set<string>, names: set<string>, u: string, k: nat, i: nat)
    requires InPool(common, names, u) && At(common, names, u, k, i)
    ensures Slot(common, names, u, k, i) < Cycle(common, names, u)
  {
    hide SortedNames, WindowCount, WindowsOf, PrefixCount, At, Cycle, Slot, WindowAt;
    SlotParts(common, names, u, k, i);
    SlotTerms(common, names, u, k, i);
    SlotLess(PrefixCount(names), WindowsOf(common, names, u), WindowAt(common, i), k);
  }

  lemma SlotLess(p: nat, w: nat, v: nat, k: nat)
    requires k < p && v < w
    ensures v * p + k < p * w
  {
    MulStep(v, w, p);
  }

  /** The ordinal `o` is a visit of bucket `k`, of p, that takes window `v`, of w. */
  predicate Visits(o: nat, p: nat, w: nat, k: nat, v: nat)
    requires p > 0 && w > 0
  {
    o % p == k && o / p % w == v
  }

  lemma OrdinalSelects(common: set<string>, names: set<string>, u: string, o: nat, k: nat, i: nat)
    requires InPool(common, names, u) && At(common, names, u, k, i)
    ensures u in Plan(common, names, o).picked <==> o % Cycle(common, names, u) == Slot(common, names, u, k, i)
  {
    hide SortedNames, WindowCount, Plan, WindowsOf, PrefixCount, Visits, Cycle, Slot, At, WindowAt;
    SlotParts(common, names, u, k, i);
    SlotTerms(common, names, u, k, i);
    VisitHolds(common, names, u, o, k, i);
    SameVisit(o, PrefixCount(names), WindowsOf(common, names, u), WindowAt(common, i), k,
              Cycle(common, names, u), Slot(common, names, u, k, i));
  }

  lemma SlotTerms(common: set<string>, names: set<string>, u: string, k: nat, i: nat)
    requires InPool(common, names, u)
    ensures Cycle(common, names, u) == PrefixCount(names) * WindowsOf(common, names, u)
    ensures Slot(common, names, u, k, i) == WindowAt(common, i) * PrefixCount(names) + k
  {
    hide WindowsOf, PrefixCount, WindowAt;
  }

  lemma SameVisit(o: nat, p: nat, w: nat, v: nat, k: nat, m: nat, c: nat)
    requires p > 0 && w > 0 && k < p && m == p * w && c == v * p + k && m > 0
    ensures o % m == c <==> Visits(o, p, w, k, v)
  {
    Residue(o, p, w);
    SameDigits(o / p % w, o % p, p, v, k);
  }

  lemma SameDigits(a: nat, b: nat, p: nat, v: nat, k: nat)
    requires b < p && k < p
    ensures a * p + b == v * p + k <==> a == v && b == k
  {
    if a * p + b == v * p + k { QuotientUnique(a, b, p, v, k); }
  }

  lemma WindowIndexBound(i: nat, units: nat, size: nat)
    requires i < units && size > 0
    ensures Quotient(i, size) < WindowCount(units, size)
  {
    hide WindowCount;
    WindowCountHolds(units, size);
    DivisionBounds(i, size);
    QuotientBelow(i, size, i / size, WindowCount(units, size));
  }

  lemma WindowCountHolds(units: nat, size: nat)
    requires size > 0
    ensures units <= WindowCount(units, size) * size
  {
    WindowCountCovers(units, size);
  }

  lemma QuotientBelow(i: nat, size: nat, q: nat, w: nat)
    requires q * size <= i < w * size
    ensures q < w
  {
    if w < q { MulStep(w, q, size); }
  }

  /** What one visit of a bucket picks. */
  lemma VisitPicks(p: string, visit: nat, bucket: seq<string>, common: seq<string>, size: nat, i: nat)
    requires size > 0 && Distinct(bucket) && i < |bucket|
    ensures WindowCount(|bucket|, size) > 0
    ensures bucket[i] in Visit(p, visit, bucket, common, size).picked <==>
      visit % WindowCount(|bucket|, size) == Quotient(i, size)
  {
    hide WindowCount, Slice, Distinct;
    SliceHolds(bucket, i, visit % WindowCount(|bucket|, size), size);
  }

  lemma VisitWithin(p: string, visit: nat, bucket: seq<string>, common: seq<string>, size: nat, n: string)
    requires size > 0 && n in Visit(p, visit, bucket, common, size).picked
    ensures n in bucket
  {
    hide WindowCount;
  }

  /** The plan of an ordinal as a visit of its bucket. */
  lemma PlanVisit(common: set<string>, names: set<string>, o: nat, prefixes: seq<string>, k: nat)
    requires 1 <= |common| < WINDOW_SIZE && prefixes == SortedNames(PrefixSet(names)) && prefixes != []
      && k == o % |prefixes|
    ensures Plan(common, names, o) ==
      Visit(prefixes[k], o / |prefixes|, SortedNames(Private(common, names, prefixes[k])), SortedNames(common),
        WINDOW_SIZE - |common|)
  {
    hide Visit, SortedNames;
  }

  /** Listed names are found at one place only. */
  lemma NameAt(s: set<string>, k: nat, l: nat)
    requires k < |SortedNames(s)| && l < |SortedNames(s)|
    ensures SortedNames(s)[k] == SortedNames(s)[l] <==> k == l
    ensures SortedNames(s)[l] in s
  {
    hide SortedNames;
    SortedNamesFacts(s);
    assert SortedNames(s)[l] in SortedNames(s);
  }

  /** A visit of the bucket of `u`, and one of another bucket. */
  lemma BucketVisit(common: set<string>, names: set<string>, u: string, p: string, q: nat, i: nat)
    requires InPool(common, names, u)
    requires p == PrefixOf(u) ==>
      i < |SortedNames(Private(common, names, p))| && SortedNames(Private(common, names, p))[i] == u
    ensures var size := WINDOW_SIZE - |common|;
      u in Visit(p, q, SortedNames(Private(common, names, p)), SortedNames(common), size).picked <==>
        p == PrefixOf(u) && q % WindowsOf(common, names, u) == WindowAt(common, i)
  {
    hide SortedNames, WindowCount, Visit, Quotient;
    var size, bucket := WINDOW_SIZE - |common|, SortedNames(Private(common, names, p));
    SortedNamesFacts(Private(common, names, p));
    if p == PrefixOf(u) {
      VisitPicks(p, q, bucket, SortedNames(common), size, i);
    } else if u in Visit(p, q, bucket, SortedNames(common), size).picked {
      VisitWithin(p, q, bucket, SortedNames(common), size, u);
    }
  }

  lemma VisitHolds(common: set<string>, names: set<string>, u: string, o: nat, k: nat, i: nat)
    requires InPool(common, names, u) && At(common, names, u, k, i)
    ensures u in Plan(common, names, o).picked <==>
      Visits(o, PrefixCount(names), WindowsOf(common, names, u), k, WindowAt(common, i))
  {
    hide SortedNames, WindowsOf, Visit, Plan, Private, WindowAt;
    var prefixes := SortedNames(PrefixSet(names));
    var l := o % |prefixes|;
    PlanVisit(common, names, o, prefixes, l);
    NameAt(PrefixSet(names), k, l);
    BucketVisit(common, names, u, prefixes[l], o / |prefixes|, i);
  }

  // ----- coverage -----

  /** Exactly one ordinal of the run selects the unit. */
  ghost predicate SelectedOnce(common: set<string>, names: set<string>, u: string, lo: nat, run: nat)
    requires 1 <= |common| < WINDOW_SIZE
  {
    exists o: nat :: lo <= o < lo + run && u in Plan(common, names, o).picked &&
      forall o': nat :: lo <= o' < lo + run && u in Plan(common, names, o').picked ==> o' == o
  }

  lemma ExactCoverage(common: set<string>, names: set<string>, u: string, lo: nat)
    requires InPool(common, names, u)
    ensures SelectedOnce(common, names, u, lo, Cycle(common, names, u))
  {
    hide Plan, Cycle;
    var c := SelectedWhen(common, names, u);
    var o := ConsecutiveResidues(lo, Cycle(common, names, u), c);
    assert u in Plan(common, names, o).picked;
  }

  /** `waves` consecutive waves of `shards` shards reach every private unit
      whose cycle fits in that many ordinals. */
  lemma WavesReach(common: set<string>, names: set<string>, u: string, first: nat, waves: nat, shards: nat)
    returns (wave: nat, shard: nat)
    requires InPool(common, names, u) && shards > 0
    requires waves * shards >= Cycle(common, names, u)
    ensures first <= wave < first + waves && shard < shards
    ensures u in Plan(common, names, wave * shards + shard).picked
  {
    hide Plan, Cycle;
    var lo, run := first * shards, Cycle(common, names, u);
    ExactCoverage(common, names, u, lo);
    var o: nat :| lo <= o < lo + run && u in Plan(common, names, o).picked;
    wave, shard := ShardOf(o, first, waves, shards);
  }

  ghost predicate PickedBy(common: set<string>, names: set<string>, u: string, shards: nat, wave: nat, shard: nat)
    requires 1 <= |common| < WINDOW_SIZE
  {
    shard < shards && u in Plan(common, names, wave * shards + shard).picked
  }

  /** With P prefixes and at most `most` windows in any bucket, waves that amount
      to P * most ordinals leave no private unit out. */
  lemma EveryUnitReached(common: set<string>, names: set<string>, first: nat, waves: nat, shards: nat, most: nat)
    requires 1 <= |common| < WINDOW_SIZE && shards > 0 && waves * shards >= PrefixCount(names) * most
    requires forall u :: InPool(common, names, u) ==> WindowsOf(common, names, u) <= most
    ensures forall u :: InPool(common, names, u) ==>
      exists wave: nat, shard: nat :: first <= wave < first + waves && PickedBy(common, names, u, shards, wave, shard)
  {
    hide Plan, InPool, WindowsOf, PrefixCount;
    forall u | InPool(common, names, u)
      ensures exists wave: nat, shard: nat ::
        first <= wave < first + waves && PickedBy(common, names, u, shards, wave, shard)
    {
      MulMonotone(PrefixCount(names), WindowsOf(common, names, u), most);
      var wave, shard := WavesReach(common, names, u, first, waves, shards);
      assert PickedBy(common, names, u, shards, wave, shard);
    }
  }

  lemma MulMonotone(p: nat, a: nat, b: nat)
    requires a <= b
    ensures p * a <= p * b
  {
  }

  lemma ShardOf(o: nat, first: nat, waves: nat, shards: nat) returns (wave: nat, shard: nat)
    requires shards > 0 && first * shards <= o < first * shards + waves * shards
    ensures first <= wave < first + waves && shard < shards && o == wave * shards + shard
  {
    wave, shard := o / shards, o % shards;
    DivisionBounds(o, shards);
    assert first * shards + waves * shards == (first + waves) * shards;
    if wave < first {
      MulStep(wave, first, shards);
    } else if wave > first + waves {
      MulStep(first + waves, wave, shards);
    }
  }

  /** Each selection is the whole common set plus distinct units of one bucket
      that are not common, 24 units at most. */
  lemma SelectionShape(common: set<string>, names: set<string>, o: nat)
    requires 1 <= |common| < WINDOW_SIZE
    ensures var s := Plan(common, names, o);
      && s.common == SortedNames(common)
      && |s.common| + |s.picked| <= WINDOW_SIZE
      && Distinct(s.common + s.picked)
      && (forall n :: n in s.picked ==> n in names && n !in common && s.prefix == Some(PrefixOf(n)))
  {
    hide SortedNames, WindowCount, PrefixOf;
    SortedNamesFacts(common);
    SortedNamesFacts(PrefixSet(names));
    var prefixes := SortedNames(PrefixSet(names));
    if prefixes != [] {
      var p := prefixes[o % |prefixes|];
      var bucket := SortedNames(Private(common, names, p));
      SortedNamesFacts(Private(common, names, p));
      VisitShape(p, o / |prefixes|, bucket, SortedNames(common), WINDOW_SIZE - |common|);
    }
  }

  lemma VisitShape(p: string, visit: nat, bucket: seq<string>, common: seq<string>, capacity: nat)
    requires capacity > 0 && Distinct(bucket) && Distinct(common)
    requires forall n :: n in bucket ==> n !in common
    ensures var s := Visit(p, visit, bucket, common, capacity);
      && |s.picked| <= capacity && Distinct(s.common + s.picked)
      && forall n :: n in s.picked ==> n in bucket
  {
    hide WindowCount;
    var w := visit % (if |bucket| == 0 then 1 else WindowCount(|bucket|, capacity));
    SliceShape(bucket, w * capacity, capacity, common);
    assert common + [] == common;
  }

  lemma SliceShape(xs: seq<string>, start: nat, size: nat, common: seq<string>)
    requires Distinct(xs) && Distinct(common) && forall n :: n in xs ==> n !in common
    ensures var s := Slice(xs, start, size);
      |s| <= size && Distinct(common + s) && forall n :: n in s ==> n in xs
  {
    var s := Slice(xs, start, size);
    assert forall j :: 0 <= j < |s| ==> s[j] == xs[start + j];
    var all := common + s;
    forall i, j | 0 <= i < j < |all| ensures all[i] != all[j] {
      assert j >= |common| ==> all[j] == s[j - |common|] == xs[start + j - |common|];
      assert i >= |common| ==> all[i] == s[i - |common|] == xs[start + i - |common|];
      assert i < |common| <= j ==> all[i] in common && all[j] in xs;
    }
  }

  // ----- the materialiser's decision -----

  datatype Failure =
    | Arguments | ShardRange | SourceCountCap | DestinationDirectory | DestinationScan | DestinationDirty
    | CommonCapacity | Scanning(code: ScanError) | SourceChanged | ContentHash

  /** What is found at the destination. */
  datatype Destination = NoDirectory | Unlistable | Dirty | Empty

  /** What a candidate turns out to be when it is hashed, after the rescan. */
  datatype Reading = Gone | Found(kind: Kind, content: Bytes)

  /** The readings, by unit name and by position among its candidates. */
  type Readings = (string, nat) -> Reading

  function NamesOf(es: seq<DirEntry>): (ns: set<string>)
  {
    set e | e in es :: e.name
  }

  /** Every candidate of the bucket is confirmed when it is read again. */
  ghost predicate BucketHashes(sha1: Bytes -> string, later: Readings, es: seq<DirEntry>, p: string)
  {
    forall n :: n in NamesOf(es) && PrefixOf(n) == p ==> HashTo(sha1, later, Named(es, n), n)
  }

  /** The prefix that the first listing schedules for the ordinal. */
  ghost function Scheduled(es: seq<DirEntry>, ordinal: nat): (p: string)
    requires es != []
  {
    SortedNamesFacts(Prefixes(es));
    assert Prefix(es[0]) in Prefixes(es);
    SortedNames(Prefixes(es))[ordinal % |SortedNames(Prefixes(es))|]
  }

  /** Still a regular file, with the content that its name promises and the size
      that the scan saw. */
  predicate Confirmed(sha1: Bytes -> string, r: Reading, name: string, size: nat)
  {
    r.Found? && r.kind == RegularFile && sha1(r.content) == name && |r.content| == size
  }

  ghost predicate HashTo(sha1: Bytes -> string, later: Readings, units: seq<DirEntry>, name: string)
  {
    forall k :: 0 <= k < |units| ==> Confirmed(sha1, later(name, k), name, |units[k].content|)
  }

  ghost predicate AllHash(sha1: Bytes -> string, later: Readings, m: map<string, seq<DirEntry>>)
  {
    forall n :: n in m ==> HashTo(sha1, later, m[n], n)
  }

  /** The first candidate that is not confirmed, and why. */
  ghost predicate FirstUnconfirmed(
    sha1: Bytes -> string, later: Readings, units: seq<DirEntry>, name: string, k: nat, f: Failure)
  {
    && k < |units| && !Confirmed(sha1, later(name, k), name, |units[k].content|)
    && (forall l :: 0 <= l < k ==> Confirmed(sha1, later(name, l), name, |units[l].content|))
    && var r := later(name, k);
      f == if r.Found? && r.kind == RegularFile && sha1(r.content) != name then ContentHash else SourceChanged
  }

  method HashUnits(
    sha1: Bytes -> string, later: Readings, units: seq<DirEntry>, name: string) returns (e: Option<Failure>)
    ensures e.None? <==> HashTo(sha1, later, units, name)
    ensures e.Some? ==> exists k :: FirstUnconfirmed(sha1, later, units, name, k, e.value)
  {
    for k := 0 to |units|
      invariant forall l :: 0 <= l < k ==> Confirmed(sha1, later(name, l), name, |units[l].content|)
    {
      var r := later(name, k);
      if r.Gone? || r.kind != RegularFile {
        assert FirstUnconfirmed(sha1, later, units, name, k, SourceChanged);
        return Some(SourceChanged);
      }
      if sha1(r.content) != name {
        assert FirstUnconfirmed(sha1, later, units, name, k, ContentHash);
        return Some(ContentHash);
      }
      if |r.content| != |units[k].content| {
        assert FirstUnconfirmed(sha1, later, units, name, k, SourceChanged);
        return Some(SourceChanged);
      }
    }
    e := None;
  }

  /** The first name whose candidates are not all confirmed, and why. */
  ghost predicate FirstUnhashed(
    sha1: Bytes -> string, later: Readings, m: map<string, seq<DirEntry>>, i: nat, f: Failure)
  {
    SortedNamesFacts(m.Keys);
    var names := SortedNames(m.Keys);
    && i < |names| && (forall j :: 0 <= j < i ==> HashTo(sha1, later, m[names[j]], names[j]))
    && exists k :: FirstUnconfirmed(sha1, later, m[names[i]], names[i], k, f)
  }

  /** Hash every physical candidate of the selected bucket. */
  method ValidateBucket(
    sha1: Bytes -> string, later: Readings, candidates: map<string, seq<DirEntry>>) returns (e: Option<Failure>)
    ensures e.None? <==> AllHash(sha1, later, candidates)
    ensures e.Some? ==> exists i :: FirstUnhashed(sha1, later, candidates, i, e.value)
  {
    hide HashTo, SortedNames, FirstUnconfirmed;
    var names := ListSorted(candidates.Keys);
    SortedNamesFacts(candidates.Keys);
    for i := 0 to |names|
      invariant forall j :: 0 <= j < i ==> HashTo(sha1, later, candidates[names[j]], names[j])
    {
      e := HashUnits(sha1, later, candidates[names[i]], names[i]);
      if e.Some? {
        assert FirstUnhashed(sha1, later, candidates, i, e.value);
        return;
      }
    }
    e := None;
    forall n | n in candidates ensures HashTo(sha1, later, candidates[n], n) {
      assert n in names;
    }
  }

  lemma CandidatesHash(sha1: Bytes -> string, later: Readings, es: seq<DirEntry>, p: string)
    ensures BucketHashes(sha1, later, es, p) <==> AllHash(sha1, later, Candidates(es, Some(p)))
  {
    hide HashTo;
    CandidateNames(es, p);
    var m := Candidates(es, Some(p));
    forall n | n in m ensures m[n] == Named(es, n) { }
  }

  lemma CandidateNames(es: seq<DirEntry>, p: string)
    ensures Candidates(es, Some(p)).Keys == set n | n in NamesOf(es) && PrefixOf(n) == p
  {
  }

  // ----- the common set -----

  ghost predicate CommonAccepts(sha1: Bytes -> string, src: Source)
  {
    && src.Directory? && src.complete && |src.entries| <= MAX_BUCKET_FILES
    && forall i :: 0 <= i < |src.entries| ==>
      WellFormed(src.entries[i]) && sha1(src.entries[i].content) == src.entries[i].name
  }

  /** Why an entry of the common directory is refused. */
  function CommonFlaw(sha1: Bytes -> string, e: DirEntry): (f: Option<Failure>)
  {
    if !BrainPaths.IsUnitName(e.name) then Some(Scanning(SourceName))
    else if !e.statOk then Some(Scanning(SourceStat))
    else if e.kind != RegularFile then Some(Scanning(SourceNonregular))
    else if |e.content| > MAX_UNIT_BYTES then Some(Scanning(UnitSizeCap))
    else if sha1(e.content) != e.name then Some(ContentHash)
    else None
  }

  /** The first entry that is refused. */
  ghost predicate FirstFlawed(sha1: Bytes -> string, es: seq<DirEntry>, i: nat, f: Failure)
  {
    i < |es| && CommonFlaw(sha1, es[i]) == Some(f) && forall k :: 0 <= k < i ==> CommonFlaw(sha1, es[k]).None?
  }

  /** Why the common directory is refused. */
  ghost predicate CommonFails(sha1: Bytes -> string, src: Source, f: Failure)
  {
    if src.NotADirectory? then f == Scanning(SourceDirectory)
    else if !src.complete then f == Scanning(SourceScan)
    else if |src.entries| > MAX_BUCKET_FILES then f == Scanning(FileCountCap)
    else exists i :: FirstFlawed(sha1, src.entries, i, f)
  }

  method ValidateSource(sha1: Bytes -> string, src: Source) returns (r: Result<set<string>, Failure>)
    ensures r.Ok? <==> CommonAccepts(sha1, src)
    ensures r.Ok? ==> r.value == NamesOf(src.entries)
    ensures r.Err? ==> CommonFails(sha1, src, r.error)
  {
    if src.NotADirectory? { return Err(Scanning(SourceDirectory)); }
    if !src.complete { return Err(Scanning(SourceScan)); }
    if |src.entries| > MAX_BUCKET_FILES { return Err(Scanning(FileCountCap)); }
    var units: set<string> := {};
    for i := 0 to |src.entries|
      invariant forall k :: 0 <= k < i ==> CommonFlaw(sha1, src.entries[k]).None?
      invariant units == NamesOf(src.entries[..i])
    {
      var e := src.entries[i];
      if !BrainPaths.IsUnitName(e.name) {
        assert FirstFlawed(sha1, src.entries, i, Scanning(SourceName));
        return Err(Scanning(SourceName));
      }
      if !e.statOk {
        assert FirstFlawed(sha1, src.entries, i, Scanning(SourceStat));
        return Err(Scanning(SourceStat));
      }
      if e.kind != RegularFile {
        assert FirstFlawed(sha1, src.entries, i, Scanning(SourceNonregular));
        return Err(Scanning(SourceNonregular));
      }
      if |e.content| > MAX_UNIT_BYTES {
        assert FirstFlawed(sha1, src.entries, i, Scanning(UnitSizeCap));
        return Err(Scanning(UnitSizeCap));
      }
      if sha1(e.content) != e.name {
        assert FirstFlawed(sha1, src.entries, i, ContentHash);
        return Err(ContentHash);
      }
      units := units + {e.name};
      assert src.entries[..i + 1] == src.entries[..i] + [e];
    }
    assert src.entries[..|src.entries|] == src.entries;
    r := Ok(units);
  }

  // ----- the decision -----

  /** The directories as they are met, one after the other. */
  datatype Disk = Disk(destination: Destination, common: Source, first: seq<Source>, again: seq<Source>,
    later: Readings)

  function CommonNames(d: Disk): (ns: set<string>)
  {
    if d.common.Directory? then NamesOf(d.common.entries) else {}
  }

  ghost predicate Succeeds(sha1: Bytes -> string, shard: nat, count: nat, ordinal: nat, d: Disk)
  {
    && 1 <= count <= MAX_SHARDS && shard < count && 1 <= |d.first| <= MAX_SHARDED_SOURCES
    && d.destination == Empty && CommonAccepts(sha1, d.common) && 1 <= |CommonNames(d)| < WINDOW_SIZE
    && Accepts(d.first)
    && (AllEntries(d.first) != [] ==> Unchanged(sha1, ordinal, AllEntries(d.first), d))
  }

  /** The rescan agrees with the first scan and the scheduled bucket hashes. */
  ghost predicate Unchanged(sha1: Bytes -> string, ordinal: nat, es: seq<DirEntry>, d: Disk)
    requires es != []
  {
    && Accepts(d.again) && Totals(AllEntries(d.again)) == Totals(es)
    && BucketHashes(sha1, d.later, AllEntries(d.again), Scheduled(es, ordinal))
  }

  lemma PrefixListing(es: seq<DirEntry>)
    ensures Prefixes(es) == PrefixSet(NamesOf(es)) == Totals(es).bucketFiles.Keys
    ensures es == [] <==> SortedNames(Prefixes(es)) == []
  {
    SortedNamesFacts(Prefixes(es));
    if es != [] { assert Prefix(es[0]) in Prefixes(es); }
  }

  lemma PlanIsVisit(common: set<string>, es: seq<DirEntry>, ordinal: nat, prefixes: seq<string>, p: string)
    requires 1 <= |common| < WINDOW_SIZE
    requires prefixes == SortedNames(Totals(es).bucketFiles.Keys) && prefixes != []
      && p == prefixes[ordinal % |prefixes|]
    ensures Plan(common, NamesOf(es), ordinal) ==
      Visit(p, ordinal / |prefixes|, SortedNames(Candidates(es, Some(p)).Keys - common), SortedNames(common),
        WINDOW_SIZE - |common|)
  {
    hide Visit, SortedNames;
    PrefixListing(es);
    CandidateNames(es, p);
    assert Candidates(es, Some(p)).Keys - common == Private(common, NamesOf(es), p);
  }

  /** Why the decision fails: the first check that does, in the order in which
      the arguments and the directories are looked at. */
  ghost predicate FailsWith(sha1: Bytes -> string, shard: nat, count: nat, ordinal: nat, d: Disk, f: Failure)
  {
    if |d.first| < 1 then f == Arguments
    else if count < 1 || count > MAX_SHARDS || shard >= count then f == ShardRange
    else if |d.first| > MAX_SHARDED_SOURCES then f == SourceCountCap
    else if d.destination != Empty then
      f == if d.destination == NoDirectory then DestinationDirectory
           else if d.destination == Unlistable then DestinationScan else DestinationDirty
    else if !CommonAccepts(sha1, d.common) then CommonFails(sha1, d.common, f)
    else if !(1 <= |CommonNames(d)| < WINDOW_SIZE) then f == CommonCapacity
    else if !Accepts(d.first) then exists i, code :: f == Scanning(code) && StopsAt(d.first, i, code)
    else if AllEntries(d.first) == [] then false
    else if !Accepts(d.again) then exists i, code :: f == Scanning(code) && StopsAt(d.again, i, code)
    else if Totals(AllEntries(d.again)) != Totals(AllEntries(d.first)) then f == SourceChanged
    else
      var p := Scheduled(AllEntries(d.first), ordinal);
      exists i :: FirstUnhashed(sha1, d.later, Candidates(AllEntries(d.again), Some(p)), i, f)
  }

  /** The whole decision, over what is met on the way: the destination, the
      common set, the scan, the rescan, and each candidate when it is hashed.
      It succeeds exactly when every check holds, and then the selection is the
      plan for the names observed. */
  method Materialize(sha1: Bytes -> string, shard: nat, count: nat, wave: nat, d: Disk)
    returns (r: Result<Selection, Failure>)
    ensures r.Ok? <==> Succeeds(sha1, shard, count, wave * count + shard, d)
    ensures r.Ok? ==>
      r.value == Plan(CommonNames(d), NamesOf(AllEntries(if AllEntries(d.first) == [] then d.first else d.again)),
        wave * count + shard)
    ensures r.Err? ==> FailsWith(sha1, shard, count, wave * count + shard, d, r.error)
  {
    hide SortedNames, Accepts, Totals, Candidates, AllEntries, NamesOf, BucketHashes, AllHash, Prefixes, Plan, Visit,
      Prefix, CommonAccepts, CommonFails, StopsAt, FirstUnhashed;
    var ordinal := wave * count + shard;
    if |d.first| < 1 { return Err(Arguments); }
    if count < 1 || count > MAX_SHARDS || shard >= count { return Err(ShardRange); }
    if |d.first| > MAX_SHARDED_SOURCES { return Err(SourceCountCap); }
    if d.destination == NoDirectory { return Err(DestinationDirectory); }
    if d.destination == Unlistable { return Err(DestinationScan); }
    if d.destination == Dirty { return Err(DestinationDirty); }
    var validated := ValidateSource(sha1, d.common);
    if validated.Err? { return Err(validated.error); }
    var common := validated.value;
    CommonIsDirectory(sha1, d.common);
    if !(1 <= |common| < WINDOW_SIZE) { return Err(CommonCapacity); }
    var commonNames := ListSorted(common);
    var scan := Scan(d.first, None);
    if scan.Err? { return Err(Scanning(scan.error)); }
    var prefixes := ListSorted(scan.value.0.bucketFiles.Keys);
    ghost var es := AllEntries(d.first);
    PrefixListing(es);
    if |prefixes| == 0 {
      NothingPrivate(common, es, ordinal);
      return Ok(Selection(None, 0, None, 0, commonNames, []));
    }
    var p := prefixes[ordinal % |prefixes|];
    var rescan := Scan(d.again, Some(p));
    if rescan.Err? { return Err(Scanning(rescan.error)); }
    if rescan.value.0 != scan.value.0 { return Err(SourceChanged); }
    CandidatesHash(sha1, d.later, AllEntries(d.again), p);
    var bad := ValidateBucket(sha1, d.later, rescan.value.1);
    if bad.Some? { return Err(bad.value); }
    PlanIsVisit(common, AllEntries(d.again), ordinal, prefixes, p);
    var bucket := ListSorted(rescan.value.1.Keys - common);
    return Ok(Visit(p, ordinal / |prefixes|, bucket, commonNames, WINDOW_SIZE - |common|));
  }

  lemma CommonIsDirectory(sha1: Bytes -> string, src: Source)
    requires CommonAccepts(sha1, src)
    ensures src.Directory?
  {
  }

  lemma NothingPrivate(common: set<string>, es: seq<DirEntry>, ordinal: nat)
    requires 1 <= |common| < WINDOW_SIZE && es == []
    ensures Plan(common, NamesOf(es), ordinal) == Selection(None, 0, None, 0, SortedNames(common), [])
  {
    PrefixListing(es);
  }
}
