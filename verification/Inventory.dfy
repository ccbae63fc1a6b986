/** The reader's inventory scan (scripts/materialize_window.py): one pass over
    the corpus directories that rejects at the first bad entry or exceeded cap
    and keeps per-prefix counters.  The scan is proved to accept exactly the
    directories whose entries are all well formed and whose final totals meet
    every cap, so neither acceptance nor the counters depend on entry order. */
module Inventory {
  import opened Sequences
  import opened BrainPaths

  const MAX_UNIT_BYTES := 1024 * 1024
  const MAX_TOTAL_FILES := 1_000_000
  const MAX_BUCKET_FILES := 100_000
  const MAX_BUCKET_BYTES := 128 * 1024 * 1024
  const MAX_TOTAL_BYTES := 512 * 1024 * 1024

  datatype Kind = RegularFile | SymbolicLink | OtherKind

  datatype DirEntry = DirEntry(name: string, statOk: bool, kind: Kind, content: Bytes)

  /** `complete` is false when the operating system fails while listing. */
  datatype Source = NotADirectory | Directory(entries: seq<DirEntry>, complete: bool)

  datatype ScanError =
    | SourceDirectory | SourceScan | SourceName | SourceStat | SourceNonregular | UnitSizeCap
    | FileCountCap | TotalSizeCap | BucketCap | BucketSizeCap

  datatype Tally = Tally(totalFiles: nat, totalBytes: nat, bucketFiles: map<string, nat>, bucketBytes: map<string, nat>)

  // ----- what the counters mean -----

  function PrefixOf(name: string): (p: string)
  {
    if |name| < 2 then name else name[..2]
  }

  function Prefix(e: DirEntry): (p: string) { PrefixOf(e.name) }

  function Size(e: DirEntry): nat { |e.content| }

  function FilesIn(p: string): DirEntry -> nat
  {
    (e: DirEntry) => if Prefix(e) == p then 1 else 0
  }

  function BytesIn(p: string): DirEntry -> nat
  {
    (e: DirEntry) => if Prefix(e) == p then |e.content| else 0
  }

  function Prefixes(es: seq<DirEntry>): (ps: set<string>)
  {
    set e | e in es :: Prefix(e)
  }

  /** The totals of a list of entries, stated without the loop. */
  function Totals(es: seq<DirEntry>): (t: Tally)
  {
    Tally(|es|, SumOf(Size, es), Buckets(FilesIn, es), Buckets(BytesIn, es))
  }

  /** One counter per prefix that occurs. */
  function Buckets(weight: string -> DirEntry -> nat, es: seq<DirEntry>): (m: map<string, nat>)
  {
    map p | p in Prefixes(es) :: SumOf(weight(p), es)
  }

  predicate WellFormed(e: DirEntry)
  {
    IsUnitName(e.name) && e.statOk && e.kind == RegularFile && |e.content| <= MAX_UNIT_BYTES
  }

  ghost predicate WithinCaps(es: seq<DirEntry>)
  {
    && |es| <= MAX_TOTAL_FILES
    && SumOf(Size, es) <= MAX_TOTAL_BYTES
    && BucketsWithin(FilesIn, es, MAX_BUCKET_FILES)
    && BucketsWithin(BytesIn, es, MAX_BUCKET_BYTES)
  }

  ghost predicate Admissible(es: seq<DirEntry>)
  {
    (forall i :: 0 <= i < |es| ==> WellFormed(es[i])) && WithinCaps(es)
  }

  // ----- one iteration -----

  function Count(m: map<string, nat>, p: string): (n: nat)
  {
    if p in m then m[p] else 0
  }

  /** The counters after one more entry. */
  function Bump(t: Tally, e: DirEntry): (t': Tally)
  {
    var p := Prefix(e);
    Tally(t.totalFiles + 1, t.totalBytes + |e.content|,
          t.bucketFiles[p := Count(t.bucketFiles, p) + 1],
          t.bucketBytes[p := Count(t.bucketBytes, p) + |e.content|])
  }

  function Admit(t: Tally, e: DirEntry): (r: Result<Tally, ScanError>)
  {
    if !IsUnitName(e.name) then Err(SourceName)
    else if !e.statOk then Err(SourceStat)
    else if e.kind != RegularFile then Err(SourceNonregular)
    else if |e.content| > MAX_UNIT_BYTES then Err(UnitSizeCap)
    else
      var t' := Bump(t, e);
      if t'.totalFiles > MAX_TOTAL_FILES then Err(FileCountCap)
      else if t'.totalBytes > MAX_TOTAL_BYTES then Err(TotalSizeCap)
      else if Count(t'.bucketFiles, Prefix(e)) > MAX_BUCKET_FILES then Err(BucketCap)
      else if Count(t'.bucketBytes, Prefix(e)) > MAX_BUCKET_BYTES then Err(BucketSizeCap)
      else Ok(t')
  }

  /** Entries outside a bucket weigh nothing in it. */
  ghost predicate PerPrefix(weight: string -> DirEntry -> nat)
  {
    forall p, e :: Prefix(e) != p ==> weight(p)(e) == 0
  }

  lemma {:induction false} EmptyBucket(weight: string -> DirEntry -> nat, p: string, es: seq<DirEntry>)
    requires PerPrefix(weight) && p !in Prefixes(es)
    ensures SumOf(weight(p), es) == 0
  {
    if es != [] {
      assert es[0] in es && forall e :: e in es[1..] ==> e in es;
      EmptyBucket(weight, p, es[1..]);
    }
  }

  lemma BucketCount(weight: string -> DirEntry -> nat, es: seq<DirEntry>, p: string)
    requires PerPrefix(weight)
    ensures Count(Buckets(weight, es), p) == SumOf(weight(p), es)
  {
    if p !in Prefixes(es) { EmptyBucket(weight, p, es); }
  }

  lemma NoWeight(weight: string -> DirEntry -> nat, p: string, e: DirEntry)
    requires PerPrefix(weight)
    ensures Prefix(e) != p ==> weight(p)(e) == 0
  {
  }

  lemma PrefixesAppend(es: seq<DirEntry>, e: DirEntry)
    ensures Prefixes(es + [e]) == Prefixes(es) + {Prefix(e)}
  {
    assert forall d :: d in es + [e] <==> d in es || d == e;
  }

  lemma SameCounts(a: map<string, nat>, b: map<string, nat>)
    requires a.Keys == b.Keys && forall p :: Count(a, p) == Count(b, p)
    ensures a == b
  {
    forall p | p in a ensures a[p] == b[p] { assert Count(a, p) == Count(b, p); }
  }

  lemma BucketsAppend(weight: string -> DirEntry -> nat, es: seq<DirEntry>, e: DirEntry)
    requires PerPrefix(weight)
    ensures var m, p := Buckets(weight, es), Prefix(e);
      Buckets(weight, es + [e]) == m[p := Count(m, p) + weight(p)(e)]
  {
    hide SumOf, Prefix, Prefixes, PerPrefix;
    var m, p := Buckets(weight, es), Prefix(e);
    var m' := m[p := Count(m, p) + weight(p)(e)];
    PrefixesAppend(es, e);
    forall q ensures Count(Buckets(weight, es + [e]), q) == Count(m', q) {
      BucketCount(weight, es, q);
      BucketCount(weight, es + [e], q);
      SumLast(weight(q), es, e);
      assert q != p ==> weight(q)(e) == 0 by { NoWeight(weight, q, e); }
    }
    SameCounts(Buckets(weight, es + [e]), m');
  }

  lemma WeightsPerPrefix()
    ensures PerPrefix(FilesIn) && PerPrefix(BytesIn)
  {
  }

  lemma TotalsAppend(es: seq<DirEntry>, e: DirEntry)
    ensures Totals(es + [e]) == Bump(Totals(es), e)
  {
    hide SumOf, Prefixes, Buckets, Count, Prefix;
    WeightsPerPrefix();
    SumLast(Size, es, e);
    BucketsAppend(FilesIn, es, e);
    BucketsAppend(BytesIn, es, e);
    assert FilesIn(Prefix(e))(e) == 1 && BytesIn(Prefix(e))(e) == |e.content|;
  }

  ghost predicate BucketsWithin(weight: string -> DirEntry -> nat, es: seq<DirEntry>, cap: nat)
  {
    forall p :: SumOf(weight(p), es) <= cap
  }

  /** One more entry can put only its own bucket over the cap. */
  lemma BucketsWithinAppend(weight: string -> DirEntry -> nat, es: seq<DirEntry>, e: DirEntry, cap: nat)
    requires PerPrefix(weight) && BucketsWithin(weight, es, cap)
    ensures BucketsWithin(weight, es + [e], cap) <==> Count(Buckets(weight, es + [e]), Prefix(e)) <= cap
  {
    BucketCount(weight, es + [e], Prefix(e));
    forall q | q != Prefix(e) ensures SumOf(weight(q), es + [e]) <= cap {
      SumLast(weight(q), es, e);
    }
  }

  /** The early checks refuse an entry exactly when it is malformed or when the
      list that ends with it is over a cap. */
  lemma AdmitStep(es: seq<DirEntry>, e: DirEntry)
    requires Admissible(es)
    ensures Admit(Totals(es), e).Ok? <==> Admissible(es + [e])
    ensures Admit(Totals(es), e).Ok? ==> Admit(Totals(es), e).value == Totals(es + [e])
  {
    hide SumOf, Prefixes, Buckets, Prefix, BucketsWithin, PerPrefix;
    TotalsAppend(es, e);
    assert (es + [e])[|es|] == e && forall i :: 0 <= i < |es| ==> (es + [e])[i] == es[i];
    WeightsPerPrefix();
    BucketsWithinAppend(FilesIn, es, e, MAX_BUCKET_FILES);
    BucketsWithinAppend(BytesIn, es, e, MAX_BUCKET_BYTES);
  }

  /** Sizes are not negative, so a list is within the caps only if all of its
      prefixes are: rejecting early loses nothing. */
  lemma WithinCapsPrefix(es: seq<DirEntry>, rest: seq<DirEntry>)
    requires WithinCaps(es + rest)
    ensures WithinCaps(es)
  {
    SumSplit(Size, es, rest);
    forall p ensures SumOf(FilesIn(p), es) <= MAX_BUCKET_FILES {
      SumSplit(FilesIn(p), es, rest);
    }
    forall p ensures SumOf(BytesIn(p), es) <= MAX_BUCKET_BYTES {
      SumSplit(BytesIn(p), es, rest);
    }
  }

  // ----- the scan -----

  function AllEntries(sources: seq<Source>): (es: seq<DirEntry>)
  {
    if sources == [] then []
    else (if sources[0].Directory? then sources[0].entries else []) + AllEntries(sources[1..])
  }

  ghost predicate Accepts(sources: seq<Source>)
  {
    && (forall i :: 0 <= i < |sources| ==> sources[i].Directory? && sources[i].complete)
    && Admissible(AllEntries(sources))
  }

  /** The entries with one name, in the order met. */
  function Named(es: seq<DirEntry>, name: string): (r: seq<DirEntry>)
  {
    if es == [] then []
    else Named(es[..|es| - 1], name) + if es[|es| - 1].name == name then [es[|es| - 1]] else []
  }

  function NamesUnder(es: seq<DirEntry>, prefix: Option<string>): (ns: set<string>)
  {
    set e | e in es && Some(Prefix(e)) == prefix :: e.name
  }

  function Candidates(es: seq<DirEntry>, prefix: Option<string>): (m: map<string, seq<DirEntry>>)
  {
    map n | n in NamesUnder(es, prefix) :: Named(es, n)
  }

  function Collect(
    found: map<string, seq<DirEntry>>, e: DirEntry, prefix: Option<string>): (m: map<string, seq<DirEntry>>)
  {
    if Some(Prefix(e)) == prefix then found[e.name := (if e.name in found then found[e.name] else []) + [e]]
    else found
  }

  lemma CandidatesAppend(es: seq<DirEntry>, e: DirEntry, prefix: Option<string>)
    ensures Candidates(es + [e], prefix) == Collect(Candidates(es, prefix), e, prefix)
  {
    hide NamesUnder, Prefix;
    NamesUnderAppend(es, e, prefix);
    var m, m' := Candidates(es + [e], prefix), Collect(Candidates(es, prefix), e, prefix);
    assert m.Keys == m'.Keys;
    forall n | n in m ensures m[n] == m'[n] {
      assert (es + [e])[..|es|] == es;
      if n !in NamesUnder(es, prefix) { NoneNamed(es, e); }
    }
  }

  lemma NamesUnderAppend(es: seq<DirEntry>, e: DirEntry, prefix: Option<string>)
    ensures NamesUnder(es + [e], prefix) ==
      NamesUnder(es, prefix) + if Some(Prefix(e)) == prefix then {e.name} else {}
    ensures Some(Prefix(e)) != prefix ==> e.name !in NamesUnder(es, prefix)
  {
    assert forall d :: d in es + [e] <==> d in es || d == e;
  }

  /** Entries with one name share its prefix. */
  lemma {:induction false} NoneNamed(es: seq<DirEntry>, e: DirEntry)
    requires e.name !in NamesUnder(es, Some(Prefix(e)))
    ensures Named(es, e.name) == []
  {
    if es != [] {
      var front, last := es[..|es| - 1], es[|es| - 1];
      assert last in es && forall d :: d in front ==> d in es;
      NoneNamed(front, e);
    }
  }

  lemma {:induction false} AllEntriesSplit(a: seq<Source>, b: seq<Source>)
    ensures AllEntries(a + b) == AllEntries(a) + AllEntries(b)
  {
    if a == [] {
      assert a + b == b;
    } else {
      assert (a + b)[1..] == a[1..] + b;
      AllEntriesSplit(a[1..], b);
    }
  }

  lemma OneSource(src: Source)
    requires src.Directory?
    ensures AllEntries([src]) == src.entries
  {
    assert [src][1..] == [];
  }

  lemma AllEntriesAt(sources: seq<Source>, i: nat)
    requires i < |sources| && sources[i].Directory?
    ensures AllEntries(sources) == AllEntries(sources[..i]) + sources[i].entries + AllEntries(sources[i + 1..])
    ensures AllEntries(sources[..i + 1]) == AllEntries(sources[..i]) + sources[i].entries
  {
    hide AllEntries;
    var one := [sources[i]];
    OneSource(sources[i]);
    assert sources == sources[..i + 1] + sources[i + 1..];
    AllEntriesSplit(sources[..i + 1], sources[i + 1..]);
    assert sources[..i + 1] == sources[..i] + one;
    AllEntriesSplit(sources[..i], one);
  }

  /** A rejected entry spoils every list that continues from it. */
  lemma RejectionIsFinal(before: seq<DirEntry>, e: DirEntry, after: seq<DirEntry>)
    requires Admissible(before) && Admit(Totals(before), e).Err?
    ensures !Admissible(before + [e] + after)
  {
    hide WithinCaps, Totals, Admit;
    AdmitStep(before, e);
    var all := before + [e] + after;
    assert forall i :: 0 <= i <= |before| ==> (before + [e])[i] == all[i];
    if Admissible(all) {
      WithinCapsPrefix(before + [e], after);
    }
  }

  lemma NothingSeen(selected: Option<string>)
    ensures Admissible([]) && Totals([]) == Tally(0, 0, map[], map[]) && Candidates([], selected) == map[]
  {
  }

  /** One directory: continue the scan of `seen` through its entries. */
  /** The entry is the first one refused, and the code says why. */
  ghost predicate RefusedAt(seen: seq<DirEntry>, e: DirEntry, code: ScanError)
  {
    Admissible(seen) && Admit(Totals(seen), e) == Err(code)
  }

  /** Where the scan of a list of directories stops, and why. */
  ghost predicate StopsAt(sources: seq<Source>, i: nat, code: ScanError)
  {
    && i < |sources| && (forall k :: 0 <= k < i ==> sources[k].Directory? && sources[k].complete)
    && Admissible(AllEntries(sources[..i]))
    && match sources[i]
       case NotADirectory => code == SourceDirectory
       case Directory(es, complete) =>
         || (exists j :: 0 <= j < |es| && RefusedAt(AllEntries(sources[..i]) + es[..j], es[j], code))
         || (Admissible(AllEntries(sources[..i]) + es) && !complete && code == SourceScan)
  }

  method ScanDirectory(
    es: seq<DirEntry>, selected: Option<string>, ghost seen: seq<DirEntry>, t: Tally, f: map<string, seq<DirEntry>>)
    returns (r: Result<(Tally, map<string, seq<DirEntry>>), ScanError>)
    requires Admissible(seen) && t == Totals(seen) && f == Candidates(seen, selected)
    ensures r.Ok? ==> Admissible(seen + es) && r.value == (Totals(seen + es), Candidates(seen + es, selected))
    ensures r.Err? ==> forall rest :: !Admissible(seen + es + rest)
    ensures r.Err? ==> exists j :: 0 <= j < |es| && RefusedAt(seen + es[..j], es[j], r.error)
  {
    hide Admit, Collect, Admissible, Totals, Candidates;
    var tally, found := t, f;
    var j := 0;
    assert seen + es[..0] == seen;
    while j < |es|
      invariant 0 <= j <= |es|
      invariant Admissible(seen + es[..j])
      invariant tally == Totals(seen + es[..j]) && found == Candidates(seen + es[..j], selected)
    {
      var e := es[j];
      ghost var sofar := seen + es[..j];
      AdmitStep(sofar, e);
      CandidatesAppend(sofar, e, selected);
      assert seen + es[..j + 1] == sofar + [e];
      var step := Admit(tally, e);
      if step.Err? {
        forall rest ensures !Admissible(seen + es + rest) {
          RejectionIsFinal(sofar, e, es[j + 1..] + rest);
          assert seen + es + rest == sofar + [e] + (es[j + 1..] + rest);
        }
        assert RefusedAt(seen + es[..j], es[j], step.error);
        return Err(step.error);
      }
      tally := step.value;
      found := Collect(found, e, selected);
      j := j + 1;
    }
    assert seen + es[..j] == seen + es;
    r := Ok((tally, found));
  }

  method Scan(sources: seq<Source>, selected: Option<string>)
    returns (r: Result<(Tally, map<string, seq<DirEntry>>), ScanError>)
    ensures r.Ok? <==> Accepts(sources)
    ensures r.Ok? ==> r.value == (Totals(AllEntries(sources)), Candidates(AllEntries(sources), selected))
    ensures r.Err? ==> exists i :: StopsAt(sources, i, r.error)
  {
    hide Admissible, Totals, Candidates, Admit;
    var tally, found := Tally(0, 0, map[], map[]), map[];
    var i := 0;
    NothingSeen(selected);
    while i < |sources|
      invariant 0 <= i <= |sources|
      invariant forall k :: 0 <= k < i ==> sources[k].Directory? && sources[k].complete
      invariant Admissible(AllEntries(sources[..i]))
      invariant tally == Totals(AllEntries(sources[..i])) && found == Candidates(AllEntries(sources[..i]), selected)
    {
      if sources[i].NotADirectory? {
        assert StopsAt(sources, i, SourceDirectory);
        return Err(SourceDirectory);
      }
      AllEntriesAt(sources, i);
      var step := ScanDirectory(sources[i].entries, selected, AllEntries(sources[..i]), tally, found);
      if step.Err? {
        assert StopsAt(sources, i, step.error);
        return Err(step.error);
      }
      if !sources[i].complete {
        assert StopsAt(sources, i, SourceScan);
        return Err(SourceScan);
      }
      tally, found := step.value.0, step.value.1;
      i := i + 1;
    }
    assert sources[..i] == sources;
    r := Ok((tally, found));
  }

  // ----- order does not matter -----

  ghost predicate SameEntries(a: seq<DirEntry>, b: seq<DirEntry>)
  {
    multiset(a) == multiset(b)
  }

  lemma BucketsPermutation(weight: string -> DirEntry -> nat, a: seq<DirEntry>, b: seq<DirEntry>)
    requires SameEntries(a, b)
    ensures Buckets(weight, a) == Buckets(weight, b)
    ensures forall cap: nat :: BucketsWithin(weight, a, cap) <==> BucketsWithin(weight, b, cap)
  {
    assert forall e :: (e in a <==> e in multiset(a)) && (e in b <==> e in multiset(b));
    assert Prefixes(a) == Prefixes(b);
    forall p ensures SumOf(weight(p), a) == SumOf(weight(p), b) {
      SumPermutation(weight(p), a, b);
    }
  }

  lemma TotalsPermutation(a: seq<DirEntry>, b: seq<DirEntry>)
    requires SameEntries(a, b)
    ensures Totals(a) == Totals(b)
    ensures Admissible(a) <==> Admissible(b)
  {
    assert |a| == |multiset(a)| == |multiset(b)| == |b|;
    assert forall e :: (e in a <==> e in multiset(a)) && (e in b <==> e in multiset(b));
    SumPermutation(Size, a, b);
    BucketsPermutation(FilesIn, a, b);
    BucketsPermutation(BytesIn, a, b);
    assert (forall i :: 0 <= i < |a| ==> WellFormed(a[i])) <==> (forall e :: e in a ==> WellFormed(e));
    assert (forall i :: 0 <= i < |b| ==> WellFormed(b[i])) <==> (forall e :: e in b ==> WellFormed(e));
  }

  /** Any two listings of readable directories that hold the same entries, in
      whatever order and however spread over the directories, are accepted
      together and give the same counters. */
  lemma ScanOrderIrrelevant(a: seq<Source>, b: seq<Source>)
    requires forall s :: s in a || s in b ==> s.Directory? && s.complete
    requires SameEntries(AllEntries(a), AllEntries(b))
    ensures Accepts(a) <==> Accepts(b)
    ensures Totals(AllEntries(a)) == Totals(AllEntries(b))
  {
    TotalsPermutation(AllEntries(a), AllEntries(b));
  }

  // ----- the buckets partition the inventory -----

  function BucketFiles(es: seq<DirEntry>): string -> nat
  {
    (p: string) => SumOf(FilesIn(p), es)
  }

  function BucketBytes(es: seq<DirEntry>): string -> nat
  {
    (p: string) => SumOf(BytesIn(p), es)
  }

  /** Over any listing of the prefixes, the bucket counters add up to the totals. */
  lemma {:induction false} BucketsSumToTotals(ps: seq<string>, es: seq<DirEntry>)
    requires Distinct(ps) && Prefixes(es) <= set p | p in ps
    ensures SumOf(BucketFiles(es), ps) == |es|
    ensures SumOf(BucketBytes(es), ps) == SumOf(Size, es)
  {
    if es == [] {
      NoEntries(ps, es);
    } else {
      assert es[0] in es && forall e :: e in es[1..] ==> e in es;
      BucketsSumToTotals(ps, es[1..]);
      assert Prefix(es[0]) in Prefixes(es);
      OneEntry(ps, es);
    }
  }

  lemma {:induction false} NoEntries(ps: seq<string>, es: seq<DirEntry>)
    requires es == []
    ensures SumOf(BucketFiles(es), ps) == 0 && SumOf(BucketBytes(es), ps) == 0
  {
    if ps != [] { NoEntries(ps[1..], es); }
  }

  lemma {:induction false} OneEntry(ps: seq<string>, es: seq<DirEntry>)
    requires Distinct(ps) && es != []
    ensures var hit := if Prefix(es[0]) in ps then 1 else 0;
      && SumOf(BucketFiles(es), ps) == SumOf(BucketFiles(es[1..]), ps) + hit
      && SumOf(BucketBytes(es), ps) == SumOf(BucketBytes(es[1..]), ps) + hit * |es[0].content|
  {
    if ps != [] {
      OneEntry(ps[1..], es);
      if Prefix(es[0]) == ps[0] {
        assert Prefix(es[0]) !in ps[1..];
      } else {
        assert Prefix(es[0]) in ps <==> Prefix(es[0]) in ps[1..];
      }
    }
  }
}
