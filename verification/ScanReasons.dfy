/** Why a scan stops (scripts/materialize_window.py): what each code says of the
    entry and of the entries before it, and that place and code are unique. */
module ScanReasons {
  import opened Sequences
  import opened BrainPaths
  import opened PathTexts
  import opened Inventory
  import opened BucketLaws
  import Windows

  predicate HexName(s: string) { |s| == 40 && forall c :: c in s ==> c in "0123456789abcdef" }

  /** What is wrong with the entry itself; the name comes first. */
  function Flaw(e: DirEntry): (code: Option<ScanError>)
  {
    if !HexName(e.name) then Some(SourceName)
    else if !e.statOk then Some(SourceStat)
    else if e.kind != RegularFile then Some(SourceNonregular)
    else if |e.content| > 1_048_576 then Some(UnitSizeCap)
    else None
  }

  /** The cap that the entry breaks after the entries before it: first those of
      the whole inventory, then those of the entries that begin alike. */
  ghost function Excess(seen: seq<DirEntry>, e: DirEntry): (code: Option<ScanError>)
    requires |e.name| >= 2
  {
    var p := e.name[..2];
    if |seen| + 1 > 1_000_000 then Some(FileCountCap)
    else if SumOf(Size, seen) + |e.content| > 536_870_912 then Some(TotalSizeCap)
    else if SumOf(BeginsWith(p), seen) + 1 > 100_000 then Some(BucketCap)
    else if SumOf(BytesBeginningWith(p), seen) + |e.content| > 134_217_728 then Some(BucketSizeCap)
    else None
  }

  lemma FlawIff(e: DirEntry)
    ensures Flaw(e).None? <==> WellFormed(e)
    ensures IsUnitName(e.name) <==> HexName(e.name)
  {
    hide IsUnitName;
    UnitNameIsHex(e.name);
  }

  lemma SeenCounts(seen: seq<DirEntry>, p: string)
    requires forall e :: e in seen ==> |e.name| >= 2
    ensures Count(Totals(seen).bucketFiles, p) == SumOf(BeginsWith(p), seen)
    ensures Count(Totals(seen).bucketBytes, p) == SumOf(BytesBeginningWith(p), seen)
  {
    hide SumOf, Prefixes;
    forall e | e in seen ensures Prefix(e) == e.name[..2] { }
    SumsSame(FilesIn(p), BeginsWith(p), seen);
    SumsSame(BytesIn(p), BytesBeginningWith(p), seen);
    WeightsPerPrefix();
    BucketCount(FilesIn, seen, p);
    BucketCount(BytesIn, seen, p);
  }

  /** A scan refuses an entry for its flaw if it has one, and otherwise for the
      first cap that it breaks. */
  lemma AdmitReason(seen: seq<DirEntry>, e: DirEntry, code: ScanError)
    requires Admissible(seen)
    ensures Admit(Totals(seen), e) == Err(code) <==>
      if Flaw(e).Some? then Flaw(e) == Some(code) else Excess(seen, e) == Some(code)
  {
    hide IsUnitName, SumOf, Buckets, HexName, WithinCaps;
    FlawIff(e);
    if Flaw(e).None? {
      LongName(e.name);
      AcceptedNamesAreLong(seen);
      SeenCounts(seen, e.name[..2]);
      assert Prefix(e) == e.name[..2];
    }
  }

  /** The common directory asks the same of an entry, and then its hash. */
  lemma CommonReason(sha1: Bytes -> string, e: DirEntry)
    ensures Windows.CommonFlaw(sha1, e) ==
      if Flaw(e).Some? then Some(Windows.Scanning(Flaw(e).value))
      else if sha1(e.content) != e.name then Some(Windows.ContentHash) else None
  {
    hide HexName, IsUnitName;
    FlawIff(e);
  }

  /** A candidate is confirmed by its kind, its hash and its scanned size. */
  lemma ConfirmedIff(sha1: Bytes -> string, r: Windows.Reading, name: string, size: nat)
    ensures Windows.Confirmed(sha1, r, name, size) <==>
      exists c :: r == Windows.Found(RegularFile, c) && sha1(c) == name && |c| == size
  {
    if Windows.Confirmed(sha1, r, name, size) { assert r == Windows.Found(RegularFile, r.content); }
  }

  lemma LongName(s: string)
    requires HexName(s)
    ensures |s| >= 2
  {
  }

  // ----- one place, one code -----

  lemma RefusedIsInadmissible(seen: seq<DirEntry>, es: seq<DirEntry>, j: nat, code: ScanError, rest: seq<DirEntry>)
    requires j < |es| && RefusedAt(seen + es[..j], es[j], code)
    ensures !Admissible(seen + es + rest) && !Admissible(seen + es)
  {
    hide Admissible, Admit, Totals;
    var sofar := seen + es[..j];
    AdmitStep(sofar, es[j]);
    RejectionIsFinal(sofar, es[j], es[j + 1..] + rest);
    RejectionIsFinal(sofar, es[j], es[j + 1..]);
    assert sofar + [es[j]] + (es[j + 1..] + rest) == seen + es + rest;
    assert sofar + [es[j]] + es[j + 1..] == seen + es;
  }

  lemma RefusedUnique(seen: seq<DirEntry>, es: seq<DirEntry>, j: nat, c: ScanError, k: nat, d: ScanError)
    requires j < |es| && RefusedAt(seen + es[..j], es[j], c)
    requires k < |es| && RefusedAt(seen + es[..k], es[k], d)
    ensures j == k && c == d
  {
    hide Admit, Totals, Admissible;
    if j < k {
      assert es[..k][..j] == es[..j] && es[..k][j] == es[j];
      RefusedIsInadmissible(seen, es[..k], j, c, []);
    } else if k < j {
      assert es[..j][..k] == es[..k] && es[..j][k] == es[k];
      RefusedIsInadmissible(seen, es[..j], k, d, []);
    }
  }

  lemma StopsBefore(sources: seq<Source>, i: nat, c: ScanError, k: nat)
    requires StopsAt(sources, i, c) && i < k <= |sources|
    requires forall l :: 0 <= l < k ==> sources[l].Directory? && sources[l].complete
    ensures !Admissible(AllEntries(sources[..k]))
  {
    hide Admissible, Admit, Totals;
    var es, seen := sources[i].entries, AllEntries(sources[..i]);
    var j :| 0 <= j < |es| && RefusedAt(seen + es[..j], es[j], c);
    AllEntriesAt(sources, i);
    var rest := EntriesFrom(sources, i + 1, k);
    RefusedIsInadmissible(seen, es, j, c, rest);
  }

  lemma {:induction false} EntriesFrom(sources: seq<Source>, i: nat, k: nat) returns (rest: seq<DirEntry>)
    requires i <= k <= |sources| && forall l :: 0 <= l < k ==> sources[l].Directory?
    ensures AllEntries(sources[..k]) == AllEntries(sources[..i]) + rest
    decreases k
  {
    hide AllEntries;
    if i == k {
      rest := [];
    } else {
      var r := EntriesFrom(sources, i, k - 1);
      AllEntriesAt(sources, k - 1);
      rest := r + sources[k - 1].entries;
    }
  }

  /** The scan cannot be said to stop at two places or for two reasons. */
  lemma StopsUnique(sources: seq<Source>, i: nat, c: ScanError, k: nat, d: ScanError)
    requires StopsAt(sources, i, c) && StopsAt(sources, k, d)
    ensures i == k && c == d
  {
    hide Admissible, Admit, Totals, AllEntries;
    if i < k {
      StopsBefore(sources, i, c, k);
    } else if k < i {
      StopsBefore(sources, k, d, i);
    } else if sources[i].Directory? {
      SameDirectory(AllEntries(sources[..i]), sources[i].entries, sources[i].complete, c, d);
    }
  }

  ghost predicate StopsWithin(seen: seq<DirEntry>, es: seq<DirEntry>, complete: bool, code: ScanError)
  {
    || (exists j :: 0 <= j < |es| && RefusedAt(seen + es[..j], es[j], code))
    || (Admissible(seen + es) && !complete && code == SourceScan)
  }

  lemma SameDirectory(seen: seq<DirEntry>, es: seq<DirEntry>, complete: bool, c: ScanError, d: ScanError)
    requires StopsWithin(seen, es, complete, c) && StopsWithin(seen, es, complete, d)
    ensures c == d
  {
    hide Admissible, Admit, Totals, RefusedAt;
    if j :| 0 <= j < |es| && RefusedAt(seen + es[..j], es[j], c) {
      RefusedIsInadmissible(seen, es, j, c, []);
      var k :| 0 <= k < |es| && RefusedAt(seen + es[..k], es[k], d);
      RefusedUnique(seen, es, j, c, k, d);
    } else if k :| 0 <= k < |es| && RefusedAt(seen + es[..k], es[k], d) {
      RefusedIsInadmissible(seen, es, k, d, []);
    }
  }
}
