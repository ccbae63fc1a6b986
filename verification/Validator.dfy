/** The promotion gate (scripts/validate_rt4.py): claims against documents,
    every document's ranges and equations, one identity, the overlap bound,
    overflow-checked totals, and no cell left unreached. */
module Validator {
  import opened Sequences
  import opened Telemetry
  import opened Totalling
  import opened Evidence
  import opened EvidenceLaws
  import opened Reports
  import Overlap

  /** A directory entry: the index in the file name, and the JSON value in the
      file unless it cannot be read as one. */
  datatype File = File(index: nat, content: Option<Json>)

  datatype Decision = Blocked(code: Code) | Ready(jobs: nat, parallelism: nat, maxOverlap: nat, totals: Counters)

  // ----- totals -----

  function Added(m: Count, n: Count, keys: seq<string>): (r: Count)
  {
    map k | k in keys :: At(m)(k) + At(n)(k)
  }

  method AddMap(m: Count, n: Count, keys: seq<string>) returns (r: Result<Count, Code>)
    requires m.Keys == (set k | k in keys) && Distinct(keys)
    ensures r == if FitsMap(Added(m, n, keys)) then Ok(Added(m, n, keys)) else Err(CounterOverflow)
  {
    hide FitsMap;
    var sums := m;
    ghost var goal := Added(m, n, keys);
    for i := 0 to |keys|
      invariant sums.Keys == m.Keys
      invariant forall l :: 0 <= l < i ==> sums[keys[l]] == goal[keys[l]] <= LIMIT
      invariant forall l :: i <= l < |keys| ==> sums[keys[l]] == m[keys[l]]
    {
      var sum := CheckedAdd(sums[keys[i]], At(n)(keys[i]));
      if sum.Err? {
        DoesNotFit(goal, keys[i]);
        return Err(CounterOverflow);
      }
      sums := sums[keys[i] := sum.value];
    }
    SameOver(sums, goal, keys);
    r := Ok(sums);
  }

  lemma DoesNotFit(m: Count, k: string)
    requires k in m && m[k] > LIMIT
    ensures !FitsMap(m)
  {
  }

  lemma SameOver(m: Count, n: Count, keys: seq<string>)
    requires m.Keys == n.Keys == (set k | k in keys)
    requires forall i :: 0 <= i < |keys| ==> m[keys[i]] == n[keys[i]] <= LIMIT
    ensures m == n && FitsMap(n)
  {
    forall k | k in m ensures m[k] == n[k] <= LIMIT { assert k in keys; }
  }

  /** Counters added up, field by field. */
  function Plus(c: Counters, d: Counters): (r: Counters)
  {
    Counters(c.execs + d.execs, c.doorRejects + d.doorRejects, c.decoded + d.decoded,
             Added(c.selected, d.selected, CELLS), Added(c.applied, d.applied, CELLS),
             Added(c.notApplied, d.notApplied, CELLS),
             Added(c.verdicts, d.verdicts, VERDICTS))
  }

  method AddCounters(c: Counters, d: Counters) returns (r: Result<Counters, Code>)
    requires Vocabulary(c)
    ensures r == if Fits(Plus(c, d)) then Ok(Plus(c, d)) else Err(CounterOverflow)
  {
    hide CELLS, VERDICTS, Added, FitsMap;
    VocabularyDistinct();
    var execs, doorRejects, decoded :=
      CheckedAdd(c.execs, d.execs), CheckedAdd(c.doorRejects, d.doorRejects), CheckedAdd(c.decoded, d.decoded);
    if execs.Err? || doorRejects.Err? || decoded.Err? { return Err(CounterOverflow); }
    var selected := AddMap(c.selected, d.selected, CELLS);
    if selected.Err? { return Err(CounterOverflow); }
    var applied := AddMap(c.applied, d.applied, CELLS);
    if applied.Err? { return Err(CounterOverflow); }
    var notApplied := AddMap(c.notApplied, d.notApplied, CELLS);
    if notApplied.Err? { return Err(CounterOverflow); }
    var verdicts := AddMap(c.verdicts, d.verdicts, VERDICTS);
    if verdicts.Err? { return Err(CounterOverflow); }
    r := Ok(Counters(execs.value, doorRejects.value, decoded.value,
                     selected.value, applied.value, notApplied.value, verdicts.value));
  }

  lemma SumCountsSnoc(f: Counters -> Count, keys: seq<string>, cs: seq<Counters>, c: Counters)
    ensures SumCounts(f, keys, cs + [c]) == Added(SumCounts(f, keys, cs), f(c), keys)
  {
    hide SumOf;
    forall k | k in keys ensures SumCounts(f, keys, cs + [c])[k] == Added(SumCounts(f, keys, cs), f(c), keys)[k] {
      SumLast(CountOf(f, k), cs, c);
    }
  }

  lemma TotalSnoc(cs: seq<Counters>, c: Counters)
    ensures Total(cs + [c]) == Plus(Total(cs), c)
  {
    hide SumOf, SumCounts, Added, CELLS, VERDICTS;
    SumLast(ExecsOf, cs, c);
    SumLast(DoorRejectsOf, cs, c);
    SumLast(DecodedOf, cs, c);
    SumCountsSnoc(SelectedOf, CELLS, cs, c);
    SumCountsSnoc(AppliedOf, CELLS, cs, c);
    SumCountsSnoc(NotAppliedOf, CELLS, cs, c);
    SumCountsSnoc(VerdictsOf, VERDICTS, cs, c);
  }

  lemma PlusFits(c: Counters, d: Counters)
    requires Vocabulary(c) && Fits(Plus(c, d))
    ensures Fits(c)
  {
    hide CELLS, VERDICTS;
    AddedFits(c.selected, d.selected, CELLS);
    AddedFits(c.applied, d.applied, CELLS);
    AddedFits(c.notApplied, d.notApplied, CELLS);
    AddedFits(c.verdicts, d.verdicts, VERDICTS);
  }

  lemma AddedFits(m: Count, n: Count, keys: seq<string>)
    requires m.Keys == (set k | k in keys) && FitsMap(Added(m, n, keys))
    ensures FitsMap(m)
  {
    forall k | k in m ensures m[k] <= LIMIT { assert k in Added(m, n, keys); }
  }

  /** Sums that fit at the end fitted all along. */
  lemma {:induction false} PrefixFits(cs: seq<Counters>, n: nat)
    requires n <= |cs| && Fits(Total(cs))
    ensures Fits(Total(cs[..n]))
    decreases |cs| - n
  {
    hide Total, Fits, Plus;
    if n == |cs| {
      assert cs[..n] == cs;
    } else {
      PrefixFits(cs, n + 1);
      assert cs[..n + 1] == cs[..n] + [cs[n]];
      TotalSnoc(cs[..n], cs[n]);
      TotalKeys(cs[..n]);
      PlusFits(Total(cs[..n]), cs[n]);
    }
  }

  /** The checked loop fails exactly when a final sum does not fit. */
  method Aggregate(cs: seq<Counters>) returns (r: Result<Counters, Code>)
    ensures r == if Fits(Total(cs)) then Ok(Total(cs)) else Err(CounterOverflow)
  {
    hide Total, Fits, Plus, Fresh;
    var totals := Fresh();
    NoTotals();
    assert cs[..0] == [];
    for i := 0 to |cs|
      invariant totals == Total(cs[..i])
      invariant Fits(totals)
    {
      assert cs[..i + 1] == cs[..i] + [cs[i]];
      TotalSnoc(cs[..i], cs[i]);
      TotalKeys(cs[..i]);
      var next := AddCounters(totals, cs[i]);
      if next.Err? {
        if Fits(Total(cs)) { PrefixFits(cs, i + 1); }
        return Err(CounterOverflow);
      }
      totals := next.value;
    }
    assert cs[..|cs|] == cs;
    r := Ok(totals);
  }

  lemma NoTotals()
    ensures Fresh() == Total([]) && Fits(Fresh())
  {
    hide CELLS, VERDICTS, Zeros, SumCounts, FitsMap;
    NoCounts(SelectedOf, CELLS);
    NoCounts(AppliedOf, CELLS);
    NoCounts(NotAppliedOf, CELLS);
    NoCounts(VerdictsOf, VERDICTS);
  }

  lemma NoCounts(f: Counters -> Count, keys: seq<string>)
    ensures SumCounts(f, keys, []) == Zeros(keys) && FitsMap(Zeros(keys))
  {
    assert forall k :: k in keys ==> SumOf(CountOf(f, k), []) == 0;
  }

  // ----- the decision -----

  predicate ByIndex(f: File, g: File) { f.index <= g.index }

  /** Index order, as the documents are read. */
  function Listed(files: seq<File>): (r: seq<File>) { Sort(ByIndex, files) }

  function CountersIn(rs: seq<Report>): (cs: seq<Counters>)
    ensures |cs| == |rs| && forall i :: 0 <= i < |rs| ==> cs[i] == rs[i].counters
  {
    seq(|rs|, i requires 0 <= i < |rs| => rs[i].counters)
  }

  function Intervals(rs: seq<Report>): (r: seq<Overlap.Interval>)
  {
    seq(|rs|, i requires 0 <= i < |rs| => Overlap.Interval(rs[i].process.started, rs[i].process.updated))
  }

  ghost predicate Agree(rs: seq<Report>)
  {
    forall i :: 0 <= i < |rs| ==>
      rs[i].process.parallelism == rs[0].process.parallelism && rs[i].origin == rs[0].origin
        && rs[i].build == rs[0].build
  }

  predicate Reached(t: Counters)
  {
    forall k :: k in CELLS ==> At(t.selected)(k) > 0 && At(t.applied)(k) > 0
  }

  /** The documents hold exactly these reports, each of them in order. */
  ghost predicate Reads(docs: seq<File>, rs: seq<Report>)
  {
    && |rs| == |docs|
    && forall i :: 0 <= i < |docs| ==> docs[i].content == Some(ReportJson(rs[i])) && ReportOk(rs[i], docs[i].index)
  }

  /** What the gate stands for. */
  ghost predicate Accepted(files: seq<File>, claims: set<nat>, rs: seq<Report>)
  {
    && (forall i, j :: 0 <= i < j < |files| ==> files[i].index != files[j].index)
    && claims == (set f | f in files :: f.index) && files != []
    && Reads(Listed(files), rs) && rs != [] && Agree(rs)
    && (forall t :: Overlap.Active(Intervals(rs), t) <= rs[0].process.parallelism)
    && Fits(Total(CountersIn(rs))) && Reached(Total(CountersIn(rs)))
  }

  /** A document holds one report at most. */
  lemma ReportJsonInjective(r: Report, q: Report, index: nat)
    requires ReportJson(r) == ReportJson(q) && ReportOk(r, index) && ReportOk(q, index)
    ensures r == q
  {
    hide ReportJson, ReportOk, ParseReport;
    ReportAcceptedIff(ReportJson(r), index, r);
    ReportAcceptedIff(ReportJson(q), index, q);
  }

  lemma ReadsUnique(docs: seq<File>, rs: seq<Report>, qs: seq<Report>)
    requires Reads(docs, rs) && Reads(docs, qs)
    ensures rs == qs
  {
    hide ReportJson, ReportOk;
    forall i | 0 <= i < |docs| ensures rs[i] == qs[i] { ReportJsonInjective(rs[i], qs[i], docs[i].index); }
  }

  /** What reading one document comes to. */
  function ReadOne(f: File): (r: Result<Report, Code>)
  {
    if f.content.None? then Err(UnreadableDocument) else ParseReport(f.content.value, f.index)
  }

  /** The first document that cannot be read, and why. */
  ghost predicate FirstBad(docs: seq<File>, i: nat, code: Code)
  {
    i < |docs| && ReadOne(docs[i]) == Err(code) && forall k :: 0 <= k < i ==> ReadOne(docs[k]).Ok?
  }

  /** Parse in order and stop at the first document that fails. */
  method ReadAll(docs: seq<File>) returns (r: Result<seq<Report>, Code>)
    ensures r.Ok? ==> Reads(docs, r.value)
    ensures r.Err? ==> (forall rs :: !Reads(docs, rs)) && exists i :: FirstBad(docs, i, r.error)
  {
    hide ParseReport, ReportOk, ReportJson;
    var reports: seq<Report> := [];
    for i := 0 to |docs|
      invariant |reports| == i
      invariant forall k :: 0 <= k < i ==>
        docs[k].content == Some(ReportJson(reports[k])) && ReportOk(reports[k], docs[k].index)
      invariant forall k :: 0 <= k < i ==> ReadOne(docs[k]).Ok?
    {
      if docs[i].content.None? {
        assert FirstBad(docs, i, UnreadableDocument);
        return Err(UnreadableDocument);
      }
      var p := ParseReport(docs[i].content.value, docs[i].index);
      if p.Err? {
        forall q: Report ensures !(docs[i].content == Some(ReportJson(q)) && ReportOk(q, docs[i].index)) {
          ReportAcceptedIff(docs[i].content.value, docs[i].index, q);
        }
        assert FirstBad(docs, i, p.error);
        return Err(p.error);
      }
      ReportAcceptedIff(docs[i].content.value, docs[i].index, p.value);
      reports := reports + [p.value];
    }
    r := Ok(reports);
  }

  function Values<T(==)>(xs: seq<T>): (s: set<T>) { set x | x in xs }

  predicate AllEqual<T(==)>(xs: seq<T>) { forall i :: 0 <= i < |xs| ==> xs[i] == xs[0] }

  /** Whether one value is shared: the set of values is a singleton. */
  lemma OneValue<T>(xs: seq<T>)
    requires xs != []
    ensures |Values(xs)| == 1 <==> AllEqual(xs)
  {
    var s := Values(xs);
    assert xs[0] in s;
    if AllEqual(xs) {
      assert s == {xs[0]};
    } else {
      var i :| 0 <= i < |xs| && xs[i] != xs[0];
      assert {xs[0], xs[i]} <= s;
      assert |{xs[0], xs[i]}| == 2;
      SubsetSize({xs[0], xs[i]}, s);
    }
  }

  function Parallelisms(rs: seq<Report>): seq<nat> { seq(|rs|, i requires 0 <= i < |rs| => rs[i].process.parallelism) }

  function Origins(rs: seq<Report>): seq<Origin> { seq(|rs|, i requires 0 <= i < |rs| => rs[i].origin) }

  function Builds(rs: seq<Report>): seq<Build> { seq(|rs|, i requires 0 <= i < |rs| => rs[i].build) }

  lemma AgreeIff(rs: seq<Report>)
    requires rs != []
    ensures Agree(rs) <==> AllEqual(Parallelisms(rs)) && AllEqual(Origins(rs)) && AllEqual(Builds(rs))
  {
    var ps, os, bs := Parallelisms(rs), Origins(rs), Builds(rs);
    if AllEqual(ps) && AllEqual(os) && AllEqual(bs) {
      forall i | 0 <= i < |rs|
        ensures rs[i].process.parallelism == rs[0].process.parallelism && rs[i].origin == rs[0].origin
          && rs[i].build == rs[0].build
      {
        assert ps[i] == ps[0] && os[i] == os[0] && bs[i] == bs[0];
      }
    }
  }

  method Disagreement(rs: seq<Report>) returns (e: Option<Code>)
    requires rs != []
    ensures e.None? <==> Agree(rs)
    ensures e == if !AllEqual(Parallelisms(rs)) then Some(ParallelismMismatch)
                 else if !AllEqual(Origins(rs)) then Some(IdentityMismatch)
                 else if !AllEqual(Builds(rs)) then Some(BuildMismatch) else None
  {
    hide Agree, AllEqual;
    var ps, os, bs := Parallelisms(rs), Origins(rs), Builds(rs);
    OneValue(ps);
    OneValue(os);
    OneValue(bs);
    AgreeIff(rs);
    if |Values(ps)| != 1 { return Some(ParallelismMismatch); }
    if |Values(os)| != 1 { return Some(IdentityMismatch); }
    if |Values(bs)| != 1 { return Some(BuildMismatch); }
    e := None;
  }

  /** The first cell that was never selected, or selected and never applied. */
  ghost predicate FirstUnreached(t: Counters, i: nat, code: Code)
  {
    && i < |CELLS| && (forall k :: 0 <= k < i ==> At(t.selected)(CELLS[k]) > 0 && At(t.applied)(CELLS[k]) > 0)
    && (At(t.selected)(CELLS[i]) == 0 || At(t.applied)(CELLS[i]) == 0)
    && code == if At(t.selected)(CELLS[i]) == 0 then CellUnreached else VacuousCell
  }

  method Unreached(t: Counters) returns (e: Option<Code>)
    ensures e.None? <==> Reached(t)
    ensures e.Some? ==> exists i :: FirstUnreached(t, i, e.value)
  {
    hide CELLS;
    for i := 0 to |CELLS|
      invariant forall k :: 0 <= k < i ==> At(t.selected)(CELLS[k]) > 0 && At(t.applied)(CELLS[k]) > 0
    {
      if At(t.selected)(CELLS[i]) == 0 {
        assert FirstUnreached(t, i, CellUnreached);
        return Some(CellUnreached);
      }
      if At(t.applied)(CELLS[i]) == 0 {
        assert FirstUnreached(t, i, VacuousCell);
        return Some(VacuousCell);
      }
    }
    e := None;
  }

  /** What is wrong with the reports before their cells are looked at. */
  ghost function Discord(rs: seq<Report>): (code: Option<Code>)
    requires rs != []
  {
    if !AllEqual(Parallelisms(rs)) then Some(ParallelismMismatch)
    else if !AllEqual(Origins(rs)) then Some(IdentityMismatch)
    else if !AllEqual(Builds(rs)) then Some(BuildMismatch)
    else if exists t :: Overlap.Active(Intervals(rs), t) > rs[0].process.parallelism
    then Some(OverlapExceedsParallelism)
    else if !Fits(Total(CountersIn(rs))) then Some(CounterOverflow)
    else None
  }

  /** What is wrong with readable reports: the first test that fails. */
  ghost predicate Objection(rs: seq<Report>, code: Code)
    requires rs != []
  {
    if Discord(rs).Some? then code == Discord(rs).value
    else exists i :: FirstUnreached(Total(CountersIn(rs)), i, code)
  }

  ghost predicate Repeats(files: seq<File>) { exists i, j :: 0 <= i < j < |files| && files[i].index == files[j].index }

  /** What is wrong with the files before any of them is read. */
  ghost function Obstacle(files: seq<File>, claims: set<nat>): (code: Option<Code>)
  {
    if Repeats(files) then Some(DuplicateJobIndex)
    else if claims != set f | f in files :: f.index then Some(ClaimDocumentMismatch)
    else if files == [] then Some(NoJobs)
    else None
  }

  /** Why the gate stays shut: the first test that fails, over the files, then
      over the documents in index order, then over all reports together. */
  ghost predicate Reason(files: seq<File>, claims: set<nat>, code: Code)
  {
    if Obstacle(files, claims).Some? then code == Obstacle(files, claims).value
    else
      || (exists i :: FirstBad(Listed(files), i, code))
      || (exists rs :: Reads(Listed(files), rs) && rs != [] && Objection(rs, code))
  }

  method Duplicate(files: seq<File>) returns (seen: set<nat>, e: Option<Code>)
    ensures e.None? <==> forall i, j :: 0 <= i < j < |files| ==> files[i].index != files[j].index
    ensures e.None? ==> seen == (set f | f in files :: f.index)
    ensures e.Some? ==> e.value == DuplicateJobIndex
  {
    seen := {};
    for i := 0 to |files|
      invariant forall k, l :: 0 <= k < l < i ==> files[k].index != files[l].index
      invariant forall k :: 0 <= k < i ==> files[k].index in seen
      invariant forall n :: n in seen ==> exists k :: 0 <= k < i && files[k].index == n
    {
      if files[i].index in seen { return seen, Some(DuplicateJobIndex); }
      seen := seen + {files[i].index};
    }
    e := None;
  }

  lemma OverlapReadable(docs: seq<File>, rs: seq<Report>)
    requires Reads(docs, rs)
    ensures Overlap.Parsed(Intervals(rs))
  {
    hide ReportJson, Closes, Vocabulary, Fits;
  }

  lemma ListedIsNonEmpty(files: seq<File>)
    ensures |Listed(files)| == |files|
  {
    assert |multiset(Listed(files))| == |multiset(files)|;
  }

  /** The gate opens exactly on accepted reports, and then tells the number of
      jobs, the maximum overlap and the exact totals. */
  method Validate(files: seq<File>, claims: set<nat>) returns (r: Decision, ghost rs: seq<Report>)
    ensures r.Ready? ==> Accepted(files, claims, rs)
    ensures r.Blocked? ==> (forall qs :: !Accepted(files, claims, qs)) && Reason(files, claims, r.code)
    ensures r.Ready? ==>
      && r.jobs == |files| && r.parallelism == rs[0].process.parallelism
      && Overlap.IsMaximum(Intervals(rs), r.maxOverlap) && r.maxOverlap <= r.parallelism
      && r.totals == Total(CountersIn(rs))
  {
    hide Listed, Reads, Agree, Total, Fits, Reached, CountersIn, Intervals, Overlap.Parsed, Overlap.Active;
    rs := [];
    var indices, duplicate := Duplicate(files);
    if duplicate.Some? { return Blocked(duplicate.value), []; }
    if indices != claims { return Blocked(ClaimDocumentMismatch), []; }
    if files == [] { return Blocked(NoJobs), []; }
    ListedIsNonEmpty(files);
    var read := ReadAll(Listed(files));
    if read.Err? { return Blocked(read.error), []; }
    var reports := read.value;
    ReadAsMany(Listed(files), reports);
    rs := reports;
    forall qs | Reads(Listed(files), qs) ensures qs == rs { ReadsUnique(Listed(files), rs, qs); }
    var e := Disagreement(reports);
    if e.Some? { return Blocked(e.value), rs; }
    // Repeated job indices and an invalid interval set are excluded here by
    // the checks above: each document carries the index of its file name.
    OverlapReadable(Listed(files), reports);
    var overlap := Overlap.MaxOverlap(Intervals(reports));
    var parallelism := reports[0].process.parallelism;
    if overlap.value > parallelism { return Blocked(OverlapExceedsParallelism), rs; }
    var totals := Aggregate(CountersIn(reports));
    if totals.Err? { return Blocked(totals.error), rs; }
    e := Unreached(totals.value);
    if e.Some? { return Blocked(e.value), rs; }
    r := Ready(|reports|, parallelism, overlap.value, totals.value);
  }

  lemma ReadAsMany(docs: seq<File>, rs: seq<Report>)
    requires Reads(docs, rs)
    ensures |rs| == |docs|
  {
  }

  /** Totals reported by an open gate close the equations again. */
  lemma AcceptedTotalsClose(files: seq<File>, claims: set<nat>, rs: seq<Report>)
    requires Accepted(files, claims, rs)
    ensures Closes(Total(CountersIn(rs)))
  {
    hide Total, Listed, Closes, Fits, Reached, Agree, Overlap.Active, ReportJson;
    forall i | 0 <= i < |rs| ensures Closes(CountersIn(rs)[i]) {
      assert ReportOk(rs[i], Listed(files)[i].index);
    }
    TotalCloses(CountersIn(rs));
  }
}
