/** Why the promotion gate stays shut (scripts/validate_rt4.py): the reason it
    reports exists exactly when it does not open, and is the only one. */
module GateReasons {
  import opened Sequences
  import opened Telemetry
  import opened Totalling
  import opened Reports
  import opened Validator
  import opened DualGate
  import opened GateLaws
  import Overlap

  // ----- documents -----

  /** The documents are the files in the order of their indices. */
  lemma ListedInOrder(files: seq<File>)
    ensures multiset(Listed(files)) == multiset(files)
    ensures forall i, j :: 0 <= i < j < |Listed(files)| ==> Listed(files)[i].index <= Listed(files)[j].index
  {
    assert TotalOrder(ByIndex);
    SortSorts(ByIndex, files);
  }

  lemma ReadIsOk(f: File, r: Report)
    ensures ReadOne(f) == Ok(r) <==> f.content == Some(ReportJson(r)) && ReportOk(r, f.index)
  {
    hide ParseReport, ReportJson, ReportOk;
    if f.content.Some? { ReportAcceptedIff(f.content.value, f.index, r); }
  }

  /** The documents hold reports exactly if none of them is bad. */
  lemma ReadableIff(docs: seq<File>)
    ensures (exists rs :: Reads(docs, rs)) <==> forall i, code :: !FirstBad(docs, i, code)
  {
    hide ReadOne, ReportJson, ReportOk;
    if rs :| Reads(docs, rs) {
      forall i | 0 <= i < |docs| ensures ReadOne(docs[i]).Ok? { ReadIsOk(docs[i], rs[i]); }
    } else {
      if forall i :: 0 <= i < |docs| ==> ReadOne(docs[i]).Ok? {
        var rs := seq(|docs|, i requires 0 <= i < |docs| => ReadOne(docs[i]).value);
        forall i | 0 <= i < |docs|
          ensures docs[i].content == Some(ReportJson(rs[i])) && ReportOk(rs[i], docs[i].index)
        {
          ReadIsOk(docs[i], rs[i]);
        }
        assert Reads(docs, rs);
      } else {
        var i := FirstFailure(docs);
        assert FirstBad(docs, i, ReadOne(docs[i]).error);
      }
    }
  }

  lemma FirstFailure(docs: seq<File>) returns (i: nat)
    requires exists k :: 0 <= k < |docs| && ReadOne(docs[k]).Err?
    ensures i < |docs| && ReadOne(docs[i]).Err? && forall k :: 0 <= k < i ==> ReadOne(docs[k]).Ok?
  {
    hide ReadOne;
    i := 0;
    while ReadOne(docs[i]).Ok?
      invariant i < |docs| && (forall k :: 0 <= k < i ==> ReadOne(docs[k]).Ok?)
      invariant exists k :: i <= k < |docs| && ReadOne(docs[k]).Err?
      decreases |docs| - i
    {
      i := i + 1;
    }
  }

  lemma FirstBadUnique(docs: seq<File>, i: nat, c: Code, j: nat, d: Code)
    requires FirstBad(docs, i, c) && FirstBad(docs, j, d)
    ensures i == j && c == d
  {
    hide ReadOne;
  }

  // ----- cells -----

  lemma UnreachedIff(t: Counters)
    ensures Reached(t) <==> forall i, code :: !FirstUnreached(t, i, code)
  {
    hide CELLS, At;
    if !Reached(t) {
      var i := FirstCell(t);
      assert FirstUnreached(t, i, if At(t.selected)(CELLS[i]) == 0 then CellUnreached else VacuousCell);
    }
  }

  predicate Played(t: Counters, k: string) { At(t.selected)(k) > 0 && At(t.applied)(k) > 0 }

  lemma FirstCell(t: Counters) returns (i: nat)
    requires !Reached(t)
    ensures i < |CELLS| && !Played(t, CELLS[i]) && forall k :: 0 <= k < i ==> Played(t, CELLS[k])
  {
    hide CELLS, At;
    var cell :| cell in CELLS && !Played(t, cell);
    i := 0;
    while Played(t, CELLS[i])
      invariant i < |CELLS| && (forall k :: 0 <= k < i ==> Played(t, CELLS[k]))
      invariant exists k :: i <= k < |CELLS| && !Played(t, CELLS[k])
      decreases |CELLS| - i
    {
      i := i + 1;
    }
  }

  lemma FirstUnreachedUnique(t: Counters, i: nat, c: Code, j: nat, d: Code)
    requires FirstUnreached(t, i, c) && FirstUnreached(t, j, d)
    ensures i == j && c == d
  {
    hide CELLS, At;
  }

  // ----- the reason -----

  /** Readable reports are objected to exactly when the rest of the gate's
      conditions fails. */
  lemma ObjectionIff(rs: seq<Report>)
    requires rs != []
    ensures (exists code :: Objection(rs, code)) <==>
      !(Agree(rs) && (forall t :: Overlap.Active(Intervals(rs), t) <= rs[0].process.parallelism)
        && Fits(Total(CountersIn(rs))) && Reached(Total(CountersIn(rs))))
  {
    hide Agree, AllEqual, Reached, Fits, Total, CountersIn, Intervals, Overlap.Active, FirstUnreached, Parallelisms,
      Origins, Builds;
    AgreeIff(rs);
    UnreachedIff(Total(CountersIn(rs)));
    assert Objection(rs, ParallelismMismatch) || AllEqual(Parallelisms(rs));
    assert Objection(rs, IdentityMismatch) || !AllEqual(Parallelisms(rs)) || AllEqual(Origins(rs));
    assert !AllEqual(Parallelisms(rs)) || !AllEqual(Origins(rs)) || AllEqual(Builds(rs))
      || Objection(rs, BuildMismatch);
    if Agree(rs) {
      if t :| Overlap.Active(Intervals(rs), t) > rs[0].process.parallelism {
        assert Objection(rs, OverlapExceedsParallelism);
      } else if !Fits(Total(CountersIn(rs))) {
        assert Objection(rs, CounterOverflow);
      } else if !Reached(Total(CountersIn(rs))) {
        var i, code :| FirstUnreached(Total(CountersIn(rs)), i, code);
        assert Objection(rs, code);
      }
    }
  }

  lemma ObjectionUnique(rs: seq<Report>, c: Code, d: Code)
    requires rs != [] && Objection(rs, c) && Objection(rs, d)
    ensures c == d
  {
    hide Discord, Total, CountersIn, FirstUnreached;
    var t := Total(CountersIn(rs));
    if i :| FirstUnreached(t, i, c) {
      if j :| FirstUnreached(t, j, d) { FirstUnreachedUnique(t, i, c, j, d); }
    }
  }

  /** There is a reason exactly when no reports are accepted. */
  lemma ReasonIff(files: seq<File>, claims: set<nat>)
    ensures (exists code :: Reason(files, claims, code)) <==> forall rs :: !Accepted(files, claims, rs)
  {
    hide Listed, Reads, Agree, Fits, Reached, Objection, FirstBad, Intervals, Overlap.Active, Total, CountersIn;
    var docs := Listed(files);
    ReadableIff(docs);
    if Repeats(files) {
      assert Reason(files, claims, DuplicateJobIndex);
    } else if claims != set f | f in files :: f.index {
      assert Reason(files, claims, ClaimDocumentMismatch);
    } else if files == [] {
      assert Reason(files, claims, NoJobs);
    } else if rs :| Reads(docs, rs) {
      ListedIsNonEmpty(files);
      ReadAsMany(docs, rs);
      ObjectionIff(rs);
      forall qs | Reads(docs, qs) ensures qs == rs { ReadsUnique(docs, rs, qs); }
      if code :| Objection(rs, code) {
        assert Reason(files, claims, code);
      } else {
        assert Accepted(files, claims, rs);
      }
    } else {
      var i, code :| FirstBad(docs, i, code);
      assert Reason(files, claims, code);
    }
  }

  lemma ReasonUnique(files: seq<File>, claims: set<nat>, c: Code, d: Code)
    requires Reason(files, claims, c) && Reason(files, claims, d)
    ensures c == d
  {
    hide Obstacle, Listed, Reads, Objection, FirstBad;
    var docs := Listed(files);
    ReadableIff(docs);
    if i :| FirstBad(docs, i, c) {
      if j :| FirstBad(docs, j, d) { FirstBadUnique(docs, i, c, j, d); }
    } else if rs :| Reads(docs, rs) && rs != [] && Objection(rs, c) {
      if qs :| Reads(docs, qs) && qs != [] && Objection(qs, d) {
        ReadsUnique(docs, rs, qs);
        ObjectionUnique(rs, c, d);
      }
    }
  }

  /** A campaign in which nothing was ever applied is blocked for that reason. */
  lemma VacuousReason()
    ensures ReportOk(VacuousReport(), 0)
    ensures Reason([File(0, Some(ReportJson(VacuousReport())))], {0}, VacuousCell)
  {
    hide Sum, VERDICTS, CELLS, Vocabulary, Closes, Fits, ReportJson, Total, Vacuous, Listed, At, FirstUnreached;
    VacuousCloses();
    var r := VacuousReport();
    var f := File(0, Some(ReportJson(r)));
    OneListed(f);
    TotalOfOne(r.counters);
    assert CountersIn([r]) == [r.counters];
    var xs := Intervals([r]);
    forall t ensures Overlap.Active(xs, t) <= 1 { OneIsActive(xs, t); }
    assert Discord([r]) == None;
    FirstIsVacuous();
    assert Reads([f], [r]);
  }

  lemma FirstIsVacuous()
    ensures FirstUnreached(Vacuous(), 0, VacuousCell)
  {
    hide CELLS;
    VacuousApplied();
    OnesAndZeros(CELLS);
  }
}
