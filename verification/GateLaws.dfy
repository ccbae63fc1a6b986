/** The last test of the promotion gate (scripts/validate_rt4.py), stated on the
    single reports: every cell must have been selected in some report and
    applied in some report. */
module GateLaws {
  import opened Sequences
  import opened Telemetry
  import opened Totalling
  import Evidence
  import opened Reports
  import opened Validator
  import opened DualGate

  lemma {:induction false} SumPositive(f: Counters -> nat, cs: seq<Counters>)
    ensures SumOf(f, cs) > 0 <==> exists c :: c in cs && f(c) > 0
  {
    if cs != [] {
      SumPositive(f, cs[1..]);
      assert forall c :: c in cs <==> c == cs[0] || c in cs[1..];
    }
  }

  /** Every cell was selected somewhere and applied somewhere. */
  ghost predicate EveryCellReached(rs: seq<Report>)
  {
    forall k :: k in CELLS ==>
      && (exists r :: r in rs && At(r.counters.selected)(k) > 0)
      && (exists r :: r in rs && At(r.counters.applied)(k) > 0)
  }

  lemma TotalPositive(f: Counters -> Count, rs: seq<Report>, k: string)
    requires k in CELLS
    ensures At(SumCounts(f, CELLS, CountersIn(rs)))(k) > 0 <==> exists r :: r in rs && At(f(r.counters))(k) > 0
  {
    hide CELLS, At, SumOf;
    var cs := CountersIn(rs);
    TotalAt(f, CELLS, cs, k);
    SumPositive(CountOf(f, k), cs);
    if exists c :: c in cs && CountOf(f, k)(c) > 0 {
      var c :| c in cs && CountOf(f, k)(c) > 0;
      var i :| 0 <= i < |cs| && cs[i] == c;
      assert rs[i] in rs && At(f(rs[i].counters))(k) > 0;
    }
    if exists r :: r in rs && At(f(r.counters))(k) > 0 {
      var r :| r in rs && At(f(r.counters))(k) > 0;
      var i :| 0 <= i < |rs| && rs[i] == r;
      assert cs[i] in cs && CountOf(f, k)(cs[i]) > 0;
    }
  }

  /** What the test of the totals comes to. */
  lemma ReachedIff(rs: seq<Report>)
    ensures Reached(Total(CountersIn(rs))) <==> EveryCellReached(rs)
  {
    hide CELLS, At, SumCounts;
    var t := Total(CountersIn(rs));
    forall k | k in CELLS
      ensures At(t.selected)(k) > 0 <==> exists r :: r in rs && At(r.counters.selected)(k) > 0
      ensures At(t.applied)(k) > 0 <==> exists r :: r in rs && At(r.counters.applied)(k) > 0
    {
      TotalPositive(SelectedOf, rs, k);
      TotalPositive(AppliedOf, rs, k);
    }
  }

  /** A cell that no report applied blocks the gate, however often it was
      selected. */
  lemma UnappliedCellBlocks(files: seq<File>, claims: set<nat>, rs: seq<Report>, cell: string)
    requires cell in CELLS && forall r :: r in rs ==> At(r.counters.applied)(cell) == 0
    ensures !Accepted(files, claims, rs)
  {
    hide CELLS, At, Reached, Listed, Reads, Agree, Fits, Total;
    ReachedIff(rs);
  }

  // ----- a campaign that applied nothing -----

  /** Each cell selected once and never applied. */
  function Vacuous(): (c: Counters)
  {
    Counters(7, 0, 7, Ones(CELLS), Zeros(CELLS), Ones(CELLS), Zeros(VERDICTS))
  }

  function VacuousReport(): (r: Report)
  {
    Report(Origin("c", "f"), Evidence.Build("i", "clang", "asan"), Process(0, 1, 0, 1), Vacuous())
  }

  lemma VacuousCloses()
    ensures Vocabulary(Vacuous()) && Closes(Vacuous()) && Fits(Vacuous())
  {
    hide Sum, VERDICTS, CELLS, Ones, Zeros, At, FitsMap;
    Sizes();
    SumOnes(CELLS, CELLS);
    SumZeros(CELLS, CELLS);
    SumZeros(VERDICTS, VERDICTS);
    OnesAndZeros(CELLS);
    OnesAndZeros(VERDICTS);
  }

  lemma OnesAndZeros(keys: seq<string>)
    ensures Ones(keys).Keys == Zeros(keys).Keys == (set k | k in keys)
    ensures FitsMap(Ones(keys)) && FitsMap(Zeros(keys))
    ensures forall k :: k in keys ==> At(Zeros(keys))(k) == 0 && At(Ones(keys))(k) == 1
  {
  }

  /** Its report is well formed and closes all equations, and the gate stays shut
      on it. */
  lemma VacuousCampaignBlocked()
    ensures ReportOk(VacuousReport(), 0)
    ensures forall rs :: !Accepted([File(0, Some(ReportJson(VacuousReport())))], {0}, rs)
  {
    hide Sum, VERDICTS, CELLS, Vocabulary, Closes, Fits, Reached, ReportJson, Total, Vacuous, Listed, Agree;
    VacuousCloses();
    var f := File(0, Some(ReportJson(VacuousReport())));
    OneListed(f);
    ListedIsNonEmpty([f]);
    assert ReportOk(VacuousReport(), 0);
    assert Reads([f], [VacuousReport()]);
    forall rs ensures !Accepted([f], {0}, rs) {
      if Reads([f], rs) { ReadsUnique([f], rs, [VacuousReport()]); }
      VacuousApplied();
      UnappliedCellBlocks([f], {0}, [VacuousReport()], CELLS[0]);
    }
  }

  lemma VacuousApplied()
    ensures |CELLS| == 7 && CELLS[0] in CELLS && At(Vacuous().applied)(CELLS[0]) == 0
  {
  }
}
