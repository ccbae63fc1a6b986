/** The promotion gate and the dual-session campaign together: what the entry
    point can record never satisfies the gate's demand that every cell be
    reached, because no run is sequential. */
module DualGate {
  import opened Sequences
  import opened Telemetry
  import opened Totalling
  import Evidence
  import opened EvidenceLaws
  import opened Reports
  import Overlap
  import opened Validator
  import opened DualVerdict

  /** The counters are those of some campaign of this process from its start. */
  ghost predicate FromCampaign<W, F>(b: Bench<W, F>, c: Counters)
    requires b.setup.signers != []
  {
    exists inputs :: RunInputs(b, inputs, Fresh()).0 == c
  }

  lemma CampaignIsSound<W, F>(b: Bench<W, F>, c: Counters)
    requires b.setup.signers != [] && FromCampaign(b, c)
    ensures Sound(c)
  {
    hide RunInputs, Sound;
    var inputs :| RunInputs(b, inputs, Fresh()).0 == c;
    FreshIsSound();
    CampaignCounts(b, inputs, Fresh());
  }

  lemma {:induction false} NothingSelected(cell: string, cs: seq<Counters>)
    requires forall i :: 0 <= i < |cs| ==> At(cs[i].selected)(cell) == 0
    ensures SumOf(CountOf(SelectedOf, cell), cs) == 0
  {
    hide At;
    if cs != [] {
      KeyCounts(cs[0], cell);
      NothingSelected(cell, cs[1..]);
    }
  }

  /** A cell that no report selects blocks the gate. */
  lemma MissedCellBlocks(files: seq<File>, claims: set<nat>, rs: seq<Report>, cell: string)
    requires cell in CELLS && forall r :: r in rs ==> At(r.counters.selected)(cell) == 0
    ensures !Accepted(files, claims, rs)
  {
    hide CELLS, At, Listed, Reads, Agree, Fits, SumOf, Overlap.Active;
    var cs := CountersIn(rs);
    forall i | 0 <= i < |cs| ensures At(cs[i].selected)(cell) == 0 { assert rs[i] in rs; }
    NothingSelected(cell, cs);
    TotalAt(SelectedOf, CELLS, cs, cell);
  }

  /** However many dual-session processes run, for however long and whatever
      their services do, the gate stays shut on their documents. */
  lemma DualCampaignsNeverPass<W, F>(benches: seq<Bench<W, F>>, files: seq<File>, claims: set<nat>, rs: seq<Report>)
    requires |benches| == |rs|
    requires forall i :: 0 <= i < |rs| ==> benches[i].setup.signers != [] && FromCampaign(benches[i], rs[i].counters)
    ensures !Accepted(files, claims, rs)
  {
    hide FromCampaign, Accepted, At, SEQUENTIAL;
    forall r | r in rs ensures At(r.counters.selected)(SEQUENTIAL) == 0 {
      var i :| 0 <= i < |rs| && rs[i] == r;
      CampaignIsSound(benches[i], r.counters);
    }
    SequentialIsCell();
    MissedCellBlocks(files, claims, rs, SEQUENTIAL);
  }

  lemma SequentialIsCell()
    ensures SEQUENTIAL in CELLS
  {
    assert CELLS[4] == SEQUENTIAL;
  }

  // ----- the gate is not shut for everyone -----

  function Ones(keys: seq<string>): (m: Count) { map k | k in keys :: 1 }

  function Thorough(): (c: Counters)
  {
    Counters(7, 0, 7, Ones(CELLS), Ones(CELLS), Zeros(CELLS), Zeros(VERDICTS)["CLEAN-SIGN" := 7])
  }

  function ThoroughReport(): (r: Report)
  {
    Report(Origin("c", "f"), Evidence.Build("i", "clang", "asan"), Process(0, 1, 0, 1), Thorough())
  }

  lemma {:induction false} SumOnes(keys: seq<string>, all: seq<string>)
    requires forall k :: k in keys ==> k in all
    ensures Sum(Ones(all), keys) == |keys|
  {
    if keys != [] { SumOnes(keys[1..], all); }
  }

  lemma {:induction false} SumAtOne(keys: seq<string>, all: seq<string>, key: string, n: nat)
    requires Distinct(keys)
    ensures Sum(Zeros(all)[key := n], keys) == if key in keys then n else 0
  {
    if keys != [] {
      SumAtOne(keys[1..], all, key, n);
      assert key in keys <==> key == keys[0] || key in keys[1..];
      if key == keys[0] { assert key !in keys[1..]; }
    }
  }

  lemma ThoroughCloses()
    ensures Vocabulary(Thorough()) && Closes(Thorough()) && Fits(Thorough()) && Reached(Thorough())
  {
    hide Sum, VERDICTS, CELLS;
    VocabularyDistinct();
    Sizes();
    SumOnes(CELLS, CELLS);
    SumAtOne(VERDICTS, VERDICTS, "CLEAN-SIGN", 7);
  }

  lemma Sizes()
    ensures |CELLS| == 7 && "CLEAN-SIGN" in VERDICTS
  {
    assert VERDICTS[0] == "CLEAN-SIGN";
  }

  lemma TotalOfOne(c: Counters)
    requires Vocabulary(c)
    ensures Total([c]) == c
  {
    hide CELLS, VERDICTS, Total;
    TotalSnoc([], c);
    NoTotals();
    assert [] + [c] == [c];
    AddedToZeros(c.selected, CELLS);
    AddedToZeros(c.applied, CELLS);
    AddedToZeros(c.notApplied, CELLS);
    AddedToZeros(c.verdicts, VERDICTS);
  }

  lemma AddedToZeros(m: Count, keys: seq<string>)
    requires m.Keys == (set k | k in keys)
    ensures Added(Zeros(keys), m, keys) == m
  {
  }

  /** One job that reached every cell does pass. */
  lemma ThoroughJobPasses()
    ensures var r := ThoroughReport(); Accepted([File(0, Some(ReportJson(r)))], {0}, [r])
  {
    hide Sum, VERDICTS, CELLS, Total, Thorough, Vocabulary, Closes, Fits, Reached, ReportJson;
    ThoroughCloses();
    var r := ThoroughReport();
    var f := File(0, Some(ReportJson(r)));
    OneListed(f);
    TotalOfOne(r.counters);
    assert CountersIn([r]) == [r.counters];
    assert ReportOk(r, 0);
    var xs := Intervals([r]);
    forall t ensures Overlap.Active(xs, t) <= 1 { OneIsActive(xs, t); }
  }

  lemma OneListed(f: File)
    ensures Listed([f]) == [f]
  {
    ListedIsNonEmpty([f]);
    assert Listed([f])[0] in multiset(Listed([f]));
  }

  lemma OneIsActive(xs: seq<Overlap.Interval>, t: int)
    requires |xs| == 1
    ensures Overlap.Active(xs, t) <= 1
  {
    assert SumOf(Overlap.Contains(t), xs[1..]) == 0;
  }
}
