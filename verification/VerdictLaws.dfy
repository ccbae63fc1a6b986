/** What the verdict of an input says about its run
    (harness/cmp_ecdsa_online/src/dual_session.cpp and fuzzer_dual_session.cpp):
    the cell is read off the recorded turns, and every flag, verdict and signal
    is stated in terms of the run and the answers of the oracles alone. */
module VerdictLaws {
  import opened Sequences
  import opened DualSession
  import opened DualRuns
  import opened DualVerdict
  import opened RecordLaws
  import opened Telemetry

  // ----- the cell -----

  predicate ChangesHands(trace: Trace, i: nat)
  {
    0 < i < |trace| && trace[i] != trace[i - 1]
  }

  /** The positions at which the turn goes to the other ceremony. */
  function Switches(trace: Trace): (s: set<nat>)
  {
    set i: nat | i < |trace| && ChangesHands(trace, i)
  }

  lemma {:induction false} CrossingsAreSwitches(trace: Trace)
    ensures Crossings(trace) == |Switches(trace)|
  {
    if |trace| < 2 {
      assert Switches(trace) == {};
    } else {
      var last, front := |trace| - 1, trace[..|trace| - 1];
      CrossingsAreSwitches(front);
      assert Switches(trace) == Switches(front) + (if trace[last] != trace[last - 1] then {last} else {});
    }
  }

  /** The two cells of this entry point, read off the turns that were granted:
      alternating when at least half as many turns changed hands as were
      granted, blocked otherwise. */
  lemma CellIff<W, F>(b: Bench<W, F>, data: seq<nat>)
    requires b.setup.signers != []
    ensures var r, v := RunInput(b, data), JudgeInput(b, data);
      && (Cell(v.interleavePoints, v.steps) == "dual.schedule|alternating" <==> 2 * |Switches(r.trace)| >= |r.trace|)
      && (Cell(v.interleavePoints, v.steps) == "dual.schedule|blocked" <==> 2 * |Switches(r.trace)| < |r.trace|)
  {
    hide Run, Crossings, Switches;
    var r := RunInput(b, data);
    EveryRunEndsAndCrosses(b.setup, data, b.init(data));
    CrossingsAreSwitches(r.trace);
    assert |"dual.schedule|alternating"| == 25 && |"dual.schedule|blocked"| == 21;
  }

  /** The first block ends at the first turn that is not the first one's. */
  lemma {:induction false} FirstBlockIs(trace: Trace)
    requires trace != []
    ensures forall i :: 0 <= i < FirstBlock(trace) ==> trace[i] == trace[0]
    ensures FirstBlock(trace) < |trace| ==> trace[FirstBlock(trace)] != trace[0]
  {
    var front := trace[..|trace| - 1];
    if Crossings(trace) == 0 {
      CrossingsAreSwitches(trace);
      NeverSwitches(trace, |trace|);
    } else {
      FirstBlockIs(front);
      if Crossings(front) == 0 {
        CrossingsAreSwitches(front);
        NeverSwitches(front, |front|);
      }
    }
  }

  lemma {:induction false} NeverSwitches(trace: Trace, n: nat)
    requires Switches(trace) == {} && n <= |trace|
    ensures forall i :: 0 <= i < n ==> trace[i] == trace[0]
  {
    if n > 1 {
      NeverSwitches(trace, n - 1);
      assert n - 1 in Switches(trace) <==> ChangesHands(trace, n - 1);
    }
  }

  // ----- the flags -----

  /** Both ceremonies completed and both produced signatures. */
  predicate Signed<W>(r: Loop<W>, f: Answers)
  {
    r.a.status == Completed && r.b.status == Completed && f.sigsA && f.sigsB
  }

  /** The signature oracles speak only of runs with both signatures. */
  lemma SignatureFlags<W>(r: Loop<W>, f: Answers)
    ensures var v := Judge(r, f);
      && (v.bothCompleted <==> r.a.status == Completed && r.b.status == Completed)
      && (v.signaturesValid <==> Signed(r, f) && f.validA && f.validB)
      && (v.crossSession <==> Signed(r, f) && (f.crossAB || f.crossBA))
      && (v.nonceReuse <==> Signed(r, f) && f.messagesDistinct && f.nonceEqual)
  {
  }

  /** The state oracles speak of every run: rollback fails when a completed
      ceremony left its record behind, and the harness is at fault when a
      ceremony died or both completed without a signature each. */
  lemma StateFlags<W>(r: Loop<W>, f: Answers)
    ensures var v := Judge(r, f);
      && (v.stateIsolation <==> r.isolated) && (v.keyStoreUnchanged <==> f.keysUnchanged)
      && (!v.rollbackClean <==> (r.a.status == Completed && f.recordA) || (r.b.status == Completed && f.recordB))
      && (v.harnessFault <==>
        || r.a.status == Faulted || r.b.status == Faulted
        || (r.a.status == Completed && r.b.status == Completed && !(f.sigsA && f.sigsB)))
      && v.advancedPastInjection == r.advancedPastInjection && v.interleavePoints == r.interleavePoints
      && v.steps == |r.trace|
  {
  }

  // ----- the verdict and the signal -----

  /** A broken state: a nonce used twice, a record of the other ceremony or a
      key touched, or a record left behind. */
  predicate Corrupted(v: DualVerdict.Result)
  {
    v.nonceReuse || !v.stateIsolation || !v.rollbackClean || !v.keyStoreUnchanged
  }

  /** A signature that verifies in the other session outranks a broken state,
      which outranks an invalid signature. */
  lemma VerdictIff(v: DualVerdict.Result)
    requires Applied(v)
    ensures Verdict(v) == Some("INVALID-SIGNATURE") <==>
      v.crossSession || (!Corrupted(v) && v.bothCompleted && !v.signaturesValid)
    ensures Verdict(v) == Some("STATE-CORRUPTION") <==> !v.crossSession && Corrupted(v)
  {
    assert |"CLEAN-SIGN"| == 10 && |"CLEAN-REJECT"| == 12 && |"INVALID-SIGNATURE"| == 17 && |"STATE-CORRUPTION"| == 16;
  }

  /** The findings in the order in which the process looks at them. */
  function Findings(v: DualVerdict.Result): (fs: seq<(string, bool)>)
  {
    [("cross_session_verification", v.crossSession), ("nonce_reuse", v.nonceReuse),
     ("state_isolation", !v.stateIsolation), ("rollback_clean", !v.rollbackClean),
     ("key_store_changed", !v.keyStoreUnchanged), ("signature_invalid", v.bothCompleted && !v.signaturesValid)]
  }

  /** The process aborts with the name of the first finding of the list. */
  lemma SignalIff(v: DualVerdict.Result, oracle: string)
    requires Applied(v)
    ensures Signal(v) == Some(oracle) <==>
      exists i :: 0 <= i < 6 && Findings(v)[i] == (oracle, true) && forall j :: 0 <= j < i ==> !Findings(v)[j].1
  {
    var fs := Findings(v);
    if Signal(v) == Some(oracle) {
      var i := if fs[0].1 then 0 else if fs[1].1 then 1 else if fs[2].1 then 2 else if fs[3].1 then 3
        else if fs[4].1 then 4 else 5;
      assert fs[i] == (oracle, true) && forall j :: 0 <= j < i ==> !fs[j].1;
    }
    if i :| 0 <= i < 6 && fs[i] == (oracle, true) && forall j :: 0 <= j < i ==> !fs[j].1 {
      assert 0 < i ==> !fs[0].1;
      assert 1 < i ==> !fs[1].1;
      assert 2 < i ==> !fs[2].1;
      assert 3 < i ==> !fs[3].1;
      assert 4 < i ==> !fs[4].1;
    }
  }

  // ----- what one input does to the counters -----

  /** The verdict word of a judged run, from its flags. */
  function Word(v: DualVerdict.Result): (w: string)
  {
    if AnyFinding(v) then if !v.crossSession && Corrupted(v) then "STATE-CORRUPTION" else "INVALID-SIGNATURE"
    else if v.bothCompleted then "CLEAN-SIGN"
    else "CLEAN-REJECT"
  }

  lemma VerdictIsWord(v: DualVerdict.Result)
    ensures Verdict(v) == if Applied(v) then Some(Word(v)) else None
  {
    if Applied(v) {
      VerdictReports(v);
      VerdictIff(v);
    }
  }

  /** The cell of a trace, from the turns that changed hands. */
  function CellOf(trace: Trace): (k: string)
  {
    if 2 * |Switches(trace)| >= |trace| then "dual.schedule|alternating" else "dual.schedule|blocked"
  }

  /** An input that is played to the end moves exactly the counters of its cell
      and of its verdict: applied or not by what its run did, and the verdict
      only if it was applied. */
  lemma InputIsCounted<W, F>(b: Bench<W, F>, data: seq<nat>, c: Counters)
    requires b.setup.signers != [] && Sound(c) && 1 <= |data| <= 4096
    requires !JudgeInput(b, data).harnessFault && b.disk(c).claimed
    ensures var d, r := TestInput(b, data, c).0, RunInput(b, data);
      var cell, verdict := CellOf(r.trace), Word(JudgeInput(b, data));
      && d.execs == c.execs + 1 && d.doorRejects == c.doorRejects && d.decoded == c.decoded + 1
      && (forall k :: At(d.selected)(k) == At(c.selected)(k) + if k == cell then 1 else 0)
      && (forall k :: At(d.applied)(k) == At(c.applied)(k) + if k == cell && Interleaved(r) then 1 else 0)
      && (forall k :: At(d.notApplied)(k) == At(c.notApplied)(k) + if k == cell && !Interleaved(r) then 1 else 0)
      && (forall w :: At(d.verdicts)(w) == At(c.verdicts)(w) + if w == verdict && Interleaved(r) then 1 else 0)
  {
    hide Run, Judge, Cell, CellOf, Verdict, Word, Signal, Applied, Interleaved, Record, At, CELLS, Sound;
    var r, v := RunInput(b, data), JudgeInput(b, data);
    AppliedIff(b.setup, data, b.init(data), b.answers(r));
    CellOfRun(b, data);
    CellIsOfTrace(b, data);
    RecordedCase(c, v);
    VerdictIsWord(v);
    RecordMoves(c, Case(Some(Cell(v.interleavePoints, v.steps)), Applied(v), Verdict(v)));
  }

  lemma CellIsOfTrace<W, F>(b: Bench<W, F>, data: seq<nat>)
    requires b.setup.signers != []
    ensures Cell(JudgeInput(b, data).interleavePoints, JudgeInput(b, data).steps) == CellOf(RunInput(b, data).trace)
  {
    hide Run, Judge, Cell, Switches;
    CellIff(b, data);
  }

  /** Every other input: an empty or overlong one is counted as refused at the
      door, and without a job index or after a harness fault nothing moves. */
  lemma OtherInputs<W, F>(b: Bench<W, F>, data: seq<nat>, c: Counters)
    requires b.setup.signers != []
    ensures var d, door := TestInput(b, data, c).0, |data| == 0 || |data| > 4096;
      && (door && b.disk(c).claimed ==> d == c.(execs := c.execs + 1, doorRejects := c.doorRejects + 1))
      && (!b.disk(c).claimed || (!door && JudgeInput(b, data).harnessFault) ==> d == c)
  {
    hide JudgeInput;
  }

  /** The process aborts with the name of the finding that it signals. */
  lemma AbortIff<W, F>(b: Bench<W, F>, data: seq<nat>, c: Counters, oracle: string)
    requires b.setup.signers != [] && Sound(c)
    ensures TestInput(b, data, c).1 == Abort(oracle) <==>
      && Reportable(b, data) && b.disk(c).claimed && b.disk(c).published
      && Signal(JudgeInput(b, data)) == Some(oracle)
  {
    hide JudgeInput, Signal, Reportable, Sound, Record;
    FindingReportedIff(b, data, c);
  }
}
