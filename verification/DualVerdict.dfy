/** From a run of the interleaver to its verdict and its counters: the oracles
    of harness/cmp_ecdsa_online/src/dual_session.cpp and the entry point of
    harness/cmp_ecdsa_online/src/fuzzer_dual_session.cpp. */
module DualVerdict {
  import opened Sequences
  import opened DualSession
  import opened DualRuns
  import opened Telemetry

  /** Exactly `t` signers, or a harness fault. */
  function SignerSet(ids: seq<Player>, t: nat): (r: Option<seq<Player>>)
    ensures r.Some? <==> 1 <= t <= |ids|
    ensures r.Some? ==> |r.value| == t && r.value <= ids
  {
    var signers := if t < |ids| then ids[..t] else ids;
    if signers == [] || |signers| != t then None else Some(signers)
  }

  // ----- oracles -----

  /** What the library's verifier and the stores answer after a run. */
  datatype Answers = Answers(
    sigsA: bool, sigsB: bool, validA: bool, validB: bool, crossAB: bool, crossBA: bool,
    messagesDistinct: bool, nonceEqual: bool, recordA: bool, recordB: bool, keysUnchanged: bool)

  datatype Observation = Observation(
    bothCompleted: bool, signaturesObserved: bool, validA: bool, validB: bool, crossAB: bool, crossBA: bool,
    messagesDistinct: bool, nonceEqual: bool, othersUnchanged: bool, rollbackA: bool, rollbackB: bool,
    keysUnchanged: bool, harnessFault: bool)

  datatype Result = Result(
    bothCompleted: bool, advancedPastInjection: nat, interleavePoints: nat, steps: nat,
    signaturesValid: bool, crossSession: bool, nonceReuse: bool, stateIsolation: bool,
    rollbackClean: bool, keyStoreUnchanged: bool, harnessFault: bool)

  function Observe<W>(r: Loop<W>, f: Answers): (o: Observation)
  {
    var both := r.a.status == Completed && r.b.status == Completed;
    var seen := both && f.sigsA && f.sigsB;
    Observation(
      both, seen, seen && f.validA, seen && f.validB, seen && f.crossAB, seen && f.crossBA,
      seen && f.messagesDistinct, seen && f.nonceEqual, r.isolated,
      !(r.a.status == Completed && f.recordA), !(r.b.status == Completed && f.recordB),
      f.keysUnchanged, r.a.status == Faulted || r.b.status == Faulted)
  }

  function Evaluate<W>(r: Loop<W>, o: Observation): (v: Result)
  {
    Result(o.bothCompleted, r.advancedPastInjection, r.interleavePoints, |r.trace|,
           o.signaturesObserved && o.validA && o.validB,
           o.signaturesObserved && (o.crossAB || o.crossBA),
           o.signaturesObserved && o.messagesDistinct && o.nonceEqual,
           o.othersUnchanged, o.rollbackA && o.rollbackB, o.keysUnchanged,
           o.harnessFault || (o.bothCompleted && !o.signaturesObserved))
  }

  function Judge<W>(r: Loop<W>, f: Answers): (v: Result)
  {
    Evaluate(r, Observe(r, f))
  }

  predicate AnyFinding(v: Result)
  {
    v.crossSession || v.nonceReuse || !v.stateIsolation || !v.rollbackClean || !v.keyStoreUnchanged
    || (v.bothCompleted && !v.signaturesValid)
  }

  /** A finding that comes from the signatures themselves. */
  predicate SignatureFinding(v: Result)
  {
    v.crossSession || v.nonceReuse || (v.bothCompleted && !v.signaturesValid)
  }

  // ----- the entry point -----

  function Cell(crossings: nat, steps: nat): (r: string)
  {
    if crossings == 0 then "dual.schedule|sequential"
    else if steps > 0 && crossings * 2 >= steps then "dual.schedule|alternating"
    else "dual.schedule|blocked"
  }

  predicate Applied(v: Result) { v.advancedPastInjection > 0 }

  function Verdict(v: Result): (r: Option<string>)
  {
    if !Applied(v) then None
    else if v.crossSession then Some("INVALID-SIGNATURE")
    else if v.nonceReuse then Some("STATE-CORRUPTION")
    else if !v.stateIsolation then Some("STATE-CORRUPTION")
    else if !v.rollbackClean then Some("STATE-CORRUPTION")
    else if !v.keyStoreUnchanged then Some("STATE-CORRUPTION")
    else if v.bothCompleted && !v.signaturesValid then Some("INVALID-SIGNATURE")
    else if v.bothCompleted then Some("CLEAN-SIGN")
    else Some("CLEAN-REJECT")
  }

  /** The oracle that the process aborts with. */
  function Signal(v: Result): (r: Option<string>)
  {
    if !Applied(v) then None
    else if v.crossSession then Some("cross_session_verification")
    else if v.nonceReuse then Some("nonce_reuse")
    else if !v.stateIsolation then Some("state_isolation")
    else if !v.rollbackClean then Some("rollback_clean")
    else if !v.keyStoreUnchanged then Some("key_store_changed")
    else if v.bothCompleted && !v.signaturesValid then Some("signature_invalid")
    else None
  }

  const SEQUENTIAL := "dual.schedule|sequential"
  const BAD := ["INVALID-SIGNATURE", "STATE-CORRUPTION"]

  lemma Words()
    ensures forall k :: k in BAD ==> k in VERDICTS
    ensures "CLEAN-SIGN" in VERDICTS && "CLEAN-REJECT" in VERDICTS
    ensures "CLEAN-SIGN" !in BAD && "CLEAN-REJECT" !in BAD
    ensures forall c: nat, n: nat :: Cell(c, n) in CELLS
    ensures forall c: nat, n: nat :: Cell(c, n) == SEQUENTIAL <==> c == 0
    ensures Distinct(BAD)
  {
    assert VERDICTS[0] == "CLEAN-SIGN" && VERDICTS[1] == "CLEAN-REJECT" && VERDICTS[2] == BAD[0]
      && VERDICTS[3] == BAD[1];
    assert CELLS[4] == "dual.schedule|sequential" && CELLS[5] == "dual.schedule|blocked"
      && CELLS[6] == "dual.schedule|alternating";
    assert |VERDICTS[0]| == 10 && |VERDICTS[1]| == 12 && |VERDICTS[2]| == 17 && |VERDICTS[3]| == 16;
    assert |CELLS[4]| == 24 && |CELLS[5]| == 21 && |CELLS[6]| == 25;
  }

  /** The verdict reports a finding exactly when there is one, the process
      aborts exactly then, and a run without finding is a clean signature
      exactly when both ceremonies completed. */
  lemma VerdictReports(v: Result)
    requires Applied(v)
    ensures Verdict(v).Some? && Verdict(v).value in VERDICTS
    ensures Verdict(v).value in BAD <==> AnyFinding(v)
    ensures Signal(v).Some? <==> AnyFinding(v)
    ensures Verdict(v) == Some("CLEAN-SIGN") <==> !AnyFinding(v) && v.bothCompleted
    ensures Verdict(v) == Some("CLEAN-REJECT") <==> !AnyFinding(v) && !v.bothCompleted
  {
    hide VERDICTS, CELLS;
    Words();
    assert BAD[0] == "INVALID-SIGNATURE" && BAD[1] == "STATE-CORRUPTION";
    assert |"CLEAN-SIGN"| == 10 && |"CLEAN-REJECT"| == 12 && |BAD[0]| == 17 && |BAD[1]| == 16;
  }

  // ----- what a run can be judged to be -----

  function Beyond(x: nat, y: nat): nat { if x > y then x - y else 0 }

  /** The rounds past the first crossing: all those of the ceremony that was
      not granted the first turn, and those the other one did after its first
      block of turns. */
  ghost predicate AdvancesCounted<W>(s: Loop<W>)
  {
    if s.trace == [] then s.advancedPastInjection == 0
    else
      s.trace[0] < 2
      && s.advancedPastInjection
         == Chosen(s, 1 - s.trace[0]).round + Beyond(Chosen(s, s.trace[0]).round, FirstBlock(s.trace))
  }

  /** What one granted turn does to the two round counts. */
  lemma GrantRounds<W, F>(e: Setup<W, F>, schedule: seq<nat>, s: Loop<W>)
    requires e.signers != [] && LoopOk(s)
    ensures var s', t := Grant(e, schedule, s), Turn(s, schedule);
      && s'.trace == s.trace + [t] && Chosen(s', 1 - t) == Chosen(s, 1 - t)
      && (Chosen(s', t).round == Chosen(s, t).round || Chosen(s', t).round == Chosen(s, t).round + 1)
      && s'.advancedPastInjection == s.advancedPastInjection
         + (if s.crossed || (s.lastTurn != -1 && t != s.lastTurn) then Chosen(s', t).round - Chosen(s, t).round else 0)
  {
    hide Step, Turn, WellFormed, Max;
  }

  lemma GrantCounts<W, F>(e: Setup<W, F>, schedule: seq<nat>, s: Loop<W>)
    requires e.signers != [] && Accounted(s) && !Over(s) && AdvancesCounted(s)
    ensures AdvancesCounted(Grant(e, schedule, s))
  {
    hide Grant, Turn, FirstBlock, Crossings, Granted, WellFormed;
    TurnIsUsable(s, schedule);
    GrantRounds(e, schedule, s);
    TraceAppend(s.trace, Turn(s, schedule));
    if s.trace != [] {
      FirstBlockBound(s.trace);
      if Crossings(s.trace) == 0 { NoCrossing(s.trace); }
    }
  }

  lemma {:induction false} IterateCounts<W, F>(e: Setup<W, F>, schedule: seq<nat>, s: Loop<W>, n: nat)
    requires e.signers != [] && Accounted(s) && AdvancesCounted(s)
    ensures AdvancesCounted(Iterate(e, schedule, s, n))
    decreases n
  {
    hide Grant, Turn, Chosen, Paid, AdvancesCounted;
    if n > 0 && !Over(s) && !Finished(Chosen(s, Turn(s, schedule))) {
      GrantCounts(e, schedule, s);
      GrantAccounts(e, schedule, s);
      IterateCounts(e, schedule, Grant(e, schedule, s), n - 1);
    }
  }

  /** The ceremony that started second did a round, or the one that started
      first did one after its first block of turns. */
  ghost predicate Interleaved<W>(r: Loop<W>)
  {
    && r.trace != [] && r.trace[0] < 2
    && (Chosen(r, 1 - r.trace[0]).round > 0 || Chosen(r, r.trace[0]).round > FirstBlock(r.trace))
  }

  /** A run counts as applied exactly when it interleaved in that sense; a
      complete run always does. */
  lemma AppliedIff<W, F>(e: Setup<W, F>, schedule: seq<nat>, w: W, f: Answers)
    requires e.signers != []
    ensures var r := Run(e, schedule, w);
      && (Applied(Judge(r, f)) <==> Interleaved(r))
      && (Judge(r, f).bothCompleted ==> Applied(Judge(r, f)))
  {
    hide Run, AdvancesCounted, Interleaved;
    RunCounts(e, schedule, w);
    CountedIff(Run(e, schedule, w));
    var r := Run(e, schedule, w);
    if r.a.status == Completed && r.b.status == Completed { CompleteRunsInterleave(e, schedule, w); }
  }

  lemma RunCounts<W, F>(e: Setup<W, F>, schedule: seq<nat>, w: W)
    requires e.signers != []
    ensures AdvancesCounted(Run(e, schedule, w)) && Run(e, schedule, w).trace != []
  {
    hide Iterate, Accounted, FirstBlock, Crossings, Granted, Finished, Over;
    StartAccounted(w);
    IterateCounts(e, schedule, Start(w), MAX_STEPS);
    EveryRunEndsAndCrosses(e, schedule, w);
  }

  lemma CountedIff<W>(r: Loop<W>)
    requires AdvancesCounted(r) && r.trace != []
    ensures r.advancedPastInjection > 0 <==> Interleaved(r)
  {
    hide FirstBlock;
  }

  // ----- a campaign -----

  datatype Reason = HarnessFault | TelemetryPublishFailed

  datatype Stop = Continue | FailClosed(reason: Reason) | Abort(oracle: string)

  /** What a campaign runs with: the interleaver, the world for an input, the
      answers of the foreign oracles, and those of the file system (which may
      be any at each call, since the count of executions never repeats). */
  datatype Bench<!W, !F(==)> = Bench(
    setup: Setup<W, F>, init: seq<nat> -> W, answers: Loop<W> -> Answers, disk: Counters -> Disk)

  predicate AtDoor(data: seq<nat>) { |data| < 1 || |data| > 4096 }

  function RunInput<W, F(==)>(b: Bench<W, F>, data: seq<nat>): (r: Loop<W>)
    requires b.setup.signers != []
  {
    Run(b.setup, data, b.init(data))
  }

  function JudgeInput<W, F(==)>(b: Bench<W, F>, data: seq<nat>): (v: Result)
    requires b.setup.signers != []
  {
    Judge(RunInput(b, data), b.answers(RunInput(b, data)))
  }

  /** One input. */
  function TestInput<W, F(==)>(b: Bench<W, F>, data: seq<nat>, c: Counters): (r: (Counters, Stop))
    requires b.setup.signers != []
  {
    if AtDoor(data) then
      var (c', ok) := Attempt(c, DoorReject, b.disk(c));
      (c', if ok then Continue else FailClosed(TelemetryPublishFailed))
    else
      var v := JudgeInput(b, data);
      if v.harnessFault then (c, FailClosed(HarnessFault))
      else
        var (c', ok) := Attempt(c, Case(Some(Cell(v.interleavePoints, v.steps)), Applied(v), Verdict(v)), b.disk(c));
        if !ok then (c', FailClosed(TelemetryPublishFailed))
        else match Signal(v)
          case Some(oracle) => (c', Abort(oracle))
          case None => (c', Continue)
  }

  /** The entry point, on the process's own counters. */
  method TestOneInput<W, F(==)>(b: Bench<W, F>, data: seq<nat>, recorder: Recorder) returns (stop: Stop)
    requires b.setup.signers != []
    modifies recorder
    ensures (recorder.counters, stop) == TestInput(b, data, old(recorder.counters))
  {
    hide Run, Judge, Cell, Verdict, Signal, Attempt, VERDICTS, CELLS;
    var ok: bool;
    var disk := b.disk(recorder.counters);
    if |data| < 1 || |data| > 4096 {
      ok := recorder.RecordDoorReject(disk);
      return if ok then Continue else FailClosed(TelemetryPublishFailed);
    }
    var r := RunSession(b.setup, data, b.init(data));
    var v := Judge(r, b.answers(r));
    if v.harnessFault { return FailClosed(HarnessFault); }
    ok := recorder.RecordCase(Some(Cell(v.interleavePoints, v.steps)), Applied(v), Verdict(v), disk);
    if !ok { return FailClosed(TelemetryPublishFailed); }
    var signal := Signal(v);
    stop := if signal.Some? then Abort(signal.value) else Continue;
  }

  function Bad(c: Counters): (n: nat) { Sum(c.verdicts, BAD) }

  predicate Sound(c: Counters) { Vocabulary(c) && Closes(c) && At(c.selected)(SEQUENTIAL) == 0 }

  lemma CellOfRun<W, F>(b: Bench<W, F>, data: seq<nat>)
    requires b.setup.signers != []
    ensures var v := JudgeInput(b, data);
      Cell(v.interleavePoints, v.steps) in CELLS && Cell(v.interleavePoints, v.steps) != SEQUENTIAL
  {
    hide Run, Cell, SEQUENTIAL, CELLS, BAD, VERDICTS;
    Words();
    EveryRunEndsAndCrosses(b.setup, data, b.init(data));
  }

  /** One call of record_case by the entry point is never refused. */
  lemma RecordedCase(c: Counters, v: Result)
    requires Sound(c) && Cell(v.interleavePoints, v.steps) in CELLS && Cell(v.interleavePoints, v.steps) != SEQUENTIAL
    ensures var (c', ok) := Record(c, Case(Some(Cell(v.interleavePoints, v.steps)), Applied(v), Verdict(v)));
      ok && Sound(c') && c'.execs == c.execs + 1 && Bad(c') == Bad(c) + if Signal(v).Some? then 1 else 0
  {
    hide Cell, SEQUENTIAL, CELLS, VERDICTS, BAD, Verdict, Signal, Sum, At, Incr, Closes;
    var cell := Cell(v.interleavePoints, v.steps);
    RecordClosesIff(c, Case(Some(cell), Applied(v), Verdict(v)));
    IncrAt(c.selected, cell);
    if Applied(v) {
      VerdictReports(v);
      Words();
      SumIncr(c.verdicts, Verdict(v).value, BAD);
    } else {
      NotAppliedIsSilent(v);
    }
  }

  lemma NotAppliedIsSilent(v: Result)
    requires !Applied(v)
    ensures Verdict(v).None? && Signal(v).None?
  {
  }

  /** The input's finding is counted, if the process holds a job index. */
  ghost predicate Reportable<W, F>(b: Bench<W, F>, data: seq<nat>)
    requires b.setup.signers != []
  {
    && !AtDoor(data) && AnyFinding(JudgeInput(b, data)) && !JudgeInput(b, data).harnessFault
    && Interleaved(RunInput(b, data))
  }

  lemma TestInputKeeps<W, F>(b: Bench<W, F>, data: seq<nat>, c: Counters)
    requires b.setup.signers != [] && Sound(c)
    ensures var (c', stop) := TestInput(b, data, c);
      var fault := !AtDoor(data) && JudgeInput(b, data).harnessFault;
      && Sound(c')
      && c'.execs == c.execs + (if fault || !b.disk(c).claimed then 0 else 1)
      && Bad(c') == Bad(c) +
           (if !fault && b.disk(c).claimed && !AtDoor(data) && Signal(JudgeInput(b, data)).Some? then 1 else 0)
      && (stop == FailClosed(HarnessFault) <==> fault)
      && (stop == FailClosed(TelemetryPublishFailed) <==> !fault && !(b.disk(c).claimed && b.disk(c).published))
      && (stop.Abort? <==>
          !fault && b.disk(c).claimed && b.disk(c).published && !AtDoor(data) && Signal(JudgeInput(b, data)).Some?)
  {
    hide JudgeInput, Cell, SEQUENTIAL, CELLS, VERDICTS, Verdict, Signal, BAD, Sum, At, Closes, Vocabulary;
    if AtDoor(data) {
      SoundCloses(c);
      RecordClosesIff(c, DoorReject);
    } else {
      CellOfRun(b, data);
      if !JudgeInput(b, data).harnessFault { RecordedCase(c, JudgeInput(b, data)); }
    }
  }

  lemma Stops(stop: Stop)
    ensures stop.FailClosed? ==> stop == FailClosed(HarnessFault) || stop == FailClosed(TelemetryPublishFailed)
  {
    if stop.FailClosed? { assert stop.reason.HarnessFault? || stop.reason.TelemetryPublishFailed?; }
  }

  lemma SoundCloses(c: Counters)
    requires Sound(c)
    ensures Vocabulary(c) && Closes(c)
  {
  }

  lemma SignalIff<W, F>(b: Bench<W, F>, data: seq<nat>)
    requires b.setup.signers != []
    ensures Signal(JudgeInput(b, data)).Some? <==> AnyFinding(JudgeInput(b, data)) && Interleaved(RunInput(b, data))
  {
    hide Run, Verdict, Signal, BAD, FirstBlock, Judge, Interleaved;
    var r := RunInput(b, data);
    AppliedIff(b.setup, data, b.init(data), b.answers(r));
    var v := JudgeInput(b, data);
    if Applied(v) { VerdictReports(v); } else { NotAppliedIsSilent(v); }
  }

  /** A finding is counted exactly when the input passes the door, the run is
      not a harness fault, it interleaved, and the process holds a job index;
      the process aborts exactly when, besides, the document was published. */
  lemma FindingReportedIff<W, F>(b: Bench<W, F>, data: seq<nat>, c: Counters)
    requires b.setup.signers != [] && Sound(c)
    ensures var (c', stop) := TestInput(b, data, c);
      && Bad(c') == Bad(c) + (if Reportable(b, data) && b.disk(c).claimed then 1 else 0)
      && (stop.Abort? <==> Reportable(b, data) && b.disk(c).claimed && b.disk(c).published)
  {
    hide TestInput, JudgeInput, RunInput, Interleaved, Signal, AnyFinding, AtDoor, Bad, Sound;
    TestInputKeeps(b, data, c);
    SignalIff(b, data);
  }

  /** A finding of the signature oracles needs two complete ceremonies, so it
      always interleaved: past the door it is lost only to the file system, or
      to the harness fault of a ceremony that completed without signatures. */
  lemma SignatureFindingsAreReported<W, F>(b: Bench<W, F>, data: seq<nat>, c: Counters)
    requires b.setup.signers != [] && Sound(c) && !AtDoor(data) && SignatureFinding(JudgeInput(b, data))
    ensures var f := b.answers(RunInput(b, data));
      && (JudgeInput(b, data).harnessFault <==> !(f.sigsA && f.sigsB))
      && (TestInput(b, data, c).1.Abort? <==> f.sigsA && f.sigsB && b.disk(c).claimed && b.disk(c).published)
  {
    hide TestInput, Run, Interleaved, Sound, AtDoor, Bad;
    var r := RunInput(b, data);
    AppliedIff(b.setup, data, b.init(data), b.answers(r));
    SignatureNeedsBoth(r, b.answers(r));
    FindingReportedIff(b, data, c);
  }

  lemma SignatureNeedsBoth<W>(r: Loop<W>, f: Answers)
    requires SignatureFinding(Judge(r, f))
    ensures Judge(r, f).bothCompleted && AnyFinding(Judge(r, f))
    ensures Judge(r, f).harnessFault <==> !(f.sigsA && f.sigsB)
  {
  }

  // ----- findings that are lost -----

  /** A service that writes to everything, and throws from some round on. */
  function Scribbler(last: nat, o: Outcome): Service<nat>
  {
    (round: nat, p: Player, txid: string, inbox: map<Player, Msg>, w: nat) =>
      CallResult(if round <= last then Returned else o, "", w + 1)
  }

  function Scribbling(last: nat, o: Outcome): Bench<nat, nat>
  {
    Bench(Setup(Scribbler(last, o), [0], (w: nat, txid: string) => w), (data: seq<nat>) => 0,
          (r: Loop<nat>) => Answers(false, false, false, false, false, false, false, false, false, false, true),
          (c: Counters) => Disk(true, true))
  }

  lemma ScribblerStep(last: nat, o: Outcome, c: Ceremony, w: nat)
    requires WellFormed(c) && !Finished(c) && c.round < 4 && !o.Returned?
    ensures var r := Step(Scribbler(last, o), [0], c, w);
      && r.world == w + 1 && r.ceremony.txid == c.txid && WellFormed(r.ceremony)
      && r.ceremony.round == (if c.round < last then c.round + 1 else c.round)
      && r.ceremony.status == (if c.round < last then Running else if o.Fatal? then Faulted else Rejected)
      && (r.advanced <==> c.round < last)
  {
    assert Callers([0], c.round + 1) == [0];
  }

  lemma ScribblerGrant(last: nat, o: Outcome, schedule: seq<nat>, s: Loop<nat>)
    requires LoopOk(s) && !o.Returned? && s.cursor < |schedule| && schedule[s.cursor] < 2
    requires !Finished(Chosen(s, schedule[s.cursor])) && Chosen(s, schedule[s.cursor]).round < 4
    ensures var s', t := Grant(Scribbling(last, o).setup, schedule, s), schedule[s.cursor];
      var c := Chosen(s, t);
      && Turn(s, schedule) == t && LoopOk(s') && Chosen(s', 1 - t) == Chosen(s, 1 - t)
      && Chosen(s', t).round == (if c.round < last then c.round + 1 else c.round)
      && Chosen(s', t).status == (if c.round < last then Running else if o.Fatal? then Faulted else Rejected)
      && s'.trace == s.trace + [t] && s'.cursor == s.cursor + 1 && s'.lastTurn == t && !s'.isolated
      && s'.crossed == (s.crossed || (s.lastTurn != -1 && t != s.lastTurn))
      && s'.advancedPastInjection == s.advancedPastInjection + (if c.round < last && s'.crossed then 1 else 0)
  {
    hide Step, WellFormed, Scribbler;
    ScribblerStep(last, o, Chosen(s, schedule[s.cursor]), s.world);
  }

  lemma IterateGrant<W, F>(e: Setup<W, F>, schedule: seq<nat>, s: Loop<W>, n: nat)
    requires e.signers != [] && LoopOk(s) && !Over(s) && n > 0
    ensures Iterate(e, schedule, s, n) == Iterate(e, schedule, Grant(e, schedule, s), n - 1)
  {
    hide Grant, Turn;
    TurnIsUsable(s, schedule);
  }

  lemma IterateOver<W, F>(e: Setup<W, F>, schedule: seq<nat>, s: Loop<W>, n: nat)
    requires e.signers != [] && LoopOk(s) && Over(s)
    ensures Iterate(e, schedule, s, n) == s
  {
  }

  /** Both ceremonies are thrown out of their first round. */
  lemma FirstRoundThrows()
    ensures var r := RunInput(Scribbling(0, Clean("x")), [0, 1]);
      !r.isolated && r.advancedPastInjection == 0 && r.a.status == Rejected && r.b.status == Rejected
  {
    hide Grant, Scribbler, Iterate;
    var o, e, d := Clean("x"), Scribbling(0, Clean("x")).setup, [0, 1];
    var s0 := Start(0);
    ScribblerGrant(0, o, d, s0);
    var s1 := Grant(e, d, s0);
    ScribblerGrant(0, o, d, s1);
    var s2 := Grant(e, d, s1);
    IterateGrant(e, d, s0, 32);
    IterateGrant(e, d, s1, 31);
    IterateOver(e, d, s2, 30);
  }

  /** A broken isolation can be lost: no bad verdict and no abort when neither
      ceremony gets through its first round. */
  lemma IsolationFindingCanBeDropped(c: Counters)
    requires Sound(c)
    ensures var b := Scribbling(0, Clean("x"));
      && AnyFinding(JudgeInput(b, [0, 1])) && !JudgeInput(b, [0, 1]).harnessFault
      && TestInput(b, [0, 1], c).1 == Continue && Bad(TestInput(b, [0, 1], c).0) == Bad(c)
  {
    hide TestInput, RunInput, Bad, Sound, Signal, Verdict;
    FirstRoundThrows();
    TestInputKeeps(Scribbling(0, Clean("x")), [0, 1], c);
    NotAppliedIsSilent(JudgeInput(Scribbling(0, Clean("x")), [0, 1]));
    Stops(TestInput(Scribbling(0, Clean("x")), [0, 1], c).1);
  }

  /** Both ceremonies get through their first round and die in the second. */
  lemma SecondRoundDies()
    ensures var r := RunInput(Scribbling(1, Fatal("x")), [0, 1, 0, 1]);
      && !r.isolated && r.advancedPastInjection == 1 && r.a.status == Faulted && r.b.status == Faulted
  {
    hide Grant, Scribbler, Iterate;
    var o, e, d := Fatal("x"), Scribbling(1, Fatal("x")).setup, [0, 1, 0, 1];
    var s0 := Start(0);
    ScribblerGrant(1, o, d, s0);
    var s1 := Grant(e, d, s0);
    ScribblerGrant(1, o, d, s1);
    var s2 := Grant(e, d, s1);
    ScribblerGrant(1, o, d, s2);
    var s3 := Grant(e, d, s2);
    ScribblerGrant(1, o, d, s3);
    var s4 := Grant(e, d, s3);
    IterateGrant(e, d, s0, 32);
    IterateGrant(e, d, s1, 31);
    IterateGrant(e, d, s2, 30);
    IterateGrant(e, d, s3, 29);
    IterateOver(e, d, s4, 28);
  }

  /** A harness fault hides a finding of a run that did interleave: nothing is
      recorded and the process does not abort. */
  lemma FaultHidesFinding(c: Counters)
    ensures var b := Scribbling(1, Fatal("x"));
      && AnyFinding(JudgeInput(b, [0, 1, 0, 1])) && Interleaved(RunInput(b, [0, 1, 0, 1]))
      && TestInput(b, [0, 1, 0, 1], c) == (c, FailClosed(HarnessFault))
  {
    hide RunInput, Interleaved, Attempt;
    SecondRoundDies();
    var b := Scribbling(1, Fatal("x"));
    AppliedIff(b.setup, [0, 1, 0, 1], 0, b.answers(RunInput(b, [0, 1, 0, 1])));
    RunOf(b, [0, 1, 0, 1]);
  }

  lemma RunOf(b: Bench<nat, nat>, data: seq<nat>)
    requires b.setup.signers != []
    ensures RunInput(b, data) == Run(b.setup, data, b.init(data))
  {
  }

  // ----- whole campaigns -----

  /** Inputs one after another until the process ends: the counters, how many
      inputs were recorded, and how it ended. */
  function RunInputs<W, F(==)>(b: Bench<W, F>, inputs: seq<seq<nat>>, c: Counters): (r: (Counters, nat, Stop))
    requires b.setup.signers != []
  {
    if inputs == [] then (c, 0, Continue)
    else
      var (c', stop) := TestInput(b, inputs[0], c);
      if stop.FailClosed? then (c', 0, stop)
      else if stop.Abort? then (c', 1, stop)
      else
        var (c'', n, end) := RunInputs(b, inputs[1..], c');
        (c'', n + 1, end)
  }

  /** Over every campaign the equations close and no case falls in the
      sequential cell.  Unless the file system ends it, every recorded input is
      counted once and the bad verdicts count exactly the finding that ended
      the process; a failed publication can leave one more input counted.  A
      harness fault ends it at the first input that has one. */
  lemma {:induction false} CampaignCounts<W, F>(b: Bench<W, F>, inputs: seq<seq<nat>>, c: Counters)
    requires b.setup.signers != [] && Sound(c)
    ensures var (c', n, stop) := RunInputs(b, inputs, c);
      var failed := stop == FailClosed(TelemetryPublishFailed);
      && Sound(c') && n <= |inputs|
      && c.execs + n <= c'.execs <= c.execs + n + (if failed then 1 else 0)
      && Bad(c) + (if stop.Abort? then 1 else 0) <= Bad(c') <= Bad(c) + (if stop.Abort? || failed then 1 else 0)
      && (stop == Continue ==> n == |inputs|)
      && (stop == FailClosed(HarnessFault) ==>
        n < |inputs| && !AtDoor(inputs[n]) && JudgeInput(b, inputs[n]).harnessFault)
      && (stop.Abort? ==> 0 < n && Reportable(b, inputs[n - 1]))
      && forall i :: 0 <= i < n ==>
           && (AtDoor(inputs[i]) || !JudgeInput(b, inputs[i]).harnessFault)
           && (Reportable(b, inputs[i]) ==> i == n - 1 && stop.Abort?)
  {
    hide TestInput, JudgeInput, Sound, Bad, AtDoor, Reportable;
    if inputs != [] {
      TestInputKeeps(b, inputs[0], c);
      FindingReportedIff(b, inputs[0], c);
      var (c', stop) := TestInput(b, inputs[0], c);
      Stops(stop);
      if stop == Continue {
        CampaignCounts(b, inputs[1..], c');
      }
    }
  }

  lemma FreshIsSound()
    ensures Sound(Fresh()) && Bad(Fresh()) == 0
  {
    hide Sum, SEQUENTIAL, CELLS, VERDICTS, Closes, BAD;
    FreshCloses();
    SumZeros(BAD, VERDICTS);
  }
}
