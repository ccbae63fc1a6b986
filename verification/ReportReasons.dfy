/** Why the promotion gate refuses a document (scripts/validate_rt4.py): the
    code names the first check that fails, in the order of the document. */
module ReportReasons {
  import opened Sequences
  import opened Telemetry
  import opened Evidence
  import opened EvidenceLaws
  import opened Reports

  // ----- what each part must be -----

  predicate IsText(j: Json) { j.Str? && 1 <= |j.s| <= 256 }

  predicate IsNumber(j: Json) { j.Int? && 0 <= j.i <= 0x7FFF_FFFF_FFFF_FFFF }

  /** An object with exactly these members. */
  predicate Shaped(j: Json, keys: set<Key>) { j.Obj? && j.fields.Keys == keys }

  predicate Headed(j: Json)
  {
    Shaped(j, {Schema, Identity, BuildKey, ProcessKey, CountersKey}) && j.fields[Schema] == Str("rt4.telemetry/2")
  }

  predicate IsOrigin(j: Json)
  {
    Shaped(j, {Campaign, Fuzzer}) && IsText(j.fields[Campaign]) && IsText(j.fields[Fuzzer])
  }

  predicate IsBuild(j: Json)
  {
    && Shaped(j, {Id, Compiler, Sanitizers})
    && IsText(j.fields[Id]) && IsText(j.fields[Compiler]) && IsText(j.fields[Sanitizers])
  }

  /** The checks of the process part that come before the given code's own. */
  predicate ProcessUpTo(j: Json, index: nat, code: Code)
  {
    && Shaped(j, {JobIndex, Parallelism, StartedNs, UpdatedNs})
    && (code == JobIndexValue || IsNumber(j.fields[JobIndex]))
    && (code in {JobIndexValue, JobIndexMismatch} || j.fields[JobIndex] == Int(index))
    && (code in {JobIndexValue, JobIndexMismatch, ParallelismValue}
        || (IsNumber(j.fields[Parallelism]) && j.fields[Parallelism].i >= 1))
    && (code in {JobIndexValue, JobIndexMismatch, ParallelismValue, Timestamp}
        || (IsNumber(j.fields[StartedNs]) && IsNumber(j.fields[UpdatedNs])))
    && (code in {JobIndexValue, JobIndexMismatch, ParallelismValue, Timestamp, InvalidInterval}
        || j.fields[StartedNs].i < j.fields[UpdatedNs].i)
  }

  lemma OriginReason(j: Json, code: Code)
    ensures ParseOrigin(j).Ok? <==> IsOrigin(j)
    ensures ParseOrigin(j) == Err(code) <==>
      || (code == IdentityShape && !Shaped(j, {Campaign, Fuzzer}))
      || (code == IdentityValue && Shaped(j, {Campaign, Fuzzer}) && !IsOrigin(j))
  {
  }

  lemma BuildReason(j: Json, code: Code)
    ensures ParseBuild(j).Ok? <==> IsBuild(j)
    ensures ParseBuild(j) == Err(code) <==>
      || (code == BuildShape && !Shaped(j, {Id, Compiler, Sanitizers}))
      || (code == BuildValue && Shaped(j, {Id, Compiler, Sanitizers}) && !IsBuild(j))
  {
  }

  /** The process part: first its shape, then the index, the parallelism, the
      two times, and that time passed. */
  lemma ProcessReason(j: Json, index: nat, code: Code)
    ensures ParseProcess(j, index).Ok? <==> ProcessUpTo(j, index, NoJobs)
    ensures ParseProcess(j, index) == Err(code) <==>
      if code == ProcessShape then !Shaped(j, {JobIndex, Parallelism, StartedNs, UpdatedNs})
      else
        && ProcessUpTo(j, index, code)
        && (match code
            case JobIndexValue => !IsNumber(j.fields[JobIndex])
            case JobIndexMismatch => j.fields[JobIndex] != Int(index)
            case ParallelismValue => !(IsNumber(j.fields[Parallelism]) && j.fields[Parallelism].i >= 1)
            case Timestamp => !(IsNumber(j.fields[StartedNs]) && IsNumber(j.fields[UpdatedNs]))
            case InvalidInterval => j.fields[StartedNs].i >= j.fields[UpdatedNs].i
            case _ => false)
  {
  }

  /** A map with exactly these members, all of them numbers. */
  predicate Counted(j: Json, keys: seq<string>)
  {
    Shaped(j, Labels(keys)) && forall k :: k in keys ==> IsNumber(j.fields[Label(k)])
  }

  lemma CountedIff(j: Json, keys: seq<string>)
    ensures ExpectCounts(j, keys, LIMIT).Some? <==> Counted(j, keys)
  {
  }

  predicate ThreeNumbers(j: Json)
  {
    && Shaped(j, {Execs, DoorRejects, Decoded, Selected, Applied, NotApplied, Verdicts})
    && IsNumber(j.fields[Execs]) && IsNumber(j.fields[DoorRejects]) && IsNumber(j.fields[Decoded])
  }

  predicate IsCounters(j: Json)
  {
    && ThreeNumbers(j) && Counted(j.fields[Selected], CELLS) && Counted(j.fields[Applied], CELLS)
    && Counted(j.fields[NotApplied], CELLS) && Counted(j.fields[Verdicts], VERDICTS)
  }

  /** The counters: first their shape, then the three numbers, then the maps in
      the order in which a case passes through them. */
  lemma CountersReason(j: Json, code: Code)
    ensures ParseCounters(j).Ok? <==> IsCounters(j)
    ensures ParseCounters(j) == Err(code) <==>
      match code
      case CountersShape => !Shaped(j, {Execs, DoorRejects, Decoded, Selected, Applied, NotApplied, Verdicts})
      case CounterValue =>
        !ThreeNumbers(j) && Shaped(j, {Execs, DoorRejects, Decoded, Selected, Applied, NotApplied, Verdicts})
      case SelectedMap => ThreeNumbers(j) && !Counted(j.fields[Selected], CELLS)
      case AppliedMap =>
        ThreeNumbers(j) && Counted(j.fields[Selected], CELLS) && !Counted(j.fields[Applied], CELLS)
      case NotAppliedMap =>
        && ThreeNumbers(j) && Counted(j.fields[Selected], CELLS) && Counted(j.fields[Applied], CELLS)
        && !Counted(j.fields[NotApplied], CELLS)
      case VerdictMap =>
        && ThreeNumbers(j) && Counted(j.fields[Selected], CELLS) && Counted(j.fields[Applied], CELLS)
        && Counted(j.fields[NotApplied], CELLS) && !Counted(j.fields[Verdicts], VERDICTS)
      case _ => false
  {
    hide ExpectCounts, Counted, CELLS, VERDICTS;
    if HasKeys(j, COUNTER_KEYS) {
      CountedIff(j.fields[Selected], CELLS);
      CountedIff(j.fields[Applied], CELLS);
      CountedIff(j.fields[NotApplied], CELLS);
      CountedIff(j.fields[Verdicts], VERDICTS);
    }
  }

  // ----- the equations -----

  /** The first cell of the list whose cases are not all accounted for. */
  ghost predicate FirstOff(c: Counters, cells: seq<string>, i: nat)
  {
    && i < |cells| && At(c.applied)(cells[i]) + At(c.notApplied)(cells[i]) != At(c.selected)(cells[i])
    && forall k :: 0 <= k < i ==> At(c.applied)(cells[k]) + At(c.notApplied)(cells[k]) == At(c.selected)(cells[k])
  }

  lemma {:induction false} CellReason(c: Counters, cells: seq<string>) returns (i: nat)
    requires FitsMap(c.selected) && CellError(c, cells).Some?
    ensures FirstOff(c, cells, i)
    ensures CellError(c, cells).value ==
      if At(c.applied)(cells[i]) + At(c.notApplied)(cells[i]) > LIMIT then CounterOverflow else ApplicationEquation
  {
    var k := cells[0];
    if At(c.applied)(k) + At(c.notApplied)(k) != At(c.selected)(k) {
      i := 0;
    } else {
      var j := CellReason(c, cells[1..]);
      i := j + 1;
      assert cells[1..][j] == cells[i] && forall l :: 0 < l < i ==> cells[l] == cells[1..][l - 1];
    }
  }

  /** Which equation is blamed: executions, selections, cells, verdicts. */
  ghost predicate Blamed(c: Counters, code: Code)
  {
    if c.doorRejects + c.decoded != c.execs then
      code == if c.doorRejects + c.decoded > LIMIT then CounterOverflow else ExecsEquation
    else if Sum(c.selected, CELLS) != c.decoded then code == SelectedEquation
    else if exists i: nat :: FirstOff(c, CELLS, i) then
      exists i: nat :: FirstOff(c, CELLS, i) && code ==
        if At(c.applied)(CELLS[i]) + At(c.notApplied)(CELLS[i]) > LIMIT then CounterOverflow else ApplicationEquation
    else code == VerdictEquation && Sum(c.verdicts, VERDICTS) != Sum(c.applied, CELLS)
  }

  lemma EquationReason(c: Counters, code: Code)
    requires Fits(c) && EquationError(c) == Some(code)
    ensures Blamed(c, code)
  {
    hide Sum, At, CELLS, VERDICTS, FitsMap, CellError;
    if CellError(c, CELLS).Some? {
      var i := CellReason(c, CELLS);
    } else {
      CellErrorNoneIff(c, CELLS);
    }
  }

  // ----- the whole document -----

  /** The reason of the first part that is wrong. */
  ghost predicate Refused(j: Json, index: nat, code: Code)
  {
    if !Shaped(j, {Schema, Identity, BuildKey, ProcessKey, CountersKey}) then code == DocumentShape
    else if !Headed(j) then code == SchemaMismatch
    else if !IsOrigin(j.fields[Identity]) then ParseOrigin(j.fields[Identity]) == Err(code)
    else if !IsBuild(j.fields[BuildKey]) then ParseBuild(j.fields[BuildKey]) == Err(code)
    else if !ProcessUpTo(j.fields[ProcessKey], index, NoJobs)
      then ParseProcess(j.fields[ProcessKey], index) == Err(code)
    else if !IsCounters(j.fields[CountersKey]) then ParseCounters(j.fields[CountersKey]) == Err(code)
    else exists c :: j.fields[CountersKey] == CountersJson(c) && Fits(c) && Blamed(c, code)
  }

  lemma DocumentReason(j: Json, index: nat, code: Code)
    requires ParseReport(j, index) == Err(code)
    ensures Refused(j, index, code)
  {
    hide ParseOrigin, ParseBuild, ParseProcess, ParseCounters, EquationError, CountersJson, Vocabulary, Fits, Blamed,
      IsOrigin, IsBuild, ProcessUpTo, IsCounters;
    if Headed(j) {
      OriginReason(j.fields[Identity], code);
      BuildReason(j.fields[BuildKey], code);
      ProcessReason(j.fields[ProcessKey], index, code);
      CountersReason(j.fields[CountersKey], code);
      if ParseCounters(j.fields[CountersKey]).Ok? {
        var c := ParseCounters(j.fields[CountersKey]).value;
        CountersIff(j.fields[CountersKey], c);
        if EquationError(c) == Some(code) { EquationReason(c, code); }
      }
    }
  }
}
