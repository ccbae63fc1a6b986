/** One telemetry document at the promotion gate (scripts/validate_rt4.py): the
    JSON value that a job wrote, checked member by member against a closed
    schema, and its four equations. */
module Reports {
  import opened Sequences
  import opened Telemetry
  import opened Evidence
  import opened EvidenceLaws

  const LIMIT := 0x7FFF_FFFF_FFFF_FFFF

  datatype Code =
    | DuplicateJobIndex | ClaimDocumentMismatch | NoJobs | UnreadableDocument
    | DocumentShape | SchemaMismatch | IdentityShape | IdentityValue | BuildShape | BuildValue
    | ProcessShape | JobIndexValue | JobIndexMismatch | ParallelismValue | Timestamp | InvalidInterval
    | CountersShape | CounterValue | SelectedMap | AppliedMap | NotAppliedMap | VerdictMap
    | CounterOverflow | ExecsEquation | SelectedEquation | ApplicationEquation | VerdictEquation
    | ParallelismMismatch | IdentityMismatch | BuildMismatch
    | OverlapExceedsParallelism | CellUnreached | VacuousCell

  datatype Origin = Origin(campaign: string, fuzzer: string)

  datatype Process = Process(jobIndex: nat, parallelism: nat, started: nat, updated: nat)

  /** What a job reports. */
  datatype Report = Report(origin: Origin, build: Build, process: Process, counters: Counters)

  // ----- as the job writes it -----

  function OriginJson(o: Origin): (j: Json)
  {
    Obj(map[Campaign := Str(o.campaign), Fuzzer := Str(o.fuzzer)])
  }

  function ProcessJson(p: Process): (j: Json)
  {
    Obj(map[JobIndex := Int(p.jobIndex), Parallelism := Int(p.parallelism), StartedNs := Int(p.started),
            UpdatedNs := Int(p.updated)])
  }

  function ReportJson(r: Report): (j: Json)
  {
    Obj(map[Schema := Str(DOCUMENT_SCHEMA), Identity := OriginJson(r.origin), BuildKey := BuildJson(r.build),
            ProcessKey := ProcessJson(r.process), CountersKey := CountersJson(r.counters)])
  }

  // ----- what is in range -----

  predicate Text(s: string) { 1 <= |s| <= 256 }

  predicate OriginInRange(o: Origin) { Text(o.campaign) && Text(o.fuzzer) }

  predicate BuildInRange(b: Build) { Text(b.id) && Text(b.compiler) && Text(b.sanitizers) }

  predicate ProcessInRange(p: Process, index: nat)
  {
    p.jobIndex == index <= LIMIT && 1 <= p.parallelism <= LIMIT && p.started < p.updated <= LIMIT
  }

  ghost predicate FitsMap(m: Count) { Below(m, LIMIT) }

  ghost predicate Fits(c: Counters)
  {
    && c.execs <= LIMIT && c.doorRejects <= LIMIT && c.decoded <= LIMIT
    && FitsMap(c.selected) && FitsMap(c.applied) && FitsMap(c.notApplied) && FitsMap(c.verdicts)
  }

  ghost predicate ReportOk(r: Report, index: nat)
  {
    && OriginInRange(r.origin) && BuildInRange(r.build) && ProcessInRange(r.process, index)
    && Vocabulary(r.counters) && Fits(r.counters) && Closes(r.counters)
  }

  // ----- the checks -----

  function ExpectText(j: Json): (r: Option<string>)
  {
    if j.Str? && Text(j.s) then Some(j.s) else None
  }

  function ParseOrigin(j: Json): (r: Result<Origin, Code>)
  {
    if !HasKeys(j, {Campaign, Fuzzer}) then Err(IdentityShape)
    else
      var campaign, fuzzer := ExpectText(j.fields[Campaign]), ExpectText(j.fields[Fuzzer]);
      if campaign.None? || fuzzer.None? then Err(IdentityValue) else Ok(Origin(campaign.value, fuzzer.value))
  }

  function ParseBuild(j: Json): (r: Result<Build, Code>)
  {
    if !HasKeys(j, {Id, Compiler, Sanitizers}) then Err(BuildShape)
    else
      var id, compiler, sanitizers := ExpectText(j.fields[Id]), ExpectText(j.fields[Compiler]),
        ExpectText(j.fields[Sanitizers]);
      if id.None? || compiler.None? || sanitizers.None? then Err(BuildValue)
      else Ok(Build(id.value, compiler.value, sanitizers.value))
  }

  function ParseProcess(j: Json, index: nat): (r: Result<Process, Code>)
  {
    if !HasKeys(j, {JobIndex, Parallelism, StartedNs, UpdatedNs}) then Err(ProcessShape)
    else
      var job, parallelism := ExpectBounded(j.fields[JobIndex], LIMIT), ExpectBounded(j.fields[Parallelism], LIMIT);
      var started, updated := ExpectBounded(j.fields[StartedNs], LIMIT), ExpectBounded(j.fields[UpdatedNs], LIMIT);
      if job.None? then Err(JobIndexValue)
      else if job.value != index then Err(JobIndexMismatch)
      else if parallelism.None? || parallelism.value < 1 then Err(ParallelismValue)
      else if started.None? || updated.None? then Err(Timestamp)
      else if started.value >= updated.value then Err(InvalidInterval)
      else Ok(Process(job.value, parallelism.value, started.value, updated.value))
  }

  function ParseCounters(j: Json): (r: Result<Counters, Code>)
  {
    if !HasKeys(j, COUNTER_KEYS) then Err(CountersShape)
    else
      var f := j.fields;
      var execs, door, decoded := ExpectBounded(f[Execs], LIMIT), ExpectBounded(f[DoorRejects], LIMIT),
        ExpectBounded(f[Decoded], LIMIT);
      var selected, applied := ExpectCounts(f[Selected], CELLS, LIMIT), ExpectCounts(f[Applied], CELLS, LIMIT);
      var notApplied, verdicts := ExpectCounts(f[NotApplied], CELLS, LIMIT), ExpectCounts(f[Verdicts], VERDICTS, LIMIT);
      if execs.None? || door.None? || decoded.None? then Err(CounterValue)
      else if selected.None? then Err(SelectedMap)
      else if applied.None? then Err(AppliedMap)
      else if notApplied.None? then Err(NotAppliedMap)
      else if verdicts.None? then Err(VerdictMap)
      else Ok(Counters(execs.value, door.value, decoded.value, selected.value, applied.value, notApplied.value,
        verdicts.value))
  }

  function CheckedAdd(x: nat, y: nat): (r: Result<nat, Code>)
  {
    if x + y > LIMIT then Err(CounterOverflow) else Ok(x + y)
  }

  function CellError(c: Counters, cells: seq<string>): (r: Option<Code>)
  {
    if cells == [] then None
    else
      var k := cells[0];
      match CheckedAdd(At(c.applied)(k), At(c.notApplied)(k))
      case Err(e) => Some(e)
      case Ok(n) => if n != At(c.selected)(k) then Some(ApplicationEquation) else CellError(c, cells[1..])
  }

  function EquationError(c: Counters): (e: Option<Code>)
  {
    match CheckedAdd(c.doorRejects, c.decoded)
    case Err(e) => Some(e)
    case Ok(n) =>
      if n != c.execs then Some(ExecsEquation)
      else if Sum(c.selected, CELLS) != c.decoded then Some(SelectedEquation)
      else if CellError(c, CELLS).Some? then CellError(c, CELLS)
      else if Sum(c.verdicts, VERDICTS) != Sum(c.applied, CELLS) then Some(VerdictEquation)
      else None
  }

  const REPORT_KEYS: set<Key> := {Schema, Identity, BuildKey, ProcessKey, CountersKey}

  /** The checks in their order; the first one that fails names the reason. */
  function ParseReport(j: Json, index: nat): (r: Result<Report, Code>)
  {
    if !HasKeys(j, REPORT_KEYS) then Err(DocumentShape)
    else if j.fields[Schema] != Str(DOCUMENT_SCHEMA) then Err(SchemaMismatch)
    else match ParseOrigin(j.fields[Identity])
      case Err(e) => Err(e)
      case Ok(origin) =>
        match ParseBuild(j.fields[BuildKey])
        case Err(e) => Err(e)
        case Ok(build) =>
          match ParseProcess(j.fields[ProcessKey], index)
          case Err(e) => Err(e)
          case Ok(process) =>
            match ParseCounters(j.fields[CountersKey])
            case Err(e) => Err(e)
            case Ok(counters) =>
              match EquationError(counters)
              case Some(e) => Err(e)
              case None => Ok(Report(origin, build, process, counters))
  }

  // ----- each check is exact -----

  lemma OriginIff(j: Json, o: Origin)
    ensures ParseOrigin(j) == Ok(o) <==> j == OriginJson(o) && OriginInRange(o)
  {
    assert OriginJson(o).fields.Keys == {Campaign, Fuzzer};
    if ParseOrigin(j) == Ok(o) { assert j.fields == OriginJson(o).fields; }
  }

  lemma BuildIff(j: Json, b: Build)
    ensures ParseBuild(j) == Ok(b) <==> j == BuildJson(b) && BuildInRange(b)
  {
    assert BuildJson(b).fields.Keys == {Id, Compiler, Sanitizers};
    if ParseBuild(j) == Ok(b) { assert j.fields == BuildJson(b).fields; }
  }

  lemma ProcessIff(j: Json, index: nat, p: Process)
    ensures ParseProcess(j, index) == Ok(p) <==> j == ProcessJson(p) && ProcessInRange(p, index)
  {
    assert ProcessJson(p).fields.Keys == {JobIndex, Parallelism, StartedNs, UpdatedNs};
    if ParseProcess(j, index) == Ok(p) { assert j.fields == ProcessJson(p).fields; }
  }

  lemma CountsIff(j: Json, keys: seq<string>, m: Count)
    ensures ExpectCounts(j, keys, LIMIT) == Some(m) <==>
      j == CountsJson(m) && m.Keys == (set k | k in keys) && FitsMap(m)
  {
    hide ExpectCounts, CountsJson;
    if ExpectCounts(j, keys, LIMIT).Some? {
      CountsOk(j, keys, LIMIT);
      CountsExact(j, keys, LIMIT);
    }
    if m.Keys == (set k | k in keys) && FitsMap(m) { CountsRoundTrip(m, keys, LIMIT); }
  }

  lemma CountersParsed(j: Json, c: Counters)
    requires ParseCounters(j) == Ok(c)
    ensures j == CountersJson(c) && Vocabulary(c) && Fits(c)
  {
    hide ExpectCounts, CountsJson, CELLS, VERDICTS, FitsMap;
    CountsIff(j.fields[Selected], CELLS, c.selected);
    CountsIff(j.fields[Applied], CELLS, c.applied);
    CountsIff(j.fields[NotApplied], CELLS, c.notApplied);
    CountsIff(j.fields[Verdicts], VERDICTS, c.verdicts);
    assert j.fields == CountersJson(c).fields;
  }

  lemma CountersParse(c: Counters)
    requires Vocabulary(c) && Fits(c)
    ensures ParseCounters(CountersJson(c)) == Ok(c)
  {
    hide ExpectCounts, CountsJson, CELLS, VERDICTS, FitsMap;
    CountsIff(CountsJson(c.selected), CELLS, c.selected);
    CountsIff(CountsJson(c.applied), CELLS, c.applied);
    CountsIff(CountsJson(c.notApplied), CELLS, c.notApplied);
    CountsIff(CountsJson(c.verdicts), VERDICTS, c.verdicts);
    assert CountersJson(c).fields.Keys == COUNTER_KEYS;
  }

  lemma CountersIff(j: Json, c: Counters)
    ensures ParseCounters(j) == Ok(c) <==> j == CountersJson(c) && Vocabulary(c) && Fits(c)
  {
    hide ParseCounters, CountersJson, Vocabulary, Fits;
    if ParseCounters(j) == Ok(c) { CountersParsed(j, c); }
    if Vocabulary(c) && Fits(c) { CountersParse(c); }
  }

  lemma {:induction false} CellErrorNoneIff(c: Counters, cells: seq<string>)
    requires FitsMap(c.selected)
    ensures CellError(c, cells).None? <==>
      forall k :: k in cells ==> At(c.applied)(k) + At(c.notApplied)(k) == At(c.selected)(k)
  {
    if cells != [] { CellErrorNoneIff(c, cells[1..]); }
  }

  lemma EquationsIff(c: Counters)
    requires Fits(c)
    ensures EquationError(c).None? <==> Closes(c)
  {
    hide CellError, Sum, At, CELLS, VERDICTS, FitsMap;
    CellErrorNoneIff(c, CELLS);
  }

  /** The document check accepts exactly the JSON values of reports that are in
      range, carry the index of their file name and close all four equations,
      and returns that report; no checked addition can overflow in one. */
  lemma ReportAcceptedIff(j: Json, index: nat, r: Report)
    ensures ParseReport(j, index) == Ok(r) <==> j == ReportJson(r) && ReportOk(r, index)
  {
    hide ParseOrigin, ParseBuild, ParseProcess, ParseCounters, EquationError, OriginJson, BuildJson, ProcessJson,
      CountersJson, Closes, Vocabulary, Fits, OriginInRange, BuildInRange, ProcessInRange;
    assert ReportJson(r).fields.Keys == REPORT_KEYS;
    if HasKeys(j, REPORT_KEYS) {
      OriginIff(j.fields[Identity], r.origin);
      BuildIff(j.fields[BuildKey], r.build);
      ProcessIff(j.fields[ProcessKey], index, r.process);
      CountersIff(j.fields[CountersKey], r.counters);
      if Fits(r.counters) { EquationsIff(r.counters); }
      if ParseReport(j, index) == Ok(r) { assert j.fields == ReportJson(r).fields; }
    }
  }
}
