/** Sanitised telemetry (scripts/telemetry_evidence.py): raw job documents are
    parsed against a closed schema, summed, written canonically, and checked
    again, byte for byte, before they are published. */
module Evidence {
  import opened Sequences
  import opened Telemetry
  import opened Totalling

  const MAX_JOBS := 8
  const MAX_COUNTER := 0x100_0000_0000
  const MAX_NANOS := 0x1000_0000_0000_0000
  const DOCUMENT_SCHEMA := "rt4.telemetry/2"
  const EVIDENCE_SCHEMA := "rt4.evidence/1"

  /** Member names: the fixed ones, and any other text as a label. */
  datatype Key =
    | Schema | Identity | BuildKey | ProcessKey | CountersKey | Campaign | Fuzzer | Id | Compiler | Sanitizers
    | JobIndex | Parallelism | StartedNs | UpdatedNs | DurationNs
    | Execs | DoorRejects | Decoded | Selected | Applied | NotApplied | Verdicts
    | RunId | Attempt | Shard | Harness | Jobs | TotalsKey
    | Label(name: string)

  datatype Json =
    | Null | Bool(b: bool) | Int(i: int) | Float(r: real) | Str(s: string)
    | Obj(fields: map<Key, Json>) | List(items: seq<Json>)

  /** The JSON library: the canonical dump and the parser. */
  datatype Codec = Codec(dumps: Json -> Bytes, loads: Bytes -> Option<Json>)

  datatype Build = Build(id: string, compiler: string, sanitizers: string)

  datatype Job = Job(
    jobIndex: nat, parallelism: nat, durationNs: nat, campaign: string, fuzzer: string, build: Build,
    counters: Counters)

  datatype Ids = Ids(run: int, attempt: int, shard: int, harness: string)

  datatype Document = Document(ids: Ids, build: Build, jobs: seq<Job>, totals: Counters)

  // ----- leaf checks -----

  /** Booleans are not numbers here, although Python would take them. */
  function ExpectBounded(j: Json, ceiling: int): (r: Option<nat>)
  {
    if j.Int? && 0 <= j.i <= ceiling then Some(j.i) else None
  }

  predicate IsAlnum(c: char) { 'a' <= c <= 'z' || 'A' <= c <= 'Z' || '0' <= c <= '9' }

  predicate IsVocabulary(s: string)
  {
    && 1 <= |s| <= 64 && IsAlnum(s[0])
    && forall i :: 1 <= i < |s| ==> IsAlnum(s[i]) || s[i] in "._+-"
  }

  function ExpectVocabulary(j: Json): (r: Option<string>)
  {
    if j.Str? && IsVocabulary(j.s) then Some(j.s) else None
  }

  predicate HasKeys(j: Json, keys: set<Key>) { j.Obj? && j.fields.Keys == keys }

  function Labels(keys: seq<string>): (ls: set<Key>)
  {
    set k | k in keys :: Label(k)
  }

  /** Exactly the known keys, each with a bounded count. */
  function ExpectCounts(j: Json, keys: seq<string>, ceiling: nat): (r: Option<Count>)
  {
    if HasKeys(j, Labels(keys)) && (forall k :: k in keys ==> ExpectBounded(j.fields[Label(k)], ceiling).Some?)
    then Some(map k | k in keys :: ExpectBounded(j.fields[Label(k)], ceiling).value)
    else None
  }

  const COUNTER_KEYS: set<Key> := {Execs, DoorRejects, Decoded, Selected, Applied, NotApplied, Verdicts}

  function ExpectCounters(j: Json): (r: Option<Counters>)
  {
    if !HasKeys(j, COUNTER_KEYS) then None
    else
      var f := j.fields;
      var execs, door, decoded := ExpectBounded(f[Execs], MAX_COUNTER), ExpectBounded(f[DoorRejects], MAX_COUNTER),
        ExpectBounded(f[Decoded], MAX_COUNTER);
      var selected, applied := ExpectCounts(f[Selected], CELLS, MAX_COUNTER),
        ExpectCounts(f[Applied], CELLS, MAX_COUNTER);
      var notApplied, verdicts := ExpectCounts(f[NotApplied], CELLS, MAX_COUNTER),
        ExpectCounts(f[Verdicts], VERDICTS, MAX_COUNTER);
      if execs.None? || door.None? || decoded.None? || selected.None? || applied.None? || notApplied.None?
        || verdicts.None? then None
      else
        var c := Counters(execs.value, door.value, decoded.value, selected.value, applied.value, notApplied.value,
          verdicts.value);
        if Closes(c) then Some(c) else None
  }

  function ExpectBuild(j: Json): (r: Option<Build>)
  {
    if !HasKeys(j, {Id, Compiler, Sanitizers}) then None
    else
      var id, compiler, sanitizers := ExpectVocabulary(j.fields[Id]), ExpectVocabulary(j.fields[Compiler]),
        ExpectVocabulary(j.fields[Sanitizers]);
      if id.None? || compiler.None? || sanitizers.None? then None
      else Some(Build(id.value, compiler.value, sanitizers.value))
  }

  // ----- raw documents -----

  function ParseDocument(raw: Json, expectedJob: nat): (r: Option<Job>)
  {
    if !HasKeys(raw, {Schema, Identity, BuildKey, ProcessKey, CountersKey})
      || raw.fields[Schema] != Str(DOCUMENT_SCHEMA) then None
    else
      var identity, process := raw.fields[Identity], raw.fields[ProcessKey];
      if !HasKeys(identity, {Campaign, Fuzzer})
        || !HasKeys(process, {JobIndex, Parallelism, StartedNs, UpdatedNs}) then None
      else
        var index := ExpectBounded(process.fields[JobIndex], MAX_COUNTER);
        var parallelism := ExpectBounded(process.fields[Parallelism], MAX_COUNTER);
        var started := ExpectBounded(process.fields[StartedNs], MAX_NANOS);
        var updated := ExpectBounded(process.fields[UpdatedNs], MAX_NANOS);
        var counters, build := ExpectCounters(raw.fields[CountersKey]), ExpectBuild(raw.fields[BuildKey]);
        var campaign, fuzzer := ExpectVocabulary(identity.fields[Campaign]), ExpectVocabulary(identity.fields[Fuzzer]);
        if index != Some(expectedJob) || parallelism.None? || !(1 <= parallelism.value <= MAX_JOBS) then None
        else if started.None? || updated.None? || updated.value < started.value then None
        else if counters.None? || build.None? || campaign.None? || fuzzer.None? then None
        else Some(Job(expectedJob, parallelism.value, updated.value - started.value, campaign.value, fuzzer.value,
          build.value, counters.value))
  }

  // ----- totals -----

  function CountersOf(jobs: seq<Job>): (cs: seq<Counters>)
    ensures |cs| == |jobs| && forall i :: 0 <= i < |jobs| ==> cs[i] == jobs[i].counters
  {
    seq(|jobs|, i requires 0 <= i < |jobs| => jobs[i].counters)
  }

  function Totals(jobs: seq<Job>): (c: Counters) { Total(CountersOf(jobs)) }

  // ----- sanitise -----

  function ParseAll(raws: seq<Json>, first: nat): (r: Option<seq<Job>>)
  {
    if raws == [] then Some([])
    else
      var job, rest := ParseDocument(raws[0], first), ParseAll(raws[1..], first + 1);
      if job.None? || rest.None? then None else Some([job.value] + rest.value)
  }

  /** The documents of jobs 0..n-1, in index order. */
  function Sanitize(raws: seq<Json>, ids: Ids): (r: Option<Document>)
  {
    if !(1 <= |raws| <= MAX_JOBS) then None
    else match ParseAll(raws, 0)
      case None => None
      case Some(jobs) =>
        if jobs == [] || exists j :: j in jobs && j.build != jobs[0].build then None
        else Some(Document(ids, jobs[0].build, jobs, Totals(jobs)))
  }

  // ----- the canonical form -----

  function CountsJson(m: Count): (j: Json)
  {
    Obj(map k | k in m :: Label(k) := Int(m[k]))
  }

  function CountersJson(c: Counters): (j: Json)
  {
    Obj(map[Execs := Int(c.execs), DoorRejects := Int(c.doorRejects), Decoded := Int(c.decoded),
            Selected := CountsJson(c.selected), Applied := CountsJson(c.applied),
            NotApplied := CountsJson(c.notApplied), Verdicts := CountsJson(c.verdicts)])
  }

  function BuildJson(b: Build): (j: Json)
  {
    Obj(map[Id := Str(b.id), Compiler := Str(b.compiler), Sanitizers := Str(b.sanitizers)])
  }

  function JobJson(job: Job): (j: Json)
  {
    Obj(map[JobIndex := Int(job.jobIndex), Parallelism := Int(job.parallelism), DurationNs := Int(job.durationNs),
            Campaign := Str(job.campaign), Fuzzer := Str(job.fuzzer),
            BuildKey := BuildJson(job.build), CountersKey := CountersJson(job.counters)])
  }

  function JobsJson(jobs: seq<Job>): (js: seq<Json>)
    ensures |js| == |jobs| && forall i :: 0 <= i < |jobs| ==> js[i] == JobJson(jobs[i])
  {
    seq(|jobs|, i requires 0 <= i < |jobs| => JobJson(jobs[i]))
  }

  function DocumentJson(d: Document): (j: Json)
  {
    Obj(map[Schema := Str(EVIDENCE_SCHEMA), RunId := Int(d.ids.run), Attempt := Int(d.ids.attempt),
            Shard := Int(d.ids.shard),
            Harness := Str(d.ids.harness), BuildKey := BuildJson(d.build), Jobs := List(JobsJson(d.jobs)),
            TotalsKey := CountersJson(d.totals)])
  }

  // ----- check -----

  function CheckJob(raw: Json): (r: Option<Job>)
  {
    if !HasKeys(raw, {JobIndex, Parallelism, DurationNs, Campaign, Fuzzer, BuildKey, CountersKey}) then None
    else
      var f := raw.fields;
      var counters, build := ExpectCounters(f[CountersKey]), ExpectBuild(f[BuildKey]);
      var index, parallelism, duration := ExpectBounded(f[JobIndex], MAX_COUNTER),
        ExpectBounded(f[Parallelism], MAX_JOBS), ExpectBounded(f[DurationNs], MAX_NANOS);
      var campaign, fuzzer := ExpectVocabulary(f[Campaign]), ExpectVocabulary(f[Fuzzer]);
      if counters.None? || build.None? || index.None? || parallelism.None? || duration.None? || campaign.None?
        || fuzzer.None? then None
      else Some(Job(index.value, parallelism.value, duration.value, campaign.value, fuzzer.value, build.value,
        counters.value))
  }

  function CheckJobs(raws: seq<Json>, first: nat): (r: Option<seq<Job>>)
  {
    if raws == [] then Some([])
    else
      var job, rest := CheckJob(raws[0]), CheckJobs(raws[1..], first + 1);
      if job.None? || rest.None? || job.value.jobIndex != first then None else Some([job.value] + rest.value)
  }

  /** Python's `==` between a JSON value and an integer: True is 1, 1.0 is 1. */
  predicate EqualsInt(j: Json, n: int)
  {
    match j
    case Int(i) => i == n
    case Bool(b) => n == (if b then 1 else 0)
    case Float(r) => r == n as real
    case _ => false
  }

  const EVIDENCE_KEYS: set<Key> := {Schema, RunId, Attempt, Shard, Harness, BuildKey, Jobs, TotalsKey}

  /** Parse, rebuild from the checked jobs alone, and compare the bytes. */
  function Check(codec: Codec, bytes: Bytes, ids: Ids): (r: Option<Document>)
  {
    match codec.loads(bytes)
    case None => None
    case Some(raw) =>
      if !HasKeys(raw, EVIDENCE_KEYS) then None
      else
        var f := raw.fields;
        if f[Schema] != Str(EVIDENCE_SCHEMA) then None
        else if !EqualsInt(f[RunId], ids.run) || !EqualsInt(f[Attempt], ids.attempt)
          || !EqualsInt(f[Shard], ids.shard) then None
        else if f[Harness] != Str(ids.harness) then None
        else if !f[Jobs].List? || !(1 <= |f[Jobs].items| <= MAX_JOBS) then None
        else match CheckJobs(f[Jobs].items, 0)
          case None => None
          case Some(jobs) =>
            if jobs == [] then None
            else
              var rebuilt := Document(ids, jobs[0].build, jobs, Totals(jobs));
              if codec.dumps(DocumentJson(rebuilt)) == bytes then Some(rebuilt) else None
  }
}
