/** The laws of the evidence pipeline: checking accepts exactly the canonical
    bytes of well-formed evidence; what the sanitiser emits is always accepted;
    and precisely which accepted documents a sanitiser could have emitted. */
module EvidenceLaws {
  import opened Sequences
  import opened Telemetry
  import opened Totalling
  import opened Evidence

  // ----- well-formed values -----

  ghost predicate Bounded(m: Count) { Below(m, MAX_COUNTER) }

  ghost predicate CountersOk(c: Counters)
  {
    && Vocabulary(c) && Closes(c)
    && c.execs <= MAX_COUNTER && c.doorRejects <= MAX_COUNTER && c.decoded <= MAX_COUNTER
    && Bounded(c.selected) && Bounded(c.applied) && Bounded(c.notApplied) && Bounded(c.verdicts)
  }

  /** The ASCII codes of digits, capitals and small letters. */
  predicate LetterOrDigit(c: char) { 48 <= c as int <= 57 || 65 <= c as int <= 90 || 97 <= c as int <= 122 }

  lemma AlnumIff(c: char)
    ensures IsAlnum(c) <==> LetterOrDigit(c)
  {
  }

  /** A word of the vocabulary: up to 64 characters, the first a letter or digit. */
  lemma VocabularyIff(s: string)
    ensures IsVocabulary(s) <==>
      && s != "" && |s| < 65 && LetterOrDigit(s[0])
      && forall c :: c in s ==> LetterOrDigit(c) || c in "._+-"
  {
    hide IsAlnum, LetterOrDigit;
    forall c ensures IsAlnum(c) <==> LetterOrDigit(c) { AlnumIff(c); }
  }

  ghost predicate BuildOk(b: Build)
  {
    IsVocabulary(b.id) && IsVocabulary(b.compiler) && IsVocabulary(b.sanitizers)
  }

  ghost predicate JobOk(j: Job)
  {
    && j.jobIndex <= MAX_COUNTER && j.parallelism <= MAX_JOBS && j.durationNs <= MAX_NANOS
    && IsVocabulary(j.campaign) && IsVocabulary(j.fuzzer) && BuildOk(j.build) && CountersOk(j.counters)
  }

  ghost predicate JobsOk(jobs: seq<Job>, first: nat)
  {
    forall i :: 0 <= i < |jobs| ==> JobOk(jobs[i]) && jobs[i].jobIndex == first + i
  }

  /** Canonical evidence for the given identifiers. */
  ghost predicate WellFormed(d: Document, ids: Ids)
  {
    && d.ids == ids && 1 <= |d.jobs| <= MAX_JOBS && JobsOk(d.jobs, 0)
    && d.build == d.jobs[0].build && d.totals == Totals(d.jobs)
  }

  /** Dumping evidence and parsing it back loses nothing. */
  ghost predicate Faithful(codec: Codec)
  {
    forall d: Document :: codec.loads(codec.dumps(DocumentJson(d))) == Some(DocumentJson(d))
  }

  // ----- parts round trip -----

  ghost predicate Below(m: Count, ceiling: nat) { forall k :: k in m ==> m[k] <= ceiling }

  lemma CountsKeys(m: Count, keys: seq<string>)
    requires m.Keys == (set k | k in keys)
    ensures CountsJson(m).Obj? && CountsJson(m).fields.Keys == Labels(keys)
  {
    forall l ensures l in CountsJson(m).fields.Keys <==> l in Labels(keys) {
      if l in Labels(keys) { assert l.Label? && l.name in keys; }
      if l in CountsJson(m).fields.Keys { assert l.Label? && l.name in m; }
    }
  }

  lemma CountsValue(m: Count, ceiling: nat, k: string)
    requires k in m && m[k] <= ceiling
    ensures Label(k) in CountsJson(m).fields && CountsJson(m).fields[Label(k)] == Int(m[k])
    ensures ExpectBounded(CountsJson(m).fields[Label(k)], ceiling) == Some(m[k])
  {
  }

  lemma CountsRoundTrip(m: Count, keys: seq<string>, ceiling: nat)
    requires m.Keys == (set k | k in keys) && Below(m, ceiling)
    ensures ExpectCounts(CountsJson(m), keys, ceiling) == Some(m)
  {
    hide CountsJson, Labels, ExpectBounded;
    CountsKeys(m, keys);
    forall k | k in keys
      ensures Label(k) in CountsJson(m).fields && ExpectBounded(CountsJson(m).fields[Label(k)], ceiling) == Some(m[k])
    {
      assert k in m;
      CountsValue(m, ceiling, k);
    }
    assert (map k | k in keys :: ExpectBounded(CountsJson(m).fields[Label(k)], ceiling).value) == m;
  }

  lemma CountsOk(j: Json, keys: seq<string>, ceiling: nat)
    requires ExpectCounts(j, keys, ceiling).Some?
    ensures var m := ExpectCounts(j, keys, ceiling).value; m.Keys == (set k | k in keys) && Below(m, ceiling)
  {
  }

  /** The parsed counts are all there is in the object. */
  lemma CountsExact(j: Json, keys: seq<string>, ceiling: nat)
    requires ExpectCounts(j, keys, ceiling).Some?
    ensures j == CountsJson(ExpectCounts(j, keys, ceiling).value)
  {
    var m := ExpectCounts(j, keys, ceiling).value;
    CountsOk(j, keys, ceiling);
    CountsKeys(m, keys);
    forall l | l in j.fields ensures j.fields[l] == CountsJson(m).fields[l] {
      assert l in Labels(keys);
      assert l.Label? && l.name in keys;
      CountsValue(m, ceiling, l.name);
    }
  }

  lemma CountersRoundTrip(c: Counters)
    requires CountersOk(c)
    ensures ExpectCounters(CountersJson(c)) == Some(c)
  {
    hide Closes, CountsJson, ExpectCounts, CELLS, VERDICTS;
    CountsRoundTrip(c.selected, CELLS, MAX_COUNTER);
    CountsRoundTrip(c.applied, CELLS, MAX_COUNTER);
    CountsRoundTrip(c.notApplied, CELLS, MAX_COUNTER);
    CountsRoundTrip(c.verdicts, VERDICTS, MAX_COUNTER);
    assert CountersJson(c).fields.Keys == COUNTER_KEYS;
  }

  lemma CountersChecked(j: Json)
    requires ExpectCounters(j).Some?
    ensures CountersOk(ExpectCounters(j).value)
  {
    hide Closes, ExpectCounts, CELLS, VERDICTS;
    CountsOk(j.fields[Selected], CELLS, MAX_COUNTER);
    CountsOk(j.fields[Applied], CELLS, MAX_COUNTER);
    CountsOk(j.fields[NotApplied], CELLS, MAX_COUNTER);
    CountsOk(j.fields[Verdicts], VERDICTS, MAX_COUNTER);
  }

  lemma BuildRoundTrip(b: Build)
    requires BuildOk(b)
    ensures ExpectBuild(BuildJson(b)) == Some(b)
  {
    hide IsVocabulary;
    assert BuildJson(b).fields.Keys == {Id, Compiler, Sanitizers};
  }

  lemma BuildChecked(j: Json)
    requires ExpectBuild(j).Some?
    ensures BuildOk(ExpectBuild(j).value)
  {
    hide IsVocabulary;
  }

  lemma JobRoundTrip(job: Job)
    requires JobOk(job)
    ensures CheckJob(JobJson(job)) == Some(job)
  {
    hide IsVocabulary, CountersOk, BuildOk, ExpectCounters, ExpectBuild, CountersJson, BuildJson;
    CountersRoundTrip(job.counters);
    BuildRoundTrip(job.build);
    assert JobJson(job).fields.Keys == {JobIndex, Parallelism, DurationNs, Campaign, Fuzzer, BuildKey, CountersKey};
  }

  lemma JobChecked(raw: Json)
    requires CheckJob(raw).Some?
    ensures JobOk(CheckJob(raw).value)
  {
    hide IsVocabulary, CountersOk, BuildOk, ExpectCounters, ExpectBuild;
    CountersChecked(raw.fields[CountersKey]);
    BuildChecked(raw.fields[BuildKey]);
  }

  lemma {:induction false} JobsRoundTrip(jobs: seq<Job>, first: nat)
    requires JobsOk(jobs, first)
    ensures CheckJobs(JobsJson(jobs), first) == Some(jobs)
    decreases |jobs|
  {
    hide JobOk, CheckJob, JobJson;
    if jobs != [] {
      assert JobOk(jobs[0]);
      JobRoundTrip(jobs[0]);
      assert forall i :: 0 <= i < |jobs| - 1 ==> jobs[1..][i] == jobs[i + 1];
      assert JobsJson(jobs)[1..] == JobsJson(jobs[1..]);
      JobsRoundTrip(jobs[1..], first + 1);
      assert [jobs[0]] + jobs[1..] == jobs;
    }
  }

  lemma {:induction false} JobsChecked(raws: seq<Json>, first: nat)
    requires CheckJobs(raws, first).Some?
    ensures var jobs := CheckJobs(raws, first).value; |jobs| == |raws| && JobsOk(jobs, first)
    decreases |raws|
  {
    hide JobOk, CheckJob;
    if raws != [] {
      JobChecked(raws[0]);
      JobsChecked(raws[1..], first + 1);
    }
  }

  // ----- the check is exact -----

  /** `check` accepts exactly the canonical bytes of well-formed evidence for
      the given identifiers, and returns that evidence. */
  lemma CheckAcceptsIff(codec: Codec, bytes: Bytes, ids: Ids, d: Document)
    requires Faithful(codec)
    ensures Check(codec, bytes, ids) == Some(d) <==> WellFormed(d, ids) && bytes == codec.dumps(DocumentJson(d))
  {
    if WellFormed(d, ids) && bytes == codec.dumps(DocumentJson(d)) { CanonicalIsAccepted(codec, ids, d); }
    if Check(codec, bytes, ids) == Some(d) { AcceptedIsCanonical(codec, bytes, ids); }
  }

  lemma CanonicalIsAccepted(codec: Codec, ids: Ids, d: Document)
    requires Faithful(codec) && WellFormed(d, ids)
    ensures Check(codec, codec.dumps(DocumentJson(d)), ids) == Some(d)
  {
    hide JobOk, CheckJobs, JobJson, Totals, CountersJson, BuildJson;
    var j := DocumentJson(d);
    assert codec.loads(codec.dumps(j)) == Some(j);
    assert j.fields.Keys == EVIDENCE_KEYS;
    JobsRoundTrip(d.jobs, 0);
  }

  lemma AcceptedIsCanonical(codec: Codec, bytes: Bytes, ids: Ids)
    requires Check(codec, bytes, ids).Some?
    ensures var d := Check(codec, bytes, ids).value; WellFormed(d, ids) && bytes == codec.dumps(DocumentJson(d))
  {
    hide JobOk, CheckJobs, Totals, DocumentJson;
    JobsChecked(codec.loads(bytes).value.fields[Jobs].items, 0);
  }

  // ----- totals -----

  /** The totals of closing jobs close the same four equations. */
  lemma TotalsClose(jobs: seq<Job>)
    requires forall i :: 0 <= i < |jobs| ==> Closes(jobs[i].counters)
    ensures Vocabulary(Totals(jobs)) && Closes(Totals(jobs))
  {
    hide Closes, Vocabulary, Total;
    TotalCloses(CountersOf(jobs));
  }

  /** Whatever `check` accepts has totals that are the sums of its jobs and
      close the equations again. */
  lemma AcceptedTotals(codec: Codec, bytes: Bytes, ids: Ids)
    requires Check(codec, bytes, ids).Some?
    ensures var d := Check(codec, bytes, ids).value; d.totals == Totals(d.jobs) && Closes(d.totals)
  {
    hide Totals, Closes, DocumentJson, Check;
    AcceptedIsCanonical(codec, bytes, ids);
    var d := Check(codec, bytes, ids).value;
    assert forall i :: 0 <= i < |d.jobs| ==> JobOk(d.jobs[i]);
    TotalsClose(d.jobs);
  }

  // ----- what the sanitiser emits -----

  lemma DocumentChecked(raw: Json, index: nat)
    requires ParseDocument(raw, index).Some?
    ensures var j := ParseDocument(raw, index).value; JobOk(j) && j.jobIndex == index && j.parallelism >= 1
  {
    hide IsVocabulary, CountersOk, BuildOk, ExpectCounters, ExpectBuild;
    CountersChecked(raw.fields[CountersKey]);
    BuildChecked(raw.fields[BuildKey]);
  }

  lemma {:induction false} DocumentsChecked(raws: seq<Json>, first: nat)
    requires ParseAll(raws, first).Some?
    ensures var jobs := ParseAll(raws, first).value;
      |jobs| == |raws| && JobsOk(jobs, first) && forall i :: 0 <= i < |jobs| ==> jobs[i].parallelism >= 1
    decreases |raws|
  {
    hide JobOk, ParseDocument;
    if raws != [] {
      DocumentChecked(raws[0], first);
      DocumentsChecked(raws[1..], first + 1);
    }
  }

  /** Sanitise, dump, check is a round trip. */
  lemma SanitisedIsAccepted(codec: Codec, raws: seq<Json>, ids: Ids)
    requires Faithful(codec) && Sanitize(raws, ids).Some?
    ensures var d := Sanitize(raws, ids).value; Check(codec, codec.dumps(DocumentJson(d)), ids) == Some(d)
  {
    hide JobOk, ParseAll, Totals, DocumentJson, Faithful, Check;
    DocumentsChecked(raws, 0);
    CanonicalIsAccepted(codec, ids, Sanitize(raws, ids).value);
  }

  /** Something that the sanitiser insists on and the check does not ask. */
  ghost predicate Emittable(d: Document)
  {
    forall i :: 0 <= i < |d.jobs| ==> d.jobs[i].build == d.build && d.jobs[i].parallelism >= 1
  }

  /** The raw document of a job that was started and last updated at the given
      times. */
  function RawDocument(job: Job, started: nat, updated: nat): (j: Json)
  {
    Obj(map[Schema := Str(DOCUMENT_SCHEMA),
            Identity := Obj(map[Campaign := Str(job.campaign), Fuzzer := Str(job.fuzzer)]),
            BuildKey := BuildJson(job.build),
            ProcessKey := Obj(map[JobIndex := Int(job.jobIndex), Parallelism := Int(job.parallelism),
              StartedNs := Int(started), UpdatedNs := Int(updated)]),
            CountersKey := CountersJson(job.counters)])
  }

  ghost predicate IsRaw(raw: Json, job: Job)
  {
    exists started: nat, updated: nat ::
      started <= updated <= MAX_NANOS && job.durationNs == updated - started
        && raw == RawDocument(job, started, updated)
  }

  lemma RawDocumentParses(job: Job, started: nat, updated: nat)
    requires JobOk(job) && job.parallelism >= 1
    requires started <= updated <= MAX_NANOS && job.durationNs == updated - started
    ensures ParseDocument(RawDocument(job, started, updated), job.jobIndex) == Some(job)
  {
    hide IsVocabulary, CountersOk, BuildOk, ExpectCounters, ExpectBuild, CountersJson, BuildJson;
    CountersRoundTrip(job.counters);
    BuildRoundTrip(job.build);
    var raw := RawDocument(job, started, updated);
    assert raw.fields.Keys == {Schema, Identity, BuildKey, ProcessKey, CountersKey};
    assert raw.fields[Identity].fields.Keys == {Campaign, Fuzzer};
    assert raw.fields[ProcessKey].fields.Keys == {JobIndex, Parallelism, StartedNs, UpdatedNs};
  }

  lemma CountersExact(j: Json)
    requires ExpectCounters(j).Some?
    ensures j == CountersJson(ExpectCounters(j).value)
  {
    hide Closes, ExpectCounts, CountsJson, CELLS, VERDICTS;
    CountsExact(j.fields[Selected], CELLS, MAX_COUNTER);
    CountsExact(j.fields[Applied], CELLS, MAX_COUNTER);
    CountsExact(j.fields[NotApplied], CELLS, MAX_COUNTER);
    CountsExact(j.fields[Verdicts], VERDICTS, MAX_COUNTER);
    assert j.fields == CountersJson(ExpectCounters(j).value).fields;
  }

  lemma BuildExact(j: Json)
    requires ExpectBuild(j).Some?
    ensures j == BuildJson(ExpectBuild(j).value)
  {
    hide IsVocabulary;
    assert j.fields == BuildJson(ExpectBuild(j).value).fields;
  }

  lemma ParsedIsRaw(raw: Json, index: nat)
    requires ParseDocument(raw, index).Some?
    ensures IsRaw(raw, ParseDocument(raw, index).value)
  {
    hide IsVocabulary, ExpectCounters, ExpectBuild, CountersJson, BuildJson;
    CountersExact(raw.fields[CountersKey]);
    BuildExact(raw.fields[BuildKey]);
    var job, process := ParseDocument(raw, index).value, raw.fields[ProcessKey].fields;
    var started, updated := process[StartedNs].i, process[UpdatedNs].i;
    var exact := RawDocument(job, started, updated);
    assert raw.fields[Identity].fields == exact.fields[Identity].fields;
    assert process == exact.fields[ProcessKey].fields;
    assert raw.fields == exact.fields;
  }

  /** Exactly which raw documents are accepted, and as which job. */
  lemma DocumentIff(raw: Json, index: nat, job: Job)
    ensures ParseDocument(raw, index) == Some(job)
      <==> JobOk(job) && job.parallelism >= 1 && job.jobIndex == index && IsRaw(raw, job)
  {
    hide ParseDocument, RawDocument, JobOk;
    if ParseDocument(raw, index) == Some(job) {
      DocumentChecked(raw, index);
      ParsedIsRaw(raw, index);
    }
    if JobOk(job) && job.parallelism >= 1 && job.jobIndex == index && IsRaw(raw, job) {
      var started: nat, updated: nat :| started <= updated <= MAX_NANOS && job.durationNs == updated - started
        && raw == RawDocument(job, started, updated);
      RawDocumentParses(job, started, updated);
    }
  }

  lemma {:induction false} ParseAllIff(raws: seq<Json>, first: nat, jobs: seq<Job>)
    ensures ParseAll(raws, first) == Some(jobs) <==>
      && |raws| == |jobs| && JobsOk(jobs, first)
      && forall i :: 0 <= i < |jobs| ==> jobs[i].parallelism >= 1 && IsRaw(raws[i], jobs[i])
    decreases |raws|
  {
    hide ParseDocument, IsRaw, JobOk;
    if raws != [] && jobs != [] {
      DocumentIff(raws[0], first, jobs[0]);
      ParseAllIff(raws[1..], first + 1, jobs[1..]);
      assert [jobs[0]] + jobs[1..] == jobs;
      if |raws| == |jobs| { Shift(raws, first, jobs); }
    }
  }

  lemma Shift(raws: seq<Json>, first: nat, jobs: seq<Job>)
    requires |raws| == |jobs| > 0
    ensures JobsOk(jobs, first) <==> JobOk(jobs[0]) && jobs[0].jobIndex == first && JobsOk(jobs[1..], first + 1)
    ensures (forall i :: 0 <= i < |jobs| ==> jobs[i].parallelism >= 1 && IsRaw(raws[i], jobs[i])) <==>
      && jobs[0].parallelism >= 1 && IsRaw(raws[0], jobs[0])
      && forall i :: 0 <= i < |jobs| - 1 ==> jobs[1..][i].parallelism >= 1 && IsRaw(raws[1..][i], jobs[1..][i])
  {
    hide IsRaw, JobOk;
    var js, rs := jobs[1..], raws[1..];
    forall i | 0 < i < |jobs| ensures jobs[i] == js[i - 1] && raws[i] == rs[i - 1] {
    }
    assert forall i :: 0 <= i < |js| ==> js[i] == jobs[i + 1] && rs[i] == raws[i + 1];
  }

  /** Exactly which documents the sanitiser turns into which evidence. */
  lemma SanitizeIff(raws: seq<Json>, ids: Ids, d: Document)
    ensures Sanitize(raws, ids) == Some(d) <==>
      && WellFormed(d, ids) && Emittable(d) && |raws| == |d.jobs|
      && forall i :: 0 <= i < |raws| ==> IsRaw(raws[i], d.jobs[i])
  {
    hide ParseAll, IsRaw, JobsOk, Totals;
    ParseAllIff(raws, 0, d.jobs);
    if Sanitize(raws, ids) == Some(d) { assert ParseAll(raws, 0) == Some(d.jobs); }
  }

  function RawDocuments(jobs: seq<Job>): (js: seq<Json>)
    ensures |js| == |jobs|
    ensures forall i :: 0 <= i < |jobs| ==> js[i] == RawDocument(jobs[i], 0, jobs[i].durationNs)
  {
    seq(|jobs|, i requires 0 <= i < |jobs| => RawDocument(jobs[i], 0, jobs[i].durationNs))
  }

  lemma RawDocumentsParse(jobs: seq<Job>, first: nat)
    requires JobsOk(jobs, first) && forall i :: 0 <= i < |jobs| ==> jobs[i].parallelism >= 1
    ensures ParseAll(RawDocuments(jobs), first) == Some(jobs)
  {
    hide CountersOk, BuildOk, IsVocabulary, ParseAll, RawDocument, RawDocuments;
    ParseAllIff(RawDocuments(jobs), first, jobs);
  }

  /** An accepted document is one the sanitiser could have emitted exactly when
      its jobs agree about the build and none claims a parallelism of zero. */
  lemma EmittedIff(codec: Codec, bytes: Bytes, ids: Ids)
    requires Check(codec, bytes, ids).Some?
    ensures var d := Check(codec, bytes, ids).value; (exists raws :: Sanitize(raws, ids) == Some(d)) <==> Emittable(d)
  {
    hide Check, DocumentJson, JobOk, Totals;
    AcceptedIsCanonical(codec, bytes, ids);
    var d := Check(codec, bytes, ids).value;
    if Emittable(d) {
      RawDocumentsParse(d.jobs, 0);
      assert Sanitize(RawDocuments(d.jobs), ids) == Some(d);
    }
    if exists raws :: Sanitize(raws, ids) == Some(d) {
      var raws :| Sanitize(raws, ids) == Some(d);
      DocumentsChecked(raws, 0);
    }
  }

  /** The check does accept documents no sanitiser emits: here two jobs that
      name different compilers, and one job of parallelism zero. */
  function IdleJob(index: nat, parallelism: nat, compiler: string): (j: Job)
  {
    Job(index, parallelism, 0, "c", "f", Build("b", compiler, "s"), Telemetry.Fresh())
  }

  function DocumentOf(ids: Ids, jobs: seq<Job>): (d: Document)
    requires jobs != []
  {
    Document(ids, jobs[0].build, jobs, Totals(jobs))
  }

  function Disagreeing(ids: Ids): (d: Document) { DocumentOf(ids, [IdleJob(0, 1, "clang"), IdleJob(1, 1, "gcc")]) }

  function NeverParallel(ids: Ids): (d: Document) { DocumentOf(ids, [IdleJob(0, 0, "clang")]) }

  lemma IdleJobOk(index: nat, parallelism: nat, compiler: string)
    requires index <= MAX_COUNTER && parallelism <= MAX_JOBS && IsVocabulary(compiler)
    ensures JobOk(IdleJob(index, parallelism, compiler))
  {
    hide Closes, CELLS, VERDICTS;
    FreshCloses();
  }

  lemma CheckAcceptsDisagreeingBuilds(codec: Codec, ids: Ids)
    requires Faithful(codec)
    ensures var d := Disagreeing(ids);
      Check(codec, codec.dumps(DocumentJson(d)), ids) == Some(d) && forall raws :: Sanitize(raws, ids) != Some(d)
  {
    hide Check, DocumentJson, Totals, Faithful, JobOk, ParseAll;
    var d := Disagreeing(ids);
    IdleJobOk(0, 1, "clang");
    IdleJobOk(1, 1, "gcc");
    CanonicalIsAccepted(codec, ids, d);
    assert "gcc"[0] != "clang"[0];
    forall raws ensures Sanitize(raws, ids) != Some(d) {
      assert d.jobs[1].build != d.jobs[0].build && d.jobs[1] in d.jobs;
    }
  }

  lemma CheckAcceptsZeroParallelism(codec: Codec, ids: Ids)
    requires Faithful(codec)
    ensures var d := NeverParallel(ids);
      Check(codec, codec.dumps(DocumentJson(d)), ids) == Some(d) && forall raws :: Sanitize(raws, ids) != Some(d)
  {
    hide Check, DocumentJson, Totals, Faithful, JobOk, Sanitize;
    var d := NeverParallel(ids);
    IdleJobOk(0, 0, "clang");
    CanonicalIsAccepted(codec, ids, d);
    EmittedIff(codec, codec.dumps(DocumentJson(d)), ids);
    assert !Emittable(d) by { assert d.jobs[0].parallelism == 0; }
  }
}
