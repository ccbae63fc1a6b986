/** The publisher (scripts/publish_ingest.sh): a branch is the pool it fetched
    plus this shard's corpus units, its incident bundle and, when there is one,
    its telemetry document, each written at most once. */
module PoolPublish {
  import opened Sequences
  import opened BrainPaths
  import opened PoolTree

  const MAX_PUBLISHED_UNIT := 4 * 1024 * 1024
  const MAX_PUBLISHED_FILES := 100_000
  const MAX_PUBLISHED_BYTES := 512 * 1024 * 1024

  /** One invocation: the validated corpus directory in sorted order, the
      bundle and its file name, the identity and the optional telemetry file. */
  datatype Job = Job(
    units: seq<(string, Bytes)>, bundle: Bytes, bundleName: string, run: string, attempt: string, shard: string,
    lane: string, telemetry: Option<Bytes>)

  /** What the bundle's file must be called. */
  const BUNDLE := Pattern("incident-", [Field(Digits, "-"), Field(Digits, "-"), Field(Digits, ".gpg")])

  function LaneHarness(lane: string): (h: Option<string>)
    ensures h.Some? ==> IsHarness(h.value)
  {
    if lane == "cmp_general" then Some("cmp_ecdsa_online")
    else if lane == "cmp_r4_tn" then Some("cmp_ecdsa_online_r4_tn")
    else if lane == "cmp_dual" then Some("cmp_ecdsa_online_dual")
    else None
  }

  function Who(job: Job): (t: Tuple)
    requires LaneHarness(job.lane).Some?
  {
    Tuple(job.run, job.attempt, LaneHarness(job.lane).value, job.shard)
  }

  /** A canonical number below 25. */
  predicate ShardInRange(s: string)
  {
    IsUint(s) && (|s| == 1 || (|s| == 2 && (s[0] == '1' || (s[0] == '2' && s[1] < '5'))))
  }

  function UnitBytes(u: (string, Bytes)): nat { |u.1| }

  /** What scripts/materialize_corpus.py lets through. */
  predicate ValidUnits(tools: Tools, units: seq<(string, Bytes)>)
  {
    && (forall i :: 0 <= i < |units| ==>
          IsUnitName(units[i].0) && |units[i].1| <= MAX_PUBLISHED_UNIT && tools.sha1(units[i].1) == units[i].0)
    && |units| <= MAX_PUBLISHED_FILES && SumOf(UnitBytes, units) <= MAX_PUBLISHED_BYTES
  }

  predicate Startable(tools: Tools, base: Tree, job: Job)
  {
    && LaneHarness(job.lane).Some? && IsTuple(Who(job)) && ShardInRange(job.shard)
    && ValidUnits(tools, job.units) && Match(BUNDLE, job.bundleName).Some? && tools.bundleOk(job.bundle)
    && "corpus" !in base && "corpus/" + LaneHarness(job.lane).value !in base
  }

  // ----- building the tree -----

  function AddUnit(h: string, s: Option<Tree>, u: (string, Bytes)): (r: Option<Tree>)
  {
    var p := CorpusDir(h) + u.0;
    if s.None? then None
    else if p in s.value then
      if s.value[p].mode in {Regular, Executable} && s.value[p].blob == u.1 then s else None
    else Put(s.value, p, Entry(Regular, u.1))
  }

  function UnitAdder(h: string): (Option<Tree>, (string, Bytes)) -> Option<Tree>
  {
    (s: Option<Tree>, u: (string, Bytes)) => AddUnit(h, s, u)
  }

  function AddOnce(s: Option<Tree>, path: Option<string>, blob: Bytes): (r: Option<Tree>)
  {
    if s.None? || path.None? || path.value in s.value then None
    else Put(s.value, path.value, Entry(Regular, blob))
  }

  function Build(tools: Tools, base: Tree, job: Job): (r: Option<Tree>)
  {
    if !Startable(tools, base, job) then None
    else
      var who := Who(job);
      var units := Fold(UnitAdder(who.harness), Some(base), job.units);
      var withBundle := AddOnce(units, IncidentFor(who), job.bundle);
      match job.telemetry
      case None => withBundle
      case Some(doc) => if tools.telemetryOk(doc, who) then AddOnce(withBundle, TelemetryFor(who), doc) else None
  }

  /** The final question to the path authority about one added path. */
  predicate Audited(h: string, p: string)
  {
    if "corpus/" <= p then CorpusUnitFor(h, Basename(p)) == Some(p)
    else if "telemetry/" <= p then ParseTelemetry(p).Some?
    else ParseIncident(p).Some?
  }

  /** The tree that is pushed: built, audited and not empty-handed. */
  function Publish(tools: Tools, base: Tree, job: Job): (r: Option<Tree>)
  {
    match Build(tools, base, job)
    case None => None
    case Some(t) =>
      if t != base && (forall p :: p in t && p !in base ==> Audited(Who(job).harness, p)) then Some(t) else None
  }

  // ----- what a published tree is -----

  /** An addition of this job at `p`. */
  ghost predicate Addition(tools: Tools, job: Job, p: string, e: Entry)
    requires LaneHarness(job.lane).Some?
  {
    var who := Who(job);
    && e.mode == Regular
    && (|| (IsUnitPath(who.harness, p) && tools.sha1(e.blob) == Basename(p))
        || (IsEvidencePath(who, p) && IncidentFor(who) == Some(p) && e.blob == job.bundle)
        || (IsEvidencePath(who, p) && TelemetryFor(who) == Some(p) && job.telemetry == Some(e.blob)
          && tools.telemetryOk(e.blob, who)))
  }

  /** The tree contains its base, and all else is an addition of the job at a
      generated path that is not in the way of the base. */
  ghost predicate Published(tools: Tools, base: Tree, job: Job, t: Tree)
    requires LaneHarness(job.lane).Some?
  {
    && Extends(base, t)
    && forall p :: p in t && p !in base ==> Addition(tools, job, p, t[p]) && ThreeLevels(p) && !Clashes(base, p)
  }

  lemma UnitPathOf(h: string, name: string)
    requires IsHarness(h) && IsUnitName(name)
    ensures IsUnitPath(h, CorpusDir(h) + name) && Basename(CorpusDir(h) + name) == name
  {
    UnitPathShape(h, name);
    assert "corpus/" <= CorpusDir(h) + name;
  }

  lemma EvidencePathOf(who: Tuple)
    requires IsTuple(who)
    ensures IncidentFor(who).Some? && IsEvidencePath(who, IncidentFor(who).value)
    ensures TelemetryFor(who).Some? && IsEvidencePath(who, TelemetryFor(who).value)
  {
    assert IncidentFor(who).value[0] == 'i' && TelemetryFor(who).value[0] == 't';
  }

  /** Staging one more addition keeps the description. */
  lemma PublishedGrows(tools: Tools, base: Tree, job: Job, t: Tree, p: string, e: Entry)
    requires LaneHarness(job.lane).Some? && Published(tools, base, job, t)
    requires p !in t && Addition(tools, job, p, e) && Put(t, p, e).Some?
    ensures Published(tools, base, job, t[p := e])
  {
    hide ThreeLevels, IsUnitPath, IsEvidencePath, Basename;
    if IsUnitPath(Who(job).harness, p) {
      UnitPathLevels(Who(job).harness, p);
    } else {
      EvidencePathLevels(Who(job), p);
    }
    assert !Clashes(base, p) by {
      if Clashes(base, p) {
        var q :| q in base && (q + "/" <= p || p + "/" <= q);
      }
    }
  }

  lemma {:induction false} UnitsPublished(
    tools: Tools, base: Tree, job: Job, s: Option<Tree>, units: seq<(string, Bytes)>)
    requires LaneHarness(job.lane).Some? && ValidUnits(tools, units)
    requires s.Some? ==> Published(tools, base, job, s.value)
    ensures var r := Fold(UnitAdder(Who(job).harness), s, units);
      r.Some? ==> Published(tools, base, job, r.value)
    decreases |units|
  {
    hide Published, Addition, IsUnitPath, Basename, Clashes;
    if units != [] {
      var h, u := Who(job).harness, units[0];
      var p := CorpusDir(h) + u.0;
      UnitPathOf(h, u.0);
      var s' := AddUnit(h, s, u);
      assert ValidUnits(tools, units[1..]) by {
        assert forall i :: 0 <= i < |units| - 1 ==> units[1..][i] == units[i + 1];
      }
      if s'.Some? && p !in s.value {
        assert Addition(tools, job, p, Entry(Regular, u.1)) by { UnitAddition(tools, job, p, u); }
        PublishedGrows(tools, base, job, s.value, p, Entry(Regular, u.1));
      }
      UnitsPublished(tools, base, job, s', units[1..]);
    }
  }

  lemma UnitAddition(tools: Tools, job: Job, p: string, u: (string, Bytes))
    requires LaneHarness(job.lane).Some? && IsUnitPath(Who(job).harness, p)
    requires tools.sha1(u.1) == u.0 && Basename(p) == u.0
    ensures Addition(tools, job, p, Entry(Regular, u.1))
  {
  }

  lemma BuildPublishes(tools: Tools, base: Tree, job: Job)
    requires Build(tools, base, job).Some?
    ensures Published(tools, base, job, Build(tools, base, job).value)
    ensures base != Build(tools, base, job).value
  {
    hide ThreeLevels, IsUnitPath, Basename, Clashes, IncidentFor, TelemetryFor, ValidUnits, UnitAdder, Fold;
    var who := Who(job);
    EvidencePathOf(who);
    assert Published(tools, base, job, base);
    UnitsPublished(tools, base, job, Some(base), job.units);
    var units := Fold(UnitAdder(who.harness), Some(base), job.units);
    var p := IncidentFor(who).value;
    PublishedGrows(tools, base, job, units.value, p, Entry(Regular, job.bundle));
    var withBundle := AddOnce(units, IncidentFor(who), job.bundle);
    if job.telemetry.Some? {
      PublishedGrows(tools, base, job, withBundle.value, TelemetryFor(who).value, Entry(Regular, job.telemetry.value));
    }
    assert p !in base && p in Build(tools, base, job).value;
  }

  ghost predicate HoldsBlob(t: Tree, p: string, blob: Bytes)
  {
    p in t && t[p].blob == blob
  }

  lemma {:induction false} UnitsHeld(h: string, s: Tree, units: seq<(string, Bytes)>)
    requires Fold(UnitAdder(h), Some(s), units).Some?
    ensures var t := Fold(UnitAdder(h), Some(s), units).value;
      Extends(s, t) && forall i :: 0 <= i < |units| ==> HoldsBlob(t, CorpusDir(h) + units[i].0, units[i].1)
    decreases |units|
  {
    hide Clashes, CorpusDir;
    if units != [] {
      var s' := AddUnit(h, Some(s), units[0]);
      if s'.None? { StoppedAddsNothing(h, units[1..]); }
      UnitsHeld(h, s'.value, units[1..]);
      assert forall i :: 1 <= i < |units| ==> units[i] == units[1..][i - 1];
    }
  }

  lemma StartedFacts(tools: Tools, base: Tree, job: Job)
    requires Publish(tools, base, job).Some?
    ensures LaneHarness(job.lane).Some? && IsTuple(Who(job))
    ensures IncidentFor(Who(job)).Some? && TelemetryFor(Who(job)).Some?
  {
    hide Match, ValidUnits, Audited, Fold;
  }

  /** Nothing the shard brought is dropped: the pushed tree holds every corpus
      unit, the bundle and the telemetry document at their paths. */
  lemma PublishKeepsEverything(tools: Tools, base: Tree, job: Job)
    requires Publish(tools, base, job).Some?
    ensures LaneHarness(job.lane).Some? && IncidentFor(Who(job)).Some? && TelemetryFor(Who(job)).Some?
    ensures var t, who := Publish(tools, base, job).value, Who(job);
      && (forall i :: 0 <= i < |job.units| ==> HoldsBlob(t, CorpusDir(who.harness) + job.units[i].0, job.units[i].1))
      && HoldsBlob(t, IncidentFor(who).value, job.bundle)
      && (job.telemetry.Some? ==> HoldsBlob(t, TelemetryFor(who).value, job.telemetry.value))
  {
    hide Audited, Clashes, CorpusDir, IncidentFor, TelemetryFor, Startable, UnitAdder, Fold, LaneHarness;
    StartedFacts(tools, base, job);
    var who := Who(job);
    UnitsHeld(who.harness, base, job.units);
    var units := Fold(UnitAdder(who.harness), Some(base), job.units);
    var withBundle := AddOnce(units, IncidentFor(who), job.bundle);
    assert Extends(units.value, withBundle.value);
    assert Extends(withBundle.value, Publish(tools, base, job).value);
    forall i | 0 <= i < |job.units|
      ensures HoldsBlob(Publish(tools, base, job).value, CorpusDir(who.harness) + job.units[i].0, job.units[i].1)
    {
      assert HoldsBlob(units.value, CorpusDir(who.harness) + job.units[i].0, job.units[i].1);
    }
  }

  /** The two documents are written once: their paths were free. */
  lemma EvidenceIsNew(tools: Tools, base: Tree, job: Job)
    requires Publish(tools, base, job).Some?
    ensures LaneHarness(job.lane).Some? && IsTuple(Who(job))
    ensures IncidentFor(Who(job)).Some? && IncidentFor(Who(job)).value !in base
    ensures job.telemetry.Some? ==> TelemetryFor(Who(job)).Some? && TelemetryFor(Who(job)).value !in base
  {
    hide Clashes, IncidentFor, TelemetryFor, Audited, UnitAdder, Fold, Startable, LaneHarness, IsTuple;
    StartedFacts(tools, base, job);
    var who := Who(job);
    var units := Fold(UnitAdder(who.harness), Some(base), job.units);
    UnitsHeld(who.harness, base, job.units);
    EvidencePathOf(who);
  }

  /** The final audit and the emptiness test never refuse what was built: they
      ask the path authority about names it generated itself. */
  lemma AuditNeverRefuses(tools: Tools, base: Tree, job: Job)
    ensures Publish(tools, base, job) == Build(tools, base, job)
    ensures Publish(tools, base, job).Some? ==>
      Startable(tools, base, job) && Published(tools, base, job, Publish(tools, base, job).value)
  {
    hide ThreeLevels, Clashes, Extends, Audited, Addition;
    if Build(tools, base, job).Some? {
      BuildPublishes(tools, base, job);
      var t := Build(tools, base, job).value;
      forall p | p in t && p !in base ensures Audited(Who(job).harness, p) {
        AdditionAudited(tools, job, p, t[p]);
      }
    }
  }

  lemma AdditionAudited(tools: Tools, job: Job, p: string, e: Entry)
    requires LaneHarness(job.lane).Some? && IsTuple(Who(job)) && Addition(tools, job, p, e)
    ensures Audited(Who(job).harness, p)
  {
    hide Basename, Match, Render, IsTuple;
    var who := Who(job);
    if !IsUnitPath(who.harness, p) {
      EvidenceRoundTrip(INCIDENT, who);
      EvidenceRoundTrip(TELEMETRY, who);
      HeadsDiffer(who);
    }
  }

  lemma HeadsDiffer(who: Tuple)
    requires IsTuple(who)
    ensures !("telemetry/" <= IncidentFor(who).value) && "telemetry/" <= TelemetryFor(who).value
  {
    assert IncidentFor(who).value[0] == 'i';
    assert "telemetry/" <= TELEMETRY.head;
  }

  // ----- the script -----

  lemma {:induction false} StoppedAddsNothing(h: string, units: seq<(string, Bytes)>)
    ensures Fold(UnitAdder(h), None, units) == None
  {
    if units != [] { StoppedAddsNothing(h, units[1..]); }
  }

  method AddUnits(h: string, base: Tree, units: seq<(string, Bytes)>) returns (r: Option<Tree>)
    ensures r == Fold(UnitAdder(h), Some(base), units)
  {
    hide Clashes;
    var stage := base;
    ghost var f := UnitAdder(h);
    for i := 0 to |units|
      invariant Fold(f, Some(base), units) == Fold(f, Some(stage), units[i..])
    {
      assert units[i..][1..] == units[i + 1..];
      StoppedAddsNothing(h, units[i + 1..]);
      var p := CorpusDir(h) + units[i].0;
      if p in stage {
        if stage[p].mode !in {Regular, Executable} || stage[p].blob != units[i].1 { return None; }
      } else {
        if Clashes(stage, p) { return None; }
        stage := stage[p := Entry(Regular, units[i].1)];
      }
    }
    r := Some(stage);
  }

  method AuditAll(h: string, paths: set<string>) returns (ok: bool)
    ensures ok <==> forall p :: p in paths ==> Audited(h, p)
  {
    hide Audited;
    var rest := paths;
    while rest != {}
      invariant rest <= paths && forall p :: p in paths && p !in rest ==> Audited(h, p)
    {
      var p :| p in rest;
      if !Audited(h, p) { return false; }
      rest := rest - {p};
    }
    ok := true;
  }

  /** The whole script: the tree that it pushes, or None. */
  method PublishIngest(tools: Tools, base: Tree, job: Job) returns (r: Option<Tree>)
    ensures r == Publish(tools, base, job)
  {
    hide Audited, Clashes, IncidentFor, TelemetryFor, UnitAdder, Fold, Startable;
    if !Startable(tools, base, job) { return None; }
    assert LaneHarness(job.lane).Some? by { StartableLane(tools, base, job); }
    var who := Who(job);
    var units := AddUnits(who.harness, base, job.units);
    if units.None? { return None; }
    var tree := AddOnce(units, IncidentFor(who), job.bundle);
    if tree.None? { return None; }
    if job.telemetry.Some? {
      if !tools.telemetryOk(job.telemetry.value, who) { return None; }
      tree := AddOnce(tree, TelemetryFor(who), job.telemetry.value);
      if tree.None? { return None; }
    }
    var ok := AuditAll(who.harness, tree.value.Keys - base.Keys);
    if !ok || tree.value == base { return None; }
    r := tree;
  }

  lemma StartableLane(tools: Tools, base: Tree, job: Job)
    requires Startable(tools, base, job)
    ensures LaneHarness(job.lane).Some?
  {
  }

  // ----- a job that is published -----

  /** A job with one new unit and no telemetry is published on every pool where
      nothing is in the way of its two paths. */
  lemma OneUnitIsPublished(tools: Tools, base: Tree, job: Job)
    requires Startable(tools, base, job) && |job.units| == 1 && job.telemetry.None?
    requires var p := CorpusDir(Who(job).harness) + job.units[0].0; p !in base && !Clashes(base, p)
    requires var q := IncidentFor(Who(job)).value; q !in base && !Clashes(base, q)
    ensures var p, q := CorpusDir(Who(job).harness) + job.units[0].0, IncidentFor(Who(job)).value;
      && p != q
      && Publish(tools, base, job) == Some(base[p := Entry(Regular, job.units[0].1)][q := Entry(Regular, job.bundle)])
  {
    hide Clashes, ThreeLevels, Startable, IncidentFor, Basename, CorpusUnitFor, LaneHarness, IsTuple, IsHarness,
      IsUnitName;
    StartableLane(tools, base, job);
    var who, u := Who(job), job.units[0];
    StartableUnit(tools, base, job);
    var p, q := CorpusDir(who.harness) + u.0, IncidentFor(who).value;
    UnitPathOf(who.harness, u.0);
    UnitPathLevels(who.harness, p);
    EvidencePathOf(who);
    EvidencePathLevels(who, q);
    CorpusIsNotIncident(who, u.0);
    ClashUnaffected(base, Item(who, p, Entry(Regular, u.1)), Item(who, q, Entry(Regular, job.bundle)));
    var t := base[p := Entry(Regular, u.1)];
    assert job.units == [u] && job.units[1..] == [];
    assert Fold(UnitAdder(who.harness), Some(base), job.units) == Some(t);
    assert AddOnce(Some(t), Some(q), job.bundle).Some?;
    AuditNeverRefuses(tools, base, job);
  }

  lemma StartableUnit(tools: Tools, base: Tree, job: Job)
    requires Startable(tools, base, job) && job.units != []
    ensures LaneHarness(job.lane).Some? && IsTuple(Who(job))
    ensures IsUnitName(job.units[0].0) && IsHarness(Who(job).harness) && IncidentFor(Who(job)).Some?
  {
    hide Match;
  }

  lemma CorpusIsNotIncident(who: Tuple, name: string)
    requires IsTuple(who) && IsUnitName(name)
    ensures CorpusDir(who.harness) + name != IncidentFor(who).value
  {
    PathGrammarsDisjoint(who.harness, name, who, who);
  }
}
