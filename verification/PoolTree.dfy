/** The trees of the private pool and the two scripts that extend them:
    scripts/publish_ingest.sh builds a branch as a pool plus its own additions,
    scripts/aggregate_ingest.sh sweeps the branches of one run into the pool.
    A sweep is a fold of entry steps over `Option<Tree>`; `None` is any
    non-zero exit. */
module PoolTree {
  import opened Sequences
  import opened BrainPaths

  datatype Mode = Regular | Executable | Symlink | Gitlink

  datatype Entry = Entry(mode: Mode, blob: Bytes)

  type Tree = map<string, Entry>

  /** The foreign programs: SHA-1, the telemetry checker and the packet test
      of GPG.  Every result below holds for all of them. */
  datatype Tools = Tools(sha1: Bytes -> string, telemetryOk: (Bytes, Tuple) -> bool, bundleOk: Bytes -> bool)

  ghost predicate Extends(a: Tree, b: Tree)
  {
    forall p :: p in a ==> p in b && b[p] == a[p]
  }

  /** A file and something below it cannot share a tree. */
  predicate Clashes(t: Tree, p: string)
  {
    exists q :: q in t && (q + "/" <= p || p + "/" <= q)
  }

  function Put(t: Tree, p: string, e: Entry): (r: Option<Tree>)
  {
    if Clashes(t, p) then None else Some(t[p := e])
  }

  // ----- one entry of an ingest branch -----

  datatype Item = Item(who: Tuple, path: string, entry: Entry)

  predicate IsUnitPath(h: string, p: string)
  {
    "corpus/" <= p && CorpusUnitFor(h, Basename(p)) == Some(p)
  }

  predicate IsEvidencePath(who: Tuple, p: string)
  {
    !("corpus/" <= p) && (TelemetryFor(who) == Some(p) || IncidentFor(who) == Some(p))
  }

  datatype Verdict = Refuse | Known | Unit | Once

  /** What the aggregator makes of an entry by comparing it with the base pool:
      already there, a corpus unit, a write-once document, or a reason to stop. */
  function Classify(tools: Tools, base: Tree, it: Item): (v: Verdict)
  {
    var p, blob := it.path, it.entry.blob;
    if it.entry.mode != Regular then Refuse
    else if p in base then if base[p].blob == blob then Known else Refuse
    else if "corpus/" <= p then
      if IsUnitPath(it.who.harness, p) && tools.sha1(blob) == Basename(p) then Unit else Refuse
    else if TelemetryFor(it.who) == Some(p) then
      if blob != [] && tools.telemetryOk(blob, it.who) then Once else Refuse
    else if IncidentFor(it.who) == Some(p) then
      if blob != [] then Once else Refuse
    else Refuse
  }

  /** An entry that a branch of `who` may bring into the pool. */
  ghost predicate Legit(tools: Tools, who: Tuple, p: string, e: Entry)
  {
    && e.mode == Regular
    && (|| (IsUnitPath(who.harness, p) && tools.sha1(e.blob) == Basename(p))
        || (IsEvidencePath(who, p) && e.blob != []
          && (TelemetryFor(who) == Some(p) ==> tools.telemetryOk(e.blob, who))))
  }

  /** The step of the inner loop: what is staged after one more entry. */
  function StageItem(tools: Tools, base: Tree, s: Option<Tree>, it: Item): (r: Option<Tree>)
  {
    if s.None? then None
    else match Classify(tools, base, it)
      case Refuse => None
      case Known => s
      case Unit =>
        if it.path in s.value then if s.value[it.path].blob == it.entry.blob then s else None
        else Put(s.value, it.path, it.entry)
      case Once =>
        if it.path in s.value then None else Put(s.value, it.path, it.entry)
  }

  function Stager(tools: Tools, base: Tree): (Option<Tree>, Item) -> Option<Tree>
  {
    (s: Option<Tree>, it: Item) => StageItem(tools, base, s, it)
  }

  // ----- facts about generated paths -----

  lemma UnitPathLevels(h: string, p: string)
    requires IsUnitPath(h, p)
    ensures ThreeLevels(p) && IsHarness(h) && p == CorpusDir(h) + Basename(p)
  {
    UnitPathShape(h, Basename(p));
  }

  lemma EvidencePathLevels(who: Tuple, p: string)
    requires IsEvidencePath(who, p)
    ensures ThreeLevels(p) && IsTuple(who)
  {
    hide ThreeLevels, Render;
    if TelemetryFor(who) == Some(p) { EvidencePathShape(TELEMETRY, who); } else { EvidencePathShape(INCIDENT, who); }
  }

  /** An incident or telemetry path names one tuple only. */
  lemma EvidencePathInjective(a: Tuple, b: Tuple, p: string)
    requires IsEvidencePath(a, p) && IsEvidencePath(b, p)
    ensures a == b
    ensures (TelemetryFor(a) == Some(p)) == (TelemetryFor(b) == Some(p))
  {
    hide Render, ParseEvidence, IsTuple;
    if TelemetryFor(a) == Some(p) && TelemetryFor(b) == Some(p) {
      EvidenceRoundTrip(TELEMETRY, a);
      EvidenceRoundTrip(TELEMETRY, b);
    } else if IncidentFor(a) == Some(p) && IncidentFor(b) == Some(p) {
      EvidenceRoundTrip(INCIDENT, a);
      EvidenceRoundTrip(INCIDENT, b);
    } else {
      IncidentIsNotTelemetry(a, b);
      IncidentIsNotTelemetry(b, a);
    }
  }

  lemma IncidentIsNotTelemetry(a: Tuple, b: Tuple)
    requires IsTuple(a) && IsTuple(b)
    ensures IncidentFor(a) != TelemetryFor(b)
  {
    assert IncidentFor(a).value[0] == 'i' && TelemetryFor(b).value[0] == 't';
  }

  lemma NewPathLevels(tools: Tools, base: Tree, it: Item)
    requires Classify(tools, base, it).Unit? || Classify(tools, base, it).Once?
    ensures ThreeLevels(it.path) && it.path !in base && it.entry.mode == Regular
  {
    hide ThreeLevels, IsUnitPath, TelemetryFor, IncidentFor;
    if Classify(tools, base, it).Unit? {
      UnitPathLevels(it.who.harness, it.path);
    } else {
      EvidencePathLevels(it.who, it.path);
    }
  }

  // ----- entry steps commute -----

  /** Two entries may be staged in either order: the refusals and the staged
      tree are the same. */
  lemma StageItemsCommute(tools: Tools, base: Tree, s: Option<Tree>, x: Item, y: Item)
    ensures StageItem(tools, base, StageItem(tools, base, s, x), y) ==
            StageItem(tools, base, StageItem(tools, base, s, y), x)
  {
    hide Classify, Clashes, ThreeLevels;
    var cx, cy := Classify(tools, base, x), Classify(tools, base, y);
    if s.Some? && (cx.Unit? || cx.Once?) && (cy.Unit? || cy.Once?) {
      NewPathLevels(tools, base, x);
      NewPathLevels(tools, base, y);
      if x.path == y.path {
        SameClass(tools, base, x, y);
        SameClass(tools, base, y, x);
      } else {
        if x.path !in s.value { ClashUnaffected(s.value, x, y); }
        if y.path !in s.value { ClashUnaffected(s.value, y, x); }
        assert s.value[x.path := x.entry][y.path := y.entry] == s.value[y.path := y.entry][x.path := x.entry];
      }
    }
  }

  lemma SameClass(tools: Tools, base: Tree, x: Item, y: Item)
    requires x.path == y.path
    ensures Classify(tools, base, x).Unit? ==> !Classify(tools, base, y).Once?
  {
  }

  lemma ClashUnaffected(t: Tree, x: Item, y: Item)
    requires ThreeLevels(x.path) && ThreeLevels(y.path) && x.path != y.path && x.path !in t
    ensures Clashes(t[x.path := x.entry], y.path) <==> Clashes(t, y.path)
  {
    hide ThreeLevels;
    ThreeLevelsNeverNest(x.path, y.path);
    ThreeLevelsNeverNest(y.path, x.path);
    var t' := t[x.path := x.entry];
    if Clashes(t', y.path) {
      var q :| q in t' && (q + "/" <= y.path || y.path + "/" <= q);
      assert q in t;
    }
    if Clashes(t, y.path) {
      var q :| q in t && (q + "/" <= y.path || y.path + "/" <= q);
      assert q in t';
    }
  }
}
