/** Concrete runs of the pool protocol: a branch that is published, swept and
    pushed; one whose unit no gate lets through; and one that no sweep merges. */
module PoolExamples {
  import opened Sequences
  import opened BrainPaths
  import opened Inventory
  import opened PoolTree
  import opened PoolSweep
  import opened PoolPublish
  import opened PoolGate
  import opened PoolProtocol
  import opened PoolMerge
  import opened PoolProgress

  const HARNESS := "cmp_ecdsa_online"
  const WHO := Tuple("1", "1", HARNESS, "0")

  /** A job with one unit, named by whatever the hash of its content is. */
  function OneJob(tools: Tools, blob: Bytes): (job: Job)
  {
    Job([(tools.sha1(blob), blob)], [1], Render(BUNDLE, ["1", "1", "0"]), "1", "1", "0", "cmp_general", None)
  }

  /** The hash function names the unit and GPG takes the bundle. */
  predicate Usable(tools: Tools, blob: Bytes)
  {
    IsUnitName(tools.sha1(blob)) && tools.bundleOk([1]) && |blob| <= MAX_PUBLISHED_UNIT
  }

  function UnitPath(tools: Tools, blob: Bytes): (p: string) { CorpusDir(HARNESS) + tools.sha1(blob) }

  function BundlePath(): (p: string) { if IsTuple(WHO) then IncidentFor(WHO).value else "" }

  lemma BundleNameMatches()
    ensures Match(BUNDLE, Render(BUNDLE, ["1", "1", "0"])).Some?
  {
    hide Match, Render, RenderFields, MatchFields;
    BundleIsDelimited();
    MatchRenderPattern(BUNDLE, ["1", "1", "0"]);
  }

  lemma BundleIsDelimited()
    ensures Delimited(BUNDLE.fields) && BrainPaths.Fits(BUNDLE.fields, ["1", "1", "0"])
  {
  }

  lemma WhoIsTuple()
    ensures IsTuple(WHO) && IsHarness(HARNESS)
  {
    assert HARNESSES[0] == HARNESS;
  }

  lemma WhoHarness()
    ensures WHO.harness == HARNESS
  {
  }

  lemma BundlePathIs()
    ensures IncidentFor(WHO) == Some(BundlePath()) && BundlePath() != "" && BundlePath()[0] == 'i'
  {
    hide RenderFields, IsTuple;
    WhoIsTuple();
    assert IncidentFor(WHO).value[0] == 'i';
  }

  lemma OneJobStarts(tools: Tools, base: Tree, blob: Bytes)
    requires Usable(tools, blob) && "corpus" !in base && "corpus/" + HARNESS !in base
    ensures LaneHarness(OneJob(tools, blob).lane).Some? && Who(OneJob(tools, blob)) == WHO
    ensures Startable(tools, base, OneJob(tools, blob))
  {
    hide IsUnitName, Match, IsTuple;
    var units := OneJob(tools, blob).units;
    BundleNameMatches();
    WhoIsTuple();
    assert SumOf(UnitBytes, units) == UnitBytes(units[0]) + SumOf(UnitBytes, units[1..]);
  }

  /** The tree that such a job pushes. */
  function Pushed(tools: Tools, base: Tree, blob: Bytes): (t: Tree)
  {
    base[UnitPath(tools, blob) := Entry(Regular, blob)][BundlePath() := Entry(Regular, [1])]
  }

  /** Nothing in the pool starts like a path of the scripts. */
  ghost predicate Elsewhere(base: Tree)
  {
    forall p :: p in base ==> p != "" && p[0] != 'c' && p[0] != 'i'
  }

  lemma NoClashElsewhere(base: Tree, p: string)
    requires Elsewhere(base) && p != "" && (p[0] == 'c' || p[0] == 'i')
    ensures p !in base && !Clashes(base, p)
  {
    forall q | q in base ensures !(q + "/" <= p) && !(p + "/" <= q) {
      assert (q + "/")[0] == q[0] && (p + "/")[0] == p[0];
    }
  }

  lemma OneJobIsPublished(tools: Tools, base: Tree, blob: Bytes)
    requires Usable(tools, blob) && Elsewhere(base)
    ensures UnitPath(tools, blob) != BundlePath()
    ensures Publish(tools, base, OneJob(tools, blob)) == Some(Pushed(tools, base, blob))
    ensures LaneHarness(OneJob(tools, blob).lane).Some? && Who(OneJob(tools, blob)) == WHO
  {
    hide Usable, Publish, Startable, Clashes, IncidentFor, BundlePath, Render, Elsewhere, IsTuple, WHO;
    var job := OneJob(tools, blob);
    BundlePathIs();
    assert UnitPath(tools, blob)[0] == 'c';
    NoClashElsewhere(base, UnitPath(tools, blob));
    NoClashElsewhere(base, BundlePath());
    NoClashElsewhere(base, "corpus");
    NoClashElsewhere(base, "corpus/" + HARNESS);
    OneJobStarts(tools, base, blob);
    WhoHarness();
    OneUnitIsPublished(tools, base, job);
  }

  // ----- a unit between the two caps -----

  function BigUnit(): Bytes { seq(2 * 1024 * 1024, i => 0) }

  lemma BigUnitSize()
    ensures MAX_UNIT_BYTES < |BigUnit()| <= MAX_PUBLISHED_UNIT
  {
  }

  lemma UnitPathIs(tools: Tools, blob: Bytes)
    ensures UnitPath(tools, blob) == CorpusDir(HARNESS) + tools.sha1(blob)
  {
  }

  /** Whatever the hash function: the unit of 2 MiB is published, its branch
      merges on the pool it was built on, and the staged tree is the one that
      was pushed. */
  lemma OversizeUnitIsPublished(tools: Tools)
    requires IsUnitName(tools.sha1(BigUnit())) && tools.bundleOk([1])
    ensures var job, t := OneJob(tools, BigUnit()), Pushed(tools, map[], BigUnit());
      && Publish(tools, map[], job) == Some(t)
      && UnitPath(tools, BigUnit()) in t && |t[UnitPath(tools, BigUnit())].blob| > MAX_UNIT_BYTES
      && forall l :: IsListing(t, l) ==> Fold(Stager(tools, map[]), Some(map[]), Items(WHO, l)) == Some(t)
  {
    hide Publish, IsListing, Stager, BundlePath, UnitPath, IsUnitName, Items;
    var job, t := OneJob(tools, BigUnit()), Pushed(tools, map[], BigUnit());
    OneJobIsPublished(tools, map[], BigUnit());
    forall l | IsListing(t, l) ensures Fold(Stager(tools, map[]), Some(map[]), Items(WHO, l)) == Some(t) {
      BuiltBranchMerges(tools, map[], job, t, l);
    }
  }

  /** And no aggregator that listed that branch for its run can push. */
  lemma OversizeBranchIsStuck(
    tools: Tools, s: State, id: nat, i: nat, scans: map<string, Inventory.Source>)
    requires IsUnitName(tools.sha1(BigUnit())) && tools.bundleOk([1])
    requires s.commits != [] && id in s.aggregators && s.aggregators[id].refs.Some?
    requires var a := s.aggregators[id];
      && a.run == "1" && a.attempt == "1" && i < |a.refs.value|
      && BranchFor(WHO) == Some(a.refs.value[i].name)
        && IsListing(Pushed(tools, map[], BigUnit()), a.refs.value[i].listing)
    ensures forall s' :: !Next(tools, s, s', PushPool(id, scans))
  {
    hide Publish, BundlePath, IsUnitName, Next, ParseRef, AllItems, Contributed, BranchFor, IsTuple, BigUnit, UnitPath;
    BigUnitSize();
    var a := s.aggregators[id];
    var refs, l := a.refs.value, a.refs.value[i].listing;
    var t := Pushed(tools, map[], BigUnit());
    OneJobIsPublished(tools, map[], BigUnit());
    var x := (UnitPath(tools, BigUnit()), Entry(Regular, BigUnit()));
    assert t[x.0] == x.1 && (x.0, t[x.0]) in l;
    UnitPathIs(tools, BigUnit());
    WhoIsTuple();
    BranchParses();
    var k := ItemAt("1", "1", refs, i, x);
    assert Brings(a)[k] == x;
    OversizeUnitBlocksPush(tools, s, id, scans, HARNESS, tools.sha1(BigUnit()), x.1);
  }

  lemma BranchParses()
    ensures BranchFor(WHO).Some? && ParseRef(BranchFor(WHO).value) == Some(WHO)
  {
    hide IsTuple, Render, ParseBranch, ParseBranchLegacy;
    WhoIsTuple();
    BranchRoundTrip(WHO);
  }

  // ----- a pool with one executable file -----

  const EXECUTABLE_POOL: Tree := map["x" := Entry(Executable, [])]

  /** Whatever the hash function: a job is published on this pool, and no sweep
      merges its branch. */
  lemma ExecutableFileBlocksBranch(tools: Tools)
    requires IsUnitName(tools.sha1([0])) && tools.bundleOk([1])
    ensures var job, t := OneJob(tools, [0]), Pushed(tools, EXECUTABLE_POOL, [0]);
      && Publish(tools, EXECUTABLE_POOL, job) == Some(t)
      && forall l :: IsListing(t, l) ==>
           Fold(Stager(tools, EXECUTABLE_POOL), Some(EXECUTABLE_POOL), Items(WHO, l)) == None
  {
    hide Publish, IsListing, Stager, BundlePath, UnitPath, IsUnitName, Items;
    var job, t := OneJob(tools, [0]), Pushed(tools, EXECUTABLE_POOL, [0]);
    OneJobIsPublished(tools, EXECUTABLE_POOL, [0]);
    assert "x" in EXECUTABLE_POOL && EXECUTABLE_POOL["x"].mode != Regular;
    forall l | IsListing(t, l)
      ensures Fold(Stager(tools, EXECUTABLE_POOL), Some(EXECUTABLE_POOL), Items(WHO, l)) == None
    {
      BuiltBranchMerges(tools, EXECUTABLE_POOL, job, t, l);
    }
  }

  // ----- a run that publishes, sweeps and pushes -----

  function SmallListing(tools: Tools): (l: Listing)
  {
    [(UnitPath(tools, [0]), Entry(Regular, [0])), (BundlePath(), Entry(Regular, [1]))]
  }

  lemma SmallLists(tools: Tools)
    requires UnitPath(tools, [0]) != BundlePath()
    ensures IsListing(Pushed(tools, map[], [0]), SmallListing(tools))
    ensures Covers(Pushed(tools, map[], [0]), SmallListing(tools))
  {
    hide UnitPath, BundlePath;
    var t, l := Pushed(tools, map[], [0]), SmallListing(tools);
    assert l[0] in l && l[1] in l;
  }

  lemma OneEntryFits(name: string)
    requires IsUnitName(name)
    ensures Admissible([DirEntry(name, true, RegularFile, [0])])
  {
    hide IsUnitName;
    NothingSeen(None);
    var e := DirEntry(name, true, RegularFile, [0]);
    AdmitStep([], e);
    assert [] + [e] == [e];
  }

  /** Which harness directory a unit of the first harness lies below. */
  lemma BelowOnlyItsHarness(h: string, p: string, name: string)
    requires h in HARNESSES && p == CorpusDir(HARNESS) + name && name != "" && name[0] != '/'
    ensures Below(h, p) <==> h == HARNESS
  {
    if h != HARNESS {
      assert |h| > |HARNESS| && h[|HARNESS|] == '_';
      assert CorpusDir(h)[7 + |HARNESS|] == '_' && p[7 + |HARNESS|] == '/';
    }
  }

  lemma SmallEntries(tools: Tools, h: string)
    requires Usable(tools, [0]) && h in HARNESSES
    ensures CorpusEntries(h, SmallListing(tools)) ==
      if h == HARNESS then [DirEntry(tools.sha1([0]), true, RegularFile, [0])] else []
  {
    hide IsUnitName, HARNESSES, BundlePath, Below;
    var l, name := SmallListing(tools), tools.sha1([0]);
    BundlePathIs();
    NotBelow(h, BundlePath());
    UnitNameStarts(name);
    BelowOnlyItsHarness(h, l[0].0, name);
    NothingBelow(h, l[1..]);
    assert l[0].0 != l[1].0;
    if h == HARNESS { ChildOf(h, l[0], name); }
  }

  lemma ChildOf(h: string, x: (string, Entry), name: string)
    requires Below(h, x.0) && x.0 == CorpusDir(h) + name
    ensures Child(h, x) == DirEntry(name, true, KindOf(x.1.mode), x.1.blob)
  {
    assert x.0[|CorpusDir(h)|..] == name;
  }

  lemma NotBelow(h: string, p: string)
    requires p != "" && p[0] == 'i'
    ensures !Below(h, p) && p != "corpus/" + h
  {
    assert CorpusDir(h)[0] == 'c' && ("corpus/" + h)[0] == 'c';
  }

  lemma UnitNameStarts(name: string)
    requires IsUnitName(name)
    ensures |name| == 40 && name[0] != '/'
  {
  }

  lemma SmallHasRoom(tools: Tools, h: string)
    requires Usable(tools, [0]) && h in HARNESSES
    ensures RoomFor(h, SmallListing(tools))
  {
    hide IsUnitName, CorpusEntries, BundlePath, Admissible;
    SmallEntries(tools, h);
    if h == HARNESS { OneEntryFits(tools.sha1([0])); } else { NothingSeen(None); }
    BundlePathIs();
    NotBelow(h, BundlePath());
    UnitNameStarts(tools.sha1([0]));
    assert |UnitPath(tools, [0])| == 64 && |"corpus/" + h| < 64;
  }

  function SmallScans(tools: Tools): (scans: map<string, Inventory.Source>)
  {
    map h | h in HARNESSES :: Directory(CorpusEntries(h, SmallListing(tools)), true)
  }

  lemma SmallScansList(tools: Tools)
    requires Usable(tools, [0]) && UnitPath(tools, [0]) != BundlePath()
    ensures ScansOf(Pushed(tools, map[], [0]), SmallScans(tools))
  {
    hide IsUnitName, CorpusEntries, IsChild, UnitPath, BundlePath, HasCorpus, Below, Admissible;
    var t, l := Pushed(tools, map[], [0]), SmallListing(tools);
    SmallLists(tools);
    forall h | h in HARNESSES ensures ListsDirectory(t, h, SmallScans(tools)[h]) {
      SmallHasRoom(tools, h);
      SmallFlat(tools, h);
      CorpusEntriesDistinct(h, l);
      forall e ensures e in CorpusEntries(h, l) <==> IsChild(t, h, e) { ChildrenAre(t, h, l, e); }
    }
  }

  lemma SmallFlat(tools: Tools, h: string)
    requires Usable(tools, [0]) && h in HARNESSES
    ensures forall x :: x in SmallListing(tools) && Below(h, x.0) ==> SlashFree(Child(h, x).name)
  {
    hide IsUnitName, HARNESSES, BundlePath, Below;
    var name := tools.sha1([0]);
    BundlePathIs();
    NotBelow(h, BundlePath());
    UnitNameStarts(name);
    UnitNamesAreSlashFree(name);
    BelowOnlyItsHarness(h, UnitPath(tools, [0]), name);
    if h == HARNESS { assert UnitPath(tools, [0])[|CorpusDir(h)|..] == name; }
  }

  lemma OneBranchSweep(tools: Tools, base: Tree, b: Branch, who: Tuple)
    requires ParseRef(b.name) == Some(who)
    ensures Sweep(tools, who.run, who.attempt, base, [b]) ==
      Fold(Stager(tools, base), Some(base), Items(who, b.listing))
  {
    hide ParseRef, Stager, Items;
    assert Fetchable(who.run, who.attempt, [b]);
    var f := Sweeper(tools, who.run, who.attempt, base);
    assert [b][1..] == [];
    assert Fold(f, Some(base), [b]) == Fold(f, f(Some(base), [b][0]), [b][1..]);
  }

  // The states of the run, one per step.

  function Branches(tools: Tools): (refs: map<string, Ref>)
    requires BranchFor(WHO).Some?
  {
    map[BranchFor(WHO).value := Ref("c", SmallListing(tools), Made(OneJob(tools, [0]), 0))]
  }

  function Listed(tools: Tools): (a: Aggregation)
    requires BranchFor(WHO).Some?
  {
    Aggregation("1", "1", 0, Some([Branch(BranchFor(WHO).value, "c", SmallListing(tools))]))
  }

  function Begun(): (s: State) { State([map[]], map[], map[], map[]) }

  function Fetched(tools: Tools): (s: State)
  {
    State([map[]], map[], map[0 := Publication(OneJob(tools, [0]), 0)], map[])
  }

  function Branched(tools: Tools): (s: State)
    requires BranchFor(WHO).Some?
  {
    State([map[]], Branches(tools), map[], map[])
  }

  function Aggregating(tools: Tools): (s: State)
    requires BranchFor(WHO).Some?
  {
    State([map[]], Branches(tools), map[], map[0 := Aggregation("1", "1", 0, None)])
  }

  function Staging(tools: Tools): (s: State)
    requires BranchFor(WHO).Some?
  {
    State([map[]], Branches(tools), map[], map[0 := Listed(tools)])
  }

  function Done(tools: Tools): (s: State)
    requires BranchFor(WHO).Some?
  {
    State([map[], Pushed(tools, map[], [0])], Branches(tools), map[], map[])
  }

  lemma PushesBranch(tools: Tools, s: State, s': State, id: nat, commit: Commit, l: Listing, t: Tree, name: string)
    requires id in s.publishers && s.publishers[id].base < |s.commits| && LaneHarness(s.publishers[id].job.lane).Some?
    requires Publish(tools, s.commits[s.publishers[id].base], s.publishers[id].job) == Some(t) && IsListing(t, l)
    requires BranchFor(Who(s.publishers[id].job)) == Some(name) && name !in s.refs
    requires s' == s.(publishers := s.publishers - {id},
                      refs := s.refs[name := Ref(commit, l, Made(s.publishers[id].job, s.publishers[id].base))])
    ensures Next(tools, s, s', PushBranch(id, commit, l))
  {
    hide Publish, IsListing, BranchFor, LaneHarness, Sweep, Gate;
  }

  lemma BranchedIs(tools: Tools, job: Job, name: string)
    requires BranchFor(WHO) == Some(name) && job == OneJob(tools, [0])
    ensures var s := Fetched(tools);
      && s.publishers == map[0 := Publication(job, 0)] && s.commits == [map[]] && s.refs == map[]
      && Branched(tools) == s.(publishers := s.publishers - {0},
                               refs := s.refs[name := Ref("c", SmallListing(tools), Made(job, 0))])
  {
    hide BranchFor, SmallListing, OneJob, WHO;
    var s := Fetched(tools);
    assert s.publishers - {0} == map[];
    assert s.refs[name := Ref("c", SmallListing(tools), Made(job, 0))] == Branches(tools);
  }

  lemma BranchStep(tools: Tools)
    requires Usable(tools, [0])
    ensures BranchFor(WHO).Some?
    ensures Next(tools, Fetched(tools), Branched(tools), PushBranch(0, "c", SmallListing(tools)))
  {
    hide Publish, IsListing, BranchFor, Usable, SmallListing, Pushed, OneJob, LaneHarness, Next, WHO, UnitPath,
      BundlePath, Fetched, Branched;
    BranchParses();
    OneJobIsPublished(tools, map[], [0]);
    SmallLists(tools);
    BranchedIs(tools, OneJob(tools, [0]), BranchFor(WHO).value);
    PushesBranch(tools, Fetched(tools), Branched(tools), 0, "c", SmallListing(tools), Pushed(tools, map[], [0]),
                 BranchFor(WHO).value);
  }

  lemma ListStep(tools: Tools)
    requires BranchFor(WHO).Some?
    ensures Next(tools, Aggregating(tools), Staging(tools), ListRefs(0, [BranchFor(WHO).value]))
  {
    hide Publish, IsListing, BranchFor, OneJob, LaneHarness, Sweep, Gate, SmallListing;
    var n := BranchFor(WHO).value;
    assert Snapshot(Branches(tools), [n]) == [Branch(n, "c", SmallListing(tools))];
  }

  lemma FetchSteps(tools: Tools)
    requires BranchFor(WHO).Some?
    ensures Next(tools, Begun(), Fetched(tools), FetchToPublish(0, OneJob(tools, [0])))
    ensures Next(tools, Branched(tools), Aggregating(tools), FetchToAggregate(0, "1", "1"))
  {
    hide Publish, IsListing, BranchFor, OneJob, LaneHarness, Sweep, Gate, Branches;
  }

  lemma SweptIsPushed(tools: Tools)
    requires Usable(tools, [0])
    ensures BranchFor(WHO).Some?
    ensures Sweep(tools, "1", "1", map[], Listed(tools).refs.value) == Some(Pushed(tools, map[], [0]))
  {
    hide Publish, IsListing, BranchFor, Usable, UnitPath, BundlePath, LaneHarness, Sweep, ParseRef, Stager, Items;
    BranchParses();
    OneJobIsPublished(tools, map[], [0]);
    SmallLists(tools);
    var b := Listed(tools).refs.value[0];
    assert Listed(tools).refs.value == [b];
    OneBranchSweep(tools, map[], b, WHO);
    BuiltBranchMerges(tools, map[], OneJob(tools, [0]), Pushed(tools, map[], [0]), SmallListing(tools));
  }

  lemma PushStep(tools: Tools)
    requires Usable(tools, [0])
    ensures BranchFor(WHO).Some? && Next(tools, Staging(tools), Done(tools), PushPool(0, SmallScans(tools)))
  {
    hide Publish, BranchFor, Usable, UnitPath, BundlePath, OneJob, LaneHarness, Sweep, Gate, SmallScans, RoomFor,
      ScansOf, SmallListing, HARNESSES, Covers, Branches;
    OneJobIsPublished(tools, map[], [0]);
    SweptIsPushed(tools);
    SmallLists(tools);
    SmallScansList(tools);
    forall h | h in HARNESSES ensures RoomFor(h, SmallListing(tools)) { SmallHasRoom(tools, h); }
    var t := Pushed(tools, map[], [0]);
    GateIff(t, SmallListing(tools), SmallScans(tools));
    assert BundlePath() in t;
  }

  function States(tools: Tools): (states: seq<State>)
    requires BranchFor(WHO).Some?
  {
    [Begun(), Fetched(tools), Branched(tools), Aggregating(tools), Staging(tools), Done(tools)]
  }

  /** With every usable hash function there is a run of five steps (fetch, push a
      branch, fetch, list, push the pool) that ends with the job's tree as the
      pool. */
  lemma PushHappens(tools: Tools)
    requires Usable(tools, [0])
    ensures BranchFor(WHO).Some? && IsRun(tools, States(tools))
    ensures Head(States(tools)[5]) == Pushed(tools, map[], [0]) && UnitPath(tools, [0]) in Pushed(tools, map[], [0])
  {
    hide Next, Usable, UnitPath, BundlePath, BranchFor, Fetched, Branched, Aggregating, Staging, OneJob;
    PushStep(tools);
    FetchSteps(tools);
    BranchStep(tools);
    ListStep(tools);
    CommitsNonEmpty(tools);
    var states := States(tools);
    forall i | 0 <= i < |states| - 1 ensures Advances(tools, states[i], states[i + 1]) {
      assert i == 0 || i == 1 || i == 2 || i == 3 || i == 4;
    }
  }

  lemma CommitsNonEmpty(tools: Tools)
    requires BranchFor(WHO).Some?
    ensures Begun().commits != [] && Fetched(tools).commits != [] && Branched(tools).commits != []
    ensures Aggregating(tools).commits != [] && Staging(tools).commits != []
  {
  }

  lemma SmallListingIsPublished(tools: Tools)
    requires BranchFor(WHO).Some?
    ensures ListedFromPublishers(Staging(tools), Listed(tools))
  {
    hide BranchFor, ParseRef, SmallListing, OneJob, InRun;
    BranchParses();
    assert NamesOf(Listed(tools).refs.value) == [BranchFor(WHO).value];
  }

  lemma SmallListingHasNoCollision(tools: Tools)
    requires BranchFor(WHO).Some? && tools.sha1([0]) != tools.sha1([1])
    ensures NoCollision(tools, Branches(tools))
  {
    hide BranchFor, UnitPath, BundlePath, OneJob;
  }

  lemma StagingInv(tools: Tools)
    requires Usable(tools, [0])
    ensures BranchFor(WHO).Some? && Inv(tools, Staging(tools))
  {
    hide Usable, BranchFor, Inv, IsRun, Begun, Fetched, Branched, Aggregating, Staging, Done, UnitPath, Pushed;
    PushHappens(tools);
    RunKeepsInv(tools, States(tools), 4);
  }

  lemma StagingFacts(tools: Tools)
    requires Usable(tools, [0])
    ensures BranchFor(WHO).Some?
    ensures var s, a := Staging(tools), Listed(tools);
      && s.commits != [] && IsListing(Head(s), []) && s.refs == Branches(tools)
      && s.aggregators == map[0 := a] && a.refs.Some?
      && SweptBy(tools, s, a) == Some(Pushed(tools, map[], [0]))
  {
    hide Usable, BranchFor, Sweep, Branches, Pushed, SmallListing;
    SweptIsPushed(tools);
  }

  /** The push of that run meets every hypothesis of the progress theorem. */
  lemma ProgressApplies(tools: Tools)
    requires Usable(tools, [0]) && tools.sha1([0]) != tools.sha1([1])
    ensures BranchFor(WHO).Some? && Inv(tools, Staging(tools)) && NoCollision(tools, Staging(tools).refs)
    ensures ListedFromPublishers(Staging(tools), Listed(tools)) && Staging(tools).commits != []
    ensures Pushable(Staging(tools), Listed(tools), [])
  {
    hide Next, Usable, BranchFor, Inv, ScansOf, SmallScans, Pushable, Branches, Pushed, SweptBy, ListedFromPublishers,
      NoCollision, Staging, Done, Listed, IsListing, UnitPath, BundlePath, OneJob, WHO;
    StagingInv(tools);
    StagingFacts(tools);
    OneJobIsPublished(tools, map[], [0]);
    SmallListingIsPublished(tools);
    SmallListingHasNoCollision(tools);
    SmallScansList(tools);
    PushStep(tools);
    PushEnabledIff(tools, Staging(tools), 0, Listed(tools), [], SmallScans(tools));
  }
}
