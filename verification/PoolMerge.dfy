/** Progress of the pool protocol: branches made by the publisher stay
    mergeable, however many aggregations happened since they were built. */
module PoolMerge {
  import opened Sequences
  import opened BrainPaths
  import opened PoolTree
  import opened PoolSweep
  import opened PoolPublish
  import opened PoolProtocol
  import PoolGate
  import Inventory

  ghost predicate AllRegular(t: Tree)
  {
    forall p :: p in t ==> t[p].mode == Regular
  }

  /** No two contents held by the ingest branches share a SHA-1. */
  ghost predicate NoCollision(tools: Tools, refs: map<string, Ref>)
  {
    forall m, n, x, y :: m in refs && n in refs && x in refs[m].listing && y in refs[n].listing ==>
      tools.sha1(x.1.blob) == tools.sha1(y.1.blob) ==> x.1.blob == y.1.blob
  }

  /** What the aggregator asks of a branch that the publisher does not see to:
      every file of the pool it was built on has the regular mode, and its
      documents are not empty. */
  ghost predicate Sound(base: Tree, job: Job)
  {
    AllRegular(base) && job.bundle != [] && job.telemetry != Some([])
  }

  ghost predicate Ready(s: State, n: string)
    requires n in s.refs
  {
    var o := s.refs[n].origin;
    o.Made? && o.base < |s.commits| && Sound(s.commits[o.base], o.job)
  }

  ghost predicate InRun(who: Tuple, run: string, attempt: string)
  {
    who.run == run && who.attempt == attempt
  }

  /** No legacy branch spells the tuple of `n`. */
  ghost predicate NoLegacyTwin(refs: map<string, Ref>, n: string)
  {
    forall m :: m in refs && ParseBranchLegacy(m).Some? && ParseBranchLegacy(m) == ParseRef(n) ==> m == n
  }

  /** Of the references listed, every one can be read, and those of the run come
      from publishers and have no legacy branch for their tuple. */
  ghost predicate FromPublishers(refs: map<string, Ref>, run: string, attempt: string, order: seq<string>)
  {
    forall n :: n in order ==>
      && n in refs && ParseRef(n).Some?
      && (InRun(ParseRef(n).value, run, attempt) ==> refs[n].origin.Made? && NoLegacyTwin(refs, n))
  }

  /** Every reference of the run comes from a publisher. */
  ghost predicate OnlyPublished(refs: map<string, Ref>, run: string, attempt: string)
  {
    forall n :: n in refs && ParseRef(n).Some? && InRun(ParseRef(n).value, run, attempt) ==> refs[n].origin.Made?
  }

  lemma NonEmpty(tools: Tools, s: State)
    requires Inv(tools, s)
    ensures s.commits != []
  {
  }

  lemma PoolStaysRegular(tools: Tools, s: State, k: nat)
    requires Inv(tools, s) && AllRegular(s.commits[0]) && k < |s.commits|
    ensures AllRegular(s.commits[k])
  {
    hide MadeBy, SeenRefs, Extends;
    forall p | p in s.commits[k] ensures s.commits[k][p].mode == Regular {
      if p in s.commits[0] {
        assert Extends(s.commits[0], s.commits[k]);
        SameEntry(s.commits[0], s.commits[k], p);
      } else {
        assert Brought(tools, s.refs, p, s.commits[k][p]);
      }
    }
  }

  lemma SameEntry(a: Tree, b: Tree, p: string)
    requires Extends(a, b) && p in a
    ensures p in b && b[p] == a[p]
  {
  }

  /** A published branch parses to the tuple of its job, and no other branch of
      the run does. */
  lemma BranchTuple(tools: Tools, s: State, n: string)
    requires Inv(tools, s) && n in s.refs && s.refs[n].origin.Made?
    ensures LaneHarness(s.refs[n].origin.job.lane).Some?
    ensures IsTuple(Who(s.refs[n].origin.job)) && ParseRef(n) == Some(Who(s.refs[n].origin.job))
    ensures BranchFor(Who(s.refs[n].origin.job)) == Some(n)
  {
    hide Grows, Accounted, SeenRefs, Publish, IsListing, ParseBranch, ParseBranchLegacy, Render;
    assert MadeBy(tools, s.commits, n, s.refs[n]);
    BranchRoundTrip(Who(s.refs[n].origin.job));
  }

  /** A published branch without a legacy twin is the only one of its tuple. */
  lemma OneBranchPerTuple(tools: Tools, s: State, m: string, n: string)
    requires Inv(tools, s) && NoLegacyTwin(s.refs, n) && n in s.refs && s.refs[n].origin.Made?
    requires m in s.refs && ParseRef(m).Some? && ParseRef(m) == ParseRef(n)
    ensures m == n
  {
    hide Inv, ParseBranch, ParseBranchLegacy, Publish, BranchFor;
    BranchTuple(tools, s, n);
    if ParseBranch(m).Some? { BranchParseInverse(m); }
  }

  /** Published branches are no legacy branches. */
  lemma PublishedHasNoTwin(tools: Tools, s: State, run: string, attempt: string, n: string)
    requires Inv(tools, s) && OnlyPublished(s.refs, run, attempt)
    requires n in s.refs && ParseRef(n).Some? && InRun(ParseRef(n).value, run, attempt)
    ensures s.refs[n].origin.Made? && NoLegacyTwin(s.refs, n)
  {
    hide Inv, Publish, BranchFor, ParseBranch, ParseBranchLegacy;
    forall m | m in s.refs && ParseBranchLegacy(m).Some? && ParseBranchLegacy(m) == ParseRef(n) ensures m == n {
      BranchGrammarsDisjoint(m);
      BranchTuple(tools, s, m);
      BranchTuple(tools, s, n);
    }
  }

  /** So it is enough that all references of the run are published. */
  lemma OnlyPublishedSuffices(tools: Tools, s: State, run: string, attempt: string, order: seq<string>)
    requires Inv(tools, s) && OnlyPublished(s.refs, run, attempt)
    requires forall n :: n in order ==> n in s.refs && ParseRef(n).Some?
    ensures FromPublishers(s.refs, run, attempt, order)
  {
    hide Inv, ParseRef, NoLegacyTwin, InRun, OnlyPublished;
    forall n | n in order && InRun(ParseRef(n).value, run, attempt)
      ensures s.refs[n].origin.Made? && NoLegacyTwin(s.refs, n)
    {
      PublishedHasNoTwin(tools, s, run, attempt, n);
    }
  }

  lemma ListedOnce(t: Tree, l: Listing, p: string, e: Entry)
    requires IsListing(t, l) && (p, e) in l
    ensures p in t && t[p] == e
  {
  }

  /** The published tree behind a branch of the run, with what is known of it. */
  lemma BranchTree(tools: Tools, s: State, n: string) returns (t: Tree, base: Tree)
    requires Inv(tools, s) && n in s.refs && s.refs[n].origin.Made?
    ensures LaneHarness(s.refs[n].origin.job.lane).Some?
    ensures IsListing(t, s.refs[n].listing) && Published(tools, base, s.refs[n].origin.job, t)
    ensures s.refs[n].origin.base < |s.commits| && base == s.commits[s.refs[n].origin.base]
    ensures Publish(tools, base, s.refs[n].origin.job) == Some(t)
    ensures base in s.commits && Extends(base, Head(s))
  {
    hide Accounted, SeenRefs, IsListing, BranchFor, Published, ValidUnits, Extends, Build;
    var o := s.refs[n].origin;
    assert MadeBy(tools, s.commits, n, s.refs[n]);
    base := s.commits[o.base];
    t := Publish(tools, base, o.job).value;
    AuditNeverRefuses(tools, base, o.job);
    assert Extends(s.commits[o.base], s.commits[|s.commits| - 1]);
  }

  /** A new entry of the branch that another sweep has put in the pool already
      has the same content there. */
  lemma AlreadyThere(tools: Tools, s: State, n: string, p: string, e: Entry)
    requires Inv(tools, s) && NoLegacyTwin(s.refs, n) && NoCollision(tools, s.refs)
    requires n in s.refs && s.refs[n].origin.Made?
    requires (p, e) in s.refs[n].listing && p in Head(s) && p !in s.commits[0]
    requires LaneHarness(s.refs[n].origin.job.lane).Some? && Addition(tools, s.refs[n].origin.job, p, e)
    ensures Head(s)[p].blob == e.blob
  {
    hide Inv, ParseRef, Basename, TelemetryFor, IncidentFor, CorpusUnitFor, NoLegacyTwin, IsListing, Publish;
    NonEmpty(tools, s);
    var there := Head(s)[p];
    var m := BroughtBy(tools, s, p);
    BranchTuple(tools, s, n);
    if "corpus/" <= p {
      SameHash(tools, s.refs, m, n, p, there, e);
    } else {
      EvidencePathInjective(ParseRef(m).value, ParseRef(n).value, p);
      OneBranchPerTuple(tools, s, m, n);
      var t, base := BranchTree(tools, s, n);
      ListedOnce(t, s.refs[n].listing, p, there);
      ListedOnce(t, s.refs[n].listing, p, e);
    }
  }

  lemma SameHash(tools: Tools, refs: map<string, Ref>, m: string, n: string, p: string, d: Entry, e: Entry)
    requires NoCollision(tools, refs) && m in refs && n in refs && (p, d) in refs[m].listing
      && (p, e) in refs[n].listing
    requires tools.sha1(d.blob) == tools.sha1(e.blob)
    ensures d.blob == e.blob
  {
    assert (p, d).1.blob == (p, e).1.blob;
  }

  lemma BroughtBy(tools: Tools, s: State, p: string) returns (m: string)
    requires Inv(tools, s) && p in Head(s) && p !in s.commits[0]
    ensures m in s.refs && ParseRef(m).Some? && (p, Head(s)[p]) in s.refs[m].listing
    ensures Legit(tools, ParseRef(m).value, p, Head(s)[p])
  {
    hide MadeBy, SeenRefs, ParseRef, Legit, Extends;
    assert Brought(tools, s.refs, p, s.commits[|s.commits| - 1][p]);
    m :| m in s.refs && ParseRef(m).Some? && (p, Head(s)[p]) in s.refs[m].listing
      && Legit(tools, ParseRef(m).value, p, Head(s)[p]);
  }

  lemma AddedPathLevels(tools: Tools, s: State, q: string)
    requires Inv(tools, s) && q in Head(s) && q !in s.commits[0]
    ensures ThreeLevels(q)
  {
    hide Inv, ThreeLevels, IsUnitPath, IsEvidencePath, Basename, ParseRef;
    NonEmpty(tools, s);
    var m := BroughtBy(tools, s, q);
    if IsUnitPath(ParseRef(m).value.harness, q) {
      UnitPathLevels(ParseRef(m).value.harness, q);
    } else {
      EvidencePathLevels(ParseRef(m).value, q);
    }
  }

  /** Paths added to the pool by sweeps are never in the way. */
  lemma NoClashWithHead(tools: Tools, s: State, base: Tree, p: string)
    requires Inv(tools, s) && base in s.commits && ThreeLevels(p) && !Clashes(base, p)
    ensures !Clashes(Head(s), p)
  {
    hide Inv, ThreeLevels;
    NonEmpty(tools, s);
    forall q | q in Head(s) ensures !(q + "/" <= p || p + "/" <= q) {
      if q !in base {
        NotOriginal(tools, s, base, q);
        AddedPathLevels(tools, s, q);
        ThreeLevelsNeverNest(p, q);
        ThreeLevelsNeverNest(q, p);
      }
    }
  }

  lemma AdditionClassified(tools: Tools, pool: Tree, job: Job, p: string, e: Entry)
    requires LaneHarness(job.lane).Some? && IsTuple(Who(job)) && job.bundle != [] && job.telemetry != Some([])
    requires Addition(tools, job, p, e) && p !in pool
    ensures Fresh(tools, pool, Item(Who(job), p, e))
  {
    hide IsTuple, Basename, TelemetryFor, IncidentFor, CorpusUnitFor;
    IncidentIsNotTelemetry(Who(job), Who(job));
  }

  lemma EntryAcceptable(tools: Tools, s: State, n: string, p: string, e: Entry)
    requires Inv(tools, s) && NoLegacyTwin(s.refs, n) && NoCollision(tools, s.refs)
    requires n in s.refs && s.refs[n].origin.Made? && Ready(s, n)
    requires ParseRef(n).Some? && (p, e) in s.refs[n].listing
    ensures Acceptable(tools, Head(s), Item(ParseRef(n).value, p, e))
  {
    hide Inv, ThreeLevels, ParseRef, Classify, Addition, Clashes, IsListing, NoCollision, AllRegular, NoLegacyTwin,
      Published, LaneHarness, Publish;
    NonEmpty(tools, s);
    var who := ParseRef(n).value;
    BranchTuple(tools, s, n);
    var t, base := BranchTree(tools, s, n);
    var job := s.refs[n].origin.job;
    ListedOnce(t, s.refs[n].listing, p, e);
    if p in base {
      PublishedExtends(tools, base, job, t);
      BaseEntryKnown(base, Head(s), t, p);
      KnownWhen(tools, Head(s), Item(who, p, e));
    } else {
      PublishedNew(tools, base, job, t, p);
      NoClashWithHead(tools, s, base, p);
      if p in Head(s) {
        NotOriginal(tools, s, base, p);
        AlreadyThere(tools, s, n, p, e);
        AdditionRegular(tools, job, p, e);
        KnownWhen(tools, Head(s), Item(who, p, e));
      } else {
        AdditionClassified(tools, Head(s), job, p, e);
      }
    }
  }

  lemma PublishedExtends(tools: Tools, base: Tree, job: Job, t: Tree)
    requires LaneHarness(job.lane).Some? && Published(tools, base, job, t)
    ensures Extends(base, t)
  {
  }

  lemma PublishedNew(tools: Tools, base: Tree, job: Job, t: Tree, p: string)
    requires LaneHarness(job.lane).Some? && Published(tools, base, job, t) && p in t && p !in base
    ensures Addition(tools, job, p, t[p]) && ThreeLevels(p) && !Clashes(base, p)
  {
  }

  lemma AdditionRegular(tools: Tools, job: Job, p: string, e: Entry)
    requires LaneHarness(job.lane).Some? && Addition(tools, job, p, e)
    ensures e.mode == Regular
  {
  }

  lemma KnownWhen(tools: Tools, pool: Tree, it: Item)
    requires Holds(pool, it)
    ensures Classify(tools, pool, it).Known?
  {
  }

  lemma BaseEntryKnown(base: Tree, head: Tree, t: Tree, p: string)
    requires AllRegular(base) && Extends(base, head) && Extends(base, t) && p in base
    ensures p in t && p in head && t[p] == head[p] && t[p].mode == Regular
  {
  }

  lemma NotOriginal(tools: Tools, s: State, base: Tree, p: string)
    requires Inv(tools, s) && base in s.commits && p !in base
    ensures p !in s.commits[0]
  {
    hide MadeBy, SeenRefs, Accounted;
    var k :| 0 <= k < |s.commits| && s.commits[k] == base;
    assert Extends(s.commits[0], s.commits[k]);
  }

  /** Where two entries of a sweep come from: positions in different branches,
      or different positions of one listing. */
  lemma {:induction false} ItemPosition(
    run: string, attempt: string, refs: seq<Branch>, i: nat) returns (b: nat, l: nat)
    requires i < |AllItems(run, attempt, refs)|
    ensures b < |refs| && l < |refs[b].listing| && ParseRef(refs[b].name).Some?
    ensures InRun(ParseRef(refs[b].name).value, run, attempt)
    ensures AllItems(run, attempt, refs)[i] ==
      Item(ParseRef(refs[b].name).value, refs[b].listing[l].0, refs[b].listing[l].1)
    ensures i == Offset(run, attempt, refs, b) + l
  {
    hide ParseRef;
    var m := |Matching(run, attempt, refs[0])|;
    if i < m {
      b, l := 0, i;
    } else {
      assert AllItems(run, attempt, refs)[i] == AllItems(run, attempt, refs[1..])[i - m];
      var c, k := ItemPosition(run, attempt, refs[1..], i - m);
      b, l := c + 1, k;
      assert refs[1..][c] == refs[b];
    }
  }

  /** How many entries the branches before the b-th contribute. */
  function Offset(run: string, attempt: string, refs: seq<Branch>, b: nat): (n: nat)
    requires b <= |refs|
  {
    if b == 0 then 0 else |Matching(run, attempt, refs[0])| + Offset(run, attempt, refs[1..], b - 1)
  }

  lemma EntriesAgree(
    tools: Tools, s: State, m: string, x: (string, Entry), n: string, y: (string, Entry))
    requires Inv(tools, s) && NoCollision(tools, s.refs)
    requires m in s.refs && ParseRef(m).Some? && x in s.refs[m].listing
    requires n in s.refs && ParseRef(n).Some? && y in s.refs[n].listing
    requires s.refs[n].origin.Made? && NoLegacyTwin(s.refs, n)
    requires m == n ==> x.0 != y.0
    ensures Agree(tools, Head(s), Item(ParseRef(m).value, x.0, x.1), Item(ParseRef(n).value, y.0, y.1))
  {
    hide Inv, ParseRef, Classify, IsEvidencePath, NoLegacyTwin, NoCollision, Basename;
    NonEmpty(tools, s);
    var a, b := ParseRef(m).value, ParseRef(n).value;
    var i, j := Item(a, x.0, x.1), Item(b, y.0, y.1);
    if Fresh(tools, Head(s), i) && Fresh(tools, Head(s), j) && x.0 == y.0 {
      FreshKind(tools, Head(s), i);
      FreshKind(tools, Head(s), j);
      SameClass(tools, Head(s), i, j);
      SameClass(tools, Head(s), j, i);
      if Classify(tools, Head(s), i).Unit? {
        SameHash(tools, s.refs, m, n, x.0, x.1, y.1);
      } else {
        EvidencePathInjective(a, b, x.0);
        OneBranchPerTuple(tools, s, m, n);
      }
    }
  }

  lemma FreshKind(tools: Tools, pool: Tree, it: Item)
    requires Fresh(tools, pool, it)
    ensures Classify(tools, pool, it).Unit? ==> tools.sha1(it.entry.blob) == Basename(it.path)
    ensures Classify(tools, pool, it).Once? ==> IsEvidencePath(it.who, it.path)
  {
    hide TelemetryFor, IncidentFor;
  }

  // ----- branches that are not ready -----

  lemma IrregularRefused(tools: Tools, pool: Tree, it: Item)
    requires it.entry.mode != Regular
    ensures Classify(tools, pool, it).Refuse?
  {
  }

  /** An empty document is refused, also when its path is taken. */
  lemma EmptyRefused(tools: Tools, s: State, who: Tuple, base: Tree, p: string, e: Entry)
    requires Inv(tools, s) && base in s.commits && p !in base
    requires IsTuple(who) && IsEvidencePath(who, p) && e.blob == []
    ensures s.commits != [] && Classify(tools, Head(s), Item(who, p, e)).Refuse?
  {
    hide Inv, ParseRef, Basename, TelemetryFor, IncidentFor, CorpusUnitFor, Brought;
    NonEmpty(tools, s);
    if p in Head(s) {
      NotOriginal(tools, s, base, p);
      var m := BroughtBy(tools, s, p);
    }
  }

  lemma ListedEntry(t: Tree, l: Listing, p: string)
    requires IsListing(t, l) && p in t
    ensures (p, t[p]) in l
  {
  }

  lemma EvidenceHeld(tools: Tools, base: Tree, job: Job, t: Tree)
    requires Publish(tools, base, job) == Some(t)
    ensures LaneHarness(job.lane).Some? && IsTuple(Who(job))
    ensures IncidentFor(Who(job)).Some? && HoldsBlob(t, IncidentFor(Who(job)).value, job.bundle)
    ensures IsEvidencePath(Who(job), IncidentFor(Who(job)).value) && IncidentFor(Who(job)).value !in base
    ensures job.telemetry.Some? ==>
      && TelemetryFor(Who(job)).Some? && HoldsBlob(t, TelemetryFor(Who(job)).value, job.telemetry.value)
      && IsEvidencePath(Who(job), TelemetryFor(Who(job)).value) && TelemetryFor(Who(job)).value !in base
  {
    hide Publish, IncidentFor, TelemetryFor, HoldsBlob, IsEvidencePath, IsTuple;
    EvidenceIsNew(tools, base, job);
    PublishKeepsEverything(tools, base, job);
    EvidencePathOf(Who(job));
  }

  /** A branch that is not ready has an entry that is refused. */
  lemma NotReadyRefused(tools: Tools, s: State, n: string) returns (x: (string, Entry))
    requires Inv(tools, s) && n in s.refs && s.refs[n].origin.Made? && !Ready(s, n)
    ensures s.commits != [] && ParseRef(n).Some? && x in s.refs[n].listing
    ensures Classify(tools, Head(s), Item(ParseRef(n).value, x.0, x.1)).Refuse?
  {
    hide Inv, ParseRef, Classify, IsListing, Published, LaneHarness, Publish, IncidentFor, TelemetryFor,
      IsEvidencePath, BranchFor, IsTuple;
    NonEmpty(tools, s);
    BranchTuple(tools, s, n);
    var t, base := BranchTree(tools, s, n);
    var job, l := s.refs[n].origin.job, s.refs[n].listing;
    var who := Who(job);
    EvidenceHeld(tools, base, job, t);
    if job.bundle == [] {
      var p := IncidentFor(who).value;
      x := (p, t[p]);
      ListedEntry(t, l, p);
      EmptyRefused(tools, s, who, base, p, t[p]);
    } else if job.telemetry == Some([]) {
      var p := TelemetryFor(who).value;
      x := (p, t[p]);
      ListedEntry(t, l, p);
      EmptyRefused(tools, s, who, base, p, t[p]);
    } else {
      var p :| p in base && base[p].mode != Regular;
      PublishedExtends(tools, base, job, t);
      SameEntry(base, t, p);
      x := (p, t[p]);
      ListedEntry(t, l, p);
      IrregularRefused(tools, Head(s), Item(who, p, t[p]));
    }
  }

  // ----- a branch on the pool it was built on -----

  lemma EmptyRefusedOn(tools: Tools, base: Tree, who: Tuple, p: string, e: Entry)
    requires IsTuple(who) && IsEvidencePath(who, p) && e.blob == [] && p !in base
    ensures Classify(tools, base, Item(who, p, e)).Refuse?
  {
    hide IsTuple, Basename, TelemetryFor, IncidentFor, CorpusUnitFor;
  }

  /** An unsound job has an entry that is refused. */
  lemma UnsoundRefused(tools: Tools, base: Tree, job: Job, t: Tree, l: Listing) returns (x: (string, Entry))
    requires Publish(tools, base, job) == Some(t) && IsListing(t, l) && !Sound(base, job)
    ensures LaneHarness(job.lane).Some? && x in l && Classify(tools, base, Item(Who(job), x.0, x.1)).Refuse?
  {
    hide Classify, IsListing, Published, LaneHarness, Publish, IncidentFor, TelemetryFor, IsEvidencePath, IsTuple,
      Startable;
    EvidenceHeld(tools, base, job, t);
    AuditNeverRefuses(tools, base, job);
    var who := Who(job);
    if job.bundle == [] {
      var p := IncidentFor(who).value;
      x := (p, t[p]);
      ListedEntry(t, l, p);
      EmptyRefusedOn(tools, base, who, p, t[p]);
    } else if job.telemetry == Some([]) {
      var p := TelemetryFor(who).value;
      x := (p, t[p]);
      ListedEntry(t, l, p);
      EmptyRefusedOn(tools, base, who, p, t[p]);
    } else {
      var p :| p in base && base[p].mode != Regular;
      PublishedExtends(tools, base, job, t);
      SameEntry(base, t, p);
      x := (p, t[p]);
      ListedEntry(t, l, p);
      IrregularRefused(tools, base, Item(who, p, t[p]));
    }
  }

  lemma SoundCompatible(tools: Tools, base: Tree, job: Job, t: Tree, l: Listing)
    requires Publish(tools, base, job) == Some(t) && IsListing(t, l) && Sound(base, job)
    ensures LaneHarness(job.lane).Some? && Compatible(tools, base, Items(Who(job), l))
  {
    hide Classify, Published, LaneHarness, Publish, IncidentFor, TelemetryFor, IsEvidencePath, IsTuple, Startable,
      Clashes, Addition, ThreeLevels;
    EvidenceHeld(tools, base, job, t);
    AuditNeverRefuses(tools, base, job);
    PublishedExtends(tools, base, job, t);
    var items := Items(Who(job), l);
    forall i | 0 <= i < |items| ensures Acceptable(tools, base, items[i]) {
      var p, e := l[i].0, l[i].1;
      if p in base {
        SameEntry(base, t, p);
        KnownWhen(tools, base, items[i]);
      } else {
        PublishedNew(tools, base, job, t, p);
        AdditionClassified(tools, base, job, p, e);
      }
    }
  }

  /** On the pool that it was built on, a branch merges exactly when its job is
      sound, and what is staged is then exactly the tree that was pushed. */
  lemma BuiltBranchMerges(tools: Tools, base: Tree, job: Job, t: Tree, l: Listing)
    requires Publish(tools, base, job) == Some(t) && IsListing(t, l)
    ensures LaneHarness(job.lane).Some?
    ensures Fold(Stager(tools, base), Some(base), Items(Who(job), l)) == if Sound(base, job) then Some(t) else None
  {
    hide Classify, Published, LaneHarness, Publish, IncidentFor, TelemetryFor, IsTuple, Startable, Sound, Stager;
    EvidenceHeld(tools, base, job, t);
    AuditNeverRefuses(tools, base, job);
    PublishedExtends(tools, base, job, t);
    var items := Items(Who(job), l);
    FoldSucceedsIff(tools, base, items);
    if Sound(base, job) {
      SoundCompatible(tools, base, job, t, l);
      StagedIsPushed(tools, base, job, t, l, Fold(Stager(tools, base), Some(base), items).value);
    } else {
      var x := UnsoundRefused(tools, base, job, t, l);
      var i :| 0 <= i < |l| && l[i] == x;
      assert !Acceptable(tools, base, items[i]);
    }
  }

  lemma StagedIsPushed(tools: Tools, base: Tree, job: Job, t: Tree, l: Listing, r: Tree)
    requires LaneHarness(job.lane).Some? && Extends(base, t) && IsListing(t, l)
    requires Staged(tools, base, r, Items(Who(job), l))
    ensures r == t
  {
    hide Fresh, LaneHarness;
    var items := Items(Who(job), l);
    forall p | p in r ensures p in t && r[p] == t[p] {
      if p !in base {
        assert ComesFrom(tools, base, items, p, r[p]);
        var i :| 0 <= i < |items| && Fresh(tools, base, items[i]) && items[i].path == p && items[i].entry == r[p];
        assert l[i] == (p, r[p]);
      }
    }
    forall p | p in t ensures p in r {
      var i :| 0 <= i < |l| && l[i] == (p, t[p]);
      assert Holds(r, items[i]);
    }
  }

  // ----- one branch -----

  /** One branch by itself, whatever other references there are: comparing its
      tree with the current head reaches no rejecting exit exactly when it is
      ready, and then the head with its entries added holds all of them. */
  lemma BranchMergeable(tools: Tools, s: State, n: string)
    requires Inv(tools, s) && NoCollision(tools, s.refs)
    requires n in s.refs && s.refs[n].origin.Made? && NoLegacyTwin(s.refs, n)
    ensures s.commits != [] && ParseRef(n).Some?
    ensures var r := Fold(Stager(tools, Head(s)), Some(Head(s)), Items(ParseRef(n).value, s.refs[n].listing));
      && (r.Some? <==> Ready(s, n))
      && (r.Some? ==> Extends(Head(s), r.value))
      && (r.Some? ==> forall x :: x in s.refs[n].listing ==> x.0 in r.value && r.value[x.0].blob == x.1.blob)
  {
    hide Inv, ParseRef, NoLegacyTwin, NoCollision, Ready, Fresh, Extends, ComesFrom, Publish, BranchFor, LaneHarness,
      Classify;
    NonEmpty(tools, s);
    BranchTuple(tools, s, n);
    var l := s.refs[n].listing;
    var items := Items(ParseRef(n).value, l);
    FoldSucceedsIff(tools, Head(s), items);
    if !Ready(s, n) {
      var x := NotReadyRefused(tools, s, n);
      var i :| 0 <= i < |l| && l[i] == x;
      assert !Acceptable(tools, Head(s), items[i]);
    } else {
      BranchCompatible(tools, s, n);
      var t := Fold(Stager(tools, Head(s)), Some(Head(s)), items).value;
      forall x | x in l ensures x.0 in t && t[x.0].blob == x.1.blob {
        var i :| 0 <= i < |l| && l[i] == x;
        assert Holds(t, items[i]);
      }
    }
  }

  lemma BranchCompatible(tools: Tools, s: State, n: string)
    requires Inv(tools, s) && NoCollision(tools, s.refs) && s.commits != [] && ParseRef(n).Some?
    requires n in s.refs && s.refs[n].origin.Made? && NoLegacyTwin(s.refs, n) && Ready(s, n)
    ensures Compatible(tools, Head(s), Items(ParseRef(n).value, s.refs[n].listing))
  {
    hide Inv, ParseRef, NoLegacyTwin, NoCollision, Ready, Acceptable, Fresh, Publish, BranchFor, LaneHarness;
    var l := s.refs[n].listing;
    var items := Items(ParseRef(n).value, l);
    forall i | 0 <= i < |items| ensures Acceptable(tools, Head(s), items[i]) {
      assert l[i] in l;
      EntryAcceptable(tools, s, n, l[i].0, l[i].1);
    }
    forall i, j | 0 <= i < j < |items| ensures Agree(tools, Head(s), items[i], items[j]) {
      PathsDiffer(tools, s, n, i, j);
    }
  }

  // ----- whole sweeps -----

  /** Every reference of the run among those listed is ready. */
  ghost predicate AllReady(s: State, run: string, attempt: string, order: seq<string>)
    requires forall n :: n in order ==> n in s.refs && ParseRef(n).Some?
  {
    forall n :: n in order && InRun(ParseRef(n).value, run, attempt) ==> Ready(s, n)
  }

  /** The entry is in the branch, and the branch is one of the run. */
  ghost predicate OfRun(s: State, run: string, attempt: string, n: string, x: (string, Entry))
    requires n in s.refs && ParseRef(n).Some?
  {
    InRun(ParseRef(n).value, run, attempt) && x in s.refs[n].listing
  }

  lemma SweepCompatible(tools: Tools, s: State, run: string, attempt: string, order: seq<string>)
    requires Inv(tools, s) && FromPublishers(s.refs, run, attempt, order) && NoCollision(tools, s.refs)
      && s.commits != []
    requires Distinct(order) && AllReady(s, run, attempt, order)
    ensures Compatible(tools, Head(s), AllItems(run, attempt, Snapshot(s.refs, order)))
  {
    hide Inv, ParseRef, NoLegacyTwin, NoCollision, Ready, AllItems, Acceptable, Agree;
    var refs := Snapshot(s.refs, order);
    var items := AllItems(run, attempt, refs);
    forall i | 0 <= i < |items| ensures Acceptable(tools, Head(s), items[i]) {
      var b, l := ItemPosition(run, attempt, refs, i);
      assert refs[b].listing[l] in s.refs[order[b]].listing;
      EntryAcceptable(tools, s, order[b], refs[b].listing[l].0, refs[b].listing[l].1);
    }
    forall i, j | 0 <= i < j < |items| ensures Agree(tools, Head(s), items[i], items[j]) {
      var b, l := ItemPosition(run, attempt, refs, i);
      var c, k := ItemPosition(run, attempt, refs, j);
      assert refs[b].listing[l] in s.refs[order[b]].listing && refs[c].listing[k] in s.refs[order[c]].listing;
      if order[b] == order[c] {
        assert b == c;
        PathsDiffer(tools, s, order[b], l, k);
      }
      EntriesAgree(tools, s, order[b], refs[b].listing[l], order[c], refs[c].listing[k]);
    }
  }

  lemma UnreadyIncompatible(tools: Tools, s: State, run: string, attempt: string, order: seq<string>, n: string)
    requires Inv(tools, s) && s.commits != []
    requires forall m :: m in order ==> m in s.refs
    requires n in order && ParseRef(n).Some? && InRun(ParseRef(n).value, run, attempt)
    requires s.refs[n].origin.Made? && !Ready(s, n)
    ensures !Compatible(tools, Head(s), AllItems(run, attempt, Snapshot(s.refs, order)))
  {
    hide Inv, ParseRef, Ready, AllItems, Agree, Classify;
    var refs := Snapshot(s.refs, order);
    var b :| 0 <= b < |order| && order[b] == n;
    var x := NotReadyRefused(tools, s, n);
    var i := ItemAt(run, attempt, refs, b, x);
    assert !Acceptable(tools, Head(s), AllItems(run, attempt, refs)[i]);
  }

  /** In every reachable state and for every order of any of the references, the
      sweep of a run whose branches come from publishers reaches no rejecting
      exit exactly when its branches are ready, and then the staged pool holds
      every entry of every one of them. */
  lemma Mergeable(tools: Tools, s: State, run: string, attempt: string, order: seq<string>)
    requires Inv(tools, s) && FromPublishers(s.refs, run, attempt, order) && NoCollision(tools, s.refs)
    requires Distinct(order)
    ensures s.commits != []
    ensures var swept := Sweep(tools, run, attempt, Head(s), Snapshot(s.refs, order));
      && (swept.Some? <==> AllReady(s, run, attempt, order))
      && (swept.Some? ==> Staged(tools, Head(s), swept.value, AllItems(run, attempt, Snapshot(s.refs, order))))
      && (swept.Some? ==> forall n, x :: n in order && OfRun(s, run, attempt, n, x) ==>
            x.0 in swept.value && swept.value[x.0].blob == x.1.blob)
  {
    hide Inv, ParseRef, NoLegacyTwin, NoCollision, Ready, AllItems, Sweep, Compatible, Extends, ComesFrom, Fetchable;
    NonEmpty(tools, s);
    var refs := Snapshot(s.refs, order);
    var items := AllItems(run, attempt, refs);
    assert AllParse(refs);
    OneTupleEach(tools, s, run, attempt, order);
    SweepSucceedsIff(tools, run, attempt, Head(s), refs);
    if AllReady(s, run, attempt, order) {
      SweepCompatible(tools, s, run, attempt, order);
    } else {
      var n :| n in order && InRun(ParseRef(n).value, run, attempt) && !Ready(s, n);
      UnreadyIncompatible(tools, s, run, attempt, order, n);
    }
    var swept := Sweep(tools, run, attempt, Head(s), refs);
    if swept.Some? {
      forall n, x | n in order && InRun(ParseRef(n).value, run, attempt) && x in s.refs[n].listing
        ensures x.0 in swept.value && swept.value[x.0].blob == x.1.blob
      {
        var b :| 0 <= b < |order| && order[b] == n;
        var i := ItemAt(run, attempt, refs, b, x);
        assert Holds(swept.value, items[i]);
      }
    }
  }

  /** Listed branches of the run spell different tuples, so all can be fetched. */
  lemma OneTupleEach(tools: Tools, s: State, run: string, attempt: string, order: seq<string>)
    requires Inv(tools, s) && FromPublishers(s.refs, run, attempt, order) && Distinct(order)
    ensures Fetchable(run, attempt, Snapshot(s.refs, order))
  {
    hide Inv, ParseRef, NoLegacyTwin, Distinct;
    var refs := Snapshot(s.refs, order);
    forall a, b | a in refs && b in refs && SameName(run, attempt, a, b) ensures a.commit == b.commit {
      assert a.name in order && b.name in order;
      OneBranchPerTuple(tools, s, a.name, b.name);
    }
  }

  lemma PathsDiffer(tools: Tools, s: State, n: string, l: nat, k: nat)
    requires Inv(tools, s) && n in s.refs && s.refs[n].origin.Made?
    requires l < |s.refs[n].listing| && k < |s.refs[n].listing| && l != k
    ensures s.refs[n].listing[l].0 != s.refs[n].listing[k].0
  {
    hide Inv, ParseRef;
    var t, base := BranchTree(tools, s, n);
  }

  lemma {:induction false} ItemAt(
    run: string, attempt: string, refs: seq<Branch>, b: nat, x: (string, Entry)) returns (i: nat)
    requires b < |refs| && ParseRef(refs[b].name).Some? && InRun(ParseRef(refs[b].name).value, run, attempt)
    requires x in refs[b].listing
    ensures i < |AllItems(run, attempt, refs)|
    ensures AllItems(run, attempt, refs)[i] == Item(ParseRef(refs[b].name).value, x.0, x.1)
  {
    hide ParseRef;
    var m := |Matching(run, attempt, refs[0])|;
    if b == 0 {
      i :| 0 <= i < |refs[0].listing| && refs[0].listing[i] == x;
    } else {
      var k := ItemAt(run, attempt, refs[1..], b - 1, x);
      i := m + k;
    }
  }

  /** The same over runs: whatever was interleaved before. */
  lemma MergeableInEveryRun(tools: Tools, states: seq<State>, i: nat, run: string, attempt: string, order: seq<string>)
    requires IsRun(tools, states) && i < |states|
    requires FromPublishers(states[i].refs, run, attempt, order) && NoCollision(tools, states[i].refs)
    requires Distinct(order)
    ensures states[i].commits != []
    ensures Sweep(tools, run, attempt, Head(states[i]), Snapshot(states[i].refs, order)).Some? <==>
      AllReady(states[i], run, attempt, order)
  {
    hide Inv, FromPublishers, NoCollision, Sweep, ParseRef, Advances, AllReady;
    RunKeepsInv(tools, states, i);
    Mergeable(tools, states[i], run, attempt, order);
  }

  /** A branch stays mergeable in every later state of every run: whether it is
      ready was settled when it was built. */
  lemma BranchMergeableInEveryRun(tools: Tools, states: seq<State>, i: nat, j: nat, n: string)
    requires IsRun(tools, states) && i <= j < |states| && NoCollision(tools, states[j].refs)
    requires n in states[i].refs && states[i].refs[n].origin.Made?
    ensures states[j].commits != [] && n in states[j].refs && states[j].refs[n] == states[i].refs[n]
    ensures ParseRef(n).Some?
    ensures var pool, items := Head(states[j]), Items(ParseRef(n).value, states[j].refs[n].listing);
      NoLegacyTwin(states[j].refs, n) ==> (Fold(Stager(tools, pool), Some(pool), items).Some? <==> Ready(states[i], n))
  {
    hide Inv, NoLegacyTwin, NoCollision, AllRegular, ParseRef, Advances, Fold;
    RunKeepsInv(tools, states, i);
    RunKeepsInv(tools, states, j);
    NonEmpty(tools, states[j]);
    RunGrows(tools, states, i, j);
    BuiltOn(tools, states[i], n);
    BranchTuple(tools, states[i], n);
    if NoLegacyTwin(states[j].refs, n) { BranchMergeable(tools, states[j], n); }
  }

  lemma BuiltOn(tools: Tools, s: State, n: string)
    requires Inv(tools, s) && n in s.refs && s.refs[n].origin.Made?
    ensures s.refs[n].origin.base < |s.commits|
  {
    hide Grows, Accounted, SeenRefs, Publish, IsListing, BranchFor;
    assert MadeBy(tools, s.commits, n, s.refs[n]);
  }

  /** Once a sweep has been pushed, sweeping the same references again stages
      nothing, at any later point of the run. */
  lemma PushedSweepIsAbsorbed(
    tools: Tools, states: seq<State>, i: nat, j: nat, id: nat, scans: map<string, Inventory.Source>)
    requires IsRun(tools, states) && i + 1 <= j < |states| && states[i].commits != []
    requires Next(tools, states[i], states[i + 1], PushPool(id, scans))
    ensures states[j].commits != []
    ensures var a := states[i].aggregators[id];
      Sweep(tools, a.run, a.attempt, Head(states[j]), a.refs.value) == Some(Head(states[j]))
  {
    hide Brought, PoolGate.Readable, PoolGate.Gate, Sweep, Extends, Advances, Init;
    var a := states[i].aggregators[id];
    PoolSafety(tools, states, i + 1, j);
    SweepIdempotent(tools, a.run, a.attempt, Head(states[i]), a.refs.value, Head(states[j]));
  }
}
