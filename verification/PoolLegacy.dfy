/** Which references a sweep reads (scripts/aggregate_ingest.sh with
    scripts/brain_paths.sh), canonical and legacy, and what one of them does to
    it: nothing if it belongs to another run, exactly its own entries if not. */
module PoolLegacy {
  import opened Sequences
  import opened BrainPaths
  import opened PathTexts
  import opened PoolTree
  import opened PoolSweep

  /** A reference is read exactly as its canonical or its legacy text. */
  lemma ParseRefIff(name: string, t: Tuple)
    ensures ParseRef(name) == Some(t) <==>
      (IsTuple(t) && name == "ingest/run-" + t.run + "/attempt-" + t.attempt + "/" + t.harness + "/shard-" + t.shard)
      || (IsUint(t.run) && IsUint(t.attempt) && IsUint(t.shard) && t.harness == OLD_HARNESS
          && name == LegacyText(t.run, t.attempt, t.shard))
  {
    hide IsTuple, ParseBranch, ParseBranchLegacy, IsUint, LegacyText, Render;
    LegacyAcceptedIff(name, t);
    BranchAcceptedIff(name, t);
    BranchGrammarsDisjoint(name);
  }

  lemma BranchAcceptedIff(name: string, t: Tuple)
    ensures ParseBranch(name) == Some(t) <==>
      IsTuple(t) && name == "ingest/run-" + t.run + "/attempt-" + t.attempt + "/" + t.harness + "/shard-" + t.shard
  {
    hide IsTuple, ParseBranch, Render;
    if ParseBranch(name) == Some(t) { BranchParseInverse(name); }
    if IsTuple(t) {
      BranchText(t);
      BranchRoundTrip(t);
    }
  }

  // ----- references of other runs -----

  lemma OtherFetches(run: string, attempt: string, before: seq<Branch>, b: Branch, after: seq<Branch>)
    requires TupleIn(run, attempt, b).None?
    ensures Fetchable(run, attempt, before + [b] + after) <==> Fetchable(run, attempt, before + after)
  {
    hide TupleIn;
    var xs, ys := before + [b] + after, before + after;
    assert forall x :: x in ys ==> x in xs;
    assert forall x :: x in xs ==> x in ys || x == b;
  }

  /** A readable reference of another run or attempt changes no sweep. */
  lemma OtherRunChangesNothing(
    tools: Tools, run: string, attempt: string, base: Tree, before: seq<Branch>, b: Branch, after: seq<Branch>)
    requires ParseRef(b.name).Some? && (ParseRef(b.name).value.run != run || ParseRef(b.name).value.attempt != attempt)
    ensures Sweep(tools, run, attempt, base, before + [b] + after) == Sweep(tools, run, attempt, base, before + after)
  {
    hide ParseRef, Fetchable, Stager, Items;
    OtherFetches(run, attempt, before, b, after);
    var f := Sweeper(tools, run, attempt, base);
    var s := Fold(f, Some(base), before);
    assert before + [b] + after == before + ([b] + after);
    FoldSplit(f, Some(base), before, [b] + after);
    FoldSplit(f, Some(base), before, after);
    assert ([b] + after)[0] == b && ([b] + after)[1..] == after;
    assert Fold(f, s, [b] + after) == Fold(f, f(s, b), after);
  }

  /** So an old reference does not stop the sweeps of today. */
  lemma OldReferencesAreSkipped(
    tools: Tools, run: string, attempt: string, base: Tree, before: seq<Branch>, b: Branch, after: seq<Branch>,
    r: string, a: string, k: string)
    requires IsUint(r) && IsUint(a) && IsUint(k) && b.name == LegacyText(r, a, k) && (r != run || a != attempt)
    ensures Sweep(tools, run, attempt, base, before + [b] + after) == Sweep(tools, run, attempt, base, before + after)
  {
    hide IsUint, LegacyText, ParseRef, Sweep;
    ParseRefIff(b.name, Tuple(r, a, OLD_HARNESS, k));
    OtherRunChangesNothing(tools, run, attempt, base, before, b, after);
  }

  // ----- references of the run -----

  /** An entry passes the comparison exactly when it is a regular file that the
      pool holds with this content, or one that its tuple may bring and that is
      not in the way of the pool. */
  lemma AcceptableIff(tools: Tools, base: Tree, it: Item)
    ensures Acceptable(tools, base, it) <==>
      if it.path in base then it.entry.mode == Regular && base[it.path].blob == it.entry.blob
      else Legit(tools, it.who, it.path, it.entry) && !Clashes(base, it.path)
  {
    hide Clashes, Basename, CorpusUnitFor, TelemetryFor, IncidentFor, IsTuple;
    if TelemetryFor(it.who) == Some(it.path) && IncidentFor(it.who) == Some(it.path) { EvidenceTuple(it.who, it.path); }
  }

  /** Two acceptable entries on one path get along exactly when the pool holds
      the path already, or it is a corpus path and they bring one content. */
  lemma AgreeIff(tools: Tools, base: Tree, x: Item, y: Item)
    requires Acceptable(tools, base, x) && Acceptable(tools, base, y) && x.path == y.path
    ensures Agree(tools, base, x, y) <==> x.path in base || ("corpus/" <= x.path && x.entry.blob == y.entry.blob)
  {
    hide Clashes, Basename, CorpusUnitFor, TelemetryFor, IncidentFor, IsTuple, IsUnitPath;
    CorpusOrEvidence(x.who, x.path);
    CorpusOrEvidence(y.who, y.path);
  }

  lemma CorpusOrEvidence(who: Tuple, p: string)
    ensures TelemetryFor(who) == Some(p) || IncidentFor(who) == Some(p) ==> !("corpus/" <= p)
    ensures IsUnitPath(who.harness, p) ==> "corpus/" <= p
  {
    if TelemetryFor(who).Some? { assert TelemetryFor(who).value[0] == 't'; }
    if IncidentFor(who).Some? { assert IncidentFor(who).value[0] == 'i'; }
  }

  lemma EvidenceTuple(who: Tuple, p: string)
    requires TelemetryFor(who) == Some(p)
    ensures IncidentFor(who) != Some(p)
  {
    hide Render;
    IncidentIsNotTelemetry(who, who);
  }

  /** What a sweep of one reference asks of its listing. */
  ghost predicate Takes(tools: Tools, base: Tree, who: Tuple, l: Listing)
  {
    && (forall x :: x in l ==>
          if x.0 in base then x.1.mode == Regular && base[x.0].blob == x.1.blob
          else Legit(tools, who, x.0, x.1) && !Clashes(base, x.0))
  }

  ghost predicate Once(l: Listing) { forall i, j :: 0 <= i < j < |l| ==> l[i].0 != l[j].0 }

  /** The pool with exactly the new entries of the listing. */
  ghost predicate PoolWith(base: Tree, l: Listing, t: Tree)
  {
    && (forall p :: p in base ==> p in t && t[p] == base[p])
    && (forall p, e :: p !in base ==> ((p in t && t[p] == e) <==> (p, e) in l))
  }

  lemma OneReference(tools: Tools, base: Tree, b: Branch, who: Tuple)
    requires ParseRef(b.name) == Some(who)
    ensures Sweep(tools, who.run, who.attempt, base, [b]) ==
      Fold(Stager(tools, base), Some(base), Items(who, b.listing))
  {
    hide ParseRef, Stager, Items;
    assert Fetchable(who.run, who.attempt, [b]);
    var f := Sweeper(tools, who.run, who.attempt, base);
    assert [b][1..] == [];
    assert Fold(f, Some(base), [b]) == Fold(f, f(Some(base), [b][0]), [b][1..]);
  }

  /** A sweep of one reference of the run succeeds exactly when its listing is
      taken, and adds exactly its new entries. */
  lemma OneReferenceIff(tools: Tools, base: Tree, b: Branch, who: Tuple)
    requires ParseRef(b.name) == Some(who) && Once(b.listing)
    ensures var r := Sweep(tools, who.run, who.attempt, base, [b]);
      && (r.Some? <==> Takes(tools, base, who, b.listing))
      && (r.Some? ==> PoolWith(base, b.listing, r.value))
  {
    hide ParseRef, Legit, Clashes, Stager, Sweep, Fresh, Acceptable;
    OneReference(tools, base, b, who);
    var items := Items(who, b.listing);
    FoldSucceedsIff(tools, base, items);
    forall i | 0 <= i < |items| ensures Acceptable(tools, base, items[i]) <==> Takes(tools, base, who, [b.listing[i]]) {
      AcceptableIff(tools, base, items[i]);
    }
    if Takes(tools, base, who, b.listing) {
      forall i | 0 <= i < |items| ensures Acceptable(tools, base, items[i]) { assert b.listing[i] in b.listing; }
      assert Compatible(tools, base, items);
    }
    if Compatible(tools, base, items) {
      forall x | x in b.listing ensures Takes(tools, base, who, [x]) {
        var i :| 0 <= i < |b.listing| && b.listing[i] == x;
        assert Acceptable(tools, base, items[i]);
      }
      assert forall x :: x in b.listing ==> x in [x];
      StagedIsPoolWith(tools, base, who, b.listing, Fold(Stager(tools, base), Some(base), items).value);
    }
  }

  lemma StagedIsPoolWith(tools: Tools, base: Tree, who: Tuple, l: Listing, t: Tree)
    requires Staged(tools, base, t, Items(who, l)) && Once(l)
    ensures PoolWith(base, l, t)
  {
    hide Fresh;
    var items := Items(who, l);
    forall x | x in l ensures x.0 in t {
      var j :| 0 <= j < |l| && l[j] == x;
      assert Holds(t, items[j]);
    }
    forall p, e | p !in base ensures (p in t && t[p] == e) <==> (p, e) in l {
      if p in t {
        assert ComesFrom(tools, base, items, p, t[p]);
        var i :| 0 <= i < |items| && Fresh(tools, base, items[i]) && items[i].path == p && items[i].entry == t[p];
        assert l[i] == (p, t[p]);
        if (p, e) in l {
          var j :| 0 <= j < |l| && l[j] == (p, e);
          assert i == j;
        }
      }
    }
  }

  /** The paths that a legacy reference may bring. */
  lemma LegacyPaths(tools: Tools, r: string, a: string, k: string, p: string, e: Entry)
    requires Legit(tools, Tuple(r, a, OLD_HARNESS, k), p, e)
    ensures "corpus/" <= p ==>
      "corpus/cmp_ecdsa_online/" <= p && IsUnitName(p[24..]) && tools.sha1(e.blob) == p[24..]
    ensures !("corpus/" <= p) ==> IsEvidencePath(Tuple(r, a, OLD_HARNESS, k), p)
  {
    hide TelemetryFor, IncidentFor, IsUnitName, IsUnitPath, CorpusDir, OLD_HARNESS, Basename, ThreeLevels;
    UnitPathIsCorpus(OLD_HARNESS, p);
    if "corpus/" <= p {
      UnitPathLevels(OLD_HARNESS, p);
      UnitPathName(OLD_HARNESS, p);
      OldDirectory();
    }
  }

  lemma UnitPathIsCorpus(h: string, p: string)
    ensures IsUnitPath(h, p) ==> "corpus/" <= p
  {
  }

  lemma OldDirectory()
    ensures CorpusDir(OLD_HARNESS) == "corpus/cmp_ecdsa_online/" && |CorpusDir(OLD_HARNESS)| == 24
  {
  }

  lemma UnitPathName(h: string, p: string)
    requires IsUnitPath(h, p)
    ensures IsUnitName(Basename(p))
  {
  }

  /** A legacy reference of the run is merged as the one harness of its time. */
  lemma LegacyReferenceIff(tools: Tools, base: Tree, b: Branch, r: string, a: string, k: string)
    requires IsUint(r) && IsUint(a) && IsUint(k) && b.name == LegacyText(r, a, k) && Once(b.listing)
    ensures var s := Sweep(tools, r, a, base, [b]);
      && (s.Some? <==> Takes(tools, base, Tuple(r, a, OLD_HARNESS, k), b.listing))
      && (s.Some? ==> PoolWith(base, b.listing, s.value))
  {
    hide IsUint, LegacyText, ParseRef, Sweep, Takes, PoolWith;
    ParseRefIff(b.name, Tuple(r, a, OLD_HARNESS, k));
    OneReferenceIff(tools, base, b, Tuple(r, a, OLD_HARNESS, k));
  }
}
