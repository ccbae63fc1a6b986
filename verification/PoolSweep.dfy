/** The aggregator's sweep (scripts/aggregate_ingest.sh): every ingest branch
    of one run and attempt is merged, entry by entry, into a staged copy of the
    pool.  The sweep is order-independent, succeeds exactly when its entries are
    compatible, and changes nothing when repeated. */
module PoolSweep {
  import opened Sequences
  import opened BrainPaths
  import opened PoolTree

  type Listing = seq<(string, Entry)>

  type Commit = string

  /** A reference under `ingest/`, its commit and the listing of its tree. */
  datatype Branch = Branch(name: string, commit: Commit, listing: Listing)

  function ParseRef(name: string): (r: Option<Tuple>)
  {
    if ParseBranch(name).Some? then ParseBranch(name) else ParseBranchLegacy(name)
  }

  function Items(who: Tuple, listing: Listing): (r: seq<Item>)
    ensures |r| == |listing|
    ensures forall i :: 0 <= i < |r| ==> r[i] == Item(who, listing[i].0, listing[i].1)
  {
    seq(|listing|, i requires 0 <= i < |listing| => Item(who, listing[i].0, listing[i].1))
  }

  function SweepRef(
    tools: Tools, run: string, attempt: string, base: Tree, s: Option<Tree>, b: Branch): (r: Option<Tree>)
  {
    match ParseRef(b.name)
    case None => None
    case Some(who) =>
      if who.run == run && who.attempt == attempt then Fold(Stager(tools, base), s, Items(who, b.listing)) else s
  }

  function Sweeper(tools: Tools, run: string, attempt: string, base: Tree): (Option<Tree>, Branch) -> Option<Tree>
  {
    (s: Option<Tree>, b: Branch) => SweepRef(tools, run, attempt, base, s, b)
  }

  /** The tuple of a reference, if it belongs to the run. */
  function TupleIn(run: string, attempt: string, b: Branch): (r: Option<Tuple>)
  {
    var who := ParseRef(b.name);
    if who.Some? && who.value.run == run && who.value.attempt == attempt then who else None
  }

  /** Branches of one tuple are fetched into one remote-tracking name, where git
      refuses to move from one commit to another (the histories are shallow). */
  ghost predicate Fetchable(run: string, attempt: string, refs: seq<Branch>)
  {
    forall a, b :: a in refs && b in refs && SameName(run, attempt, a, b) ==> a.commit == b.commit
  }

  predicate SameName(run: string, attempt: string, a: Branch, b: Branch)
  {
    TupleIn(run, attempt, a).Some? && TupleIn(run, attempt, a) == TupleIn(run, attempt, b)
  }

  /** The staged tree after all references, or None. */
  ghost function Sweep(tools: Tools, run: string, attempt: string, base: Tree, refs: seq<Branch>): (r: Option<Tree>)
  {
    if Fetchable(run, attempt, refs) then Fold(Sweeper(tools, run, attempt, base), Some(base), refs) else None
  }

  // ----- the script's loops -----

  lemma {:induction false} StoppedStays(tools: Tools, base: Tree, items: seq<Item>)
    ensures Fold(Stager(tools, base), None, items) == None
  {
    if items != [] { StoppedStays(tools, base, items[1..]); }
  }

  lemma {:induction false} StoppedSweepStays(tools: Tools, run: string, attempt: string, base: Tree, refs: seq<Branch>)
    ensures Fold(Sweeper(tools, run, attempt, base), None, refs) == None
  {
    if refs != [] {
      if ParseRef(refs[0].name).Some? {
        StoppedStays(tools, base, Items(ParseRef(refs[0].name).value, refs[0].listing));
      }
      StoppedSweepStays(tools, run, attempt, base, refs[1..]);
    }
  }

  method MergeBranch(tools: Tools, base: Tree, who: Tuple, listing: Listing, staged: Tree) returns (r: Option<Tree>)
    ensures r == Fold(Stager(tools, base), Some(staged), Items(who, listing))
  {
    hide Basename, CorpusUnitFor, TelemetryFor, IncidentFor, Clashes;
    var stage := staged;
    ghost var items := Items(who, listing);
    ghost var f := Stager(tools, base);
    ghost var goal := Fold(f, Some(staged), items);
    for j := 0 to |listing|
      invariant goal == Fold(f, Some(stage), items[j..])
    {
      var p, e := listing[j].0, listing[j].1;
      assert items[j..][1..] == items[j + 1..];
      assert goal == Fold(f, StageItem(tools, base, Some(stage), items[j]), items[j + 1..]);
      StoppedStays(tools, base, items[j + 1..]);
      if e.mode != Regular { return None; }
      if p in base {
        if base[p].blob != e.blob { return None; }
      } else if "corpus/" <= p {
        var name := Basename(p);
        if CorpusUnitFor(who.harness, name) != Some(p) { return None; }
        if tools.sha1(e.blob) != name { return None; }
        if p in stage {
          if stage[p].blob != e.blob { return None; }
        } else {
          if Clashes(stage, p) { return None; }
          stage := stage[p := e];
        }
      } else if TelemetryFor(who) == Some(p) {
        if p in stage || Clashes(stage, p) { return None; }
        if e.blob == [] || !tools.telemetryOk(e.blob, who) { return None; }
        stage := stage[p := e];
      } else if IncidentFor(who) == Some(p) {
        if p in stage || Clashes(stage, p) { return None; }
        if e.blob == [] { return None; }
        stage := stage[p := e];
      } else {
        return None;
      }
    }
    r := Some(stage);
  }

  /** The remote-tracking names that the first references have filled. */
  ghost predicate Tracks(run: string, attempt: string, refs: seq<Branch>, tracked: map<(string, string), Commit>)
  {
    && (forall b :: b in refs && TupleIn(run, attempt, b).Some? ==>
          var who := TupleIn(run, attempt, b).value;
          (who.harness, who.shard) in tracked && tracked[(who.harness, who.shard)] == b.commit)
    && (forall k :: k in tracked ==> Filled(run, attempt, refs, k, tracked[k]))
  }

  ghost predicate Filled(run: string, attempt: string, refs: seq<Branch>, k: (string, string), c: Commit)
  {
    exists b :: b in refs && TupleIn(run, attempt, b) == Some(Tuple(run, attempt, k.0, k.1)) && b.commit == c
  }

  lemma FilledStays(run: string, attempt: string, refs: seq<Branch>, b: Branch, k: (string, string), c: Commit)
    requires Filled(run, attempt, refs, k, c)
    ensures Filled(run, attempt, refs + [b], k, c)
  {
    hide TupleIn;
    var d :| d in refs && TupleIn(run, attempt, d) == Some(Tuple(run, attempt, k.0, k.1)) && d.commit == c;
    assert d in refs + [b];
  }

  lemma TracksMore(
    run: string, attempt: string, refs: seq<Branch>, tracked: map<(string, string), Commit>, b: Branch)
    requires Tracks(run, attempt, refs, tracked)
    requires TupleIn(run, attempt, b).Some? ==>
      var who := TupleIn(run, attempt, b).value;
      (who.harness, who.shard) in tracked ==> tracked[(who.harness, who.shard)] == b.commit
    ensures TupleIn(run, attempt, b).None? ==> Tracks(run, attempt, refs + [b], tracked)
    ensures TupleIn(run, attempt, b).Some? ==>
      var who := TupleIn(run, attempt, b).value;
      Tracks(run, attempt, refs + [b], tracked[(who.harness, who.shard) := b.commit])
  {
    hide ParseRef, Filled;
    forall k | k in tracked ensures Filled(run, attempt, refs + [b], k, tracked[k]) {
      FilledStays(run, attempt, refs, b, k, tracked[k]);
    }
    if TupleIn(run, attempt, b).Some? {
      var who := TupleIn(run, attempt, b).value;
      NewlyFilled(run, attempt, refs, b, who);
    }
  }

  lemma NewlyFilled(run: string, attempt: string, refs: seq<Branch>, b: Branch, who: Tuple)
    requires TupleIn(run, attempt, b) == Some(who)
    ensures Filled(run, attempt, refs + [b], (who.harness, who.shard), b.commit)
  {
    hide ParseRef;
    assert b in refs + [b];
  }

  /** A second commit for a name that is taken. */
  lemma TakenIsUnfetchable(
    run: string, attempt: string, refs: seq<Branch>, i: nat, tracked: map<(string, string), Commit>)
    requires i < |refs| && Tracks(run, attempt, refs[..i], tracked) && TupleIn(run, attempt, refs[i]).Some?
    requires var who := TupleIn(run, attempt, refs[i]).value;
      (who.harness, who.shard) in tracked && tracked[(who.harness, who.shard)] != refs[i].commit
    ensures !Fetchable(run, attempt, refs)
  {
    hide ParseRef;
    var k := (TupleIn(run, attempt, refs[i]).value.harness, TupleIn(run, attempt, refs[i]).value.shard);
    var b :| b in refs[..i] && TupleIn(run, attempt, b) == Some(Tuple(run, attempt, k.0, k.1))
      && b.commit == tracked[k];
    assert b in refs && refs[i] in refs && SameName(run, attempt, b, refs[i]);
  }

  lemma TrackedIsFetchable(run: string, attempt: string, refs: seq<Branch>, tracked: map<(string, string), Commit>)
    requires Tracks(run, attempt, refs, tracked)
    ensures Fetchable(run, attempt, refs)
  {
    hide TupleIn;
  }

  /** The loop over the references: parse, filter, fetch into the name of the
      tuple, and merge. */
  method Aggregate(tools: Tools, run: string, attempt: string, base: Tree, refs: seq<Branch>)
    returns (r: Option<Tree>)
    ensures r == Sweep(tools, run, attempt, base, refs)
  {
    hide ParseRef, Stager, Items, Tracks, Fetchable;
    var stage := base;
    var tracked: map<(string, string), Commit> := map[];
    ghost var f := Sweeper(tools, run, attempt, base);
    assert refs[..0] == [] && refs[0..] == refs;
    NothingTracked(run, attempt);
    for i := 0 to |refs|
      invariant Fold(f, Some(base), refs) == Fold(f, Some(stage), refs[i..])
      invariant Tracks(run, attempt, refs[..i], tracked)
    {
      assert refs[i..][1..] == refs[i + 1..] && refs[..i + 1] == refs[..i] + [refs[i]];
      StoppedSweepStays(tools, run, attempt, base, refs[i + 1..]);
      var who := ParseRef(refs[i].name);
      if who.None? { return None; }
      if who.value.run == run && who.value.attempt == attempt {
        var key := (who.value.harness, who.value.shard);
        if key in tracked && tracked[key] != refs[i].commit {
          TakenIsUnfetchable(run, attempt, refs, i, tracked);
          return None;
        }
        TracksMore(run, attempt, refs[..i], tracked, refs[i]);
        tracked := tracked[key := refs[i].commit];
        var merged := MergeBranch(tools, base, who.value, refs[i].listing, stage);
        if merged.None? { return None; }
        stage := merged.value;
      } else {
        TracksMore(run, attempt, refs[..i], tracked, refs[i]);
      }
    }
    assert refs[..|refs|] == refs;
    TrackedIsFetchable(run, attempt, refs, tracked);
    r := Some(stage);
  }

  lemma NothingTracked(run: string, attempt: string)
    ensures Tracks(run, attempt, [], map[])
  {
  }

  // ----- order does not matter -----

  lemma StagerCommutes(tools: Tools, base: Tree)
    ensures Commutes(Stager(tools, base))
  {
    hide StageItem;
    forall s, x, y ensures Stager(tools, base)(Stager(tools, base)(s, x), y) ==
      Stager(tools, base)(Stager(tools, base)(s, y), x) {
      StageItemsCommute(tools, base, s, x, y);
    }
  }

  /** The entries of a branch may be listed in any order. */
  lemma ListingOrderIrrelevant(tools: Tools, base: Tree, s: Option<Tree>, xs: seq<Item>, ys: seq<Item>)
    requires multiset(xs) == multiset(ys)
    ensures Fold(Stager(tools, base), s, xs) == Fold(Stager(tools, base), s, ys)
  {
    StagerCommutes(tools, base);
    FoldPermutation(Stager(tools, base), s, xs, ys);
  }

  lemma SweepRefsCommute(tools: Tools, run: string, attempt: string, base: Tree, s: Option<Tree>, a: Branch, b: Branch)
    ensures SweepRef(tools, run, attempt, base, SweepRef(tools, run, attempt, base, s, a), b) ==
            SweepRef(tools, run, attempt, base, SweepRef(tools, run, attempt, base, s, b), a)
  {
    hide ParseRef, Stager, Fold, Items;
    var f := Stager(tools, base);
    if ParseRef(a.name).Some? && ParseRef(b.name).Some? {
      var xs, ys := Items(ParseRef(a.name).value, a.listing), Items(ParseRef(b.name).value, b.listing);
      FoldSplit(f, s, xs, ys);
      FoldSplit(f, s, ys, xs);
      assert multiset(xs + ys) == multiset(ys + xs);
      ListingOrderIrrelevant(tools, base, s, xs + ys, ys + xs);
    } else {
      if ParseRef(a.name).Some? { StoppedStays(tools, base, Items(ParseRef(a.name).value, a.listing)); }
      if ParseRef(b.name).Some? { StoppedStays(tools, base, Items(ParseRef(b.name).value, b.listing)); }
    }
  }

  lemma FetchableInAnyOrder(run: string, attempt: string, refs: seq<Branch>, refs': seq<Branch>)
    requires multiset(refs) == multiset(refs')
    ensures Fetchable(run, attempt, refs) <==> Fetchable(run, attempt, refs')
  {
    hide TupleIn;
    assert forall b :: b in refs <==> b in multiset(refs);
    assert forall b :: b in refs' <==> b in multiset(refs');
  }

  /** Confluence: neither whether the sweep succeeds nor the pool it stages
      depends on the order in which the references are met. */
  lemma SweepConfluent(tools: Tools, run: string, attempt: string, base: Tree, refs: seq<Branch>, refs': seq<Branch>)
    requires multiset(refs) == multiset(refs')
    ensures Sweep(tools, run, attempt, base, refs) == Sweep(tools, run, attempt, base, refs')
  {
    hide SweepRef, Fetchable;
    FetchableInAnyOrder(run, attempt, refs, refs');
    var f := Sweeper(tools, run, attempt, base);
    forall s, a, b ensures f(f(s, a), b) == f(f(s, b), a) {
      SweepRefsCommute(tools, run, attempt, base, s, a, b);
    }
    FoldPermutation(f, Some(base), refs, refs');
  }

  // ----- what a successful sweep staged -----

  ghost predicate Fresh(tools: Tools, base: Tree, it: Item)
  {
    Classify(tools, base, it).Unit? || Classify(tools, base, it).Once?
  }

  ghost predicate Holds(t: Tree, it: Item)
  {
    it.entry.mode == Regular && it.path in t && t[it.path].blob == it.entry.blob
  }

  ghost predicate ComesFrom(tools: Tools, base: Tree, items: seq<Item>, p: string, e: Entry)
  {
    exists i :: 0 <= i < |items| && Fresh(tools, base, items[i]) && items[i].path == p && items[i].entry == e
  }

  /** `t` is the base with exactly the fresh entries added. */
  ghost predicate Staged(tools: Tools, base: Tree, t: Tree, items: seq<Item>)
  {
    && Extends(base, t)
    && (forall i :: 0 <= i < |items| ==> Holds(t, items[i]))
    && (forall p :: p in t && p !in base ==> ComesFrom(tools, base, items, p, t[p]))
  }

  /** The order-free condition: nothing is refused, nothing new clashes with
      the pool, and a path brought twice is a corpus unit with one content. */
  ghost predicate Compatible(tools: Tools, base: Tree, items: seq<Item>)
  {
    && (forall i :: 0 <= i < |items| ==> Acceptable(tools, base, items[i]))
    && (forall i, j :: 0 <= i < j < |items| ==> Agree(tools, base, items[i], items[j]))
  }

  ghost predicate Acceptable(tools: Tools, base: Tree, it: Item)
  {
    !Classify(tools, base, it).Refuse? && (Fresh(tools, base, it) ==> !Clashes(base, it.path))
  }

  ghost predicate Agree(tools: Tools, base: Tree, x: Item, y: Item)
  {
    Fresh(tools, base, x) && Fresh(tools, base, y) && x.path == y.path ==>
      Classify(tools, base, x).Unit? && Classify(tools, base, y).Unit? && x.entry.blob == y.entry.blob
  }

  lemma FreshFacts(tools: Tools, base: Tree, it: Item)
    requires Fresh(tools, base, it)
    ensures ThreeLevels(it.path) && it.path !in base && it.entry.mode == Regular
  {
    NewPathLevels(tools, base, it);
  }

  /** Staged paths are never in the way of another generated path. */
  lemma StagedClash(tools: Tools, base: Tree, t: Tree, items: seq<Item>, q: string)
    requires Staged(tools, base, t, items) && ThreeLevels(q)
    ensures Clashes(t, q) <==> Clashes(base, q)
  {
    hide ThreeLevels, Fresh, Holds;
    forall p | p in t && p !in base ensures !(p + "/" <= q) && !(q + "/" <= p) {
      assert ComesFrom(tools, base, items, p, t[p]);
      var i :| 0 <= i < |items| && Fresh(tools, base, items[i]) && items[i].path == p;
      FreshFacts(tools, base, items[i]);
      ThreeLevelsNeverNest(p, q);
      ThreeLevelsNeverNest(q, p);
    }
  }

  lemma KnownHolds(tools: Tools, base: Tree, t: Tree, it: Item)
    requires Classify(tools, base, it).Known? && Extends(base, t)
    ensures Holds(t, it)
  {
  }

  /** One more entry succeeds exactly when it is acceptable and agrees with
      everything before it. */
  lemma StageOneMore(tools: Tools, base: Tree, t: Tree, items: seq<Item>, it: Item)
    requires Staged(tools, base, t, items) && Compatible(tools, base, items)
    ensures var r := StageItem(tools, base, Some(t), it);
      && (r.Some? <==> Acceptable(tools, base, it) && forall i :: 0 <= i < |items| ==> Agree(tools, base, items[i], it))
      && (r.Some? ==> Staged(tools, base, r.value, items + [it]))
  {
    hide ThreeLevels, Classify, Clashes, Compatible;
    var r := StageItem(tools, base, Some(t), it);
    if Fresh(tools, base, it) {
      FreshFacts(tools, base, it);
      StagedClash(tools, base, t, items, it.path);
      AgreesWithStaged(tools, base, t, items, it);
      if r.Some? { StagedGrows(tools, base, t, items, it, r.value); }
    } else if Classify(tools, base, it).Known? {
      KnownHolds(tools, base, t, it);
      StagedGrows(tools, base, t, items, it, t);
    }
  }

  /** If the path is staged already, the entries that brought it decide. */
  lemma AgreesWithStaged(tools: Tools, base: Tree, t: Tree, items: seq<Item>, it: Item)
    requires Staged(tools, base, t, items) && Compatible(tools, base, items) && Fresh(tools, base, it)
    ensures it.path !in t ==> forall i :: 0 <= i < |items| ==> Agree(tools, base, items[i], it)
    ensures it.path in t ==> !Clashes(base, it.path)
    ensures it.path in t ==>
      ((forall i :: 0 <= i < |items| ==> Agree(tools, base, items[i], it)) <==>
       Classify(tools, base, it).Unit? && t[it.path].blob == it.entry.blob)
  {
    hide ThreeLevels, Classify, Clashes;
    FreshFacts(tools, base, it);
    forall i | 0 <= i < |items| && items[i].path == it.path
      ensures Classify(tools, base, items[i]).Unit? ==> !Classify(tools, base, it).Once?
      ensures Classify(tools, base, it).Unit? ==> !Classify(tools, base, items[i]).Once?
    {
      SameClass(tools, base, items[i], it);
      SameClass(tools, base, it, items[i]);
    }
    assert forall i :: 0 <= i < |items| ==> Holds(t, items[i]);
    if it.path in t {
      assert ComesFrom(tools, base, items, it.path, t[it.path]);
      var i :| 0 <= i < |items| && Fresh(tools, base, items[i]) && items[i].path == it.path
        && items[i].entry == t[it.path];
      assert Acceptable(tools, base, items[i]);
    }
  }

  lemma StagedGrows(tools: Tools, base: Tree, t: Tree, items: seq<Item>, it: Item, t': Tree)
    requires Staged(tools, base, t, items)
    requires t' == t || (Fresh(tools, base, it) && it.path !in t && t' == t[it.path := it.entry])
    requires Holds(t', it)
    ensures Staged(tools, base, t', items + [it])
  {
    hide Fresh;
    var all := items + [it];
    forall i | 0 <= i < |all| ensures Holds(t', all[i]) {
      if i < |items| { assert Holds(t, items[i]); }
    }
    forall p | p in t' && p !in base ensures ComesFrom(tools, base, all, p, t'[p]) {
      if p in t && t'[p] == t[p] {
        assert ComesFrom(tools, base, items, p, t[p]);
        var i :| 0 <= i < |items| && Fresh(tools, base, items[i]) && items[i].path == p && items[i].entry == t[p];
        assert all[i] == items[i];
      } else {
        assert all[|items|] == it;
      }
    }
  }

  lemma {:induction false} FoldSucceedsIff(tools: Tools, base: Tree, items: seq<Item>)
    ensures Fold(Stager(tools, base), Some(base), items).Some? <==> Compatible(tools, base, items)
    ensures Fold(Stager(tools, base), Some(base), items).Some? ==>
      Staged(tools, base, Fold(Stager(tools, base), Some(base), items).value, items)
  {
    hide Acceptable, Agree, Holds, ComesFrom, StageItem;
    var f := Stager(tools, base);
    if items != [] {
      var front, last := items[..|items| - 1], items[|items| - 1];
      assert items == front + [last];
      FoldSucceedsIff(tools, base, front);
      FoldSplit(f, Some(base), front, [last]);
      var s := Fold(f, Some(base), front);
      assert Fold(f, s, [last]) == Fold(f, StageItem(tools, base, s, last), []);
      if s.Some? {
        StageOneMore(tools, base, s.value, front, last);
      } else {
        StoppedStays(tools, base, [last]);
      }
    }
  }

  // ----- the whole sweep -----

  function Matching(run: string, attempt: string, b: Branch): (r: seq<Item>)
  {
    match ParseRef(b.name)
    case None => []
    case Some(who) => if who.run == run && who.attempt == attempt then Items(who, b.listing) else []
  }

  /** The entries of every branch of the run, in sweep order. */
  function AllItems(run: string, attempt: string, refs: seq<Branch>): (r: seq<Item>)
  {
    if refs == [] then [] else Matching(run, attempt, refs[0]) + AllItems(run, attempt, refs[1..])
  }

  ghost predicate AllParse(refs: seq<Branch>)
  {
    forall i :: 0 <= i < |refs| ==> ParseRef(refs[i].name).Some?
  }

  lemma {:induction false} SweepIsFold(
    tools: Tools, run: string, attempt: string, base: Tree, s: Option<Tree>, refs: seq<Branch>)
    ensures Fold(Sweeper(tools, run, attempt, base), s, refs) ==
      if AllParse(refs) then Fold(Stager(tools, base), s, AllItems(run, attempt, refs)) else None
    decreases |refs|
  {
    hide ParseRef, Items, StageItem;
    if refs != [] {
      var s' := SweepRef(tools, run, attempt, base, s, refs[0]);
      SweepIsFold(tools, run, attempt, base, s', refs[1..]);
      FoldSplit(Stager(tools, base), s, Matching(run, attempt, refs[0]), AllItems(run, attempt, refs[1..]));
      StoppedStays(tools, base, AllItems(run, attempt, refs[1..]));
      assert AllParse(refs) <==> ParseRef(refs[0].name).Some? && AllParse(refs[1..]) by {
        assert forall i :: 1 <= i < |refs| ==> refs[i] == refs[1..][i - 1];
      }
    }
  }

  /** A sweep succeeds exactly when every reference parses, no two branches of
      one tuple differ, and the entries of the run are compatible; the staged tree is then the base pool with exactly
      the fresh entries added. */
  lemma SweepSucceedsIff(tools: Tools, run: string, attempt: string, base: Tree, refs: seq<Branch>)
    ensures Sweep(tools, run, attempt, base, refs).Some? <==>
      AllParse(refs) && Fetchable(run, attempt, refs) && Compatible(tools, base, AllItems(run, attempt, refs))
    ensures Sweep(tools, run, attempt, base, refs).Some? ==>
      Staged(tools, base, Sweep(tools, run, attempt, base, refs).value, AllItems(run, attempt, refs))
  {
    hide AllParse, Fetchable, Compatible, Staged, Stager, Sweeper, AllItems;
    SweepIsFold(tools, run, attempt, base, Some(base), refs);
    FoldSucceedsIff(tools, base, AllItems(run, attempt, refs));
  }

  // ----- sweeping again -----

  lemma {:induction false} KnownItemsStageNothing(tools: Tools, pool: Tree, items: seq<Item>)
    requires forall i :: 0 <= i < |items| ==> Holds(pool, items[i])
    ensures Fold(Stager(tools, pool), Some(pool), items) == Some(pool)
  {
    hide CorpusUnitFor, TelemetryFor, IncidentFor, Basename;
    if items != [] {
      assert Holds(pool, items[0]);
      assert forall i :: 0 <= i < |items| - 1 ==> items[1..][i] == items[i + 1];
      KnownItemsStageNothing(tools, pool, items[1..]);
    }
  }

  /** Idempotence, however far the pool has grown since: a second sweep of the
      same references over any pool that contains the first result stages
      nothing at all. */
  lemma SweepIdempotent(tools: Tools, run: string, attempt: string, base: Tree, refs: seq<Branch>, pool: Tree)
    requires Sweep(tools, run, attempt, base, refs).Some?
    requires Extends(Sweep(tools, run, attempt, base, refs).value, pool)
    ensures Sweep(tools, run, attempt, pool, refs) == Some(pool)
  {
    hide AllParse, Fetchable, Compatible, Stager, Sweeper, AllItems, ComesFrom;
    SweepSucceedsIff(tools, run, attempt, base, refs);
    var items := AllItems(run, attempt, refs);
    var t := Sweep(tools, run, attempt, base, refs).value;
    forall i | 0 <= i < |items| ensures Holds(pool, items[i]) {
      assert Holds(t, items[i]);
    }
    KnownItemsStageNothing(tools, pool, items);
    SweepIsFold(tools, run, attempt, pool, Some(pool), refs);
  }
}
