/** When a sweep of published branches can be pushed: exactly when its branches
    are ready, the pool and the branches together fit the reader's caps, and
    something is new.  All of it can be read off the pool and the branches
    before the sweep. */
module PoolProgress {
  import opened Sequences
  import opened BrainPaths
  import opened PoolTree
  import opened PoolSweep
  import opened PoolPublish
  import opened PoolGate
  import opened PoolProtocol
  import opened PoolMerge
  import Inventory

  /** Everything that the listed branches of the run bring, in sweep order. */
  function Contributed(run: string, attempt: string, refs: seq<Branch>): (xs: Listing)
    ensures |xs| == |AllItems(run, attempt, refs)|
    ensures forall i :: 0 <= i < |xs| ==>
      xs[i] == (AllItems(run, attempt, refs)[i].path, AllItems(run, attempt, refs)[i].entry)
  {
    var items := AllItems(run, attempt, refs);
    seq(|items|, i requires 0 <= i < |items| => (items[i].path, items[i].entry))
  }

  // ----- the swept tree, entry by entry -----

  lemma HeadIsRegular(tools: Tools, s: State, n: string)
    requires Inv(tools, s) && n in s.refs && Ready(s, n)
    ensures s.commits != [] && AllRegular(Head(s))
  {
    hide MadeBy, SeenRefs, Accounted;
    var base := s.refs[n].origin.base;
    assert Extends(s.commits[0], s.commits[base]);
    RegularBelow(s.commits[0], s.commits[base]);
    RegularHead(tools, s);
  }

  lemma RegularBelow(a: Tree, b: Tree)
    requires Extends(a, b) && AllRegular(b)
    ensures AllRegular(a)
  {
  }

  lemma RegularHead(tools: Tools, s: State)
    requires Inv(tools, s) && s.commits != [] && AllRegular(s.commits[0])
    ensures AllRegular(Head(s))
  {
    hide Inv, AllRegular;
    PoolStaysRegular(tools, s, |s.commits| - 1);
  }

  lemma StagedIsCovered(tools: Tools, base: Tree, t: Tree, items: seq<Item>, head: Listing, xs: Listing)
    requires Staged(tools, base, t, items) && IsListing(base, head)
    requires |xs| == |items| && forall i :: 0 <= i < |xs| ==> xs[i] == (items[i].path, items[i].entry)
    requires items != [] ==> AllRegular(base)
    ensures Covers(t, head + xs)
  {
    hide Fresh;
    forall x | x in head + xs ensures x.0 in t && t[x.0] == x.1 {
      if x in xs {
        var i :| 0 <= i < |xs| && xs[i] == x;
        assert Holds(t, items[i]);
        if x.0 !in base { StagedRegular(tools, base, t, items, x.0); }
      }
    }
    forall p | p in t ensures (p, t[p]) in head + xs {
      if p in base {
        assert (p, base[p]) in head;
      } else {
        assert ComesFrom(tools, base, items, p, t[p]);
        var i :| 0 <= i < |items| && Fresh(tools, base, items[i]) && items[i].path == p && items[i].entry == t[p];
        assert xs[i] == (p, t[p]);
      }
    }
  }

  lemma StagedRegular(tools: Tools, base: Tree, t: Tree, items: seq<Item>, p: string)
    requires Staged(tools, base, t, items) && p in t && p !in base
    ensures t[p].mode == Regular
  {
    hide Fresh, Holds;
    assert ComesFrom(tools, base, items, p, t[p]);
    var i :| 0 <= i < |items| && Fresh(tools, base, items[i]) && items[i].path == p && items[i].entry == t[p];
    FreshFacts(tools, base, items[i]);
  }

  /** The staged pool is the pool and what the run's branches bring. */
  lemma SweptIsCovered(tools: Tools, s: State, run: string, attempt: string, order: seq<string>, head: Listing)
    requires Inv(tools, s) && FromPublishers(s.refs, run, attempt, order) && NoCollision(tools, s.refs)
    requires Distinct(order)
    requires s.commits != [] && IsListing(Head(s), head)
    ensures var refs := Snapshot(s.refs, order);
      var swept := Sweep(tools, run, attempt, Head(s), refs);
      swept.Some? ==> Covers(swept.value, head + Contributed(run, attempt, refs))
  {
    hide Inv, ParseRef, NoLegacyTwin, NoCollision, Ready, AllItems, Sweep, IsListing, Staged, Covers, AllRegular,
      Contributed;
    var refs := Snapshot(s.refs, order);
    var items := AllItems(run, attempt, refs);
    Mergeable(tools, s, run, attempt, order);
    var swept := Sweep(tools, run, attempt, Head(s), refs);
    if swept.Some? {
      if items != [] {
        var b, l := ItemPosition(run, attempt, refs, 0);
        assert order[b] in order;
        HeadIsRegular(tools, s, order[b]);
      }
      StagedIsCovered(tools, Head(s), swept.value, items, head, Contributed(run, attempt, refs));
    }
  }

  /** The reader's caps hold for the pool and the branches together. */
  ghost predicate Fits(xs: Listing)
  {
    forall h :: h in HARNESSES ==> RoomFor(h, xs)
  }

  /** The gate opens on the staged pool exactly when they do. */
  lemma GateOpensIff(
    tools: Tools, s: State, run: string, attempt: string, order: seq<string>, head: Listing,
    scans: map<string, Inventory.Source>)
    requires Inv(tools, s) && FromPublishers(s.refs, run, attempt, order) && NoCollision(tools, s.refs)
    requires Distinct(order)
    requires s.commits != [] && IsListing(Head(s), head)
    ensures var refs := Snapshot(s.refs, order);
      var swept := Sweep(tools, run, attempt, Head(s), refs);
      swept.Some? && ScansOf(swept.value, scans) ==>
        (Gate(swept.value, scans) <==> Fits(head + Contributed(run, attempt, refs)))
  {
    hide Inv, ParseRef, NoLegacyTwin, NoCollision, AllItems, Sweep, IsListing, Covers, Contributed, Gate, ScansOf,
      RoomFor;
    SweptIsCovered(tools, s, run, attempt, order, head);
    var refs := Snapshot(s.refs, order);
    var swept := Sweep(tools, run, attempt, Head(s), refs);
    if swept.Some? && ScansOf(swept.value, scans) {
      GateIff(swept.value, head + Contributed(run, attempt, refs), scans);
    }
  }

  // ----- the push -----

  /** Something is brought that the pool does not hold. */
  ghost predicate SomethingNew(t: Tree, xs: Listing) { exists x :: x in xs && x.0 !in t }

  lemma SweptIsNewIff(t: Tree, t': Tree, head: Listing, xs: Listing)
    requires Extends(t, t') && Covers(t', head + xs) && IsListing(t, head)
    ensures t' != t <==> SomethingNew(t, xs)
  {
    if SomethingNew(t, xs) {
      var x :| x in xs && x.0 !in t;
      assert x in head + xs;
    } else {
      forall p | p in t' ensures p in t {
        assert (p, t'[p]) in head + xs;
      }
    }
  }

  function NamesOf(refs: seq<Branch>): (ns: seq<string>)
    ensures |ns| == |refs| && forall i :: 0 <= i < |ns| ==> ns[i] == refs[i].name
  {
    seq(|refs|, i requires 0 <= i < |refs| => refs[i].name)
  }

  /** What an aggregator listed is the references as they still are. */
  lemma ListedRefs(tools: Tools, s: State, id: nat)
    requires Inv(tools, s) && id in s.aggregators && s.aggregators[id].refs.Some?
    ensures var order := NamesOf(s.aggregators[id].refs.value);
      && Distinct(order) && (forall n :: n in order ==> n in s.refs)
      && Snapshot(s.refs, order) == s.aggregators[id].refs.value
  {
    hide Grows, Accounted, MadeBy, PoolGate.Readable;
    var a := s.aggregators[id];
    assert SeenRefs(s.refs, a);
    assert Snapshot(s.refs, NamesOf(a.refs.value)) == a.refs.value;
  }

  ghost predicate ListedFromPublishers(s: State, a: Aggregation)
    requires a.refs.Some?
  {
    FromPublishers(s.refs, a.run, a.attempt, NamesOf(a.refs.value))
  }

  /** What the aggregator's branches bring. */
  function Brings(a: Aggregation): (xs: Listing)
    requires a.refs.Some?
  {
    Contributed(a.run, a.attempt, a.refs.value)
  }

  ghost function SweptBy(tools: Tools, s: State, a: Aggregation): (t: Option<Tree>)
    requires s.commits != [] && a.refs.Some?
  {
    Sweep(tools, a.run, a.attempt, Head(s), a.refs.value)
  }

  /** The aggregator's push: the condition, and nothing about the sweep. */
  ghost predicate Pushable(s: State, a: Aggregation, head: Listing)
    requires s.commits != [] && a.refs.Some? && ListedFromPublishers(s, a)
  {
    && a.base == |s.commits| - 1
    && AllReady(s, a.run, a.attempt, NamesOf(a.refs.value))
    && Fits(head + Brings(a)) && SomethingNew(Head(s), Brings(a))
  }

  /** Progress: an aggregator that listed published branches can push exactly
      when nobody pushed before it, its branches are ready, the pool and the
      branches fit together, and something is new; and after the push every
      entry of every one of these branches is in the pool. */
  lemma PushEnabledIff(
    tools: Tools, s: State, id: nat, a: Aggregation, head: Listing, scans: map<string, Inventory.Source>)
    requires Inv(tools, s) && id in s.aggregators && s.aggregators[id] == a && a.refs.Some?
    requires ListedFromPublishers(s, a) && NoCollision(tools, s.refs)
    requires s.commits != [] && IsListing(Head(s), head)
    requires SweptBy(tools, s, a).Some? ==> ScansOf(SweptBy(tools, s, a).value, scans)
    ensures (exists s' :: Next(tools, s, s', PushPool(id, scans))) <==> Pushable(s, a, head)
    ensures forall s' :: Next(tools, s, s', PushPool(id, scans)) ==>
      s'.commits != [] && forall x :: x in Brings(a) ==> x.0 in Head(s') && Head(s')[x.0] == x.1
  {
    hide Inv, FromPublishers, NoCollision, AllItems, Sweep, IsListing, Contributed, Gate, ScansOf, Fits, AllReady,
      Staged, ParseRef, SomethingNew, Snapshot, NamesOf, Extends;
    var order, xs := NamesOf(a.refs.value), Brings(a);
    ListedRefs(tools, s, id);
    Mergeable(tools, s, a.run, a.attempt, order);
    SweptIsCovered(tools, s, a.run, a.attempt, order, head);
    GateOpensIff(tools, s, a.run, a.attempt, order, head, scans);
    var swept := SweptBy(tools, s, a);
    if swept.Some? {
      StagedExtends(tools, Head(s), swept.value, AllItems(a.run, a.attempt, a.refs.value));
      SweptIsNewIff(Head(s), swept.value, head, xs);
      var s' := s.(commits := s.commits + [swept.value], aggregators := s.aggregators - {id});
      assert Pushable(s, a, head) ==> Next(tools, s, s', PushPool(id, scans));
      forall x | x in xs ensures x.0 in swept.value && swept.value[x.0] == x.1 {
        assert x in head + xs;
      }
    }
  }

  lemma StagedExtends(tools: Tools, base: Tree, t: Tree, items: seq<Item>)
    requires Staged(tools, base, t, items)
    ensures Extends(base, t)
  {
  }

  /** The same in every state of every interleaving. */
  lemma PushEnabledInEveryRun(
    tools: Tools, states: seq<State>, i: nat, id: nat, head: Listing, scans: map<string, Inventory.Source>)
    requires IsRun(tools, states) && i < |states| && states[i].commits != []
    requires id in states[i].aggregators && states[i].aggregators[id].refs.Some? && IsListing(Head(states[i]), head)
    requires ListedFromPublishers(states[i], states[i].aggregators[id]) && NoCollision(tools, states[i].refs)
    requires var swept := SweptBy(tools, states[i], states[i].aggregators[id]);
      swept.Some? ==> ScansOf(swept.value, scans)
    ensures (exists s' :: Next(tools, states[i], s', PushPool(id, scans))) <==>
      Pushable(states[i], states[i].aggregators[id], head)
  {
    hide Inv, Advances, Init, FromPublishers, NoCollision, Sweep, ScansOf, IsListing, Next, Pushable, NamesOf;
    RunKeepsInv(tools, states, i);
    PushEnabledIff(tools, states[i], id, states[i].aggregators[id], head, scans);
  }

  // ----- units between the two caps -----

  /** One unit above the reader's cap in a listed branch of the run: that
      aggregator cannot push, whatever the other branches, the hash function
      and the scans are. */
  lemma OversizeUnitBlocksPush(
    tools: Tools, s: State, id: nat, scans: map<string, Inventory.Source>, h: string, name: string, e: Entry)
    requires s.commits != [] && id in s.aggregators && s.aggregators[id].refs.Some?
    requires IsHarness(h) && IsUnitName(name) && |e.blob| > Inventory.MAX_UNIT_BYTES
    requires (CorpusDir(h) + name, e) in Brings(s.aggregators[id])
    ensures forall s' :: !Next(tools, s, s', PushPool(id, scans))
  {
    hide AllItems, Sweep, Contributed, Gate, CorpusDir, IsUnitName, Compatible, AllParse, Fetchable, Extends, ComesFrom;
    var a := s.aggregators[id];
    SweepSucceedsIff(tools, a.run, a.attempt, Head(s), a.refs.value);
    var swept := SweptBy(tools, s, a);
    if swept.Some? {
      var items, xs := AllItems(a.run, a.attempt, a.refs.value), Brings(a);
      var i :| 0 <= i < |xs| && xs[i] == (CorpusDir(h) + name, e);
      assert Holds(swept.value, items[i]);
      OversizeUnitShutsGate(swept.value, h, name, scans);
    }
  }
}
