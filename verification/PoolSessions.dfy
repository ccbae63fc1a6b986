/** A publisher from its fetch to its push, and an aggregator from its fetch
    over its listing to its push, in any interleaving with all the others: what
    they push depends on the pool they fetched and the references they listed,
    and on nothing else that happened in between. */
module PoolSessions {
  import opened Sequences
  import opened BrainPaths
  import opened PoolTree
  import opened PoolSweep
  import opened PoolPublish
  import opened PoolPublishLaws
  import opened PoolGate
  import opened PoolProtocol
  import opened PoolMerge
  import Inventory

  lemma RunIsNonEmpty(tools: Tools, states: seq<State>, i: nat)
    requires IsRun(tools, states) && i < |states|
    ensures states[i].commits != []
  {
    hide Brought, Gate, Readable, MadeBy, SeenRefs, Extends, Next;
    RunKeepsInv(tools, states, i);
  }

  /** What was fetched is still the pool at its place, later in the run. */
  lemma FetchedStays(tools: Tools, states: seq<State>, i: nat, j: nat)
    requires IsRun(tools, states) && i <= j < |states|
    ensures states[i].commits != [] && states[j].commits != []
    ensures |states[i].commits| <= |states[j].commits| && states[i].commits <= states[j].commits
    ensures states[j].commits[|states[i].commits| - 1] == Head(states[i])
    ensures |states[i].commits| == |states[j].commits| ==> states[i].commits == states[j].commits
  {
    hide Next;
    RunIsNonEmpty(tools, states, i);
    RunIsNonEmpty(tools, states, j);
    RunGrows(tools, states, i, j);
  }

  // ----- publishers -----

  /** The publisher holds the job that it fetched the pool for. */
  ghost predicate StillPublishes(states: seq<State>, i: nat, j: nat, id: nat, job: Job)
    requires i < j < |states|
  {
    && id in states[i + 1].publishers && id in states[j].publishers
    && states[j].publishers[id] == states[i + 1].publishers[id]
  }

  lemma PushableJob(tools: Tools, base: Tree, job: Job)
    requires Publish(tools, base, job).Some?
    ensures LaneHarness(job.lane).Some? && BranchFor(Who(job)).Some?
  {
    hide Startable, Publish, LaneHarness, IsTuple, Render;
    if !Startable(tools, base, job) { UnstartablePushesNothing(tools, base, job); }
    StartedJob(tools, base, job);
  }

  /** A publisher can push its branch exactly when its job, on the pool that it
      fetched, yields a tree and nobody has taken the branch; the branch then
      lists that tree and the pool stays as it is. */
  lemma PublisherSession(
    tools: Tools, states: seq<State>, i: nat, j: nat, id: nat, job: Job, commit: Commit, listing: Listing)
    requires IsRun(tools, states) && i < j < |states|
    requires states[i].commits != [] && Next(tools, states[i], states[i + 1], FetchToPublish(id, job))
    requires StillPublishes(states, i, j, id, job)
    ensures var s, t := states[j], Publish(tools, Head(states[i]), job);
      && s.commits != []
      && ((exists s' :: Next(tools, s, s', PushBranch(id, commit, listing))) <==>
            t.Some? && IsListing(t.value, listing) && BranchFor(Who(job)).value !in s.refs)
      && forall s' :: Next(tools, s, s', PushBranch(id, commit, listing)) ==>
           && s'.commits == s.commits
           && s'.refs == s.refs[BranchFor(Who(job)).value := Ref(commit, listing, Made(job, |states[i].commits| - 1))]
    ensures Publish(tools, Head(states[i]), job).Some? ==> LaneHarness(job.lane).Some? && BranchFor(Who(job)).Some?
  {
    hide IsRun, Publish, IsListing, LaneHarness, Who, BranchFor, Startable;
    FetchedStays(tools, states, i, j);
    var s, t := states[j], Publish(tools, Head(states[i]), job);
    var base := |states[i].commits| - 1;
    assert s.publishers[id] == Publication(job, base) && s.commits[base] == Head(states[i]);
    if t.Some? { PushableJob(tools, Head(states[i]), job); }
    if t.Some? && IsListing(t.value, listing) {
      var name := BranchFor(Who(job)).value;
      if name !in s.refs {
        var s' := s.(publishers := s.publishers - {id}, refs := s.refs[name := Ref(commit, listing, Made(job, base))]);
        assert Next(tools, s, s', PushBranch(id, commit, listing));
      }
    }
  }

  // ----- aggregators -----

  /** The aggregator fetched at step i, listed at step j, and is still at it in
      state k. */
  ghost predicate StillAggregates(
    tools: Tools, states: seq<State>, i: nat, j: nat, k: nat, id: nat, run: string, attempt: string, order: seq<string>)
    requires i < j < k < |states| && states[i].commits != [] && states[j].commits != []
  {
    && Next(tools, states[i], states[i + 1], FetchToAggregate(id, run, attempt))
    && id in states[i + 1].aggregators && id in states[j].aggregators
    && states[j].aggregators[id] == states[i + 1].aggregators[id]
    && Next(tools, states[j], states[j + 1], ListRefs(id, order))
    && id in states[j + 1].aggregators && id in states[k].aggregators
    && states[k].aggregators[id] == states[j + 1].aggregators[id]
  }

  /** What the aggregator holds in the end: the commit it fetched, and every
      reference that existed when it listed them. */
  lemma Holding(
    tools: Tools, states: seq<State>, i: nat, j: nat, k: nat, id: nat, run: string, attempt: string, order: seq<string>)
    requires i < j < k < |states| && states[i].commits != [] && states[j].commits != []
    requires StillAggregates(tools, states, i, j, k, id, run, attempt, order)
    ensures Distinct(order) && forall n :: n in order <==> n in states[j].refs
    ensures states[k].aggregators[id] ==
      Aggregation(run, attempt, |states[i].commits| - 1, Some(Snapshot(states[j].refs, order)))
  {
    hide Sweep, Publish, Gate;
  }

  /** A reference of the run holds the entry. */
  ghost predicate Lists(s: State, run: string, attempt: string, n: string, x: (string, Entry))
  {
    n in s.refs && ParseRef(n).Some? && InRun(ParseRef(n).value, run, attempt) && x in s.refs[n].listing
  }

  /** Every entry of every listed reference of the run is in the swept pool. */
  lemma SweptHoldsAll(
    tools: Tools, refs: map<string, Ref>, run: string, attempt: string, base: Tree, order: seq<string>, n: string,
    x: (string, Entry))
    requires (forall m :: m in order ==> m in refs) && n in order && x in refs[n].listing
    requires ParseRef(n).Some? && ParseRef(n).value.run == run && ParseRef(n).value.attempt == attempt
    requires Sweep(tools, run, attempt, base, Snapshot(refs, order)).Some?
    ensures var t := Sweep(tools, run, attempt, base, Snapshot(refs, order)).value;
      x.0 in t && t[x.0].blob == x.1.blob
  {
    hide ParseRef, Compatible, Fetchable, AllParse, AllItems, Sweep, ComesFrom, Extends;
    var listed := Snapshot(refs, order);
    SweepSucceedsIff(tools, run, attempt, base, listed);
    var b :| 0 <= b < |order| && order[b] == n;
    var at := ItemAt(run, attempt, listed, b, x);
    assert Holds(Sweep(tools, run, attempt, base, listed).value, AllItems(run, attempt, listed)[at]);
  }

  /** An aggregator can push exactly when nobody has pushed since its fetch, the
      sweep of all references that existed at its listing succeeds on the pool
      it fetched, the gate opens on the result, and the result is new.  The
      push then adds exactly that result, and no entry of any reference of the
      run that existed at the listing is left out. */
  lemma AggregatorSession(
    tools: Tools, states: seq<State>, i: nat, j: nat, k: nat, id: nat, run: string, attempt: string, order: seq<string>,
    scans: map<string, Inventory.Source>)
    requires IsRun(tools, states) && i < j < k < |states| && states[i].commits != [] && states[j].commits != []
    requires StillAggregates(tools, states, i, j, k, id, run, attempt, order)
    ensures states[k].commits != [] && forall n :: n in order <==> n in states[j].refs
    ensures var s, t := states[k], Sweep(tools, run, attempt, Head(states[i]), Snapshot(states[j].refs, order));
      && ((exists s' :: Next(tools, s, s', PushPool(id, scans))) <==>
            && s.commits == states[i].commits && t.Some? && Gate(t.value, scans) && t.value != Head(states[i]))
      && forall s' :: Next(tools, s, s', PushPool(id, scans)) ==>
           && t.Some? && s'.commits == states[i].commits + [t.value] && s'.refs == s.refs
           && forall n, x :: Lists(states[j], run, attempt, n, x) ==> x.0 in t.value && t.value[x.0].blob == x.1.blob
  {
    hide IsRun, Sweep, Gate, ParseRef, Snapshot, Publish, BranchFor, IsListing, LaneHarness;
    FetchedStays(tools, states, i, k);
    Holding(tools, states, i, j, k, id, run, attempt, order);
    var s, t := states[k], Sweep(tools, run, attempt, Head(states[i]), Snapshot(states[j].refs, order));
    if s.commits == states[i].commits && t.Some? && Gate(t.value, scans) && t.value != Head(states[i]) {
      var s' := s.(commits := s.commits + [t.value], aggregators := s.aggregators - {id});
      assert Next(tools, s, s', PushPool(id, scans));
    }
    if t.Some? {
      forall n, x | Lists(states[j], run, attempt, n, x) ensures x.0 in t.value && t.value[x.0].blob == x.1.blob {
        SweptHoldsAll(tools, states[j].refs, run, attempt, Head(states[i]), order, n, x);
      }
    }
  }

  /** Whoever gave up pushes nothing before fetching again. */
  lemma GaveUp(tools: Tools, s: State, s': State, id: nat)
    requires s.commits != [] && Next(tools, s, s', GiveUp(id))
    ensures s'.commits == s.commits && s'.refs == s.refs
    ensures forall t, commit, listing :: !Next(tools, s', t, PushBranch(id, commit, listing))
    ensures forall t, scans :: !Next(tools, s', t, PushPool(id, scans))
  {
    hide Publish, Sweep, Gate, IsListing;
  }
}
