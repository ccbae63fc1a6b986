/** The private-pool protocol as a state machine: any number of publishers and
    aggregators, each working on the pool it fetched, and any other writer of
    ingest references, interleaved step by step.  A push to the pool succeeds
    only if the head has not moved (git refuses a non-fast-forward), a push to
    a branch only if the branch does not exist. */
module PoolProtocol {
  import opened Sequences
  import opened BrainPaths
  import opened PoolTree
  import opened PoolSweep
  import opened PoolPublish
  import opened PoolGate
  import Inventory

  /** `Made` remembers who built a branch and on which pool commit. */
  datatype Origin = Outside | Made(job: Job, base: nat)

  datatype Ref = Ref(commit: Commit, listing: Listing, origin: Origin)

  datatype Publication = Publication(job: Job, base: nat)

  datatype Aggregation = Aggregation(run: string, attempt: string, base: nat, refs: Option<seq<Branch>>)

  datatype State = State(
    commits: seq<Tree>, refs: map<string, Ref>,
    publishers: map<nat, Publication>, aggregators: map<nat, Aggregation>)

  datatype Step =
    | FetchToPublish(id: nat, job: Job)
    | PushBranch(id: nat, commit: Commit, listing: Listing)
    | OtherPush(name: string, commit: Commit, listing: Listing)
    | FetchToAggregate(id: nat, run: string, attempt: string)
    | ListRefs(id: nat, order: seq<string>)
    | PushPool(id: nat, scans: map<string, Inventory.Source>)
    | GiveUp(id: nat)

  function Head(s: State): (t: Tree)
    requires s.commits != []
  {
    s.commits[|s.commits| - 1]
  }

  /** What `ls-tree -r` prints: every path once, with its entry. */
  ghost predicate IsListing(t: Tree, l: Listing)
  {
    && (forall i, j :: 0 <= i < j < |l| ==> l[i].0 != l[j].0)
    && (forall i :: 0 <= i < |l| ==> l[i].0 in t && t[l[i].0] == l[i].1)
    && (forall p :: p in t ==> (p, t[p]) in l)
  }

  function Snapshot(refs: map<string, Ref>, order: seq<string>): (bs: seq<Branch>)
    requires forall n :: n in order ==> n in refs
    ensures |bs| == |order|
    ensures forall i :: 0 <= i < |bs| ==> bs[i] == Branch(order[i], refs[order[i]].commit, refs[order[i]].listing)
  {
    seq(|order|, i requires 0 <= i < |order| => Branch(order[i], refs[order[i]].commit, refs[order[i]].listing))
  }

  ghost predicate Init(s: State)
  {
    && |s.commits| == 1 && s.publishers == map[] && s.aggregators == map[]
    && forall n :: n in s.refs ==> s.refs[n].origin == Outside
  }

  ghost predicate Next(tools: Tools, s: State, s': State, step: Step)
    requires s.commits != []
  {
    match step
    case FetchToPublish(id, job) =>
      s' == s.(publishers := s.publishers[id := Publication(job, |s.commits| - 1)])
    case PushBranch(id, commit, listing) =>
      && id in s.publishers && s.publishers[id].base < |s.commits|
      && var job, base := s.publishers[id].job, s.publishers[id].base;
      && var tree := Publish(tools, s.commits[base], job);
      && tree.Some? && IsListing(tree.value, listing) && LaneHarness(job.lane).Some?
      && var name := BranchFor(Who(job));
      && name.Some? && name.value !in s.refs
      && s' == s.(publishers := s.publishers - {id},
        refs := s.refs[name.value := Ref(commit, listing, Made(job, base))])
    case OtherPush(name, commit, listing) =>
      name !in s.refs && s' == s.(refs := s.refs[name := Ref(commit, listing, Outside)])
    case FetchToAggregate(id, run, attempt) =>
      s' == s.(aggregators := s.aggregators[id := Aggregation(run, attempt, |s.commits| - 1, None)])
    case ListRefs(id, order) =>
      && id in s.aggregators && Distinct(order) && (forall n :: n in order <==> n in s.refs)
      && s' == s.(aggregators := s.aggregators[id := s.aggregators[id].(refs := Some(Snapshot(s.refs, order)))])
    case PushPool(id, scans) =>
      && id in s.aggregators && s.aggregators[id].refs.Some? && s.aggregators[id].base == |s.commits| - 1
      && var a := s.aggregators[id];
      && var staged := Sweep(tools, a.run, a.attempt, Head(s), a.refs.value);
      && staged.Some? && Gate(staged.value, scans) && staged.value != Head(s)
      && s' == s.(commits := s.commits + [staged.value], aggregators := s.aggregators - {id})
    case GiveUp(id) =>
      s' == s.(publishers := s.publishers - {id}, aggregators := s.aggregators - {id})
  }

  ghost predicate Advances(tools: Tools, s: State, s': State)
  {
    s.commits != [] && exists step :: Next(tools, s, s', step)
  }

  /** A run: any finite interleaving from any initial pool and references. */
  ghost predicate IsRun(tools: Tools, states: seq<State>)
  {
    && states != [] && Init(states[0])
    && forall i :: 0 <= i < |states| - 1 ==> Advances(tools, states[i], states[i + 1])
  }

  // ----- the invariant -----

  /** The entry was brought by an existing reference entitled to it. */
  ghost predicate Brought(tools: Tools, refs: map<string, Ref>, p: string, e: Entry)
  {
    exists n :: n in refs && ParseRef(n).Some? && (p, e) in refs[n].listing && Legit(tools, ParseRef(n).value, p, e)
  }

  ghost predicate Grows(commits: seq<Tree>)
  {
    commits != [] && forall i, j :: 0 <= i <= j < |commits| ==> Extends(commits[i], commits[j])
  }

  ghost predicate Accounted(tools: Tools, commits: seq<Tree>, refs: map<string, Ref>)
    requires commits != []
  {
    forall k, p :: 0 <= k < |commits| && p in commits[k] && p !in commits[0] ==> Brought(tools, refs, p, commits[k][p])
  }

  ghost predicate MadeBy(tools: Tools, commits: seq<Tree>, n: string, r: Ref)
  {
    r.origin.Made? ==>
      && r.origin.base < |commits| && LaneHarness(r.origin.job.lane).Some?
      && BranchFor(Who(r.origin.job)) == Some(n)
      && var t := Publish(tools, commits[r.origin.base], r.origin.job);
      t.Some? && IsListing(t.value, r.listing)
  }

  /** The references an aggregator listed: each once, and as they still are. */
  ghost predicate SeenRefs(refs: map<string, Ref>, a: Aggregation)
  {
    a.refs.Some? ==>
      && (forall i :: 0 <= i < |a.refs.value| ==>
            && a.refs.value[i].name in refs && refs[a.refs.value[i].name].listing == a.refs.value[i].listing
            && refs[a.refs.value[i].name].commit == a.refs.value[i].commit)
      && (forall i, j :: 0 <= i < j < |a.refs.value| ==> a.refs.value[i].name != a.refs.value[j].name)
  }

  ghost predicate Inv(tools: Tools, s: State)
  {
    && Grows(s.commits)
    && Accounted(tools, s.commits, s.refs)
    && (forall k :: 1 <= k < |s.commits| ==> Readable(s.commits[k]))
    && (forall n :: n in s.refs ==> MadeBy(tools, s.commits, n, s.refs[n]))
    && (forall id :: id in s.aggregators ==> SeenRefs(s.refs, s.aggregators[id]))
  }

  ghost predicate RefsGrow(a: map<string, Ref>, b: map<string, Ref>)
  {
    forall n :: n in a ==> n in b && b[n] == a[n]
  }

  lemma InitInv(tools: Tools, s: State)
    requires Init(s)
    ensures Inv(tools, s)
  {
  }

  lemma BroughtStays(tools: Tools, refs: map<string, Ref>, refs': map<string, Ref>, p: string, e: Entry)
    requires RefsGrow(refs, refs') && Brought(tools, refs, p, e)
    ensures Brought(tools, refs', p, e)
  {
    hide Legit, ParseRef;
    var n :| n in refs && ParseRef(n).Some? && (p, e) in refs[n].listing && Legit(tools, ParseRef(n).value, p, e);
    assert n in refs' && refs'[n] == refs[n];
  }

  /** References are never rewritten, so what they brought stays accounted for. */
  lemma NewRefKeepsInv(tools: Tools, s: State, s': State, name: string, r: Ref)
    requires Inv(tools, s) && name !in s.refs && MadeBy(tools, s.commits, name, r)
    requires s'.commits == s.commits && s'.refs == s.refs[name := r]
    requires forall id :: id in s'.aggregators ==> id in s.aggregators && s'.aggregators[id] == s.aggregators[id]
    ensures Inv(tools, s')
  {
    hide Brought, MadeBy, Readable, Extends;
    assert RefsGrow(s.refs, s'.refs);
    forall k, p | 0 <= k < |s.commits| && p in s.commits[k] && p !in s.commits[0]
      ensures Brought(tools, s'.refs, p, s.commits[k][p])
    {
      assert Brought(tools, s.refs, p, s.commits[k][p]);
      BroughtStays(tools, s.refs, s'.refs, p, s.commits[k][p]);
    }
    forall id | id in s'.aggregators ensures SeenRefs(s'.refs, s'.aggregators[id]) {
      assert SeenRefs(s.refs, s.aggregators[id]);
    }
  }

  // ----- a push keeps the invariant -----

  lemma {:induction false} ItemOrigin(run: string, attempt: string, refs: seq<Branch>, i: nat) returns (b: nat)
    requires i < |AllItems(run, attempt, refs)|
    ensures b < |refs| && ParseRef(refs[b].name).Some?
    ensures var it, who := AllItems(run, attempt, refs)[i], ParseRef(refs[b].name).value;
      it.who == who && who.run == run && who.attempt == attempt && (it.path, it.entry) in refs[b].listing
  {
    hide ParseRef;
    var m := |Matching(run, attempt, refs[0])|;
    if i < m {
      b := 0;
      var who := ParseRef(refs[0].name).value;
      assert Items(who, refs[0].listing)[i] == Item(who, refs[0].listing[i].0, refs[0].listing[i].1);
      assert refs[0].listing[i] in refs[0].listing;
    } else {
      assert AllItems(run, attempt, refs)[i] == AllItems(run, attempt, refs[1..])[i - m];
      var c := ItemOrigin(run, attempt, refs[1..], i - m);
      b := c + 1;
      assert refs[1..][c] == refs[b];
    }
  }

  lemma FreshIsLegit(tools: Tools, base: Tree, it: Item)
    requires Fresh(tools, base, it)
    ensures Legit(tools, it.who, it.path, it.entry)
  {
    hide Basename, CorpusUnitFor, TelemetryFor, IncidentFor;
  }

  lemma StagedIsBrought(tools: Tools, s: State, a: Aggregation, base: Tree, t: Tree, p: string)
    requires a.refs.Some? && SeenRefs(s.refs, a)
    requires Sweep(tools, a.run, a.attempt, base, a.refs.value) == Some(t)
    requires p in t && p !in base
    ensures Brought(tools, s.refs, p, t[p])
  {
    hide Legit, ParseRef, Fresh, Compatible, AllParse, Sweep, AllItems, Holds;
    SweepSucceedsIff(tools, a.run, a.attempt, base, a.refs.value);
    var items := AllItems(a.run, a.attempt, a.refs.value);
    assert ComesFrom(tools, base, items, p, t[p]);
    var i :| 0 <= i < |items| && Fresh(tools, base, items[i]) && items[i].path == p && items[i].entry == t[p];
    FreshIsLegit(tools, base, items[i]);
    var b := ItemOrigin(a.run, a.attempt, a.refs.value, i);
    assert a.refs.value[b].name in s.refs;
  }

  lemma GrowsAppend(commits: seq<Tree>, t: Tree)
    requires Grows(commits) && Extends(commits[|commits| - 1], t)
    ensures Grows(commits + [t])
  {
    var all := commits + [t];
    forall i, j | 0 <= i <= j < |all| ensures Extends(all[i], all[j]) {
      if j == |commits| && i < j { assert Extends(commits[i], commits[|commits| - 1]); }
    }
  }

  lemma PushKeepsInv(tools: Tools, s: State, s': State, id: nat, scans: map<string, Inventory.Source>)
    requires Inv(tools, s) && Next(tools, s, s', PushPool(id, scans))
    ensures Inv(tools, s') && Extends(Head(s), Head(s'))
  {
    hide Brought, Sweep, Compatible, AllParse, AllItems, ComesFrom, Gate, Readable, Publish, SeenRefs;
    var a := s.aggregators[id];
    var t := Sweep(tools, a.run, a.attempt, Head(s), a.refs.value).value;
    SweepSucceedsIff(tools, a.run, a.attempt, Head(s), a.refs.value);
    GrowsAppend(s.commits, t);
    GateMakesReadable(t, scans);
    forall p | p in t && p !in s.commits[0] ensures Brought(tools, s.refs, p, t[p]) {
      if p in Head(s) {
        assert Brought(tools, s.refs, p, s.commits[|s.commits| - 1][p]);
      } else {
        StagedIsBrought(tools, s, a, Head(s), t, p);
      }
    }
    forall n | n in s'.refs ensures MadeBy(tools, s'.commits, n, s'.refs[n]) {
      assert MadeBy(tools, s.commits, n, s.refs[n]);
    }
  }

  /** Every step of anyone keeps the invariant, and the pool only grows. */
  lemma StepKeepsInv(tools: Tools, s: State, s': State, step: Step)
    requires Inv(tools, s) && Next(tools, s, s', step)
    ensures Inv(tools, s') && s.commits <= s'.commits && RefsGrow(s.refs, s'.refs)
  {
    hide Accounted, Readable, Grows, Sweep, Publish, IsListing, BranchFor, Gate, Extends;
    match step
    case FetchToPublish(id, job) =>
    case PushBranch(id, commit, listing) =>
      var name := BranchFor(Who(s.publishers[id].job)).value;
      NewRefKeepsInv(tools, s, s', name, s'.refs[name]);
    case OtherPush(name, commit, listing) =>
      NewRefKeepsInv(tools, s, s', name, s'.refs[name]);
    case FetchToAggregate(id, run, attempt) =>
    case ListRefs(id, order) =>
      assert SeenRefs(s'.refs, s'.aggregators[id]);
    case PushPool(id, scans) =>
      PushKeepsInv(tools, s, s', id, scans);
    case GiveUp(id) =>
  }

  lemma {:induction false} RunKeepsInv(tools: Tools, states: seq<State>, i: nat)
    requires IsRun(tools, states) && i < |states|
    ensures Inv(tools, states[i])
  {
    hide Next, Inv;
    if i == 0 {
      InitInv(tools, states[0]);
    } else {
      RunKeepsInv(tools, states, i - 1);
      assert Advances(tools, states[i - 1], states[i - 1 + 1]);
      var step :| Next(tools, states[i - 1], states[i], step);
      StepKeepsInv(tools, states[i - 1], states[i], step);
    }
  }

  lemma {:induction false} RunGrows(tools: Tools, states: seq<State>, i: nat, j: nat)
    requires IsRun(tools, states) && i <= j < |states|
    ensures states[i].commits <= states[j].commits && RefsGrow(states[i].refs, states[j].refs)
    decreases j
  {
    hide Next, Inv;
    if i < j {
      RunGrows(tools, states, i, j - 1);
      RunKeepsInv(tools, states, j - 1);
      assert Advances(tools, states[j - 1], states[j - 1 + 1]);
      var step :| Next(tools, states[j - 1], states[j], step);
      StepKeepsInv(tools, states[j - 1], states[j], step);
    }
  }

  // ----- safety over whole runs -----

  /** In every interleaving: no path of the pool is ever lost or changes its
      content or mode; every path added since the start was brought by a
      reference entitled to it (a corpus unit hashes to its name and lies under
      the harness of its branch); and every pushed pool passes the reader's
      scan in every listing order. */
  lemma PoolSafety(tools: Tools, states: seq<State>, i: nat, j: nat)
    requires IsRun(tools, states) && i <= j < |states|
    ensures states[i].commits != [] && states[j].commits != []
    ensures Extends(Head(states[i]), Head(states[j]))
    ensures forall p :: p in Head(states[j]) && p !in states[0].commits[0] ==>
      Brought(tools, states[j].refs, p, Head(states[j])[p])
    ensures forall k :: 1 <= k < |states[j].commits| ==> Readable(states[j].commits[k])
  {
    hide Brought, Readable, MadeBy, SeenRefs, Extends;
    RunKeepsInv(tools, states, i);
    RunKeepsInv(tools, states, j);
    RunKeepsInv(tools, states, 0);
    RunGrows(tools, states, i, j);
    RunGrows(tools, states, 0, j);
    assert states[i].commits[|states[i].commits| - 1] == states[j].commits[|states[i].commits| - 1];
  }
}
