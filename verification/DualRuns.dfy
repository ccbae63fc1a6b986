/** What every run of the interleaver does, for every schedule, every pattern
    of throws and every shared world: it ends by itself after 2 to 10 turns,
    it crosses, and its recorded trace replays it. */
module DualRuns {
  import opened Sequences
  import opened DualSession

  function Granted(trace: Trace, k: nat): nat { multiset(trace)[k] }

  /** How often the turn changes hands. */
  function Crossings(trace: Trace): (n: nat)
  {
    if |trace| < 2 then 0
    else Crossings(trace[..|trace| - 1]) + if trace[|trace| - 1] != trace[|trace| - 2] then 1 else 0
  }

  /** The turns before the first change of hands. */
  function FirstBlock(trace: Trace): (n: nat)
    ensures n <= |trace|
  {
    if Crossings(trace) == 0 then |trace| else FirstBlock(trace[..|trace| - 1])
  }

  predicate Thrown(c: Ceremony) { c.status == Rejected || c.status == Faulted }

  function Remaining(c: Ceremony): (n: int) { if Finished(c) then 0 else 5 - c.round }

  lemma TraceAppend(trace: Trace, t: nat)
    ensures Granted(trace + [t], t) == Granted(trace, t) + 1
    ensures forall k: nat :: k != t ==> Granted(trace + [t], k) == Granted(trace, k)
    ensures Crossings(trace + [t]) == Crossings(trace) + if trace != [] && t != trace[|trace| - 1] then 1 else 0
    ensures Crossings(trace) == 0 ==> FirstBlock(trace) == |trace|
    ensures FirstBlock(trace + [t]) == if Crossings(trace + [t]) == 0 then |trace| + 1 else FirstBlock(trace)
  {
    assert (trace + [t])[..|trace|] == trace;
  }

  lemma {:induction false} NoCrossing(trace: Trace)
    requires Crossings(trace) == 0 && trace != []
    ensures Granted(trace, trace[0]) == |trace|
    ensures trace[|trace| - 1] == trace[0]
  {
    if |trace| > 1 {
      var front := trace[..|trace| - 1];
      NoCrossing(front);
      assert trace == front + [trace[|trace| - 1]];
    }
  }

  lemma {:induction false} FirstBlockBound(trace: Trace)
    requires trace != []
    ensures FirstBlock(trace) <= Granted(trace, trace[0])
  {
    if Crossings(trace) == 0 {
      NoCrossing(trace);
    } else {
      var front := trace[..|trace| - 1];
      FirstBlockBound(front);
      assert trace == front + [trace[|trace| - 1]];
    }
  }

  // ----- the loop invariant -----

  /** The turns a ceremony used: one per round, plus the one that threw. */
  ghost predicate Paid(c: Ceremony, turns: nat)
  {
    turns == c.round + (if Thrown(c) then 1 else 0) && (c.status == Pending <==> turns == 0)
  }

  ghost predicate Accounted<W>(s: Loop<W>)
  {
    && LoopOk(s)
    && (forall i :: 0 <= i < |s.trace| ==> s.trace[i] < 2)
    && s.lastTurn == (if s.trace == [] then -1 else s.trace[|s.trace| - 1])
    && s.interleavePoints == Crossings(s.trace) && (s.crossed <==> Crossings(s.trace) > 0)
    && Paid(s.a, Granted(s.trace, 0)) && Paid(s.b, Granted(s.trace, 1))
    && |s.trace| == Granted(s.trace, 0) + Granted(s.trace, 1)
    && (!Thrown(s.a) && !Thrown(s.b) ==> s.advancedPastInjection == |s.trace| - FirstBlock(s.trace))
  }

  lemma StartAccounted<W>(w: W)
    ensures Accounted(Start(w))
  {
  }

  /** The inner break is dead code: while a ceremony can still use a turn, the
      turn goes to one that can. */
  lemma TurnIsUsable<W>(s: Loop<W>, schedule: seq<nat>)
    requires !Over(s)
    ensures !Finished(Chosen(s, Turn(s, schedule)))
  {
  }

  lemma StepPays<W>(svc: Service<W>, signers: seq<Player>, c: Ceremony, w: W, turns: nat)
    requires signers != [] && WellFormed(c) && !Finished(c) && Paid(c, turns)
    ensures var r := Step(svc, signers, c, w);
      && Paid(r.ceremony, turns + 1) && (r.advanced <==> !Thrown(r.ceremony))
      && Remaining(r.ceremony) < Remaining(c)
  {
    hide Calls;
  }

  lemma GrantAccounts<W, F>(e: Setup<W, F>, schedule: seq<nat>, s: Loop<W>)
    requires e.signers != [] && Accounted(s) && !Over(s)
    ensures var s' := Grant(e, schedule, s);
      && Accounted(s') && s.trace <= s'.trace && |s'.trace| == |s.trace| + 1
      && Remaining(s'.a) + Remaining(s'.b) < Remaining(s.a) + Remaining(s.b)
  {
    hide Step, Crossings, FirstBlock, Granted, WellFormed, Max;
    TurnIsUsable(s, schedule);
    var turn := Turn(s, schedule);
    TraceAppend(s.trace, turn);
    StepPays(e.svc, e.signers, Chosen(s, turn), s.world, Granted(s.trace, turn));
  }

  lemma {:induction false} IterateEnds<W, F>(e: Setup<W, F>, schedule: seq<nat>, s: Loop<W>, n: nat)
    requires e.signers != [] && Accounted(s) && Remaining(s.a) + Remaining(s.b) <= n
    ensures var r := Iterate(e, schedule, s, n);
      Over(r) && Accounted(r) && s.trace <= r.trace
    decreases n
  {
    hide Grant, Paid, Turn, Chosen;
    if !Over(s) {
      TurnIsUsable(s, schedule);
      GrantAccounts(e, schedule, s);
      RemainingBounds(s);
      IterateEnds(e, schedule, Grant(e, schedule, s), n - 1);
    }
  }

  lemma RemainingBounds<W>(s: Loop<W>)
    requires LoopOk(s)
    ensures 0 <= Remaining(s.a) <= 5 && 0 <= Remaining(s.b) <= 5
    ensures Over(s) <==> Remaining(s.a) + Remaining(s.b) == 0
  {
  }

  /** More room than ten iterations changes nothing: the cap of 32 is never
      what ends the loop. */
  lemma {:induction false} CapIsIrrelevant<W, F>(e: Setup<W, F>, schedule: seq<nat>, s: Loop<W>, n: nat, m: nat)
    requires e.signers != [] && Accounted(s) && Remaining(s.a) + Remaining(s.b) <= n <= m
    ensures Iterate(e, schedule, s, n) == Iterate(e, schedule, s, m)
    decreases n
  {
    hide Grant, Paid, Turn, Chosen;
    RemainingBounds(s);
    if !Over(s) {
      TurnIsUsable(s, schedule);
      GrantAccounts(e, schedule, s);
      CapIsIrrelevant(e, schedule, Grant(e, schedule, s), n - 1, m - 1);
    }
  }

  // ----- results about every run -----

  lemma RunFacts<W, F>(e: Setup<W, F>, schedule: seq<nat>, w: W)
    requires e.signers != []
    ensures Over(Run(e, schedule, w)) && Accounted(Run(e, schedule, w))
  {
    hide Iterate, Accounted;
    StartAccounted(w);
    IterateEnds(e, schedule, Start(w), MAX_STEPS);
  }

  /** Every run ends with both ceremonies finished after 2 to 10 turns, through
      neither the cap nor the inner break, and crosses at least once. */
  lemma EveryRunEndsAndCrosses<W, F>(e: Setup<W, F>, schedule: seq<nat>, w: W)
    requires e.signers != []
    ensures var r := Run(e, schedule, w);
      && Over(r) && 2 <= |r.trace| <= 10
      && 1 <= r.interleavePoints == Crossings(r.trace) < |r.trace|
      && forall n: nat :: n >= 10 ==> Iterate(e, schedule, Start(w), n) == r
  {
    hide Iterate, Crossings, Granted;
    var r := Run(e, schedule, w);
    RunFacts(e, schedule, w);
    if Crossings(r.trace) == 0 { NoCrossing(r.trace); }
    CrossingsBound(r.trace);
    StartAccounted(w);
    forall n: nat | n >= 10 ensures Iterate(e, schedule, Start(w), n) == r {
      CapIsIrrelevant(e, schedule, Start(w), 10, n);
      CapIsIrrelevant(e, schedule, Start(w), 10, MAX_STEPS);
    }
  }

  lemma {:induction false} CrossingsBound(trace: Trace)
    requires trace != []
    ensures Crossings(trace) < |trace|
  {
    if |trace| > 1 { CrossingsBound(trace[..|trace| - 1]); }
  }

  /** When both ceremonies complete there were exactly ten turns, and at least
      five rounds were advanced past the first crossing. */
  lemma CompleteRunsInterleave<W, F>(e: Setup<W, F>, schedule: seq<nat>, w: W)
    requires e.signers != []
    requires Run(e, schedule, w).a.status == Completed && Run(e, schedule, w).b.status == Completed
    ensures var r := Run(e, schedule, w);
      && |r.trace| == 10 && Granted(r.trace, 0) == 5 && Granted(r.trace, 1) == 5
      && 5 <= r.advancedPastInjection <= 9
  {
    hide Iterate, Crossings, Granted, FirstBlock;
    var r := Run(e, schedule, w);
    RunFacts(e, schedule, w);
    FirstBlockBound(r.trace);
    FirstBlockPositive(r.trace);
  }

  lemma {:induction false} FirstBlockPositive(trace: Trace)
    requires trace != []
    ensures FirstBlock(trace) > 0
  {
    if Crossings(trace) != 0 { FirstBlockPositive(trace[..|trace| - 1]); }
  }

  // ----- replay -----

  lemma GrantReplays<W, F>(e: Setup<W, F>, schedule: seq<nat>, s: Loop<W>, trace: Trace)
    requires e.signers != [] && LoopOk(s) && !Over(s)
    requires |s.trace| < |trace| && trace[|s.trace|] == Turn(s, schedule)
    ensures var s' := s.(cursor := |s.trace|);
      && Turn(s', trace) == Turn(s, schedule)
      && Grant(e, trace, s') == Grant(e, schedule, s).(cursor := |Grant(e, schedule, s).trace|)
  {
    hide Step, WellFormed, Finished, Max;
    TurnIsUsable(s, schedule);
  }

  /** The recorded trace, fed back as a schedule, follows the run step by step. */
  lemma {:induction false} ReplayFrom<W, F>(e: Setup<W, F>, schedule: seq<nat>, s: Loop<W>, n: nat)
    requires e.signers != [] && Accounted(s) && Remaining(s.a) + Remaining(s.b) <= n
    ensures var r := Iterate(e, schedule, s, n);
      Iterate(e, r.trace, s.(cursor := |s.trace|), n) == r.(cursor := |r.trace|)
    decreases n
  {
    hide Paid, Grant, WellFormed, Turn, Finished, Chosen, Remaining;
    var r := Iterate(e, schedule, s, n);
    RemainingBounds(s);
    if !Over(s) {
      TurnIsUsable(s, schedule);
      GrantAccounts(e, schedule, s);
      var t := Grant(e, schedule, s);
      IterateEnds(e, schedule, t, n - 1);
      NextInTrace(e, schedule, s, r.trace);
      GrantReplays(e, schedule, s, r.trace);
      TurnIsUsable(s.(cursor := |s.trace|), r.trace);
      ReplayFrom(e, schedule, t, n - 1);
    }
  }

  lemma NextInTrace<W, F>(e: Setup<W, F>, schedule: seq<nat>, s: Loop<W>, trace: Trace)
    requires e.signers != [] && LoopOk(s) && Grant(e, schedule, s).trace <= trace
    ensures |s.trace| < |trace| && trace[|s.trace|] == Turn(s, schedule)
  {
    hide Step, WellFormed, Finished, Max;
  }

  /** Replaying the trace of a run gives the same trace and the same result,
      so the map from schedules to effective traces is idempotent. */
  lemma TraceReplays<W, F>(e: Setup<W, F>, schedule: seq<nat>, w: W)
    requires e.signers != []
    ensures var r := Run(e, schedule, w);
      && Run(e, r.trace, w) == r.(cursor := |r.trace|)
      && Run(e, r.trace, w).trace == r.trace
  {
    hide Iterate, Accounted;
    StartAccounted(w);
    ReplayFrom(e, schedule, Start(w), MAX_STEPS);
    assert Start(w).(cursor := 0) == Start(w);
  }
}
