/** What one granted turn does (harness/cmp_ecdsa_online/src/dual_session.cpp),
    call by call: who is called in which order, with which messages, what is
    kept of the answers, and what a throw leaves. */
module DualSteps {
  import opened Sequences
  import opened DualSession

  /** The messages that a round is given: what the round before it sent. */
  function Given(c: Ceremony): (m: map<Player, Msg>)
    requires c.round <= |c.messages|
  {
    if c.round == 0 then map[] else c.messages[c.round - 1]
  }

  /** Rounds 1 to 4 call every signer, round 5 the first one only. */
  function Called(signers: seq<Player>, round: nat): (ps: seq<Player>)
    requires signers != []
  {
    if round <= 4 then signers else [signers[0]]
  }

  // ----- a turn reads nothing else -----

  ghost predicate SameCalls<W(!new)>(
    svc: Service<W>, svc': Service<W>, round: nat, txid: string, inbox: map<Player, Msg>)
  {
    forall p, w :: svc(round, p, txid, inbox, w) == svc'(round, p, txid, inbox, w)
  }

  lemma {:induction false} SameCallsSameRound<W(!new)>(
    svc: Service<W>, svc': Service<W>, round: nat, txid: string, callers: seq<Player>, inbox: map<Player, Msg>, w: W,
    outbox: map<Player, Msg>)
    requires SameCalls(svc, svc', round, txid, inbox)
    ensures Calls(svc, round, txid, callers, inbox, w, outbox) == Calls(svc', round, txid, callers, inbox, w, outbox)
    decreases |callers|
  {
    if callers != [] {
      var r := svc(round, callers[0], txid, inbox, w);
      assert r == svc'(round, callers[0], txid, inbox, w);
      if r.outcome.Returned? {
        SameCallsSameRound(svc, svc', round, txid, callers[1..], inbox, r.world, outbox[callers[0] := r.out]);
      }
    }
  }

  /** A turn depends on the calls of its own round, for its own transaction, with
      the messages of the round before, and on no other call. */
  lemma StepReads<W(!new)>(svc: Service<W>, svc': Service<W>, signers: seq<Player>, c: Ceremony, w: W)
    requires signers != [] && WellFormed(c) && SameCalls(svc, svc', c.round + 1, c.txid, Given(c))
    ensures Step(svc, signers, c, w) == Step(svc', signers, c, w)
  {
    hide Calls, SameCalls;
    SameCallsSameRound(svc, svc', c.round + 1, c.txid, Callers(signers, c.round + 1), Given(c), w, map[]);
  }

  // ----- the calls of a turn -----

  /** The first `k` calls returned, each on the world that the one before left. */
  ghost predicate Chain<W(!new)>(
    svc: Service<W>, round: nat, txid: string, callers: seq<Player>, inbox: map<Player, Msg>, ws: seq<W>, k: nat)
    requires k <= |callers|
  {
    && |ws| == k + 1
    && forall i :: 0 <= i < k ==>
         svc(round, callers[i], txid, inbox, ws[i]).outcome.Returned?
         && svc(round, callers[i], txid, inbox, ws[i]).world == ws[i + 1]
  }

  /** The outbox holds the answer of each caller's last call, and nothing else. */
  ghost predicate Holds<W(!new)>(
    svc: Service<W>, round: nat, txid: string, callers: seq<Player>, inbox: map<Player, Msg>, ws: seq<W>,
    outbox: map<Player, Msg>)
    requires |ws| == |callers| + 1
  {
    && (forall p :: p in outbox <==> p in callers)
    && forall i :: 0 <= i < |callers| && LastCall(callers, i) ==>
         outbox[callers[i]] == svc(round, callers[i], txid, inbox, ws[i]).out
  }

  predicate LastCall(callers: seq<Player>, i: nat)
    requires i < |callers|
  {
    callers[i] !in callers[i + 1..]
  }

  /** The calls of a round run until the first throw. */
  lemma {:induction false} CallsChain<W(!new)>(
    svc: Service<W>, round: nat, txid: string, callers: seq<Player>, inbox: map<Player, Msg>, w: W,
    outbox: map<Player, Msg>) returns (ws: seq<W>, k: nat)
    ensures k <= |callers| && Chain(svc, round, txid, callers, inbox, ws, k) && ws[0] == w
    ensures var r := Calls(svc, round, txid, callers, inbox, w, outbox);
      && (r.RoundDone? <==> k == |callers|)
      && (r.RoundDone? ==> r.world == ws[k])
      && (r.Threw? ==> Stopped(svc(round, callers[k], txid, inbox, ws[k]), r))
    decreases |callers|
  {
    if callers == [] {
      ws, k := [w], 0;
    } else {
      var r := svc(round, callers[0], txid, inbox, w);
      if r.outcome.Returned? {
        var rest, j := CallsChain(svc, round, txid, callers[1..], inbox, r.world, outbox[callers[0] := r.out]);
        ws, k := [w] + rest, j + 1;
        assert forall i :: 1 <= i < |callers| ==> callers[i] == callers[1..][i - 1];
      } else {
        ws, k := [w], 0;
      }
    }
  }

  /** The round ended with this throw. */
  ghost predicate Stopped<W>(last: CallResult<W>, r: RoundResult<W>)
    requires r.Threw?
  {
    !last.outcome.Returned? && r.outcome == last.outcome && r.world == last.world
  }

  /** What a round without a throw adds to an outbox. */
  lemma {:induction false} CallsKeep<W(!new)>(
    svc: Service<W>, round: nat, txid: string, callers: seq<Player>, inbox: map<Player, Msg>, ws: seq<W>,
    outbox: map<Player, Msg>)
    requires Chain(svc, round, txid, callers, inbox, ws, |callers|)
    ensures var r := Calls(svc, round, txid, callers, inbox, ws[0], outbox);
      && r.RoundDone?
      && (forall p :: p in r.outbox <==> p in outbox || p in callers)
      && (forall p :: p in outbox && p !in callers ==> r.outbox[p] == outbox[p])
      && forall i :: 0 <= i < |callers| && LastCall(callers, i) ==>
           r.outbox[callers[i]] == svc(round, callers[i], txid, inbox, ws[i]).out
    decreases |callers|
  {
    if callers != [] {
      var tail, rest := callers[1..], ws[1..];
      var first := svc(round, callers[0], txid, inbox, ws[0]);
      assert forall i :: 0 <= i < |tail| ==> tail[i] == callers[i + 1];
      CallsKeep(svc, round, txid, tail, inbox, rest, outbox[callers[0] := first.out]);
      forall i | 0 < i < |callers| ensures LastCall(callers, i) <==> LastCall(tail, i - 1) {
        assert callers[i + 1..] == tail[i..];
      }
    }
  }

  // ----- the turn -----

  const COUNT := "12345"

  /** The whole turn: the calls returned in order up to the `k`-th.  If they all
      did, the ceremony is one round further, with their answers as the messages
      of the round; if one threw, it is over, with that throw as the reason, and
      nothing else about it has changed. */
  lemma StepMeans<W(!new)>(svc: Service<W>, signers: seq<Player>, c: Ceremony, w: W) returns (ws: seq<W>, k: nat)
    requires signers != [] && WellFormed(c) && !Finished(c)
    ensures var round, callers, inbox := c.round + 1, Called(signers, c.round + 1), Given(c);
      var r := Step(svc, signers, c, w);
      && k <= |callers| && Chain(svc, round, c.txid, callers, inbox, ws, k) && ws[0] == w
      && (r.advanced <==> k == |callers|)
      && (r.advanced ==> r.world == ws[k] && MovedOn(svc, signers, c, ws, r.ceremony))
      && (!r.advanced ==>
            var last := svc(round, callers[k], c.txid, inbox, ws[k]);
            !last.outcome.Returned? && r.world == last.world && GivenUp(c, last.outcome, r.ceremony))
  {
    hide Step, Calls, Chain, MovedOn, GivenUp, Called;
    var round, callers, inbox := c.round + 1, Called(signers, c.round + 1), Given(c);
    ws, k := CallsChain(svc, round, c.txid, callers, inbox, w, map[]);
    StepIs(svc, signers, c, w);
    if k == |callers| { StepMovesOn(svc, signers, c, w, ws); }
  }

  /** The turn in terms of its calls. */
  lemma StepIs<W(!new)>(svc: Service<W>, signers: seq<Player>, c: Ceremony, w: W)
    requires signers != [] && WellFormed(c) && !Finished(c)
    ensures var r := Step(svc, signers, c, w);
      var calls := Calls(svc, c.round + 1, c.txid, Called(signers, c.round + 1), Given(c), w, map[]);
      && (r.advanced <==> calls.RoundDone?) && r.world == calls.world
      && (calls.Threw? && !calls.outcome.Returned? ==> GivenUp(c, calls.outcome, r.ceremony))
  {
    hide Calls;
  }

  lemma StepMovesOn<W(!new)>(svc: Service<W>, signers: seq<Player>, c: Ceremony, w: W, ws: seq<W>)
    requires signers != [] && WellFormed(c) && !Finished(c)
    requires var callers := Called(signers, c.round + 1);
      Chain(svc, c.round + 1, c.txid, callers, Given(c), ws, |callers|) && ws[0] == w
    ensures MovedOn(svc, signers, c, ws, Step(svc, signers, c, w).ceremony)
  {
    hide Calls, Chain, LastCall;
    CallsKeep(svc, c.round + 1, c.txid, Called(signers, c.round + 1), Given(c), ws, map[]);
    if c.round == 4 { OnlyOne(signers[0]); }
  }

  lemma OnlyOne(p: Player)
    ensures LastCall([p], 0)
  {
  }

  /** One round further. */
  ghost predicate MovedOn<W(!new)>(svc: Service<W>, signers: seq<Player>, c: Ceremony, ws: seq<W>, d: Ceremony)
    requires signers != [] && c.round <= |c.messages| && |ws| == |Called(signers, c.round + 1)| + 1
  {
    && d.txid == c.txid && d.round == c.round + 1 && d.exceptionType == c.exceptionType && d.detail == c.detail
    && d.status == (if c.round == 4 then Completed else Running)
    && |d.messages| == |c.messages| + 1 && d.messages[..|c.messages|] == c.messages
    && Holds(svc, c.round + 1, c.txid, Called(signers, c.round + 1), Given(c), ws, d.messages[|c.messages|])
    && (c.round < 4 ==> d.signature == c.signature)
    && (c.round == 4 ==> d.signature == svc(5, signers[0], c.txid, Given(c), ws[0]).out)
  }

  /** Over, for this reason. */
  ghost predicate GivenUp(c: Ceremony, o: Outcome, d: Ceremony)
    requires !o.Returned? && c.round < 5
  {
    d == c.(status := if o.Fatal? then Faulted else Rejected, exceptionType := o.name,
            detail := "round " + [COUNT[c.round]] + " threw")
  }

  // ----- the turn loop -----

  /** Who is granted the turn: the low bit of the next byte, or the other
      ceremony when that one is over; without bytes left, A until it is over. */
  lemma TurnMeans<W>(s: Loop<W>, schedule: seq<nat>)
    requires !Over(s)
    ensures var t := Turn(s, schedule);
      if s.cursor < |schedule| then
        if schedule[s.cursor] % 2 == 0 then (t == 0 <==> !Finished(s.a)) else (t == 1 <==> !Finished(s.b))
      else t == 0 <==> !Finished(s.a)
  {
  }

  /** One grant: the granted ceremony takes its turn, the other is untouched, and
      the flag falls exactly if the turn changed the other one's records. */
  lemma GrantMeans<W, F>(e: Setup<W, F>, schedule: seq<nat>, s: Loop<W>)
    requires e.signers != [] && LoopOk(s)
    ensures var t, s' := Turn(s, schedule), Grant(e, schedule, s);
      var r, other := Step(e.svc, e.signers, Chosen(s, t), s.world), Chosen(s, 1 - t).txid;
      && Chosen(s', t) == r.ceremony && Chosen(s', 1 - t) == Chosen(s, 1 - t) && s'.world == r.world
      && (s'.isolated <==> s.isolated && e.fingerprint(s'.world, other) == e.fingerprint(s.world, other))
      && s'.cursor == (if s.cursor < |schedule| then s.cursor + 1 else s.cursor)
  {
    hide Step, WellFormed, Turn;
  }

  ghost predicate Reaches<W>(s: Loop<W>) { s.maxRound == if s.a.round > s.b.round then s.a.round else s.b.round }

  lemma {:induction false} IterateReaches<W, F>(e: Setup<W, F>, schedule: seq<nat>, s: Loop<W>, n: nat)
    requires e.signers != [] && LoopOk(s) && Reaches(s)
    ensures Reaches(Iterate(e, schedule, s, n))
    decreases n
  {
    hide Turn, Step, WellFormed;
    if n > 0 && !Over(s) && !Finished(Chosen(s, Turn(s, schedule))) {
      IterateReaches(e, schedule, Grant(e, schedule, s), n - 1);
    }
  }

  /** The highest round reported is that of the ceremony that got further. */
  lemma RunReaches<W, F>(e: Setup<W, F>, schedule: seq<nat>, w: W)
    requires e.signers != []
    ensures var r := Run(e, schedule, w); r.maxRound == if r.a.round > r.b.round then r.a.round else r.b.round
  {
    hide Iterate;
    IterateReaches(e, schedule, Start(w), MAX_STEPS);
  }
}
