/** Serialisability of the interleaver: when every service call reaches the
    per-player stores only through their interface and with its own
    transaction, the schedule has no effect.  Every schedule gives both
    ceremonies the report and the records of running A and then B, and the
    isolation oracle never fires. */
module DualIsolation {
  import opened Sequences
  import opened SigningStore
  import opened DualSession
  import opened DualRuns

  type World = map<Player, Store>

  /** What each player's service does in each round, as a store program. */
  type Program = (nat, Player, string, map<Player, Msg>) -> Call<(Outcome, Msg)>

  function CallOn(
    prog: Program, round: nat, p: Player, txid: string, inbox: map<Player, Msg>, w: World): (r: CallResult<World>)
  {
    if p !in w then CallResult(Fatal("std::out_of_range"), "", w)
    else
      var done := Perform(prog(round, p, txid, inbox), txid, w[p], []);
      CallResult(done.0.0, done.0.1, w[p := done.1])
  }

  function ApiService(prog: Program): Service<World>
  {
    (round: nat, p: Player, txid: string, inbox: map<Player, Msg>, w: World) => CallOn(prog, round, p, txid, inbox, w)
  }

  /** The records of one transaction, over all players. */
  function Own(w: World, txid: string): (m: map<Player, Option<Record>>)
  {
    map p | p in w :: Lookup(w[p], txid)
  }

  function Fingerprint(digest: (string, Record) -> string): (World, string) -> map<Player, Option<string>>
  {
    (w: World, txid: string) => map p | p in w :: Digest(digest, Lookup(w[p], txid), txid)
  }

  lemma SameRecordsSamePrint(digest: (string, Record) -> string, w: World, w': World, txid: string)
    requires Own(w, txid) == Own(w', txid)
    ensures Fingerprint(digest)(w, txid) == Fingerprint(digest)(w', txid)
  {
    SamePlayers(w, w', txid);
  }

  // ----- locality, from one call up to one turn -----

  lemma CallLocal(prog: Program, round: nat, p: Player, txid: string, inbox: map<Player, Msg>, w: World, v: World)
    requires Own(w, txid) == Own(v, txid)
    ensures var r, q := CallOn(prog, round, p, txid, inbox, w), CallOn(prog, round, p, txid, inbox, v);
      && r.outcome == q.outcome && r.out == q.out && Own(r.world, txid) == Own(q.world, txid)
      && forall other :: other != txid ==> Own(r.world, other) == Own(w, other)
  {
    hide Perform, Lookup, Own;
    SamePlayers(w, v, txid);
    if p in w {
      var call := prog(round, p, txid, inbox);
      PerformLocal(call, txid, w[p], v[p], []);
      OwnUpdate(w, p, Perform(call, txid, w[p], []).1, txid);
      OwnUpdate(v, p, Perform(call, txid, v[p], []).1, txid);
      forall other | other != txid ensures Own(w[p := Perform(call, txid, w[p], []).1], other) == Own(w, other) {
        OwnUpdate(w, p, Perform(call, txid, w[p], []).1, other);
        OwnUpdate(w, p, w[p], other);
        assert w[p := w[p]] == w;
      }
    }
  }

  lemma SamePlayers(w: World, v: World, txid: string)
    requires Own(w, txid) == Own(v, txid)
    ensures w.Keys == v.Keys && forall p :: p in w ==> Lookup(w[p], txid) == Lookup(v[p], txid)
  {
    assert w.Keys == Own(w, txid).Keys && v.Keys == Own(v, txid).Keys;
    forall p | p in w ensures Lookup(w[p], txid) == Lookup(v[p], txid) {
      assert Own(w, txid)[p] == Own(v, txid)[p];
    }
  }

  lemma OwnUpdate(w: World, p: Player, st: Store, txid: string)
    ensures Own(w[p := st], txid) == Own(w, txid)[p := Lookup(st, txid)]
  {
    hide Lookup;
  }

  lemma {:induction false} CallsLocal(
    prog: Program, round: nat, txid: string, callers: seq<Player>, inbox: map<Player, Msg>, w: World, v: World,
    outbox: map<Player, Msg>)
    requires Own(w, txid) == Own(v, txid)
    ensures var r, q := Calls(ApiService(prog), round, txid, callers, inbox, w, outbox),
      Calls(ApiService(prog), round, txid, callers, inbox, v, outbox);
      && (r.RoundDone? <==> q.RoundDone?)
      && (if r.RoundDone? then r.outbox == q.outbox else r.outcome == q.outcome)
      && Own(r.world, txid) == Own(q.world, txid)
      && forall other :: other != txid ==> Own(r.world, other) == Own(w, other)
    decreases |callers|
  {
    hide Own, CallOn;
    if callers != [] {
      CallLocal(prog, round, callers[0], txid, inbox, w, v);
      var r, q := CallOn(prog, round, callers[0], txid, inbox, w), CallOn(prog, round, callers[0], txid, inbox, v);
      if r.outcome.Returned? {
        CallsLocal(prog, round, txid, callers[1..], inbox, r.world, q.world, outbox[callers[0] := r.out]);
      }
    }
  }

  /** One turn of a ceremony depends on and changes only its own records. */
  lemma StepLocal(prog: Program, signers: seq<Player>, c: Ceremony, w: World, v: World)
    requires signers != [] && WellFormed(c) && Own(w, c.txid) == Own(v, c.txid)
    ensures var r, q := Step(ApiService(prog), signers, c, w), Step(ApiService(prog), signers, c, v);
      && r.ceremony == q.ceremony && r.advanced == q.advanced && Own(r.world, c.txid) == Own(q.world, c.txid)
      && forall other :: other != c.txid ==> Own(r.world, other) == Own(w, other)
  {
    hide Own, Calls, Callers;
    if !Finished(c) {
      CallsLocal(prog, c.round + 1, c.txid, Callers(signers, c.round + 1), Inbox(c), w, v, map[]);
    }
  }

  // ----- one ceremony alone -----

  /** `n` turns of one ceremony with nobody else running. */
  function Solo(prog: Program, signers: seq<Player>, c: Ceremony, w: World, n: nat): (r: (Ceremony, World))
    requires signers != [] && WellFormed(c)
    ensures WellFormed(r.0) && r.0.txid == c.txid
  {
    if n == 0 then (c, w)
    else
      var before := Solo(prog, signers, c, w, n - 1);
      var r := Step(ApiService(prog), signers, before.0, before.1);
      (r.ceremony, r.world)
  }

  lemma {:induction false} SoloStops(prog: Program, signers: seq<Player>, c: Ceremony, w: World, k: nat, n: nat)
    requires signers != [] && WellFormed(c) && k <= n && Finished(Solo(prog, signers, c, w, k).0)
    ensures Solo(prog, signers, c, w, n) == Solo(prog, signers, c, w, k)
    decreases n
  {
    hide Calls;
    if k < n { SoloStops(prog, signers, c, w, k, n - 1); }
  }

  /** The ceremony and its records in the loop are those of `k` turns alone. */
  ghost predicate Tracks(prog: Program, signers: seq<Player>, start: Ceremony, w0: World, k: nat, c: Ceremony, w: World)
    requires signers != [] && WellFormed(start)
  {
    c == Solo(prog, signers, start, w0, k).0
      && Own(w, start.txid) == Own(Solo(prog, signers, start, w0, k).1, start.txid)
  }

  lemma StepTracks(
    prog: Program, signers: seq<Player>, start: Ceremony, other: Ceremony, w0: World, k: nat, m: nat, c: Ceremony,
    d: Ceremony, w: World)
    requires signers != [] && WellFormed(start) && WellFormed(other) && start.txid != other.txid && WellFormed(c)
    requires Tracks(prog, signers, start, w0, k, c, w) && Tracks(prog, signers, other, w0, m, d, w)
    ensures var r := Step(ApiService(prog), signers, c, w);
      && Tracks(prog, signers, start, w0, k + 1, r.ceremony, r.world) && Tracks(prog, signers, other, w0, m, d, r.world)
      && Own(r.world, other.txid) == Own(w, other.txid)
  {
    hide Own, Step, WellFormed;
    StepLocal(prog, signers, c, w, Solo(prog, signers, start, w0, k).1);
  }

  // ----- the interleaved run -----

  const A := NewCeremony("opus-dual-tx-a")
  const B := NewCeremony("opus-dual-tx-b")

  lemma TxidsDiffer()
    ensures A.txid != B.txid && WellFormed(A) && WellFormed(B)
  {
    assert A.txid[13] != B.txid[13];
  }

  type Print = map<Player, Option<string>>

  function ApiSetup(prog: Program, digest: (string, Record) -> string, signers: seq<Player>): Setup<World, Print>
  {
    Setup(ApiService(prog), signers, Fingerprint(digest))
  }

  ghost predicate Projects(prog: Program, signers: seq<Player>, w0: World, s: Loop<World>, j: nat, k: nat)
    requires signers != []
  {
    TxidsDiffer();
    LoopOk(s) && s.isolated && Tracks(prog, signers, A, w0, j, s.a, s.world)
      && Tracks(prog, signers, B, w0, k, s.b, s.world)
  }

  lemma GrantProjects(
    prog: Program, digest: (string, Record) -> string, signers: seq<Player>, schedule: seq<nat>, w0: World,
    s: Loop<World>, j: nat, k: nat)
    requires signers != [] && Projects(prog, signers, w0, s, j, k)
    ensures var s' := Grant(ApiSetup(prog, digest, signers), schedule, s);
      Projects(prog, signers, w0, s', j + 1, k) || Projects(prog, signers, w0, s', j, k + 1)
  {
    hide Own, Step, WellFormed, Fingerprint, Solo, NewCeremony, Max;
    TxidsDiffer();
    var turn := Turn(s, schedule);
    var r := Step(ApiService(prog), signers, Chosen(s, turn), s.world);
    if turn == 0 {
      StepTracks(prog, signers, A, B, w0, j, k, s.a, s.b, s.world);
      SameRecordsSamePrint(digest, s.world, r.world, B.txid);
    } else {
      StepTracks(prog, signers, B, A, w0, k, j, s.b, s.a, s.world);
      SameRecordsSamePrint(digest, s.world, r.world, A.txid);
    }
  }

  lemma {:induction false} IterateProjects(
    prog: Program, digest: (string, Record) -> string, signers: seq<Player>, schedule: seq<nat>, w0: World,
    s: Loop<World>, j: nat, k: nat, n: nat)
    returns (j': nat, k': nat)
    requires signers != [] && Projects(prog, signers, w0, s, j, k)
    ensures Projects(prog, signers, w0, Iterate(ApiSetup(prog, digest, signers), schedule, s, n), j', k')
    decreases n
  {
    hide Projects, Grant, Turn;
    assert LoopOk(s) by { ProjectsOk(prog, signers, w0, s, j, k); }
    var e := ApiSetup(prog, digest, signers);
    if n == 0 || Over(s) || Finished(Chosen(s, Turn(s, schedule))) {
      j', k' := j, k;
    } else {
      var t := Grant(e, schedule, s);
      GrantProjects(prog, digest, signers, schedule, w0, s, j, k);
      if Projects(prog, signers, w0, t, j + 1, k) {
        j', k' := IterateProjects(prog, digest, signers, schedule, w0, t, j + 1, k, n - 1);
      } else {
        j', k' := IterateProjects(prog, digest, signers, schedule, w0, t, j, k + 1, n - 1);
      }
    }
  }

  lemma ProjectsOk(prog: Program, signers: seq<Player>, w0: World, s: Loop<World>, j: nat, k: nat)
    requires signers != [] && Projects(prog, signers, w0, s, j, k)
    ensures LoopOk(s)
  {
  }

  /** Any two schedules are indistinguishable, and so is any schedule from the
      empty one, which runs A to its end and then B. */
  lemma Serialisable(
    prog: Program, digest: (string, Record) -> string, signers: seq<Player>,
    schedule: seq<nat>, schedule': seq<nat>, w: World)
    requires signers != []
    ensures var r, q := Run(ApiSetup(prog, digest, signers), schedule, w),
      Run(ApiSetup(prog, digest, signers), schedule', w);
      && r.a == q.a && r.b == q.b
      && Own(r.world, A.txid) == Own(q.world, A.txid) && Own(r.world, B.txid) == Own(q.world, B.txid)
      && r.isolated && q.isolated
  {
    hide Own, Solo, Iterate, Accounted;
    TxidsDiffer();
    var e := ApiSetup(prog, digest, signers);
    assert Projects(prog, signers, w, Start(w), 0, 0) by { StartProjects(prog, signers, w); }
    var j, k := IterateProjects(prog, digest, signers, schedule, w, Start(w), 0, 0, MAX_STEPS);
    var j', k' := IterateProjects(prog, digest, signers, schedule', w, Start(w), 0, 0, MAX_STEPS);
    RunFacts(e, schedule, w);
    RunFacts(e, schedule', w);
    SoloSame(prog, signers, A, w, j, j');
    SoloSame(prog, signers, B, w, k, k');
  }

  lemma StartProjects(prog: Program, signers: seq<Player>, w: World)
    requires signers != []
    ensures Projects(prog, signers, w, Start(w), 0, 0)
  {
    TxidsDiffer();
  }

  lemma SoloSame(prog: Program, signers: seq<Player>, c: Ceremony, w: World, j: nat, k: nat)
    requires signers != [] && WellFormed(c)
    requires Finished(Solo(prog, signers, c, w, j).0) && Finished(Solo(prog, signers, c, w, k).0)
    ensures Solo(prog, signers, c, w, j) == Solo(prog, signers, c, w, k)
  {
    if j <= k { SoloStops(prog, signers, c, w, j, k); } else { SoloStops(prog, signers, c, w, k, j); }
  }

  ghost predicate Serial(trace: Trace)
  {
    forall i, j :: 0 <= i <= j < |trace| ==> trace[i] <= trace[j]
  }

  lemma {:induction false} SerialFrom<W, F>(e: Setup<W, F>, s: Loop<W>, n: nat)
    requires e.signers != [] && Accounted(s) && Serial(s.trace)
    requires s.trace != [] && s.trace[|s.trace| - 1] == 1 ==> Finished(s.a)
    ensures Serial(Iterate(e, [], s, n).trace)
    decreases n
  {
    hide Paid, Step, Max, WellFormed, Finished, Crossings, FirstBlock, Granted;
    if n > 0 && !Over(s) {
      TurnIsUsable(s, []);
      GrantAccounts(e, [], s);
      var t := Grant(e, [], s);
      assert t.trace == s.trace + [Turn(s, [])];
      forall i, j | 0 <= i <= j < |t.trace| ensures t.trace[i] <= t.trace[j] {
        if i < j == |s.trace| { assert t.trace[i] <= s.trace[|s.trace| - 1]; }
      }
      SerialFrom(e, t, n - 1);
      assert Iterate(e, [], s, n) == Iterate(e, [], t, n - 1);
    }
  }

  /** The empty schedule is the serial one: A's turns, then B's. */
  lemma EmptyScheduleIsSerial<W, F>(e: Setup<W, F>, w: W)
    requires e.signers != []
    ensures Serial(Run(e, [], w).trace)
  {
    hide Iterate, Accounted;
    StartAccounted(w);
    SerialFrom(e, Start(w), MAX_STEPS);
  }

  // ----- the hypothesis is needed -----

  /** A service that returns the next draw of one stream shared by both
      ceremonies, as calls that use the process-wide generator do. */
  function Draw(round: nat, p: Player, txid: string, inbox: map<Player, Msg>, w: nat): (r: CallResult<nat>)
  {
    CallResult(Returned, if w == 0 then "first" else "later", w + 1)
  }

  function SharedStream(): Setup<nat, nat>
  {
    Setup((round: nat, p: Player, txid: string, inbox: map<Player, Msg>, w: nat) => Draw(round, p, txid, inbox, w),
      [0], (w: nat, txid: string) => 0)
  }

  lemma {:induction false} MessagesStay<W, F>(e: Setup<W, F>, schedule: seq<nat>, s: Loop<W>, n: nat)
    requires e.signers != [] && LoopOk(s)
    ensures s.a.messages <= Iterate(e, schedule, s, n).a.messages
    decreases n
  {
    hide Calls, Turn, Chosen;
    if !(n == 0 || Over(s) || Finished(Chosen(s, Turn(s, schedule)))) {
      GrantKeepsMessages(e, schedule, s);
      MessagesStay(e, schedule, Grant(e, schedule, s), n - 1);
    }
  }

  lemma GrantKeepsMessages<W, F>(e: Setup<W, F>, schedule: seq<nat>, s: Loop<W>)
    requires e.signers != [] && LoopOk(s)
    ensures s.a.messages <= Grant(e, schedule, s).a.messages
  {
    hide Calls, Max;
  }

  lemma DrawStep(c: Ceremony, w: nat)
    requires WellFormed(c) && c.status == Pending
    ensures var r := Step(SharedStream().svc, [0], c, w);
      && r.world == w + 1 && r.ceremony.status == Running
      && r.ceremony.messages == [map[0 := if w == 0 then "first" else "later"]]
  {
    var inbox, e, next: nat := Inbox(c), SharedStream(), w + 1;
    assert Calls<nat>(e.svc, 1, c.txid, [0], inbox, w, map[]) ==
      Calls<nat>(e.svc, 1, c.txid, [0][1..], inbox, next, map[0 := if w == 0 then "first" else "later"]);
  }

  /** A's first turn, taken when the stream stands at `s.world`. */
  lemma FirstTurnOfA(schedule: seq<nat>, s: Loop<nat>, n: nat)
    requires LoopOk(s) && s.a.status == Pending && Turn(s, schedule) == 0 && n > 0
    ensures var a := Iterate(SharedStream(), schedule, s, n).a;
      a.messages != [] && a.messages[0] == map[0 := if s.world == 0 then "first" else "later"]
  {
    hide Step, Max, Turn, WellFormed;
    DrawStep(s.a, s.world);
    MessagesStay(SharedStream(), schedule, Grant(SharedStream(), schedule, s), n - 1);
  }

  lemma FirstTurnOfB(s: Loop<nat>)
    requires s == Start(0)
    ensures var t := Grant(SharedStream(), [1], s);
      t.a == s.a && t.world == 1 && t.cursor == 1 && !Finished(t.b)
  {
    hide Step, Max;
    DrawStep(s.b, 0);
  }

  /** With a shared stream the order of turns shows: the two schedules leave
      ceremony A with different messages. */
  lemma SharedStreamIsNotSerialisable()
    ensures Run(SharedStream(), [], 0).a != Run(SharedStream(), [1], 0).a
  {
    hide Grant, Max, WellFormed;
    FirstTurnOfA([], Start(0), 32);
    FirstTurnOfB(Start(0));
    var t := Grant(SharedStream(), [1], Start(0));
    FirstTurnOfA([1], t, 31);
    assert Run(SharedStream(), [1], 0) == Iterate(SharedStream(), [1], t, 31);
    assert "first"[0] != "later"[0] && map[0 := "first"][0] != map[0 := "later"][0];
  }
}
