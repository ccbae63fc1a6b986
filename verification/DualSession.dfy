/** The dual-ceremony interleaver (harness/cmp_ecdsa_online/src/dual_session.cpp):
    two five-round signing ceremonies over one shared world, with arbitrary
    bytes granting the turns.  A service call is an arbitrary function of the
    round, the player, the transaction, the messages and the world. */
module DualSession {
  import opened Sequences

  type Player = nat
  type Msg = string

  /** `Clean` is the library's own exception, `Fatal` any other. */
  datatype Outcome = Returned | Clean(name: string) | Fatal(name: string)

  datatype CallResult<+W> = CallResult(outcome: Outcome, out: Msg, world: W)

  type Service<!W> = (nat, Player, string, map<Player, Msg>, W) -> CallResult<W>

  datatype Status = Pending | Running | Completed | Rejected | Faulted

  /** The fields of a ceremony; `messages` holds the output of each round done. */
  datatype Ceremony = Ceremony(
    txid: string, round: nat, status: Status, exceptionType: string, detail: string,
    messages: seq<map<Player, Msg>>, signature: Msg)

  function NewCeremony(txid: string): (c: Ceremony)
  {
    Ceremony(txid, 0, Pending, "", "", [], "")
  }

  predicate Finished(c: Ceremony)
  {
    c.status != Pending && c.status != Running
  }

  /** What every ceremony satisfies between steps. */
  predicate WellFormed(c: Ceremony)
  {
    && |c.messages| == c.round <= 5
    && (c.status == Pending ==> c.round == 0)
    && (!Finished(c) ==> c.round < 5)
    && (c.status == Completed ==> c.round == 5)
    && (c.status == Rejected || c.status == Faulted ==> c.round < 5)
  }

  // ----- one round -----

  datatype RoundResult<+W> = RoundDone(outbox: map<Player, Msg>, world: W) | Threw(outcome: Outcome, world: W)

  function Calls<W>(
    svc: Service<W>, round: nat, txid: string, callers: seq<Player>, inbox: map<Player, Msg>, w: W,
    outbox: map<Player, Msg>): (r: RoundResult<W>)
    decreases |callers|
  {
    if callers == [] then RoundDone(outbox, w)
    else
      var r := svc(round, callers[0], txid, inbox, w);
      if r.outcome.Returned? then Calls(svc, round, txid, callers[1..], inbox, r.world, outbox[callers[0] := r.out])
      else Threw(r.outcome, r.world)
  }

  /** Round 5 runs on the first signer only, the others on all of them. */
  function Callers(signers: seq<Player>, round: nat): (r: seq<Player>)
    requires signers != []
  {
    if round == 5 then [signers[0]] else signers
  }

  function Inbox(c: Ceremony): (m: map<Player, Msg>)
  {
    if c.round == 0 || c.round > |c.messages| then map[] else c.messages[c.round - 1]
  }

  const DIGITS := "012345"

  function Reject(c: Ceremony, o: Outcome, round: nat): (c': Ceremony)
    requires 1 <= round <= 5
  {
    c.(status := if o.Fatal? then Faulted else Rejected,
       exceptionType := if o.Returned? then "" else o.name,
       detail := "round " + [DIGITS[round]] + " threw")
  }

  datatype StepResult<+W> = StepResult(ceremony: Ceremony, world: W, advanced: bool)

  /** One granted turn. */
  function Step<W>(svc: Service<W>, signers: seq<Player>, c: Ceremony, w: W): (r: StepResult<W>)
    requires signers != [] && WellFormed(c)
    ensures WellFormed(r.ceremony) && r.ceremony.txid == c.txid
    ensures r.advanced ==> r.ceremony.round == c.round + 1 && !Finished(c)
    ensures !r.advanced ==> r.ceremony.round == c.round
    ensures !Finished(c) && !r.advanced ==> r.ceremony.status == Rejected || r.ceremony.status == Faulted
  {
    if Finished(c) then StepResult(c, w, false)
    else
      var round := c.round + 1;
      match Calls(svc, round, c.txid, Callers(signers, round), Inbox(c), w, map[])
      case Threw(o, w') => StepResult(Reject(c, o, round), w', false)
      case RoundDone(outbox, w') =>
        StepResult(
          c.(round := round, status := if round == 5 then Completed else Running,
             messages := c.messages + [outbox],
             signature := if round == 5 && signers[0] in outbox then outbox[signers[0]] else c.signature),
          w', true)
  }

  // ----- the turn loop -----

  type Trace = seq<nat>

  datatype Loop<+W> = Loop(
    a: Ceremony, b: Ceremony, world: W, cursor: nat, lastTurn: int, crossed: bool,
    interleavePoints: nat, advancedPastInjection: nat, maxRound: nat, trace: Trace, isolated: bool)

  /** What a run needs besides the world: the calls, the signers, and the
      fingerprint of one transaction's records. */
  datatype Setup<!W, !F(==)> = Setup(svc: Service<W>, signers: seq<Player>, fingerprint: (W, string) -> F)

  const MAX_STEPS := 32

  predicate Over<W>(s: Loop<W>) { Finished(s.a) && Finished(s.b) }

  function Chosen<W>(s: Loop<W>, turn: nat): (c: Ceremony) { if turn == 0 then s.a else s.b }

  /** A schedule byte grants its low bit; a finished ceremony passes its turn;
      an exhausted schedule completes what is left in fixed order. */
  function Turn<W>(s: Loop<W>, schedule: seq<nat>): (t: nat)
    ensures t < 2
  {
    if s.cursor < |schedule| then
      var t := schedule[s.cursor] % 2;
      if Finished(Chosen(s, t)) then 1 - t else t
    else if Finished(s.a) then 1 else 0
  }

  function Max(x: nat, y: nat): nat { if x < y then y else x }

  ghost predicate LoopOk<W>(s: Loop<W>)
  {
    WellFormed(s.a) && WellFormed(s.b)
  }

  /** One iteration that grants `turn`. */
  function Grant<W, F(==)>(e: Setup<W, F>, schedule: seq<nat>, s: Loop<W>): (s': Loop<W>)
    requires e.signers != [] && LoopOk(s)
    ensures LoopOk(s')
  {
    var turn := Turn(s, schedule);
    var crossing := s.lastTurn != -1 && turn != s.lastTurn;
    var crossed := s.crossed || crossing;
    var other := Chosen(s, 1 - turn).txid;
    var r := Step(e.svc, e.signers, Chosen(s, turn), s.world);
    var a, b := if turn == 0 then r.ceremony else s.a, if turn == 1 then r.ceremony else s.b;
    Loop(a, b, r.world,
         if s.cursor < |schedule| then s.cursor + 1 else s.cursor,
         turn, crossed,
         s.interleavePoints + (if crossing then 1 else 0),
         s.advancedPastInjection + (if r.advanced && crossed then 1 else 0),
         Max(s.maxRound, Max(a.round, b.round)),
         s.trace + [turn],
         s.isolated && e.fingerprint(r.world, other) == e.fingerprint(s.world, other))
  }

  /** At most `n` iterations; stops when both are finished, or at the inner
      break when the chosen ceremony cannot use the turn. */
  function Iterate<W, F(==)>(e: Setup<W, F>, schedule: seq<nat>, s: Loop<W>, n: nat): (r: Loop<W>)
    requires e.signers != [] && LoopOk(s)
    ensures LoopOk(r)
    decreases n
  {
    if n == 0 || Over(s) || Finished(Chosen(s, Turn(s, schedule))) then s
    else Iterate(e, schedule, Grant(e, schedule, s), n - 1)
  }

  function Start<W>(w: W): (s: Loop<W>)
    ensures LoopOk(s)
  {
    Loop(NewCeremony("opus-dual-tx-a"), NewCeremony("opus-dual-tx-b"), w, 0, -1, false, 0, 0, 0, [], true)
  }

  function Run<W, F(==)>(e: Setup<W, F>, schedule: seq<nat>, w: W): (r: Loop<W>)
    requires e.signers != []
  {
    Iterate(e, schedule, Start(w), MAX_STEPS)
  }

  // ----- the loop of the source -----

  class CeremonyMachine {
    var txid: string
    var round: nat
    var status: Status
    var exceptionType: string
    var detail: string
    var messages: seq<map<Player, Msg>>
    var signature: Msg

    function View(): (c: Ceremony)
      reads this
    {
      Ceremony(txid, round, status, exceptionType, detail, messages, signature)
    }

    constructor (name: string)
      ensures View() == NewCeremony(name)
    {
      txid, round, status, exceptionType, detail, messages, signature := name, 0, Pending, "", "", [], "";
    }

    /** Advance one round: a call per caller, stopping at the first throw. */
    method Advance<W>(svc: Service<W>, signers: seq<Player>, w: W) returns (w': W, advanced: bool)
      requires signers != [] && WellFormed(View())
      modifies this
      ensures Step(svc, signers, old(View()), w) == StepResult(View(), w', advanced)
    {
      if Finished(View()) { return w, false; }
      ghost var c := View();
      var n := round + 1;
      var callers, inbox := Callers(signers, n), Inbox(View());
      var outbox: map<Player, Msg> := map[];
      w' := w;
      for i := 0 to |callers|
        invariant View() == c
        invariant Calls(svc, n, c.txid, callers, inbox, w, map[]) ==
          Calls(svc, n, c.txid, callers[i..], inbox, w', outbox)
      {
        var r := svc(n, callers[i], txid, inbox, w');
        assert callers[i..][1..] == callers[i + 1..];
        w' := r.world;
        if !r.outcome.Returned? {
          status := if r.outcome.Fatal? then Faulted else Rejected;
          exceptionType := r.outcome.name;
          detail := "round " + [DIGITS[n]] + " threw";
          return w', false;
        }
        outbox := outbox[callers[i] := r.out];
      }
      messages := messages + [outbox];
      if n == 5 && signers[0] in outbox { signature := outbox[signers[0]]; }
      round := n;
      status := if n == 5 then Completed else Running;
      advanced := true;
    }
  }

  /** The turn: a schedule byte if there is one, passed on if it is of no use. */
  method PickTurn<W>(s: Loop<W>, schedule: seq<nat>) returns (turn: nat)
    ensures turn == Turn(s, schedule)
  {
    if s.cursor < |schedule| {
      turn := schedule[s.cursor] % 2;
      if Finished(Chosen(s, turn)) { turn := 1 - turn; }
    } else {
      turn := if Finished(s.a) then 1 else 0;
    }
  }

  /** The rest of one iteration. */
  method TakeTurn<W, F(==)>(
    e: Setup<W, F>, schedule: seq<nat>, s: Loop<W>, turn: nat, a: CeremonyMachine, b: CeremonyMachine)
    returns (s': Loop<W>)
    requires e.signers != [] && LoopOk(s) && a != b && s.a == a.View() && s.b == b.View()
    requires turn == Turn(s, schedule)
    modifies a, b
    ensures s' == Grant(e, schedule, s) && s'.a == a.View() && s'.b == b.View()
  {
    hide Step, WellFormed, Finished;
    var crossing := s.lastTurn != -1 && turn != s.lastTurn;
    var crossed := s.crossed || crossing;
    var other := if turn == 0 then b.txid else a.txid;
    var before := e.fingerprint(s.world, other);
    var granted := if turn == 0 then a else b;
    var world, advanced := granted.Advance(e.svc, e.signers, s.world);
    s' := Loop(a.View(), b.View(), world,
               if s.cursor < |schedule| then s.cursor + 1 else s.cursor,
               turn, crossed,
               s.interleavePoints + (if crossing then 1 else 0),
               s.advancedPastInjection + (if advanced && crossed then 1 else 0),
               Max(s.maxRound, Max(a.round, b.round)), s.trace + [turn],
               s.isolated && e.fingerprint(world, other) == before);
  }

  method RunSession<W, F(==)>(e: Setup<W, F>, schedule: seq<nat>, w: W) returns (r: Loop<W>)
    requires e.signers != []
    ensures r == Run(e, schedule, w)
  {
    hide Grant, Turn, WellFormed;
    var a := new CeremonyMachine("opus-dual-tx-a");
    var b := new CeremonyMachine("opus-dual-tx-b");
    r := Start(w);
    var taken := 0;
    while taken < MAX_STEPS
      invariant 0 <= taken <= MAX_STEPS && a != b && fresh(a) && fresh(b)
      invariant r.a == a.View() && r.b == b.View() && LoopOk(r)
      invariant Run(e, schedule, w) == Iterate(e, schedule, r, MAX_STEPS - taken)
    {
      if Finished(r.a) && Finished(r.b) { return; }
      var turn := PickTurn(r, schedule);
      if Finished(Chosen(r, turn)) { return; }
      r := TakeTurn(e, schedule, r, turn, a, b);
      taken := taken + 1;
    }
  }
}
