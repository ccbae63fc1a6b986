/** The wire mutators (harness/cmp_ecdsa_online/src/mutators.cpp): one mutation
    alters one buffer of one message of one attacker, or, in round 4, adds one
    entry for a player that does not sign. */
module Mutators {
  import opened Sequences

  type Id = nat
  type Buf = seq<bv8>

  const SCALAR_BYTES := 32

  datatype WireOp = NoOp | FlipBit | ZeroOut | Truncate | ExtraMapKey

  datatype WireField =
    | R1MtaMessage | R1MtaCommitment | R1MtaProof | R1MtaProofsEntry | R1PointA | R1PointB | R1PointZ
    | R2Ack | R2KGammaMessage | R2KXMessage | R2Gamma | R2GammaProofsEntry
    | R3Delta | R3DeltaPoint | R3Proof
    | R4Si

  datatype Mutation = Mutation(
    round: nat, attacker: Id, field: WireField, op: WireOp, block: nat, byteIndex: nat, bit: bv8)

  datatype Mta = Mta(message: Buf, commitment: Buf, proof: Buf)

  /** What one player sends for one signing block in each round. */
  datatype Block =
    | Request(mta: Mta, mtaProofs: map<Id, Buf>, pointA: Buf, pointB: Buf, pointZ: Buf)
    | Response(kGamma: map<Id, Mta>, kX: map<Id, Mta>, pointGamma: Buf, gammaProofs: map<Id, Buf>)
    | Delta(delta: Buf, pointDelta: Buf, proof: Buf)
    | Share(si: Buf)

  /** One player's outbound slot; the acknowledgement is used in round 2. */
  datatype Outbound = Outbound(ack: Buf, blocks: seq<Block>)

  type Messages = map<Id, Outbound>

  // ----- one buffer -----

  function Toggle(x: bv8, bit: bv8): bv8 { x ^ ((1 as bv8) << (bit & 7)) }

  function Flipped(v: Buf, index: nat, bit: bv8): (r: Buf)
    requires v != []
  {
    var i := index % |v|;
    v[i := Toggle(v[i], bit)]
  }

  function Zeros(n: nat): (r: Buf)
    ensures |r| == n && forall i :: 0 <= i < n ==> r[i] == 0
  {
    if n == 0 then [] else Zeros(n - 1) + [0]
  }

  /** Points, scalars and the acknowledgement have a fixed size. */
  predicate FixedSize(f: WireField)
  {
    f in {R1PointA, R1PointB, R1PointZ, R2Ack, R2Gamma, R3Delta, R3DeltaPoint, R4Si}
  }

  function Mutate(m: Mutation, v: Buf): (r: Option<Buf>)
  {
    if v == [] then None
    else match m.op
      case FlipBit => Some(Flipped(v, m.byteIndex, m.bit))
      case ZeroOut => Some(Zeros(|v|))
      case Truncate => if FixedSize(m.field) then None else Some(v[..m.byteIndex % |v|])
      case _ => None
  }

  /** A bit of a fixed buffer, in place. */
  method FlipIn(p: array<bv8>, index: nat, bit: bv8) returns (ok: bool)
    modifies p
    ensures ok <==> p.Length > 0
    ensures p[..] == if old(p[..]) == [] then [] else Flipped(old(p[..]), index, bit)
  {
    if p.Length == 0 { return false; }
    ghost var v := p[..];
    var i := index % p.Length;
    p[i] := Toggle(p[i], bit);
    assert p[..] == v[i := Toggle(v[i], bit)];
    ok := true;
  }

  /** True also when there was nothing but zeros before. */
  method ZeroIn(p: array<bv8>) returns (ok: bool)
    modifies p
    ensures ok <==> p.Length > 0
    ensures p[..] == Zeros(p.Length)
  {
    for i := 0 to p.Length
      invariant forall k :: 0 <= k < i ==> p[k] == 0
    {
      p[i] := 0;
    }
    assert p[..] == Zeros(p.Length);
    ok := p.Length > 0;
  }

  /** One buffer that can shrink: the array and how much of it is kept. */
  method MutateIn(m: Mutation, p: array<bv8>) returns (ok: bool, kept: nat)
    modifies p
    ensures kept <= p.Length && (ok <==> Mutate(m, old(p[..])).Some?)
    ensures p[..kept] == if ok then Mutate(m, old(p[..])).value else old(p[..])
  {
    hide Flipped, FixedSize;
    kept := p.Length;
    assert p[..kept] == p[..];
    match m.op
    case FlipBit => ok := FlipIn(p, m.byteIndex, m.bit);
    case ZeroOut => ok := ZeroIn(p);
    case Truncate =>
      ok := p.Length > 0 && !FixedSize(m.field);
      if ok { kept := m.byteIndex % p.Length; }
    case NoOp => ok := false;
    case ExtraMapKey => ok := false;
  }

  lemma ToggleLaws(x: bv8, bit: bv8)
    ensures Toggle(x, bit) != x && Toggle(Toggle(x, bit), bit) == x
  {
  }

  /** Flipping is its own inverse and changes exactly one byte. */
  lemma FlipLaws(v: Buf, index: nat, bit: bv8)
    requires v != []
    ensures var w := Flipped(v, index, bit);
      && |w| == |v| && Flipped(w, index, bit) == v && w[index % |v|] != v[index % |v|]
      && forall i :: 0 <= i < |v| && i != index % |v| ==> w[i] == v[i]
  {
    hide Toggle;
    ToggleLaws(v[index % |v|], bit);
  }

  predicate AllZero(v: Buf) { forall i :: 0 <= i < |v| ==> v[i] == 0 }

  /** Every applied operation really changes the buffer, except zeroing one
      that was all zeros; truncation leaves a strict prefix. */
  lemma MutateChangesIff(m: Mutation, v: Buf)
    requires Mutate(m, v).Some?
    ensures Mutate(m, v).value != v <==> !(m.op == ZeroOut && AllZero(v))
    ensures m.op == Truncate ==> Mutate(m, v).value < v
    ensures FixedSize(m.field) ==> |Mutate(m, v).value| == |v|
  {
    hide Toggle, FixedSize;
    if m.op == FlipBit { FlipLaws(v, m.byteIndex, m.bit); }
    if m.op == ZeroOut && AllZero(v) { assert Zeros(|v|) == v; }
    if m.op == ZeroOut && !AllZero(v) {
      var i :| 0 <= i < |v| && v[i] != 0;
      assert Zeros(|v|)[i] != v[i];
    }
  }

  // ----- fields of a block -----

  function Entry(m: map<Id, Buf>, k: Id): (r: Option<Buf>) { if k in m then Some(m[k]) else None }

  function MtaEntry(m: map<Id, Mta>, k: Id): (r: Option<Buf>) { if k in m then Some(m[k].message) else None }

  /** The buffer a field names; entry fields name the victim's entry. */
  function Read(b: Block, f: WireField, victim: Id): (r: Option<Buf>)
  {
    match b
    case Request(mta, proofs, a, bb, z) => (
      match f
      case R1MtaMessage => Some(mta.message)
      case R1MtaCommitment => Some(mta.commitment)
      case R1MtaProof => Some(mta.proof)
      case R1MtaProofsEntry => Entry(proofs, victim)
      case R1PointA => Some(a)
      case R1PointB => Some(bb)
      case R1PointZ => Some(z)
      case _ => None)
    case Response(kGamma, kX, gamma, proofs) => (
      match f
      case R2KGammaMessage => MtaEntry(kGamma, victim)
      case R2KXMessage => MtaEntry(kX, victim)
      case R2Gamma => Some(gamma)
      case R2GammaProofsEntry => Entry(proofs, victim)
      case _ => None)
    case Delta(delta, point, proof) => (
      match f
      case R3Delta => Some(delta)
      case R3DeltaPoint => Some(point)
      case R3Proof => Some(proof)
      case _ => None)
    case Share(si) => if f == R4Si then Some(si) else None
  }

  function Write(b: Block, f: WireField, victim: Id, v: Buf): (r: Block)
    requires Read(b, f, victim).Some?
  {
    match f
    case R1MtaMessage => b.(mta := b.mta.(message := v))
    case R1MtaCommitment => b.(mta := b.mta.(commitment := v))
    case R1MtaProof => b.(mta := b.mta.(proof := v))
    case R1MtaProofsEntry => b.(mtaProofs := b.mtaProofs[victim := v])
    case R1PointA => b.(pointA := v)
    case R1PointB => b.(pointB := v)
    case R1PointZ => b.(pointZ := v)
    case R2KGammaMessage => b.(kGamma := b.kGamma[victim := b.kGamma[victim].(message := v)])
    case R2KXMessage => b.(kX := b.kX[victim := b.kX[victim].(message := v)])
    case R2Gamma => b.(pointGamma := v)
    case R2GammaProofsEntry => b.(gammaProofs := b.gammaProofs[victim := v])
    case R3Delta => b.(delta := v)
    case R3DeltaPoint => b.(pointDelta := v)
    case R3Proof => b.(proof := v)
    case R4Si => b.(si := v)
    case R2Ack => b
  }

  // ----- every buffer of a block, whether a field names it or not -----

  datatype Part = Message | Commitment | Proof

  /** An address within one block. */
  datatype Place =
    | InMta(part: Part) | InMtaProofs(id: Id) | AtPointA | AtPointB | AtPointZ
    | InKGamma(id: Id, part: Part) | InKX(id: Id, part: Part) | AtGamma | InGammaProofs(id: Id)
    | AtDelta | AtDeltaPoint | AtProof
    | AtSi

  function PartOf(m: Mta, part: Part): (v: Buf)
  {
    match part
    case Message => m.message
    case Commitment => m.commitment
    case Proof => m.proof
  }

  function PartAt(m: map<Id, Mta>, id: Id, part: Part): (r: Option<Buf>)
  {
    if id in m then Some(PartOf(m[id], part)) else None
  }

  /** The buffer at an address, if the block has it. */
  function Peek(b: Block, p: Place): (r: Option<Buf>)
  {
    match b
    case Request(mta, proofs, a, bb, z) => (
      match p
      case InMta(part) => Some(PartOf(mta, part))
      case InMtaProofs(id) => Entry(proofs, id)
      case AtPointA => Some(a)
      case AtPointB => Some(bb)
      case AtPointZ => Some(z)
      case _ => None)
    case Response(kGamma, kX, gamma, proofs) => (
      match p
      case InKGamma(id, part) => PartAt(kGamma, id, part)
      case InKX(id, part) => PartAt(kX, id, part)
      case AtGamma => Some(gamma)
      case InGammaProofs(id) => Entry(proofs, id)
      case _ => None)
    case Delta(delta, point, proof) => (
      match p
      case AtDelta => Some(delta)
      case AtDeltaPoint => Some(point)
      case AtProof => Some(proof)
      case _ => None)
    case Share(si) => if p == AtSi then Some(si) else None
  }

  /** The one address that a field names; the acknowledgement is in no block. */
  function PlaceOf(f: WireField, victim: Id): (r: Option<Place>)
  {
    match f
    case R1MtaMessage => Some(InMta(Message))
    case R1MtaCommitment => Some(InMta(Commitment))
    case R1MtaProof => Some(InMta(Proof))
    case R1MtaProofsEntry => Some(InMtaProofs(victim))
    case R1PointA => Some(AtPointA)
    case R1PointB => Some(AtPointB)
    case R1PointZ => Some(AtPointZ)
    case R2Ack => None
    case R2KGammaMessage => Some(InKGamma(victim, Message))
    case R2KXMessage => Some(InKX(victim, Message))
    case R2Gamma => Some(AtGamma)
    case R2GammaProofsEntry => Some(InGammaProofs(victim))
    case R3Delta => Some(AtDelta)
    case R3DeltaPoint => Some(AtDeltaPoint)
    case R3Proof => Some(AtProof)
    case R4Si => Some(AtSi)
  }

  lemma ReadIsPeek(b: Block, f: WireField, victim: Id)
    requires f != R2Ack
    ensures PlaceOf(f, victim).Some? && Read(b, f, victim) == Peek(b, PlaceOf(f, victim).value)
  {
  }

  /** A write replaces the buffer it names and no other one of the block. */
  lemma WriteFrame(b: Block, f: WireField, victim: Id, v: Buf, p: Place)
    requires Read(b, f, victim).Some? && f != R2Ack
    ensures Peek(Write(b, f, victim, v), p) == if PlaceOf(f, victim) == Some(p) then Some(v) else Peek(b, p)
  {
  }

  lemma SameMtas(m: map<Id, Mta>, n: map<Id, Mta>)
    requires forall id: Id, part :: PartAt(m, id, part) == PartAt(n, id, part)
    ensures m == n
  {
    forall id: Id ensures id in m <==> id in n { assert PartAt(m, id, Message) == PartAt(n, id, Message); }
    forall id | id in m ensures m[id] == n[id] {
      assert PartAt(m, id, Message) == PartAt(n, id, Message);
      assert PartAt(m, id, Commitment) == PartAt(n, id, Commitment);
      assert PartAt(m, id, Proof) == PartAt(n, id, Proof);
    }
  }

  lemma SameBufs(m: map<Id, Buf>, n: map<Id, Buf>)
    requires forall id: Id :: Entry(m, id) == Entry(n, id)
    ensures m == n
  {
    forall id: Id ensures id in m <==> id in n { assert Entry(m, id) == Entry(n, id); }
    forall id | id in m ensures m[id] == n[id] { assert Entry(m, id) == Entry(n, id); }
  }

  ghost predicate SamePlaces(a: Block, b: Block) { forall p :: Peek(a, p) == Peek(b, p) }

  /** The addresses leave nothing out: they determine the block. */
  lemma PlacesDetermine(a: Block, b: Block)
    requires SamePlaces(a, b)
    ensures a == b
  {
    assert forall p :: Peek(a, p) == Peek(b, p);
    match a
    case Request(mta, proofs, _, _, _) =>
      assert Peek(b, AtPointA) == Some(a.pointA) && Peek(b, AtPointB) == Some(a.pointB)
        && Peek(b, AtPointZ) == Some(a.pointZ);
      assert Peek(b, InMta(Message)) == Some(mta.message) && Peek(b, InMta(Commitment)) == Some(mta.commitment);
      assert Peek(b, InMta(Proof)) == Some(mta.proof);
      forall id: Id ensures Entry(proofs, id) == Entry(b.mtaProofs, id) {
        assert Peek(a, InMtaProofs(id)) == Peek(b, InMtaProofs(id));
      }
      SameBufs(proofs, b.mtaProofs);
    case Response(kGamma, kX, gamma, proofs) =>
      assert Peek(b, AtGamma) == Some(gamma);
      forall id: Id, part ensures PartAt(kGamma, id, part) == PartAt(b.kGamma, id, part) {
        assert Peek(a, InKGamma(id, part)) == Peek(b, InKGamma(id, part));
      }
      forall id: Id, part ensures PartAt(kX, id, part) == PartAt(b.kX, id, part) {
        assert Peek(a, InKX(id, part)) == Peek(b, InKX(id, part));
      }
      forall id: Id ensures Entry(proofs, id) == Entry(b.gammaProofs, id) {
        assert Peek(a, InGammaProofs(id)) == Peek(b, InGammaProofs(id));
      }
      SameMtas(kGamma, b.kGamma);
      SameMtas(kX, b.kX);
      SameBufs(proofs, b.gammaProofs);
    case Delta(delta, point, proof) =>
      assert Peek(b, AtDelta) == Some(delta) && Peek(b, AtDeltaPoint) == Some(point) && Peek(b, AtProof) == Some(proof);
    case Share(si) =>
      assert Peek(b, AtSi) == Some(si);
  }

  lemma WriteSame(b: Block, f: WireField, victim: Id)
    requires Read(b, f, victim).Some?
    ensures Write(b, f, victim, Read(b, f, victim).value) == b
  {
  }

  // ----- one mutation -----

  function RoundOf(f: WireField): (r: nat)
  {
    match f
    case R1MtaMessage => 1 case R1MtaCommitment => 1 case R1MtaProof => 1 case R1MtaProofsEntry => 1
    case R1PointA => 1 case R1PointB => 1 case R1PointZ => 1
    case R2Ack => 2 case R2KGammaMessage => 2 case R2KXMessage => 2 case R2Gamma => 2 case R2GammaProofsEntry => 2
    case R3Delta => 3 case R3DeltaPoint => 3 case R3Proof => 3
    case R4Si => 4
  }

  /** The buffer that the mutation targets, if it exists. */
  function Target(m: Mutation, msgs: Messages, victim: Id): (r: Option<Buf>)
  {
    if m.attacker !in msgs then None
    else if m.field == R2Ack then Some(msgs[m.attacker].ack)
    else if m.block >= |msgs[m.attacker].blocks| then None
    else Read(msgs[m.attacker].blocks[m.block], m.field, victim)
  }

  function Replace(m: Mutation, msgs: Messages, victim: Id, v: Buf): (r: Messages)
    requires Target(m, msgs, victim).Some?
  {
    var o := msgs[m.attacker];
    if m.field == R2Ack then msgs[m.attacker := o.(ack := v)]
    else msgs[m.attacker := o.(blocks := o.blocks[m.block := Write(o.blocks[m.block], m.field, victim, v)])]
  }

  /** apply_r1 .. apply_r4, without the extra map key. */
  function Apply(round: nat, m: Mutation, msgs: Messages, victim: Id): (r: (bool, Messages))
  {
    if m.round != round || m.round == 0 || m.op == NoOp || RoundOf(m.field) != round then (false, msgs)
    else match Target(m, msgs, victim)
      case None => (false, msgs)
      case Some(v) =>
        match Mutate(m, v)
        case None => (false, msgs)
        case Some(w) => (true, Replace(m, msgs, victim, w))
  }

  class Wire {
    var messages: Messages

    constructor (msgs: Messages)
      ensures messages == msgs
    {
      messages := msgs;
    }

    method ApplyRound(round: nat, m: Mutation, victim: Id) returns (ok: bool)
      modifies this
      ensures (ok, messages) == Apply(round, m, old(messages), victim)
      ensures !ok ==> messages == old(messages)
    {
      if m.round != round || m.round == 0 || m.op == NoOp { return false; }
      if m.attacker !in messages || RoundOf(m.field) != round { return false; }
      var o := messages[m.attacker];
      if m.field == R2Ack {
        var r := Mutate(m, o.ack);
        if r.None? { return false; }
        messages := messages[m.attacker := o.(ack := r.value)];
        return true;
      }
      if m.block >= |o.blocks| { return false; }
      var v := Read(o.blocks[m.block], m.field, victim);
      if v.None? { return false; }
      var w := Mutate(m, v.value);
      if w.None? { return false; }
      messages := messages[m.attacker :=
        o.(blocks := o.blocks[m.block := Write(o.blocks[m.block], m.field, victim, w.value)])];
      ok := true;
    }

    method ApplyFourth(m: Mutation, victim: Id, players: seq<Id>, signers: seq<Id>) returns (ok: bool)
      modifies this
      ensures (ok, messages) == ApplyR4(m, old(messages), victim, players, signers)
    {
      if m.round != 4 || m.op != ExtraMapKey || m.field != R4Si {
        ok := ApplyRound(4, m, victim);
        return;
      }
      hide Difference, Sort;
      var sorted := Sort(IdLeq(), players);
      var nonSigners := SetDifference(sorted, Sort(IdLeq(), signers));
      if nonSigners == [] { return false; }
      var extra := nonSigners[0];
      ChooseSpec(players, signers);
      assert extra in multiset(sorted);
      if extra !in sorted || extra in messages { return false; }
      messages := messages[extra := ZeroShare()];
      ok := true;
    }
  }

  // ----- the frame -----

  /** An address of any buffer in the messages. */
  datatype Slot = AckSlot(who: Id) | BlockSlot(who: Id, block: nat, place: Place)

  function Get(msgs: Messages, s: Slot): (r: Option<Buf>)
  {
    if s.who !in msgs then None
    else match s
      case AckSlot(who) => Some(msgs[who].ack)
      case BlockSlot(who, block, place) =>
        if block < |msgs[who].blocks| then Peek(msgs[who].blocks[block], place) else None
  }

  /** The one buffer that a mutation names. */
  function Named(m: Mutation, victim: Id): (s: Slot)
  {
    match PlaceOf(m.field, victim)
    case None => AckSlot(m.attacker)
    case Some(place) => BlockSlot(m.attacker, m.block, place)
  }

  lemma ReplaceFrame(m: Mutation, msgs: Messages, victim: Id, v: Buf, s: Slot)
    requires Target(m, msgs, victim).Some?
    ensures Get(Replace(m, msgs, victim, v), s) == if s == Named(m, victim) then Some(v) else Get(msgs, s)
  {
    hide Read, Write, Peek, PlaceOf;
    OnlyAckIsOutside(m.field, victim);
    if m.field != R2Ack && s.BlockSlot? {
      WriteFrame(msgs[m.attacker].blocks[m.block], m.field, victim, v, s.place);
    }
  }

  lemma OnlyAckIsOutside(f: WireField, victim: Id)
    ensures PlaceOf(f, victim).None? <==> f == R2Ack
  {
  }

  /** The addresses leave nothing out: with the senders and the number of blocks
      they determine all messages. */
  lemma SlotsDetermine(msgs: Messages, msgs': Messages)
    requires msgs.Keys == msgs'.Keys && forall who :: who in msgs ==> |msgs[who].blocks| == |msgs'[who].blocks|
    requires forall s :: Get(msgs, s) == Get(msgs', s)
    ensures msgs == msgs'
  {
    hide Peek;
    forall who | who in msgs ensures msgs[who] == msgs'[who] {
      assert Get(msgs, AckSlot(who)) == Get(msgs', AckSlot(who));
      var xs, ys := msgs[who].blocks, msgs'[who].blocks;
      forall i | 0 <= i < |xs| ensures xs[i] == ys[i] {
        forall p ensures Peek(xs[i], p) == Peek(ys[i], p) {
          assert Get(msgs, BlockSlot(who, i, p)) == Get(msgs', BlockSlot(who, i, p));
        }
        PlacesDetermine(xs[i], ys[i]);
      }
    }
  }

  /** A false result leaves every message as it was; a true result changes the
      one buffer that the mutation names, to the mutated value, and no other
      buffer, sender or number of blocks. */
  lemma ApplyFrame(round: nat, m: Mutation, msgs: Messages, victim: Id)
    ensures var (ok, after) := Apply(round, m, msgs, victim);
      && (!ok ==> after == msgs)
      && after.Keys == msgs.Keys && (forall who :: who in msgs ==> |after[who].blocks| == |msgs[who].blocks|)
      && (forall s :: s != Named(m, victim) ==> Get(after, s) == Get(msgs, s))
      && (ok ==> Get(msgs, Named(m, victim)).Some?)
      && (ok ==> Get(after, Named(m, victim)) == Mutate(m, Get(msgs, Named(m, victim)).value))
  {
    hide Read, Write, Mutate, Named, Get;
    var (ok, after) := Apply(round, m, msgs, victim);
    if ok {
      TargetIsSlot(m, msgs, victim);
      var w := Mutate(m, Target(m, msgs, victim).value).value;
      forall s ensures Get(after, s) == if s == Named(m, victim) then Some(w) else Get(msgs, s) {
        ReplaceFrame(m, msgs, victim, w, s);
      }
    }
  }

  lemma TargetIsSlot(m: Mutation, msgs: Messages, victim: Id)
    ensures Get(msgs, Named(m, victim)) == Target(m, msgs, victim)
  {
    hide Read, Peek, PlaceOf;
    OnlyAckIsOutside(m.field, victim);
    if m.field != R2Ack && m.attacker in msgs && m.block < |msgs[m.attacker].blocks| {
      ReadIsPeek(msgs[m.attacker].blocks[m.block], m.field, victim);
    }
  }

  lemma ReplaceSame(m: Mutation, msgs: Messages, victim: Id)
    requires Target(m, msgs, victim).Some?
    ensures Replace(m, msgs, victim, Target(m, msgs, victim).value) == msgs
  {
    hide Read, Write;
    var o := msgs[m.attacker];
    if m.field != R2Ack {
      WriteSame(o.blocks[m.block], m.field, victim);
      assert o.blocks[m.block := o.blocks[m.block]] == o.blocks;
    }
    assert msgs[m.attacker := o] == msgs;
  }

  /** A mutation reported as applied changed the messages, unless it zeroed a
      buffer that was all zeros: that one is reported too. */
  lemma AppliedChangesIff(round: nat, m: Mutation, msgs: Messages, victim: Id)
    requires Apply(round, m, msgs, victim).0
    ensures Apply(round, m, msgs, victim).1 != msgs <==> !(m.op == ZeroOut && AllZero(Target(m, msgs, victim).value))
  {
    hide Read, Write, Mutate, AllZero, FixedSize, Replace, Target, RoundOf, Named, Get;
    ApplyFrame(round, m, msgs, victim);
    TargetIsSlot(m, msgs, victim);
    TargetIsSlot(m, Apply(round, m, msgs, victim).1, victim);
    var v := Target(m, msgs, victim).value;
    MutateChangesIff(m, v);
    ReplaceSame(m, msgs, victim);
  }

  function ZeroShare(): Outbound { Outbound([], [Share(Zeros(SCALAR_BYTES))]) }

  lemma ZeroingZerosIsReported()
    ensures Apply(4, Mutation(4, 1, R4Si, ZeroOut, 0, 0, 0), map[1 := ZeroShare()], 0) == (true, map[1 := ZeroShare()])
  {
    hide Zeros;
    var msgs := map[1 := ZeroShare()];
    var m := Mutation(4, 1, R4Si, ZeroOut, 0, 0, 0);
    assert Target(m, msgs, 0) == Some(Zeros(SCALAR_BYTES));
    assert AllZero(Zeros(SCALAR_BYTES));
    AppliedChangesIff(4, m, msgs, 0);
  }

  // ----- the extra map key of round 4 -----

  /** `std::set_difference` on sorted ranges. */
  function Difference(xs: seq<Id>, ys: seq<Id>): (r: seq<Id>)
    decreases |xs| + |ys|
  {
    if xs == [] || ys == [] then xs
    else if xs[0] < ys[0] then [xs[0]] + Difference(xs[1..], ys)
    else if ys[0] < xs[0] then Difference(xs, ys[1..])
    else Difference(xs[1..], ys[1..])
  }

  lemma DifferenceAt(xs: seq<Id>, ys: seq<Id>, i: nat, j: nat)
    requires i < |xs| && j < |ys|
    ensures Difference(xs[i..], ys[j..]) ==
      if xs[i] < ys[j] then [xs[i]] + Difference(xs[i + 1..], ys[j..])
      else if ys[j] < xs[i] then Difference(xs[i..], ys[j + 1..])
      else Difference(xs[i + 1..], ys[j + 1..])
  {
    assert xs[i..][1..] == xs[i + 1..] && ys[j..][1..] == ys[j + 1..];
  }

  lemma DifferenceEnds(xs: seq<Id>, ys: seq<Id>)
    requires xs == [] || ys == []
    ensures Difference(xs, ys) == xs
  {
  }

  method SetDifference(xs: seq<Id>, ys: seq<Id>) returns (r: seq<Id>)
    ensures r == Difference(xs, ys)
  {
    hide Difference;
    r := [];
    var i, j := 0, 0;
    assert xs[0..] == xs && ys[0..] == ys;
    while i < |xs| && j < |ys|
      invariant 0 <= i <= |xs| && 0 <= j <= |ys|
      invariant Difference(xs, ys) == r + Difference(xs[i..], ys[j..])
    {
      DifferenceAt(xs, ys, i, j);
      if xs[i] < ys[j] {
        r, i := r + [xs[i]], i + 1;
      } else {
        if xs[i] <= ys[j] { i := i + 1; }
        j := j + 1;
      }
    }
    DifferenceEnds(xs[i..], ys[j..]);
    r := r + xs[i..];
  }

  function IdLeq(): (Id, Id) -> bool { (x: Id, y: Id) => x <= y }

  function Excess(xs: seq<Id>, ys: seq<Id>, x: Id): (n: nat)
  {
    if multiset(xs)[x] > multiset(ys)[x] then multiset(xs)[x] - multiset(ys)[x] else 0
  }

  lemma TailCount(xs: seq<Id>, x: Id)
    requires xs != []
    ensures multiset(xs)[x] == multiset(xs[1..])[x] + if x == xs[0] then 1 else 0
    ensures x in xs <==> multiset(xs)[x] > 0
  {
    assert xs == [xs[0]] + xs[1..];
  }

  lemma {:induction false} AbsentBelow(xs: seq<Id>, x: Id)
    requires Sorted(IdLeq(), xs) && (xs == [] || x < xs[0])
    ensures multiset(xs)[x] == 0
  {
    if xs != [] {
      TailCount(xs, x);
      assert |xs| > 1 ==> IdLeq()(xs[0], xs[1]);
      AbsentBelow(xs[1..], x);
    }
  }

  /** The difference counts occurrences. */
  lemma {:induction false} DifferenceCounts(xs: seq<Id>, ys: seq<Id>, x: Id)
    requires Sorted(IdLeq(), xs) && Sorted(IdLeq(), ys)
    ensures multiset(Difference(xs, ys))[x] == Excess(xs, ys, x)
    decreases |xs| + |ys|
  {
    if xs != [] && ys != [] {
      TailCount(xs, x);
      TailCount(ys, x);
      if xs[0] < ys[0] {
        DifferenceCounts(xs[1..], ys, x);
        if x == xs[0] { AbsentBelow(ys, x); }
      } else if ys[0] < xs[0] {
        DifferenceCounts(xs, ys[1..], x);
        if x == ys[0] { AbsentBelow(xs, x); }
      } else {
        DifferenceCounts(xs[1..], ys[1..], x);
      }
    }
  }

  ghost predicate AtLeast(n: Id, xs: seq<Id>) { forall k :: 0 <= k < |xs| ==> n <= xs[k] }

  lemma SortedTail(xs: seq<Id>)
    requires Sorted(IdLeq(), xs) && xs != []
    ensures Sorted(IdLeq(), xs[1..]) && AtLeast(xs[0], xs) && (|xs| > 1 ==> xs[0] <= xs[1..][0])
  {
    forall k | 0 <= k < |xs| ensures xs[0] <= xs[k] { assert k == 0 || IdLeq()(xs[0], xs[k]); }
  }

  /** Its front is its least element. */
  lemma {:induction false} DifferenceFront(xs: seq<Id>, ys: seq<Id>)
    requires Sorted(IdLeq(), xs)
    ensures xs == [] ==> Difference(xs, ys) == []
    ensures xs != [] ==> AtLeast(xs[0], Difference(xs, ys))
    ensures Difference(xs, ys) != [] ==> AtLeast(Difference(xs, ys)[0], Difference(xs, ys))
    decreases |xs| + |ys|
  {
    hide Sorted, IdLeq;
    if xs != [] {
      SortedTail(xs);
      if ys == [] {
      } else if xs[0] < ys[0] {
        DifferenceFront(xs[1..], ys);
      } else if ys[0] < xs[0] {
        DifferenceFront(xs, ys[1..]);
      } else {
        DifferenceFront(xs[1..], ys[1..]);
      }
    }
  }

  /** The id that the extra entry is attributed to. */
  function Choose(players: seq<Id>, signers: seq<Id>): (r: Option<Id>)
  {
    var rest := Difference(Sort(IdLeq(), players), Sort(IdLeq(), signers));
    if rest == [] then None else Some(rest[0])
  }

  /** The least id that occurs more often among the players than among the
      signers, if there is one. */
  lemma ChooseSpec(players: seq<Id>, signers: seq<Id>)
    ensures Choose(players, signers).None? <==> forall x :: Excess(players, signers, x) == 0
    ensures Choose(players, signers).Some? ==>
      var c := Choose(players, signers).value;
      c in players && Excess(players, signers, c) > 0 && forall x :: Excess(players, signers, x) > 0 ==> c <= x
  {
    hide Difference, Sort;
    var xs, ys := Sort(IdLeq(), players), Sort(IdLeq(), signers);
    SortSorts(IdLeq(), players);
    SortSorts(IdLeq(), signers);
    var rest := Difference(xs, ys);
    forall x ensures x in rest <==> Excess(players, signers, x) > 0 {
      DifferenceCounts(xs, ys, x);
      assert x in rest <==> multiset(rest)[x] > 0;
    }
    DifferenceFront(xs, ys);
    if rest != [] {
      assert rest[0] in rest;
      assert rest[0] in multiset(players);
    }
  }

  predicate NonSigner(players: seq<Id>, signers: seq<Id>, x: Id) { x in players && x !in signers }

  /** The chosen player does not sign exactly when every signer listed more
      often among the players than among the signers is above some player that
      does not sign. */
  lemma ChosenIsNonSignerIff(players: seq<Id>, signers: seq<Id>)
    requires Choose(players, signers).Some?
    ensures NonSigner(players, signers, Choose(players, signers).value) <==>
      forall s :: s in signers && Excess(players, signers, s) > 0 ==>
        exists x :: NonSigner(players, signers, x) && x < s
  {
    hide Choose;
    ChooseSpec(players, signers);
    var c := Choose(players, signers).value;
    forall x | NonSigner(players, signers, x) ensures Excess(players, signers, x) > 0 {
      assert x in multiset(players) && x !in multiset(signers);
    }
  }

  /** With distinct player ids the promise holds: the least player that does
      not sign, and none exactly when all players sign. */
  lemma DistinctPlayersChoose(players: seq<Id>, signers: seq<Id>)
    requires Distinct(players)
    ensures Choose(players, signers).None? <==> forall x :: x in players ==> x in signers
    ensures Choose(players, signers).Some? ==>
      var c := Choose(players, signers).value;
      NonSigner(players, signers, c) && forall x :: NonSigner(players, signers, x) ==> c <= x
  {
    hide Choose;
    ChooseSpec(players, signers);
    DistinctMultiplicity(players);
    forall x ensures Excess(players, signers, x) > 0 <==> NonSigner(players, signers, x) {
      assert x in multiset(players) <==> x in players;
      assert x in multiset(signers) <==> x in signers;
    }
    forall x | x in players && x !in signers ensures Excess(players, signers, x) > 0 {
      assert NonSigner(players, signers, x);
    }
    if forall x :: x in players ==> x in signers {
      forall x ensures Excess(players, signers, x) == 0 { assert !NonSigner(players, signers, x); }
    }
  }

  /** apply_r4. */
  function ApplyR4(m: Mutation, msgs: Messages, victim: Id, players: seq<Id>, signers: seq<Id>): (r: (bool, Messages))
  {
    if m.round != 4 || m.op != ExtraMapKey || m.field != R4Si then Apply(4, m, msgs, victim)
    else match Choose(players, signers)
      case None => (false, msgs)
      case Some(c) => if c in msgs then (false, msgs) else (true, msgs[c := ZeroShare()])
  }

  predicate IsExtraKey(m: Mutation) { m.round == 4 && m.op == ExtraMapKey && m.field == R4Si }

  predicate OneZeroScalar(o: Outbound)
  {
    |o.blocks| == 1 && o.blocks[0].Share? && |o.blocks[0].si| == SCALAR_BYTES && AllZero(o.blocks[0].si)
  }

  /** The least id that is listed more often as a player than as a signer. */
  ghost predicate LeastLeftOver(players: seq<Id>, signers: seq<Id>, c: Id)
  {
    Excess(players, signers, c) > 0 && forall x :: Excess(players, signers, x) > 0 ==> c <= x
  }

  ghost predicate LeastNonSigner(players: seq<Id>, signers: seq<Id>, c: Id)
  {
    NonSigner(players, signers, c) && forall x :: NonSigner(players, signers, x) ==> c <= x
  }

  lemma ChosenIff(players: seq<Id>, signers: seq<Id>, c: Id)
    ensures Choose(players, signers) == Some(c) <==> LeastLeftOver(players, signers, c)
  {
    hide Choose;
    ChooseSpec(players, signers);
  }

  /** For all lists of players: the extra key applies exactly when some id is
      left over and the least one has no entry; then it adds one zero scalar for
      that id and every existing entry stays as it was. */
  lemma ExtraKeyFrame(m: Mutation, msgs: Messages, victim: Id, players: seq<Id>, signers: seq<Id>)
    requires IsExtraKey(m)
    ensures var (ok, after) := ApplyR4(m, msgs, victim, players, signers);
      && (ok <==> exists c :: LeastLeftOver(players, signers, c) && c !in msgs)
      && (!ok ==> after == msgs)
      && (ok ==> |after| == |msgs| + 1 && forall k :: k in msgs ==> k in after && after[k] == msgs[k])
      && (ok ==> forall k :: k in after && k !in msgs ==> LeastLeftOver(players, signers, k) && OneZeroScalar(after[k]))
  {
    hide Choose, LeastLeftOver;
    forall c: Id ensures Choose(players, signers) == Some(c) <==> LeastLeftOver(players, signers, c) {
      ChosenIff(players, signers, c);
    }
    var (ok, after) := ApplyR4(m, msgs, victim, players, signers);
    if ok {
      var c := Choose(players, signers).value;
      assert after.Keys == msgs.Keys + {c};
    }
  }

  ghost predicate AddsSigner(m: Mutation, msgs: Messages, victim: Id, players: seq<Id>, signers: seq<Id>)
  {
    var (ok, after) := ApplyR4(m, msgs, victim, players, signers);
    ok && exists k :: k in after && k !in msgs && k in signers
  }

  /** An entry is added for a signer exactly when the least id left over is a
      signer that has no entry yet. */
  lemma ExtraKeyNamesSignerIff(m: Mutation, msgs: Messages, victim: Id, players: seq<Id>, signers: seq<Id>)
    requires IsExtraKey(m)
    ensures AddsSigner(m, msgs, victim, players, signers) <==>
      exists c :: LeastLeftOver(players, signers, c) && c in signers && c !in msgs
  {
    hide Choose, LeastLeftOver, OneZeroScalar;
    forall c: Id ensures Choose(players, signers) == Some(c) <==> LeastLeftOver(players, signers, c) {
      ChosenIff(players, signers, c);
    }
    var (ok, after) := ApplyR4(m, msgs, victim, players, signers);
    if ok {
      var c := Choose(players, signers).value;
      assert after.Keys == msgs.Keys + {c};
    }
  }

  /** The driver's maps hold an entry for every signer, and so the promise
      holds there whatever the players are: what is added does not sign. */
  lemma ExtraKeyNeverASigner(m: Mutation, msgs: Messages, victim: Id, players: seq<Id>, signers: seq<Id>)
    requires IsExtraKey(m) && forall s :: s in signers ==> s in msgs
    ensures var (ok, after) := ApplyR4(m, msgs, victim, players, signers);
      forall k :: k in after && k !in msgs ==> NonSigner(players, signers, k)
  {
    hide Choose;
    ChooseSpec(players, signers);
  }

  /** With distinct player ids it holds for every map: the entry added is that
      of the least player that does not sign. */
  lemma DistinctPlayersExtraKey(m: Mutation, msgs: Messages, victim: Id, players: seq<Id>, signers: seq<Id>)
    requires IsExtraKey(m) && Distinct(players)
    ensures var (ok, after) := ApplyR4(m, msgs, victim, players, signers);
      && (ok <==> exists c :: LeastNonSigner(players, signers, c) && c !in msgs)
      && forall k :: k in after && k !in msgs ==> LeastNonSigner(players, signers, k)
  {
    hide Choose;
    DistinctPlayersChoose(players, signers);
    if Choose(players, signers).Some? {
      assert LeastNonSigner(players, signers, Choose(players, signers).value);
    }
  }

  /** A player listed twice, and a map without the signer's entry: the extra
      key is given to the signer itself. */
  lemma RepeatedPlayerAddsSigner(victim: Id)
    ensures var m := Mutation(4, 1, R4Si, ExtraMapKey, 0, 0, 0);
      && ApplyR4(m, map[2 := ZeroShare()], victim, [1, 1], [1]) == (true, map[2 := ZeroShare(), 1 := ZeroShare()])
      && AddsSigner(m, map[2 := ZeroShare()], victim, [1, 1], [1])
  {
    hide Choose, Zeros;
    ChooseSpec([1, 1], [1]);
    assert multiset([1, 1]) == multiset{1, 1} && multiset([1]) == multiset{1};
    assert Excess([1, 1], [1], 1) == 1;
    assert Choose([1, 1], [1]) == Some(1);
    var msgs := map[2 := ZeroShare()];
    assert msgs[1 := ZeroShare()] == map[2 := ZeroShare(), 1 := ZeroShare()];
    assert 1 in msgs[1 := ZeroShare()] && 1 !in msgs && 1 in [1];
  }
}
