/** What each mutation does to its buffer, and exactly when one is applied
    (harness/cmp_ecdsa_online/src/mutators.cpp). */
module MutatorLaws {
  import opened Sequences
  import opened Mutators

  function BitAt(x: bv8, k: bv8): bv8
    requires k < 8
  {
    (x >> k) & 1
  }

  /** Exactly the bit whose number is the low three bits of `bit` changes. */
  lemma ToggledBit(x: bv8, bit: bv8, k: bv8)
    requires k < 8
    ensures BitAt(Toggle(x, bit), k) == if k == bit & 7 then 1 - BitAt(x, k) else BitAt(x, k)
  {
  }

  /** The three operations on a buffer, and their refusals. */
  lemma MutateMeans(m: Mutation, v: Buf)
    ensures Mutate(m, v).Some? <==>
      v != [] && (m.op == FlipBit || m.op == ZeroOut || (m.op == Truncate && !FixedSize(m.field)))
    ensures Mutate(m, v).Some? && m.op == Truncate ==>
      Mutate(m, v).value <= v && |Mutate(m, v).value| == m.byteIndex % |v|
    ensures Mutate(m, v).Some? && m.op == ZeroOut ==> |Mutate(m, v).value| == |v| && AllZero(Mutate(m, v).value)
    ensures Mutate(m, v).Some? && m.op == FlipBit ==>
      var w := Mutate(m, v).value;
      && |w| == |v| && w[m.byteIndex % |v|] == Toggle(v[m.byteIndex % |v|], m.bit)
      && forall i :: 0 <= i < |v| && i != m.byteIndex % |v| ==> w[i] == v[i]
  {
    hide Toggle, FixedSize;
  }

  /** The fields whose size cannot change: points, scalars, the acknowledgement. */
  lemma FixedFields(f: WireField)
    ensures FixedSize(f) <==>
      f.R1PointA? || f.R1PointB? || f.R1PointZ? || f.R2Ack? || f.R2Gamma? || f.R3Delta? || f.R3DeltaPoint? || f.R4Si?
  {
  }

  /** The round in which a block of this kind is sent. */
  function RoundOfBlock(b: Block): (n: nat)
  {
    match b
    case Request(_, _, _, _, _) => 1
    case Response(_, _, _, _) => 2
    case Delta(_, _, _) => 3
    case Share(_) => 4
  }

  /** A field is read in the blocks of its own round only. */
  lemma FieldsOfTheirRound(b: Block, f: WireField, victim: Id)
    ensures Read(b, f, victim).Some? ==> RoundOf(f) == RoundOfBlock(b)
    ensures RoundOf(R2Ack) == 2
  {
  }

  /** A mutation is applied exactly when it is meant for the round, names a field
      of the round, its one buffer exists and is not empty, and the operation is
      one that the field takes. */
  lemma AppliedIff(round: nat, m: Mutation, msgs: Messages, victim: Id)
    ensures Apply(round, m, msgs, victim).0 <==>
      && m.round == round && round != 0 && RoundOf(m.field) == round
      && Get(msgs, Named(m, victim)).Some? && Get(msgs, Named(m, victim)).value != []
      && (m.op == FlipBit || m.op == ZeroOut || (m.op == Truncate && !FixedSize(m.field)))
  {
    hide Mutate, Get, Named, FixedSize, RoundOf, Target, Replace;
    TargetIsSlot(m, msgs, victim);
    if Target(m, msgs, victim).Some? { MutateMeans(m, Target(m, msgs, victim).value); }
  }

  /** In round 4 only the extra key on the scalar field adds anything: every other
      mutation keeps the set of senders, and the operation is refused on every
      other field and in every other round. */
  lemma OnlyTheExtraKeyAdds(m: Mutation, msgs: Messages, victim: Id, players: seq<Id>, signers: seq<Id>)
    requires !(m.round == 4 && m.op == ExtraMapKey && m.field == R4Si)
    ensures var (ok, after) := ApplyR4(m, msgs, victim, players, signers);
      after.Keys == msgs.Keys && (m.op == ExtraMapKey ==> !ok && after == msgs)
  {
    hide Choose, Apply, Get, Named, Mutate;
    ApplyFrame(4, m, msgs, victim);
    AppliedIff(4, m, msgs, victim);
  }
}
