/** The snapshot file byte by byte (harness/cmp_ecdsa_online/src/snapshot.cpp):
    the order of its parts, and the bytes of its words. */
module SnapshotLayout {
  import opened Sequences
  import opened Arithmetic
  import opened Snapshot
  import opened SnapshotIO

  /** Most significant byte first. */
  function BigEndian(v: nat, width: nat): (b: Bytes)
  {
    seq<Byte>(width, k requires 0 <= k < width => ByteAt(v, width - 1 - k))
  }

  /** A length and then the bytes; the length has 32 bits. */
  function Sized(v: Bytes): (b: Bytes) { BigEndian(|v| % WORD32, 4) + v }

  lemma WordIsBigEndian(v: nat, width: nat)
    ensures Word(v, width) == BigEndian(v, width)
  {
    forall k | 0 <= k < width ensures Word(v, width)[k] == BigEndian(v, width)[k] { WordBytes(v, width, k); }
  }

  lemma BlobIsSized(v: Bytes)
    ensures PutBlob(v) == Sized(v)
  {
    hide BigEndian, Word;
    WordIsBigEndian(|v| % WORD32, 4);
  }

  function PlayerBytes(p: Player): (b: Bytes)
  {
    BigEndian(p.id, 8) + Sized(p.share) + Sized(p.publicShare) + Sized(p.paillierPub) + Sized(p.paillierPriv)
    + Sized(p.rpPub) + Sized(p.rpPriv)
  }

  function AllPlayerBytes(ps: seq<Player>): (b: Bytes)
  {
    if ps == [] then [] else PlayerBytes(ps[0]) + AllPlayerBytes(ps[1..])
  }

  lemma BlobsStep(vs: seq<Bytes>, v: Bytes)
    ensures PutBlobs([v] + vs) == Sized(v) + PutBlobs(vs)
  {
    hide PutBlob, Sized;
    BlobIsSized(v);
    assert ([v] + vs)[0] == v && ([v] + vs)[1..] == vs;
  }

  lemma PlayerIsBytes(p: Player)
    ensures PutPlayer(p) == PlayerBytes(p)
  {
    hide PutBlobs, Sized, Word, BigEndian;
    WordIsBigEndian(p.id, 8);
    BlobsStep([p.publicShare, p.paillierPub, p.paillierPriv, p.rpPub, p.rpPriv], p.share);
    BlobsStep([p.paillierPub, p.paillierPriv, p.rpPub, p.rpPriv], p.publicShare);
    BlobsStep([p.paillierPriv, p.rpPub, p.rpPriv], p.paillierPub);
    BlobsStep([p.rpPub, p.rpPriv], p.paillierPriv);
    BlobsStep([p.rpPriv], p.rpPub);
    BlobsStep([], p.rpPriv);
    NoBlobs();
    SixFields(p);
  }

  lemma NoBlobs()
    ensures PutBlobs([]) == []
  {
  }

  lemma SixFields(p: Player)
    ensures Fields(p) == [p.share] + [p.publicShare, p.paillierPub, p.paillierPriv, p.rpPub, p.rpPriv]
    ensures [p.publicShare] + [p.paillierPub, p.paillierPriv, p.rpPub, p.rpPriv]
      == [p.publicShare, p.paillierPub, p.paillierPriv, p.rpPub, p.rpPriv]
    ensures [p.paillierPub] + [p.paillierPriv, p.rpPub, p.rpPriv] == [p.paillierPub, p.paillierPriv, p.rpPub, p.rpPriv]
    ensures [p.paillierPriv] + [p.rpPub, p.rpPriv] == [p.paillierPriv, p.rpPub, p.rpPriv]
    ensures [p.rpPub] + [p.rpPriv] == [p.rpPub, p.rpPriv] && [p.rpPriv] + [] == [p.rpPriv]
  {
  }

  lemma {:induction false} PlayersAreBytes(ps: seq<Player>)
    ensures PutPlayers(ps) == AllPlayerBytes(ps)
  {
    hide PutPlayer, PlayerBytes;
    if ps != [] {
      PlayerIsBytes(ps[0]);
      PlayersAreBytes(ps[1..]);
    }
  }

  /** The whole file: magic, format 1, algorithm, key, seed, the two threshold
      words, the number of players, and the players. */
  lemma FileLayout(s: Snapshot)
    ensures Encode(s) ==
      [79, 67, 77, 80, 83, 78, 65, 80] + BigEndian(1, 4) + BigEndian(s.algorithm, 4)
      + Sized(s.publicKey) + Sized(s.seed) + BigEndian(s.t, 4) + BigEndian(s.n, 4)
      + BigEndian(|s.players| % WORD32, 4) + AllPlayerBytes(s.players)
  {
    hide PutBlob, Sized, Word, BigEndian, PutPlayers, AllPlayerBytes;
    WordIsBigEndian(1, 4);
    WordIsBigEndian(s.algorithm, 4);
    WordIsBigEndian(s.t, 4);
    WordIsBigEndian(s.n, 4);
    WordIsBigEndian(|s.players| % WORD32, 4);
    BlobIsSized(s.publicKey);
    BlobIsSized(s.seed);
    PlayersAreBytes(s.players);
  }
}
