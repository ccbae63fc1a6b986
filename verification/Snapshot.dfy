/** The snapshot codec (harness/cmp_ecdsa_online/src/snapshot.cpp): big-endian
    words and length-prefixed blobs, a reader with a sticky failure flag, and
    32-bit threshold words that are narrowed to 8 bits when read. */
module Snapshot {
  import opened Sequences
  import opened Arithmetic

  const WORD32 := 0x1_0000_0000
  const FORMAT_VERSION := 1
  const MAGIC: Bytes := [79, 67, 77, 80, 83, 78, 65, 80]

  datatype Player = Player(
    id: nat, share: Bytes, publicShare: Bytes, paillierPub: Bytes, paillierPriv: Bytes, rpPub: Bytes, rpPriv: Bytes)

  /** `t` and `n` are bytes in a snapshot and 32-bit words in a file. */
  datatype Snapshot = Snapshot(algorithm: nat, publicKey: Bytes, seed: Bytes, t: nat, n: nat, players: seq<Player>)

  // ----- words -----

  /** The low `width` bytes of `v`, most significant first. */
  function Word(v: nat, width: nat): (b: Bytes)
    ensures |b| == width
  {
    if width == 0 then [] else Word(v / 256, width - 1) + [v % 256]
  }

  function Value(b: Bytes): (v: nat)
  {
    if b == [] then 0 else Value(b[..|b| - 1]) * 256 + b[|b| - 1]
  }

  lemma {:induction false} ValueOfWord(v: nat, width: nat)
    requires v < Power256(width)
    ensures Value(Word(v, width)) == v
  {
    if width > 0 {
      ValueOfWord(v / 256, width - 1);
      assert Word(v, width)[..width - 1] == Word(v / 256, width - 1);
    }
  }

  lemma {:induction false} WordOfValue(b: Bytes)
    ensures Value(b) < Power256(|b|) && Word(Value(b), |b|) == b
  {
    if b != [] {
      WordOfValue(b[..|b| - 1]);
      assert b == b[..|b| - 1] + [b[|b| - 1]];
    }
  }

  lemma Widths()
    ensures Power256(4) == WORD32 && Power256(8) == WORD64
  {
    assert Power256(2) == 65536 && Power256(4) == 65536 * 65536;
    assert Power256(6) == Power256(4) * 65536;
  }

  // ----- writing -----

  function PutU32(v: nat): (b: Bytes) { Word(v, 4) }

  function PutU64(v: nat): (b: Bytes) { Word(v, 8) }

  /** The length is cast to 32 bits, so a longer blob loses its high bits. */
  function PutBlob(v: Bytes): (b: Bytes) { PutU32(|v| % WORD32) + v }

  function PutBlobs(vs: seq<Bytes>): (b: Bytes)
  {
    if vs == [] then [] else PutBlob(vs[0]) + PutBlobs(vs[1..])
  }

  function Fields(p: Player): (fs: seq<Bytes>)
  {
    [p.share, p.publicShare, p.paillierPub, p.paillierPriv, p.rpPub, p.rpPriv]
  }

  function PutPlayer(p: Player): (b: Bytes) { PutU64(p.id) + PutBlobs(Fields(p)) }

  function PutPlayers(ps: seq<Player>): (b: Bytes)
  {
    if ps == [] then [] else PutPlayer(ps[0]) + PutPlayers(ps[1..])
  }

  function PutHeader(s: Snapshot): (b: Bytes)
  {
    PutU32(s.algorithm) + (PutBlob(s.publicKey)
      + (PutBlob(s.seed) + (PutU32(s.t) + (PutU32(s.n) + PutU32(|s.players| % WORD32)))))
  }

  function Encode(s: Snapshot): (b: Bytes)
  {
    MAGIC + (PutU32(FORMAT_VERSION) + (PutHeader(s) + PutPlayers(s.players)))
  }

  // ----- reading, as a function of the remaining bytes -----

  function GetU32(b: Bytes): (r: Option<(nat, Bytes)>)
  {
    if |b| < 4 then None else Some((Value(b[..4]), b[4..]))
  }

  function GetU64(b: Bytes): (r: Option<(nat, Bytes)>)
  {
    if |b| < 8 then None else Some((Value(b[..8]), b[8..]))
  }

  function GetBlob(b: Bytes): (r: Option<(Bytes, Bytes)>)
  {
    match GetU32(b)
    case None => None
    case Some((n, rest)) => if |rest| < n then None else Some((rest[..n], rest[n..]))
  }

  function GetBlobs(b: Bytes, count: nat): (r: Option<(seq<Bytes>, Bytes)>)
    ensures r.Some? ==> |r.value.0| == count
  {
    if count == 0 then Some(([], b))
    else match GetBlob(b)
      case None => None
      case Some((v, rest)) =>
        match GetBlobs(rest, count - 1)
        case None => None
        case Some((vs, rest')) => Some(([v] + vs, rest'))
  }

  function GetPlayer(b: Bytes): (r: Option<(Player, Bytes)>)
  {
    match GetU64(b)
    case None => None
    case Some((id, rest)) =>
      match GetBlobs(rest, 6)
      case None => None
      case Some((vs, rest')) => Some((Player(id, vs[0], vs[1], vs[2], vs[3], vs[4], vs[5]), rest'))
  }

  function GetPlayers(b: Bytes, count: nat): (r: Option<(seq<Player>, Bytes)>)
    ensures r.Some? ==> |r.value.0| == count
    decreases count
  {
    if count == 0 then Some(([], b))
    else match GetPlayer(b)
      case None => None
      case Some((p, rest)) =>
        match GetPlayers(rest, count - 1)
        case None => None
        case Some((ps, rest')) => Some(([p] + ps, rest'))
  }

  /** Algorithm, key, seed, both threshold words and the player count. */
  datatype Header = Header(algorithm: nat, publicKey: Bytes, seed: Bytes, t: nat, n: nat, count: nat)

  function GetHeader(b: Bytes): (r: Option<(Header, Bytes)>)
  {
    match GetU32(b)
    case None => None
    case Some((algorithm, b1)) => match GetBlob(b1)
    case None => None
    case Some((key, b2)) => match GetBlob(b2)
    case None => None
    case Some((seed, b3)) => match GetU32(b3)
    case None => None
    case Some((t, b4)) => match GetU32(b4)
    case None => None
    case Some((n, b5)) => match GetU32(b5)
    case None => None
    case Some((count, b6)) => Some((Header(algorithm, key, seed, t, n, count), b6))
  }

  /** Everything after the format word, with `t` and `n` still as words. */
  function GetBody(b: Bytes): (r: Option<(Snapshot, Bytes)>)
  {
    match GetHeader(b)
    case None => None
    case Some((h, b')) =>
      match GetPlayers(b', h.count)
      case None => None
      case Some((players, rest)) => Some((Snapshot(h.algorithm, h.publicKey, h.seed, h.t, h.n, players), rest))
  }

  /** The words of an accepted file. */
  function DecodeWords(b: Bytes): (r: Option<Snapshot>)
  {
    if !(MAGIC <= b) then None
    else match GetU32(b[|MAGIC|..])
      case None => None
      case Some((format, rest)) =>
        if format != FORMAT_VERSION then None
        else match GetBody(rest)
          case None => None
          case Some((s, rest')) => if rest' == [] then Some(s) else None
  }

  function Narrow(s: Snapshot): (r: Snapshot) { s.(t := s.t % 256, n := s.n % 256) }

  /** What reading the file gives. */
  function Decode(b: Bytes): (r: Option<Snapshot>)
  {
    match DecodeWords(b)
    case None => None
    case Some(s) => Some(Narrow(s))
  }

  // ----- every getter undoes its putter -----

  lemma GetPutU32(v: nat, rest: Bytes)
    requires v < WORD32
    ensures GetU32(PutU32(v) + rest) == Some((v, rest))
  {
    hide Word, Value;
    Widths();
    ValueOfWord(v, 4);
    assert (PutU32(v) + rest)[..4] == PutU32(v) && (PutU32(v) + rest)[4..] == rest;
  }

  lemma PutGetU32(b: Bytes)
    requires GetU32(b).Some?
    ensures var (v, rest) := GetU32(b).value; v < WORD32 && PutU32(v) + rest == b
  {
    hide Word, Value;
    Widths();
    WordOfValue(b[..4]);
  }

  lemma GetPutU64(v: nat, rest: Bytes)
    requires v < WORD64
    ensures GetU64(PutU64(v) + rest) == Some((v, rest))
  {
    hide Word, Value;
    Widths();
    ValueOfWord(v, 8);
    assert (PutU64(v) + rest)[..8] == PutU64(v) && (PutU64(v) + rest)[8..] == rest;
  }

  lemma PutGetU64(b: Bytes)
    requires GetU64(b).Some?
    ensures var (v, rest) := GetU64(b).value; v < WORD64 && PutU64(v) + rest == b
  {
    hide Word, Value;
    Widths();
    WordOfValue(b[..8]);
  }

  lemma GetPutBlob(v: Bytes, rest: Bytes)
    requires |v| < WORD32
    ensures GetBlob(PutBlob(v) + rest) == Some((v, rest))
  {
    hide PutU32, GetU32;
    GetPutU32(|v|, v + rest);
    assert PutBlob(v) + rest == PutU32(|v|) + (v + rest);
    assert (v + rest)[..|v|] == v && (v + rest)[|v|..] == rest;
  }

  lemma PutGetBlob(b: Bytes)
    requires GetBlob(b).Some?
    ensures var (v, rest) := GetBlob(b).value; |v| < WORD32 && PutBlob(v) + rest == b
  {
    hide PutU32, GetU32;
    PutGetU32(b);
    var (n, tail) := GetU32(b).value;
    var (v, rest) := GetBlob(b).value;
    assert v + rest == tail;
    assert PutBlob(v) + rest == PutU32(n) + tail;
  }

  ghost predicate ShortBlobs(vs: seq<Bytes>)
  {
    forall i :: 0 <= i < |vs| ==> |vs[i]| < WORD32
  }

  lemma {:induction false} GetPutBlobs(vs: seq<Bytes>, rest: Bytes)
    requires ShortBlobs(vs)
    ensures GetBlobs(PutBlobs(vs) + rest, |vs|) == Some((vs, rest))
  {
    hide PutBlob, GetBlob;
    if vs == [] {
      assert PutBlobs(vs) + rest == rest;
    } else {
      var tail := PutBlobs(vs[1..]) + rest;
      GetPutBlobs(vs[1..], rest);
      GetPutBlob(vs[0], tail);
      assert PutBlobs(vs) + rest == PutBlob(vs[0]) + tail;
      assert [vs[0]] + vs[1..] == vs;
    }
  }

  lemma {:induction false} PutGetBlobs(b: Bytes, count: nat)
    requires GetBlobs(b, count).Some?
    ensures var (vs, rest) := GetBlobs(b, count).value; ShortBlobs(vs) && PutBlobs(vs) + rest == b
    decreases count
  {
    hide PutBlob, GetBlob;
    if count == 0 {
      assert PutBlobs([]) + b == b;
    } else {
      PutGetBlob(b);
      var (v, tail) := GetBlob(b).value;
      PutGetBlobs(tail, count - 1);
      var (vs, rest) := GetBlobs(tail, count - 1).value;
      assert ([v] + vs)[1..] == vs;
      assert PutBlobs([v] + vs) + rest == PutBlob(v) + (PutBlobs(vs) + rest);
    }
  }

  ghost predicate PlayerFits(p: Player) { p.id < WORD64 && ShortBlobs(Fields(p)) }

  ghost predicate PlayersFit(ps: seq<Player>) { forall i :: 0 <= i < |ps| ==> PlayerFits(ps[i]) }

  lemma GetPutPlayer(p: Player, rest: Bytes)
    requires PlayerFits(p)
    ensures GetPlayer(PutPlayer(p) + rest) == Some((p, rest))
  {
    hide PutU64, GetU64, PutBlobs, GetBlobs;
    var tail := PutBlobs(Fields(p)) + rest;
    GetPutBlobs(Fields(p), rest);
    GetPutU64(p.id, tail);
    assert PutPlayer(p) + rest == PutU64(p.id) + tail;
  }

  lemma PutGetPlayer(b: Bytes)
    requires GetPlayer(b).Some?
    ensures var (p, rest) := GetPlayer(b).value; PlayerFits(p) && PutPlayer(p) + rest == b
  {
    hide PutU64, GetU64, PutBlobs, GetBlobs;
    PutGetU64(b);
    var (id, tail) := GetU64(b).value;
    PutGetBlobs(tail, 6);
    var (vs, rest) := GetBlobs(tail, 6).value;
    var (p, _) := GetPlayer(b).value;
    assert Fields(p) == vs;
    assert PutPlayer(p) + rest == PutU64(id) + (PutBlobs(vs) + rest);
  }

  lemma {:induction false} GetPutPlayers(ps: seq<Player>, rest: Bytes)
    requires PlayersFit(ps)
    ensures GetPlayers(PutPlayers(ps) + rest, |ps|) == Some((ps, rest))
  {
    hide PutPlayer, GetPlayer, PlayerFits;
    if ps == [] {
      assert PutPlayers(ps) + rest == rest;
    } else {
      var tail := PutPlayers(ps[1..]) + rest;
      assert PlayerFits(ps[0]) && forall i :: 0 <= i < |ps| - 1 ==> ps[1..][i] == ps[i + 1];
      GetPutPlayers(ps[1..], rest);
      GetPutPlayer(ps[0], tail);
      assert PutPlayers(ps) + rest == PutPlayer(ps[0]) + tail;
      assert [ps[0]] + ps[1..] == ps;
    }
  }

  lemma {:induction false} PutGetPlayers(b: Bytes, count: nat)
    requires GetPlayers(b, count).Some?
    ensures var (ps, rest) := GetPlayers(b, count).value; PlayersFit(ps) && PutPlayers(ps) + rest == b
    decreases count
  {
    hide PutPlayer, GetPlayer, PlayerFits;
    if count == 0 {
      assert PutPlayers([]) + b == b;
    } else {
      PutGetPlayer(b);
      var (p, tail) := GetPlayer(b).value;
      PutGetPlayers(tail, count - 1);
      var (ps, rest) := GetPlayers(tail, count - 1).value;
      assert ([p] + ps)[1..] == ps;
      assert PutPlayers([p] + ps) + rest == PutPlayer(p) + (PutPlayers(ps) + rest);
    }
  }

  function HeaderOf(s: Snapshot): (h: Header)
  {
    Header(s.algorithm, s.publicKey, s.seed, s.t, s.n, |s.players|)
  }

  ghost predicate HeaderFits(h: Header)
  {
    && h.algorithm < WORD32 && |h.publicKey| < WORD32 && |h.seed| < WORD32
    && h.t < WORD32 && h.n < WORD32 && h.count < WORD32
  }

  lemma GetPutHeader(s: Snapshot, rest: Bytes)
    requires HeaderFits(HeaderOf(s))
    ensures GetHeader(PutHeader(s) + rest) == Some((HeaderOf(s), rest))
  {
    hide PutU32, GetU32, PutBlob, GetBlob;
    var b6 := PutU32(|s.players|) + rest;
    var b5 := PutU32(s.n) + b6;
    var b4 := PutU32(s.t) + b5;
    var b3 := PutBlob(s.seed) + b4;
    var b2 := PutBlob(s.publicKey) + b3;
    assert PutHeader(s) + rest == PutU32(s.algorithm) + b2;
    GetPutU32(|s.players|, rest);
    GetPutU32(s.n, b6);
    GetPutU32(s.t, b5);
    GetPutBlob(s.seed, b4);
    GetPutBlob(s.publicKey, b3);
    GetPutU32(s.algorithm, b2);
  }

  lemma PutGetHeader(b: Bytes, s: Snapshot)
    requires GetHeader(b).Some? && GetHeader(b).value.0 == HeaderOf(s)
    ensures HeaderFits(HeaderOf(s)) && PutHeader(s) + GetHeader(b).value.1 == b
  {
    hide PutU32, GetU32, PutBlob, GetBlob;
    var (_, b1) := GetU32(b).value;
    var (_, b2) := GetBlob(b1).value;
    var (_, b3) := GetBlob(b2).value;
    var (_, b4) := GetU32(b3).value;
    var (_, b5) := GetU32(b4).value;
    PutGetU32(b);
    PutGetBlob(b1);
    PutGetBlob(b2);
    PutGetU32(b3);
    PutGetU32(b4);
    PutGetU32(b5);
  }

  /** All the words and lengths fit their fields. */
  ghost predicate WordsFit(s: Snapshot) { HeaderFits(HeaderOf(s)) && PlayersFit(s.players) }

  lemma DecodeEncoded(s: Snapshot)
    requires WordsFit(s)
    ensures DecodeWords(Encode(s)) == Some(s)
  {
    hide PutU32, GetU32, PutHeader, GetHeader, PutPlayers, GetPlayers, PlayersFit;
    var body := PutHeader(s) + PutPlayers(s.players);
    assert Encode(s)[|MAGIC|..] == PutU32(FORMAT_VERSION) + body;
    GetPutU32(FORMAT_VERSION, body);
    GetPutHeader(s, PutPlayers(s.players));
    assert PutPlayers(s.players) + [] == PutPlayers(s.players);
    GetPutPlayers(s.players, []);
  }

  lemma EncodeDecoded(b: Bytes)
    requires DecodeWords(b).Some?
    ensures WordsFit(DecodeWords(b).value) && Encode(DecodeWords(b).value) == b
  {
    hide PutU32, GetU32, PutHeader, GetHeader, PutPlayers, GetPlayers, PlayersFit;
    var s := DecodeWords(b).value;
    var (_, body) := GetU32(b[|MAGIC|..]).value;
    PutGetU32(b[|MAGIC|..]);
    var (h, tail) := GetHeader(body).value;
    PutGetPlayers(tail, h.count);
    PutGetHeader(body, s);
    assert PutPlayers(s.players) + [] == tail;
    assert b == MAGIC + b[|MAGIC|..];
  }

  // ----- the codec laws -----

  /** A snapshot as its C++ type holds it: bytes, words and 64-bit ids. */
  ghost predicate Typed(s: Snapshot)
  {
    s.algorithm < WORD32 && s.t < 256 && s.n < 256 && forall i :: 0 <= i < |s.players| ==> s.players[i].id < WORD64
  }

  /** Every blob and the number of players is below 2^32. */
  ghost predicate Sized(s: Snapshot)
  {
    && |s.publicKey| < WORD32 && |s.seed| < WORD32 && |s.players| < WORD32
    && forall i :: 0 <= i < |s.players| ==> ShortBlobs(Fields(s.players[i]))
  }

  /** Reading back what was written gives the same snapshot exactly when no
      length overflows its 32-bit field. */
  lemma RoundTripIff(s: Snapshot)
    requires Typed(s)
    ensures Decode(Encode(s)) == Some(s) <==> Sized(s)
  {
    hide Encode, DecodeWords, ShortBlobs, Fields;
    if Sized(s) {
      assert PlayersFit(s.players);
      DecodeEncoded(s);
    }
    if DecodeWords(Encode(s)).Some? { EncodeDecoded(Encode(s)); }
  }

  /** Writing what was read gives the same file exactly when its two threshold
      words were bytes to begin with. */
  lemma RewriteIff(b: Bytes)
    requires Decode(b).Some?
    ensures Encode(Decode(b).value) == b <==> DecodeWords(b).value.t < 256 && DecodeWords(b).value.n < 256
  {
    hide Encode, DecodeWords, PlayersFit;
    var s := DecodeWords(b).value;
    EncodeDecoded(b);
    if Encode(Narrow(s)) == b {
      DecodeEncoded(Narrow(s));
    }
  }

  /** A file with a threshold word of 256 is read as threshold 0. */
  lemma NarrowingLosesTheThreshold()
    ensures var s := Snapshot(0, [], [], 256, 0, []);
      Decode(Encode(s)) == Some(s.(t := 0)) && Encode(s.(t := 0)) != Encode(s)
  {
    hide Encode, DecodeWords;
    var s := Snapshot(0, [], [], 256, 0, []);
    DecodeEncoded(s);
    RewriteIff(Encode(s));
  }

  /** No file that is accepted can be cut short or extended and still be
      accepted. */
  lemma AcceptedIsPrefixFree(b: Bytes, extra: Bytes)
    requires Decode(b).Some? && extra != []
    ensures Decode(b + extra).None?
  {
    hide PutU32, GetU32, PutHeader, GetHeader, PutPlayers, GetPlayers, PlayersFit;
    var s := DecodeWords(b).value;
    EncodeDecoded(b);
    var body := PutHeader(s) + PutPlayers(s.players);
    assert b + extra == MAGIC + (PutU32(FORMAT_VERSION) + (body + extra));
    assert (b + extra)[|MAGIC|..] == PutU32(FORMAT_VERSION) + (body + extra);
    GetPutU32(FORMAT_VERSION, body + extra);
    assert body + extra == PutHeader(s) + (PutPlayers(s.players) + extra);
    GetPutHeader(s, PutPlayers(s.players) + extra);
    GetPutPlayers(s.players, extra);
  }
}
