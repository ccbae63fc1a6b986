/** The imperative halves of the snapshot codec: a writer that pushes bytes and
    a reader with a position and a sticky failure flag. */
module SnapshotIO {
  import opened Sequences
  import opened Arithmetic
  import opened Snapshot

  // ----- the writer -----

  /** The byte of `v` with weight 256^i. */
  function ByteAt(v: nat, i: nat): Byte { v / Power256(i) % 256 }

  lemma {:induction false} WordBytes(v: nat, width: nat, k: nat)
    requires k < width
    ensures Word(v, width)[k] == ByteAt(v, width - 1 - k)
  {
    if k < width - 1 {
      WordBytes(v / 256, width - 1, k);
      DivideTwice(v, 256, Power256(width - 2 - k));
    }
  }

  class Writer {
    var buffer: Bytes

    constructor ()
      ensures buffer == []
    {
      buffer := [];
    }

    /** Push the `width` low bytes of `v`, most significant first. */
    method PutWord(v: nat, width: nat)
      modifies this
      ensures buffer == old(buffer) + Word(v, width)
    {
      ghost var start := buffer;
      var i := width;
      while i > 0
        invariant 0 <= i <= width
        invariant buffer == start + Word(v, width)[..width - i]
      {
        i := i - 1;
        WordBytes(v, width, width - 1 - i);
        assert Word(v, width)[..width - i] == Word(v, width)[..width - 1 - i] + [ByteAt(v, i)];
        buffer := buffer + [ByteAt(v, i)];
      }
      assert Word(v, width)[..width] == Word(v, width);
    }

    method PushBlob(v: Bytes)
      modifies this
      ensures buffer == old(buffer) + PutBlob(v)
    {
      PutWord(|v| % WORD32, 4);
      buffer := buffer + v;
    }

    method PushBlobs(vs: seq<Bytes>)
      modifies this
      ensures buffer == old(buffer) + PutBlobs(vs)
    {
      hide PutBlob;
      for i := 0 to |vs|
        invariant buffer == old(buffer) + PutBlobs(vs[..i])
      {
        PushBlob(vs[i]);
        BlobsAppend(vs[..i], vs[i]);
        assert vs[..i + 1] == vs[..i] + [vs[i]];
      }
      assert vs[..|vs|] == vs;
    }

    method PushPlayer(p: Player)
      modifies this
      ensures buffer == old(buffer) + PutPlayer(p)
    {
      hide PutBlobs, Word;
      PutWord(p.id, 8);
      PushBlobs(Fields(p));
    }
  }

  lemma {:induction false} BlobsAppend(vs: seq<Bytes>, v: Bytes)
    ensures PutBlobs(vs + [v]) == PutBlobs(vs) + PutBlob(v)
  {
    hide PutBlob;
    if vs == [] {
      assert vs + [v] == [v] && [v][1..] == [];
    } else {
      BlobsAppend(vs[1..], v);
      assert (vs + [v])[1..] == vs[1..] + [v];
    }
  }

  lemma {:induction false} PlayersAppend(ps: seq<Player>, p: Player)
    ensures PutPlayers(ps + [p]) == PutPlayers(ps) + PutPlayer(p)
  {
    hide PutPlayer;
    if ps == [] {
      assert ps + [p] == [p] && [p][1..] == [];
    } else {
      PlayersAppend(ps[1..], p);
      assert (ps + [p])[1..] == ps[1..] + [p];
    }
  }

  method WriteHeader(w: Writer, s: Snapshot)
    modifies w
    ensures w.buffer == old(w.buffer) + PutHeader(s)
  {
    hide PutBlob, Word;
    w.PutWord(s.algorithm, 4);
    w.PushBlob(s.publicKey);
    w.PushBlob(s.seed);
    w.PutWord(s.t, 4);
    w.PutWord(s.n, 4);
    w.PutWord(|s.players| % WORD32, 4);
  }

  method WriteSnapshot(s: Snapshot) returns (b: Bytes)
    ensures b == Encode(s)
  {
    hide PutPlayer, PutHeader, Word;
    var w := new Writer();
    w.buffer := w.buffer + MAGIC;
    w.PutWord(FORMAT_VERSION, 4);
    WriteHeader(w, s);
    ghost var header := w.buffer;
    for i := 0 to |s.players|
      invariant w.buffer == header + PutPlayers(s.players[..i])
    {
      w.PushPlayer(s.players[i]);
      PlayersAppend(s.players[..i], s.players[i]);
      assert s.players[..i + 1] == s.players[..i] + [s.players[i]];
    }
    assert s.players[..|s.players|] == s.players;
    b := w.buffer;
  }

  // ----- the reader -----

  class Reader {
    const buf: Bytes
    var pos: nat
    var ok: bool

    ghost predicate Valid() reads this { pos <= |buf| }

    ghost function Rest(): Bytes
      requires Valid()
      reads this
    {
      buf[pos..]
    }

    constructor (b: Bytes, start: nat)
      requires start <= |b|
      ensures Valid() && ok && buf == b && pos == start
    {
      buf, pos, ok := b, start, true;
    }

    method Word(width: nat) returns (v: nat)
      requires Valid()
      modifies this
      ensures Valid()
      ensures if |old(Rest())| < width then !ok && v == 0 && pos == old(pos)
        else ok == old(ok) && v == Value(old(Rest())[..width]) && Rest() == old(Rest())[width..]
    {
      if |buf| - pos < width {
        ok := false;
        return 0;
      }
      ghost var rest := Rest();
      v := 0;
      for i := 0 to width
        invariant Valid() && pos == old(pos) + i && ok == old(ok) && v == Value(rest[..i])
      {
        assert rest[..i + 1][..i] == rest[..i] && rest[i] == buf[pos];
        v := v * 256 + buf[pos];
        pos := pos + 1;
      }
    }

    /** The flag is sticky, so one test after several reads covers them all. */
    method U32() returns (v: nat)
      requires Valid()
      modifies this
      ensures Valid() && (ok <==> old(ok) && GetU32(old(Rest())).Some?)
      ensures ok ==> GetU32(old(Rest())) == Some((v, Rest()))
    {
      v := Word(4);
    }

    method U64() returns (v: nat)
      requires Valid()
      modifies this
      ensures Valid() && (ok <==> old(ok) && GetU64(old(Rest())).Some?)
      ensures ok ==> GetU64(old(Rest())) == Some((v, Rest()))
    {
      v := Word(8);
    }

    method Blob() returns (v: Bytes)
      requires Valid()
      modifies this
      ensures Valid() && (ok <==> old(ok) && GetBlob(old(Rest())).Some?)
      ensures ok ==> GetBlob(old(Rest())) == Some((v, Rest()))
    {
      var n := U32();
      if !ok || |buf| - pos < n {
        ok := false;
        return [];
      }
      v := buf[pos..pos + n];
      ghost var rest := Rest();
      pos := pos + n;
      assert Rest() == rest[n..] && v == rest[..n];
    }

    method Blobs(count: nat) returns (vs: seq<Bytes>)
      requires Valid()
      modifies this
      ensures Valid() && (ok <==> old(ok) && GetBlobs(old(Rest()), count).Some?)
      ensures ok ==> GetBlobs(old(Rest()), count) == Some((vs, Rest()))
    {
      hide GetBlob;
      vs := [];
      ghost var start := Rest();
      AfterNothing(GetBlobs(start, count));
      for i := 0 to count
        invariant Valid() && |vs| == i
        invariant ok ==> old(ok) && GetBlobs(start, count) == After(vs, GetBlobs(Rest(), count - i))
        invariant !ok ==> !old(ok) || GetBlobs(start, count).None?
      {
        var v := Blob();
        AfterAppend(vs, v);
        vs := vs + [v];
      }
      assert vs + [] == vs;
    }

    method OnePlayer() returns (p: Player)
      requires Valid()
      modifies this
      ensures Valid() && (ok <==> old(ok) && GetPlayer(old(Rest())).Some?)
      ensures ok ==> GetPlayer(old(Rest())) == Some((p, Rest()))
    {
      hide GetU64, GetBlobs;
      var id := U64();
      var vs := Blobs(6);
      if !ok { return Player(id, [], [], [], [], [], []); }
      p := Player(id, vs[0], vs[1], vs[2], vs[3], vs[4], vs[5]);
    }
  }

  /** A list read so far, continued by the rest of the parse. */
  function After<T>(head: seq<T>, r: Option<(seq<T>, Bytes)>): (q: Option<(seq<T>, Bytes)>)
  {
    match r
    case None => None
    case Some((xs, rest)) => Some((head + xs, rest))
  }

  lemma AfterNothing<T>(r: Option<(seq<T>, Bytes)>)
    ensures After([], r) == r
  {
    if r.Some? { assert [] + r.value.0 == r.value.0; }
  }

  lemma AfterAppend<T>(head: seq<T>, x: T)
    ensures forall r: Option<(seq<T>, Bytes)> {:trigger After(head + [x], r)} ::
      After(head + [x], r) == After(head, After([x], r))
  {
    forall r: Option<(seq<T>, Bytes)> ensures After(head + [x], r) == After(head, After([x], r)) {
      if r.Some? { assert (head + [x]) + r.value.0 == head + ([x] + r.value.0); }
    }
  }

  method ReadPlayers(rd: Reader, count: nat) returns (players: seq<Player>)
    requires rd.Valid() && rd.ok
    modifies rd
    ensures rd.Valid() && (rd.ok <==> GetPlayers(old(rd.Rest()), count).Some?)
    ensures rd.ok ==> GetPlayers(old(rd.Rest()), count) == Some((players, rd.Rest()))
  {
    hide GetPlayer;
    players := [];
    ghost var start := rd.Rest();
    AfterNothing(GetPlayers(start, count));
    for i := 0 to count
      invariant rd.Valid() && rd.ok && |players| == i
      invariant GetPlayers(start, count) == After(players, GetPlayers(rd.Rest(), count - i))
    {
      var p := rd.OnePlayer();
      if !rd.ok { return; }
      AfterAppend(players, p);
      players := players + [p];
    }
    assert players + [] == players;
  }

  /** All header fields are read before the flag is looked at. */
  method ReadHeader(rd: Reader) returns (h: Header)
    requires rd.Valid() && rd.ok
    modifies rd
    ensures rd.Valid() && (rd.ok <==> GetHeader(old(rd.Rest())).Some?)
    ensures rd.ok ==> GetHeader(old(rd.Rest())) == Some((h, rd.Rest()))
  {
    hide GetU32, GetBlob;
    var algorithm := rd.U32();
    var key := rd.Blob();
    var seed := rd.Blob();
    var t := rd.U32();
    var n := rd.U32();
    var count := rd.U32();
    h := Header(algorithm, key, seed, t, n, count);
  }

  method ReadSnapshot(b: Bytes) returns (r: Option<Snapshot>)
    ensures r == Decode(b)
  {
    hide GetU32, GetHeader, GetPlayers;
    if |b| < |MAGIC| || b[..|MAGIC|] != MAGIC { return None; }
    var rd := new Reader(b, |MAGIC|);
    var format := rd.U32();
    if !rd.ok || format != FORMAT_VERSION { return None; }
    var h := ReadHeader(rd);
    if !rd.ok { return None; }
    var players := ReadPlayers(rd, h.count);
    if !rd.ok { return None; }
    if rd.pos != |b| { return None; }
    r := Some(Snapshot(h.algorithm, h.publicKey, h.seed, h.t % 256, h.n % 256, players));
  }
}
