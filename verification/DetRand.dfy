/** The deterministic byte generator (harness/cmp_ecdsa_online/src/det_rand.cpp):
    SHA-512 in counter mode behind a 64-byte buffer.  The buffered generator is
    proved to hand out consecutive slices of one ideal stream, however the
    draws are split. */
module DetRand {
  import opened Sequences
  import opened Arithmetic

  const BLOCK := 64

  type Hash = Bytes -> Bytes

  ghost predicate IsHash(h: Hash) { forall b :: |h(b)| == BLOCK }

  function LittleEndian(v: nat, width: nat): (b: Bytes)
    ensures |b| == width
  {
    if width == 0 then [] else [v % 256] + LittleEndian(v / 256, width - 1)
  }

  // ----- the ideal stream -----

  /** The block produced by the i-th refill; the counter has 64 bits. */
  function Block(h: Hash, key: Bytes, i: nat): (b: Bytes)
  {
    h(key + LittleEndian(i % WORD64, 8))
  }

  /** The k-th byte of the little-endian text of a number has weight 256^k. */
  lemma {:induction false} LittleEndianByte(v: nat, width: nat, k: nat)
    requires k < width
    ensures LittleEndian(v, width)[k] == v / Power256(k) % 256
  {
    if k > 0 {
      LittleEndianByte(v / 256, width - 1, k - 1);
      DivideTwice(v, 256, Power256(k - 1));
    }
  }

  /** A block is the hash of the key and the eight bytes of the counter, least
      significant first. */
  lemma BlockInput(h: Hash, key: Bytes, i: nat, b: Bytes)
    requires |b| == 8 && forall k :: 0 <= k < 8 ==> b[k] == i % WORD64 / Power256(k) % 256
    ensures Block(h, key, i) == h(key + b)
  {
    hide LittleEndian, Power256;
    var c := LittleEndian(i % WORD64, 8);
    forall k | 0 <= k < 8 ensures b[k] == c[k] { LittleEndianByte(i % WORD64, 8, k); }
    assert b == c;
  }

  function StreamByte(h: Hash, key: Bytes, i: nat): (b: Byte)
    requires IsHash(h)
  {
    Block(h, key, i / BLOCK)[i % BLOCK]
  }

  function Slice(h: Hash, key: Bytes, from: nat, n: nat): (b: Bytes)
    requires IsHash(h)
    ensures |b| == n && forall i :: 0 <= i < n ==> b[i] == StreamByte(h, key, from + i)
  {
    seq<Byte>(n, i requires 0 <= i < n => StreamByte(h, key, from + i))
  }

  lemma SliceSplit(h: Hash, key: Bytes, from: nat, m: nat, n: nat)
    requires IsHash(h)
    ensures Slice(h, key, from, m) + Slice(h, key, from + m, n) == Slice(h, key, from, m + n)
  {
    hide StreamByte;
    var l, r := Slice(h, key, from, m) + Slice(h, key, from + m, n), Slice(h, key, from, m + n);
    forall i | 0 <= i < m + n ensures l[i] == r[i] {
      if i >= m { assert from + i == from + m + (i - m); }
    }
  }

  /** A piece of one block is a slice of the stream. */
  lemma BlockIsSlice(h: Hash, key: Bytes, i: nat, used: nat, take: nat)
    requires IsHash(h) && used + take <= BLOCK
    ensures |Block(h, key, i)| == BLOCK
    ensures Block(h, key, i)[used..used + take] == Slice(h, key, i * BLOCK + used, take)
  {
    hide Block;
    BlockSize(h, key, i);
    var b, s := Block(h, key, i)[used..used + take], Slice(h, key, i * BLOCK + used, take);
    forall k | 0 <= k < take ensures b[k] == s[k] {
      RemainderOf(i, BLOCK, used + k);
      assert i * BLOCK + used + k == i * BLOCK + (used + k);
    }
  }

  lemma BlockSize(h: Hash, key: Bytes, i: nat)
    requires IsHash(h)
    ensures |Block(h, key, i)| == BLOCK
  {
  }

  // ----- the generator -----

  class Generator {
    var key: Bytes
    var counter: nat
    var block: Bytes
    var blockUsed: nat
    var drawn: nat
    var seeded: bool
    /** Bytes handed out and blocks produced since the last reseed. */
    ghost var pos: nat
    ghost var blocks: nat

    ghost predicate Valid(h: Hash)
      reads this
    {
      && blockUsed <= BLOCK
      && counter == blocks % WORD64 && drawn == pos % WORD64
      && BLOCK * blocks == pos + (BLOCK - blockUsed)
      && (blockUsed < BLOCK ==> blocks > 0 && block == Block(h, key, blocks - 1))
    }

    constructor (ghost h: Hash)
      ensures Valid(h) && !seeded
    {
      key, counter, block, blockUsed, drawn, seeded := [], 0, [], BLOCK, 0, false;
      pos, blocks := 0, 0;
    }

    method ReseedFrom(h: Hash, material: Bytes)
      modifies this
      ensures Valid(h) && seeded && pos == 0 && key == h(material)
    {
      key := h(material);
      counter, blockUsed, drawn, seeded := 0, BLOCK, 0, true;
      pos, blocks := 0, 0;
    }

    method Reseed(h: Hash, seed: nat)
      modifies this
      ensures Valid(h) && seeded && pos == 0 && key == h(Material(seed, []))
    {
      assert Material(seed, []) == LittleEndian(seed % WORD64, 8);
      ReseedFrom(h, LittleEndian(seed % WORD64, 8));
    }

    method ReseedWithLabel(h: Hash, seed: nat, tag: Bytes)
      modifies this
      ensures Valid(h) && seeded && pos == 0 && key == h(Material(seed, tag))
    {
      ReseedFrom(h, LittleEndian(seed % WORD64, 8) + tag);
    }

    method Refill(h: Hash)
      requires IsHash(h) && Valid(h) && blockUsed == BLOCK
      modifies this
      ensures Valid(h) && blockUsed == 0 && pos == old(pos) && key == old(key) && seeded == old(seeded)
    {
      hide LittleEndian;
      WrapAdd(blocks, 1);
      block := h(key + LittleEndian(counter, 8));
      counter := (counter + 1) % WORD64;
      blockUsed := 0;
      blocks := blocks + 1;
    }

    /** Copy as much of the current block as is wanted and left. */
    method CopyOut(h: Hash, want: nat) returns (part: Bytes)
      requires IsHash(h) && Valid(h) && want > 0 && blockUsed < BLOCK
      modifies this
      ensures Valid(h) && key == old(key) && seeded == old(seeded)
      ensures 0 < |part| <= want && part == Slice(h, key, old(pos), |part|) && pos == old(pos) + |part|
    {
      hide Block, Slice;
      var take := if want < BLOCK - blockUsed then want else BLOCK - blockUsed;
      BlockIsSlice(h, key, blocks - 1, blockUsed, take);
      assert (blocks - 1) * BLOCK + blockUsed == pos;
      part := block[blockUsed..blockUsed + take];
      blockUsed := blockUsed + take;
      WrapAdd(pos, take);
      drawn := (drawn + take) % WORD64;
      pos := pos + take;
    }

    /** Refuses a negative size and an unseeded state; otherwise hands out the
        next bytes of the stream. */
    method DetBytes(h: Hash, num: int) returns (ok: bool, out: Bytes)
      requires IsHash(h) && Valid(h)
      modifies this
      ensures Valid(h) && key == old(key) && seeded == old(seeded)
      ensures ok <==> num >= 0 && old(seeded)
      ensures !ok ==> out == [] && pos == old(pos) && blockUsed == old(blockUsed) && counter == old(counter)
      ensures ok ==> out == Slice(h, key, old(pos), num) && pos == old(pos) + num
    {
      hide Block, Slice;
      out := [];
      if num < 0 || !seeded { return false, []; }
      var remaining: nat := num;
      while remaining > 0
        invariant Valid(h) && key == old(key) && seeded && remaining <= num
        invariant pos == old(pos) + (num - remaining)
        invariant out == Slice(h, key, old(pos), num - remaining)
      {
        if blockUsed >= BLOCK { Refill(h); }
        var part := CopyOut(h, remaining);
        SliceSplit(h, key, old(pos), num - remaining, |part|);
        out := out + part;
        remaining := remaining - |part|;
      }
      ok := true;
    }

    /** The accounting of the buffer while fewer than 2^64 bytes were drawn. */
    lemma Accounting(h: Hash)
      requires Valid(h) && pos < WORD64
      ensures drawn == pos && BLOCK * counter == drawn + (BLOCK - blockUsed)
    {
      assert blocks < WORD64;
    }
  }

  lemma WrapAdd(a: nat, b: nat)
    ensures (a % WORD64 + b) % WORD64 == (a + b) % WORD64
  {
  }

  /** What a seed and a label feed to the hash. */
  function Material(seed: nat, tag: Bytes): (m: Bytes)
  {
    LittleEndian(seed % WORD64, 8) + tag
  }

  function Size(n: nat): nat { n }

  /** A sequence of draws from a seeded generator, concatenated. */
  method DrawAll(g: Generator, h: Hash, sizes: seq<nat>) returns (out: Bytes)
    requires IsHash(h) && g.Valid(h) && g.seeded
    modifies g
    ensures g.Valid(h) && g.seeded && g.key == old(g.key)
    ensures out == Slice(h, g.key, old(g.pos), SumOf(Size, sizes)) && g.pos == old(g.pos) + SumOf(Size, sizes)
  {
    hide Slice, SumOf, Block;
    out := [];
    NoDraws();
    ghost var start := g.pos;
    SliceSplit(h, g.key, start, 0, 0);
    assert sizes[..0] == [] && Slice(h, g.key, start, 0) == [];
    for i := 0 to |sizes|
      invariant g.Valid(h) && g.seeded && g.key == old(g.key)
      invariant g.pos == start + SumOf(Size, sizes[..i]) && out == Slice(h, g.key, start, SumOf(Size, sizes[..i]))
    {
      var ok, part := g.DetBytes(h, sizes[i]);
      SliceSplit(h, g.key, start, SumOf(Size, sizes[..i]), sizes[i]);
      SumLast(Size, sizes[..i], sizes[i]);
      assert sizes[..i + 1] == sizes[..i] + [sizes[i]];
      out := out + part;
    }
    assert sizes[..|sizes|] == sizes;
  }

  lemma NoDraws()
    ensures SumOf(Size, []) == 0
  {
  }

  /** After one reseed, two generators that serve the same number of bytes in
      differently sized draws return the same bytes: a prefix of the stream. */
  method SplitsAgree(h: Hash, seed: nat, tag: Bytes, sizes: seq<nat>, sizes': seq<nat>) returns (a: Bytes, b: Bytes)
    requires IsHash(h) && SumOf(Size, sizes) == SumOf(Size, sizes')
    ensures a == b == Slice(h, h(Material(seed, tag)), 0, SumOf(Size, sizes))
  {
    var g := new Generator(h);
    var g' := new Generator(h);
    g.ReseedWithLabel(h, seed, tag);
    g'.ReseedWithLabel(h, seed, tag);
    a := DrawAll(g, h, sizes);
    b := DrawAll(g', h, sizes');
  }

  // ----- seeds -----

  lemma {:induction false} LittleEndianInjective(v: nat, w: nat, width: nat)
    requires LittleEndian(v, width) == LittleEndian(w, width)
    ensures v % Power256(width) == w % Power256(width)
  {
    if width > 0 {
      var x, y := LittleEndian(v, width), LittleEndian(w, width);
      assert x[1..] == LittleEndian(v / 256, width - 1) && y[1..] == LittleEndian(w / 256, width - 1);
      assert x[0] == v % 256 && y[0] == w % 256;
      LittleEndianInjective(v / 256, w / 256, width - 1);
      ModStep(v, Power256(width - 1));
      ModStep(w, Power256(width - 1));
    }
  }

  lemma ModStep(v: nat, p: nat)
    requires p > 0
    ensures v % (256 * p) == v / 256 % p * 256 + v % 256
  {
    var q := v / 256;
    DivisionBounds(v, 256);
    DivisionBounds(q, p);
    assert v == q / p * (256 * p) + (q % p * 256 + v % 256);
    assert q % p * 256 + v % 256 < 256 * p;
    RemainderOf(q / p, 256 * p, q % p * 256 + v % 256);
  }

  /** The key material is the eight bytes of the seed, least significant first,
      and then the label. */
  lemma MaterialIs(seed: nat, tag: Bytes)
    ensures |Material(seed, tag)| == 8 + |tag| && Material(seed, tag)[8..] == tag
    ensures forall k :: 0 <= k < 8 ==> Material(seed, tag)[k] == seed % WORD64 / Power256(k) % 256
  {
    hide LittleEndian, Power256;
    forall k | 0 <= k < 8 ensures Material(seed, tag)[k] == seed % WORD64 / Power256(k) % 256 {
      LittleEndianByte(seed % WORD64, 8, k);
    }
  }

  /** Different seeds or labels feed different material to the hash. */
  lemma MaterialInjective(s: nat, l: Bytes, s': nat, l': Bytes)
    requires s < WORD64 && s' < WORD64 && Material(s, l) == Material(s', l')
    ensures s == s' && l == l'
  {
    hide LittleEndian;
    var m := Material(s, l);
    assert m[..8] == LittleEndian(s, 8) && m[..8] == LittleEndian(s', 8);
    assert l == m[8..] && l' == m[8..];
    EightBytes(s, s');
  }

  lemma EightBytes(s: nat, s': nat)
    requires s < WORD64 && s' < WORD64 && LittleEndian(s, 8) == LittleEndian(s', 8)
    ensures s == s'
  {
    hide LittleEndian, Power256;
    LittleEndianInjective(s, s', 8);
    PowStep(1); PowStep(2); PowStep(3); PowStep(4); PowStep(5); PowStep(6); PowStep(7); PowStep(8);
  }

  lemma PowStep(k: nat)
    requires k > 0
    ensures Power256(k) == 256 * Power256(k - 1) && Power256(0) == 1
  {
  }
}
