/** MurmurHash3_x86_32 and MurmurHash3_x64_128 (redis/src/MurmurHash3.cc), and why changing one
    block of a key, or the seed, always changes the hash: every step is invertible. */
module MurmurHash3 {
  import opened Words

  type Key = k: seq<Byte> | |k| < 0x8000_0000 witness []  // int len

  // ---------------------------------------------------------------------------
  // uint32_t and uint64_t operations

  function Xor32(x: Word32, y: Word32): Word32 {
    WordSizes();
    XorBelow(x, y, 32);
    Xor(x, y)
  }

  function Xor64(x: Word64, y: Word64): Word64 {
    WordSizes();
    XorBelow(x, y, 64);
    Xor(x, y)
  }

  function Times32(x: Word32, c: nat): Word32 { (x * c) % W32 }
  function Times64(x: Word64, c: nat): Word64 { (x * c) % W64 }
  function Plus32(x: Word32, c: Word32): Word32 { (x + c) % W32 }
  function Plus64(x: Word64, c: Word64): Word64 { (x + c) % W64 }

  function Rotl32(x: Word32, r: nat): Word32
    requires r <= 32
  {
    WordSizes();
    Pow2Sum(r, 32 - r);
    RotlParts(x, Pow2(r), Pow2(32 - r));
    Rotl(x, Pow2(r), Pow2(32 - r))
  }

  function Rotl64(x: Word64, r: nat): Word64
    requires r <= 64
  {
    WordSizes();
    Pow2Sum(r, 64 - r);
    RotlParts(x, Pow2(r), Pow2(64 - r));
    Rotl(x, Pow2(r), Pow2(64 - r))
  }

  /** h ^= h >> r */
  function Fold32(h: Word32, r: nat): Word32 {
    WordSizes();
    XorBelow(h, Shr(h, r), 32);
    Fold(h, r)
  }

  function Fold64(h: Word64, r: nat): Word64 {
    WordSizes();
    XorBelow(h, Shr(h, r), 64);
    Fold(h, r)
  }

  lemma Times32Injective(x: Word32, y: Word32, c: nat)
    requires c in {0xcc9e2d51, 0x1b873593, 0x85ebca6b, 0xc2b2ae35, 5} && Times32(x, c) == Times32(y, c)
    ensures x == y
  {
    if c == 0xcc9e2d51 {
      TimesInverse(x, c, 0xdee13bb1, W32, 0xb2253208);
      TimesInverse(y, c, 0xdee13bb1, W32, 0xb2253208);
    } else if c == 0x1b873593 {
      TimesInverse(x, c, 0x56ed309b, W32, 0x958ed66);
      TimesInverse(y, c, 0x56ed309b, W32, 0x958ed66);
    } else if c == 0x85ebca6b {
      TimesInverse(x, c, 0xa5cb9243, W32, 0x56bb77f4);
      TimesInverse(y, c, 0xa5cb9243, W32, 0x56bb77f4);
    } else if c == 0xc2b2ae35 {
      TimesInverse(x, c, 0x7ed1b41d, W32, 0x60736e9a);
      TimesInverse(y, c, 0x7ed1b41d, W32, 0x60736e9a);
    } else if c == 0x5 {
      TimesInverse(x, c, 0xcccccccd, W32, 0x4);
      TimesInverse(y, c, 0xcccccccd, W32, 0x4);
    }
  }

  lemma Times64Injective(x: Word64, y: Word64, c: nat)
    requires c in {0x87c37b91114253d5, 0x4cf5ad432745937f, 0xff51afd7ed558ccd, 0xc4ceb9fe1a85ec53, 5}
    requires Times64(x, c) == Times64(y, c)
    ensures x == y
  {
    if c == 0x87c37b91114253d5 {
      TimesInverse(x, c, 0xa98409e882ce4d7d, W64, 0x59e6129fa91071c3);
      TimesInverse(y, c, 0xa98409e882ce4d7d, W64, 0x59e6129fa91071c3);
    } else if c == 0x4cf5ad432745937f {
      TimesInverse(x, c, 0xa81e14edd9de2c7f, W64, 0x328a44c9121df37a);
      TimesInverse(y, c, 0xa81e14edd9de2c7f, W64, 0x328a44c9121df37a);
    } else if c == 0xff51afd7ed558ccd {
      TimesInverse(x, c, 0x4f74430c22a54005, W64, 0x4f3e2925cb7c5b4e);
      TimesInverse(y, c, 0x4f74430c22a54005, W64, 0x4f3e2925cb7c5b4e);
    } else if c == 0xc4ceb9fe1a85ec53 {
      TimesInverse(x, c, 0x9cb4b2f8129337db, W64, 0x7878e44812b2d581);
      TimesInverse(y, c, 0x9cb4b2f8129337db, W64, 0x7878e44812b2d581);
    } else if c == 0x5 {
      TimesInverse(x, c, 0xcccccccccccccccd, W64, 0x4);
      TimesInverse(y, c, 0xcccccccccccccccd, W64, 0x4);
    }
  }

  lemma Plus32Injective(x: Word32, y: Word32, c: Word32)
    ensures Plus32(x, c) == Plus32(y, c) ==> x == y
  {
  }

  lemma Plus64Injective(x: Word64, y: Word64, c: Word64)
    ensures Plus64(x, c) == Plus64(y, c) ==> x == y
    ensures Plus64(c, x) == Plus64(c, y) ==> x == y
  {
  }

  lemma Rotl32Injective(x: Word32, y: Word32, r: nat)
    requires r <= 32 && Rotl32(x, r) == Rotl32(y, r)
    ensures x == y
  {
    WordSizes();
    Pow2Sum(r, 32 - r);
    RotlInjective(x, y, Pow2(r), Pow2(32 - r));
  }

  lemma Rotl64Injective(x: Word64, y: Word64, r: nat)
    requires r <= 64 && Rotl64(x, r) == Rotl64(y, r)
    ensures x == y
  {
    WordSizes();
    Pow2Sum(r, 64 - r);
    RotlInjective(x, y, Pow2(r), Pow2(64 - r));
  }

  // ---------------------------------------------------------------------------
  // Reading words from the key

  /** The little-endian value of up to eight bytes. */
  function LittleEndian(t: seq<Byte>): nat {
    if t == [] then 0 else t[0] + 0x100 * LittleEndian(t[1..])
  }

  lemma {:induction false} LittleEndianBelow(t: seq<Byte>)
    ensures LittleEndian(t) < Pow2(8 * |t|)
  {
    if t != [] {
      LittleEndianBelow(t[1..]);
      Pow2Sum(8, 8 * |t[1..]|);
      assert Pow2(8) == 0x100;
    }
  }

  lemma {:induction false} LittleEndianInjective(t: seq<Byte>, t': seq<Byte>)
    requires |t| == |t'| && LittleEndian(t) == LittleEndian(t')
    ensures t == t'
  {
    if t != [] {
      assert t[0] == t'[0] && LittleEndian(t[1..]) == LittleEndian(t'[1..]);
      LittleEndianInjective(t[1..], t'[1..]);
      assert t == [t[0]] + t[1..] && t' == [t'[0]] + t'[1..];
    }
  }

  /** The n-th block of w bytes. */
  function Block(key: seq<Byte>, w: nat, n: nat): seq<Byte>
    requires w * n + w <= |key|
  {
    key[w * n..w * n + w]
  }

  function GetBlock32(key: seq<Byte>, i: nat): Word32
    requires 4 * i + 4 <= |key|
  {
    LittleEndianBelow(Block(key, 4, i));
    WordSizes();
    LittleEndian(Block(key, 4, i))
  }

  function GetBlock64(key: seq<Byte>, i: nat): Word64
    requires 8 * i + 8 <= |key|
  {
    LittleEndianBelow(Block(key, 8, i));
    WordSizes();
    LittleEndian(Block(key, 8, i))
  }

  /** The cases of a fall-through switch over the tail: from the last byte down,
      k ^= tail[j] << (8 * j). */
  method GatherTail(t: seq<Byte>) returns (k: nat)
    ensures k == LittleEndian(t)
  {
    k := 0;
    var j := |t|;
    while j > 0
      invariant 0 <= j <= |t|
      invariant k == LittleEndian(t[j..]) * Pow2(8 * j)
    {
      j := j - 1;
      GatherStep(t, j);
      k := Xor(k, t[j] * Pow2(8 * j));
    }
    assert t[0..] == t;
  }

  lemma GatherStep(t: seq<Byte>, j: nat)
    requires j < |t|
    ensures Xor(LittleEndian(t[j + 1..]) * Pow2(8 * (j + 1)), t[j] * Pow2(8 * j)) == LittleEndian(t[j..]) * Pow2(8 * j)
  {
    hide Xor;
    var a, p := LittleEndian(t[j + 1..]), Pow2(8 * j);
    Pow2Sum(8, 8 * j);
    assert Pow2(8) == 0x100;
    assert a * Pow2(8 * (j + 1)) == (a * 0x100) * p;
    XorScaled(a * Pow2(8), t[j], 8 * j);
    XorDisjoint(a, t[j], 8);
    assert t[j..][1..] == t[j + 1..];
  }

  // ---------------------------------------------------------------------------
  // MurmurHash3_x86_32

  function MixKey32(k: Word32): Word32 { Times32(Rotl32(Times32(k, 0xcc9e2d51), 15), 0x1b873593) }

  function MixBlock32(h: Word32, k: Word32): Word32 {
    Plus32(Times32(Rotl32(Xor32(h, MixKey32(k)), 13), 5), 0xe6546b64)
  }

  function Fmix32(h: Word32): Word32 {
    Fold32(Times32(Fold32(Times32(Fold32(h, 16), 0x85ebca6b), 13), 0xc2b2ae35), 16)
  }

  /** The state after the first n blocks. */
  function Body32(key: seq<Byte>, n: nat, seed: Word32): Word32
    requires 4 * n <= |key|
  {
    if n == 0 then seed else MixBlock32(Body32(key, n - 1, seed), GetBlock32(key, n - 1))
  }

  function MixTail32(h: Word32, t: seq<Byte>): Word32
    requires |t| < 4
  {
    if t == [] then h else Xor32(h, MixKey32(TailWord32(t)))
  }

  function TailWord32(t: seq<Byte>): Word32
    requires |t| < 4
  {
    LittleEndianBelow(t);
    Pow2Sum(8 * |t|, 32 - 8 * |t|);
    WordSizes();
    LittleEndian(t)
  }

  function Finish32(h: Word32, t: seq<Byte>, len: Word32): Word32
    requires |t| < 4
  {
    Fmix32(Xor32(MixTail32(h, t), len))
  }

  function Hash32(key: Key, seed: Word32): Word32 {
    var n := |key| / 4;
    Finish32(Body32(key, n, seed), key[4 * n..], |key|)
  }

  method Fmix32InPlace(h0: Word32) returns (h: Word32)
    ensures h == Fmix32(h0)
  {
    h := Fold32(h0, 16);
    h := Times32(h, 0x85ebca6b);
    h := Fold32(h, 13);
    h := Times32(h, 0xc2b2ae35);
    h := Fold32(h, 16);
  }

  method MurmurHash3X86(key: Key, seed: Word32) returns (out: Word32)
    ensures out == Hash32(key, seed)
  {
    hide Times32, Rotl32, Xor32, Plus32, Fmix32, GetBlock32, LittleEndian;
    var nblocks := |key| / 4;
    var h1 := seed;

    // The blocks are read at negative indices from their end.
    var i := -nblocks;
    while i != 0
      invariant -nblocks <= i <= 0
      invariant h1 == Body32(key, nblocks + i, seed)
      decreases -i
    {
      var k1 := GetBlock32(key, nblocks + i);
      k1 := Times32(k1, 0xcc9e2d51);
      k1 := Rotl32(k1, 15);
      k1 := Times32(k1, 0x1b873593);
      h1 := Xor32(h1, k1);
      h1 := Rotl32(h1, 13);
      h1 := Plus32(Times32(h1, 5), 0xe6546b64);
      i := i + 1;
    }

    var tail := key[nblocks * 4..];
    if |tail| != 0 {
      var k1 := GatherTail(tail);
      assert k1 == TailWord32(tail);
      k1 := Times32(k1, 0xcc9e2d51);
      k1 := Rotl32(k1, 15);
      k1 := Times32(k1, 0x1b873593);
      h1 := Xor32(h1, k1);
    }

    h1 := Xor32(h1, |key|);
    out := Fmix32InPlace(h1);
  }

  lemma MixKey32Injective(k: Word32, k': Word32)
    requires MixKey32(k) == MixKey32(k')
    ensures k == k'
  {
    hide Times32, Rotl32;
    var x, x' := Times32(k, 0xcc9e2d51), Times32(k', 0xcc9e2d51);
    Times32Injective(Rotl32(x, 15), Rotl32(x', 15), 0x1b873593);
    Rotl32Injective(x, x', 15);
    Times32Injective(k, k', 0xcc9e2d51);
  }

  lemma MixKeys32Differ(k: Word32, k': Word32)
    ensures MixKey32(k) == MixKey32(k') ==> k == k'
  {
    hide MixKey32;
    if MixKey32(k) == MixKey32(k') { MixKey32Injective(k, k'); }
  }

  /** A block step loses neither the state nor the key word. */
  lemma MixBlock32Injective(h: Word32, k: Word32, h': Word32, k': Word32)
    requires MixBlock32(h, k) == MixBlock32(h', k')
    ensures h == h' <==> k == k'
  {
    hide Times32, Rotl32, Xor, MixKey32, Plus32;
    var m, m' := MixKey32(k), MixKey32(k');
    var x, x' := Xor32(h, m), Xor32(h', m');
    Plus32Injective(Times32(Rotl32(x, 13), 5), Times32(Rotl32(x', 13), 5), 0xe6546b64);
    Times32Injective(Rotl32(x, 13), Rotl32(x', 13), 5);
    Rotl32Injective(x, x', 13);
    XorInjective(m, m', h);
    XorInjective(h, h', m);
    MixKeys32Differ(k, k');
  }

  lemma Fmix32Injective(h: Word32, h': Word32)
    requires Fmix32(h) == Fmix32(h')
    ensures h == h'
  {
    hide Times32, Fold;
    WordSizes();
    var a, a' := Fold32(h, 16), Fold32(h', 16);
    var b, b' := Times32(a, 0x85ebca6b), Times32(a', 0x85ebca6b);
    var c, c' := Fold32(b, 13), Fold32(b', 13);
    FoldInjective(Times32(c, 0xc2b2ae35), Times32(c', 0xc2b2ae35), 16, 32);
    Times32Injective(c, c', 0xc2b2ae35);
    FoldInjective(b, b', 13, 32);
    Times32Injective(a, a', 0x85ebca6b);
    FoldInjective(h, h', 16, 32);
  }

  lemma Finish32Injective(h: Word32, t: seq<Byte>, h': Word32, t': seq<Byte>, len: Word32)
    requires |t| == |t'| < 4 && Finish32(h, t, len) == Finish32(h', t', len)
    ensures h == h' <==> t == t'
  {
    hide Fmix32, MixKey32, Xor, LittleEndian;
    var x, x' := MixTail32(h, t), MixTail32(h', t');
    Fmix32Injective(Xor32(x, len), Xor32(x', len));
    XorInjective(x, x', len);
    if t != [] {
      var m, m' := MixKey32(TailWord32(t)), MixKey32(TailWord32(t'));
      XorInjective(h, h', m);
      XorInjective(m, m', h);
      MixKeys32Differ(TailWord32(t), TailWord32(t'));
      if TailWord32(t) == TailWord32(t') { LittleEndianInjective(t, t'); }
    }
  }

  lemma {:induction false} Body32Same(a: seq<Byte>, b: seq<Byte>, n: nat, seed: Word32)
    requires 4 * n <= |a| && 4 * n <= |b| && forall j :: 0 <= j < 4 * n ==> a[j] == b[j]
    ensures Body32(a, n, seed) == Body32(b, n, seed)
  {
    hide MixBlock32, LittleEndian;
    if n > 0 {
      Body32Same(a, b, n - 1, seed);
      assert Block(a, 4, n - 1) == Block(b, 4, n - 1);
    }
  }

  lemma {:induction false} Body32Apart(a: seq<Byte>, b: seq<Byte>, m: nat, n: nat, s: Word32, s': Word32)
    requires m <= n && 4 * n <= |a| && |a| == |b|
    requires forall j :: 4 * m <= j < |a| ==> a[j] == b[j]
    requires Body32(a, m, s) != Body32(b, m, s')
    ensures Body32(a, n, s) != Body32(b, n, s')
  {
    hide MixBlock32, LittleEndian;
    if m < n {
      Body32Apart(a, b, m, n - 1, s, s');
      assert Block(a, 4, n - 1) == Block(b, 4, n - 1);
      var k := GetBlock32(a, n - 1);
      var h, h' := Body32(a, n - 1, s), Body32(b, n - 1, s');
      if MixBlock32(h, k) == MixBlock32(h', k) { MixBlock32Injective(h, k, h', k); }
    }
  }

  /** Once the states differ, equal remainders cannot make the hashes agree. */
  lemma Hashes32Apart(a: Key, b: Key, m: nat, s: Word32, s': Word32)
    requires 4 * m <= |a| && |a| == |b|
    requires forall j :: 4 * m <= j < |a| ==> a[j] == b[j]
    requires Body32(a, m, s) != Body32(b, m, s')
    ensures Hash32(a, s) != Hash32(b, s')
  {
    hide Finish32, Body32;
    var n := |a| / 4;
    Body32Apart(a, b, m, n, s, s');
    assert a[4 * n..] == b[4 * n..];
    if Hash32(a, s) == Hash32(b, s') {
      Finish32Injective(Body32(a, n, s), a[4 * n..], Body32(b, n, s'), b[4 * n..], |a|);
    }
  }

  /** Two keys of one length that differ only inside one block, or only inside the tail, hash apart. */
  lemma OneBlockShows32(a: Key, b: Key, p: nat, seed: Word32)
    requires |a| == |b| && a != b
    requires forall j :: 0 <= j < |a| && (j < 4 * p || 4 * p + 4 <= j) ==> a[j] == b[j]
    ensures Hash32(a, seed) != Hash32(b, seed)
  {
    hide Finish32, Body32;
    var n := |a| / 4;
    if p < n {
      Body32Same(a, b, p, seed);
      BlocksDiffer(a, b, 4, p);
      OneBlockStep32(a, b, p, seed);
      Hashes32Apart(a, b, p + 1, seed, seed);
    } else {
      Body32Same(a, b, n, seed);
      TailsDiffer(a, b, 4 * n);
      if Hash32(a, seed) == Hash32(b, seed) {
        Finish32Injective(Body32(a, n, seed), a[4 * n..], Body32(b, n, seed), b[4 * n..], |a|);
      }
    }
  }

  lemma OneBlockStep32(a: seq<Byte>, b: seq<Byte>, p: nat, seed: Word32)
    requires 4 * p + 4 <= |a| && |a| == |b| && Block(a, 4, p) != Block(b, 4, p)
    requires Body32(a, p, seed) == Body32(b, p, seed)
    ensures Body32(a, p + 1, seed) != Body32(b, p + 1, seed)
  {
    hide MixBlock32, LittleEndian;
    var h, k, k' := Body32(a, p, seed), GetBlock32(a, p), GetBlock32(b, p);
    if k == k' { LittleEndianInjective(Block(a, 4, p), Block(b, 4, p)); }
    if MixBlock32(h, k) == MixBlock32(h, k') { MixBlock32Injective(h, k, h, k'); }
  }

  lemma BlocksDiffer(a: seq<Byte>, b: seq<Byte>, w: nat, p: nat)
    requires |a| == |b| && a != b && w * p + w <= |a|
    requires forall j :: 0 <= j < |a| && (j < w * p || w * p + w <= j) ==> a[j] == b[j]
    ensures Block(a, w, p) != Block(b, w, p)
  {
    var j :| 0 <= j < |a| && a[j] != b[j];
    assert Block(a, w, p)[j - w * p] == a[j] && Block(b, w, p)[j - w * p] == b[j];
  }

  lemma TailsDiffer(a: seq<Byte>, b: seq<Byte>, m: nat)
    requires |a| == |b| && a != b && m <= |a|
    requires forall j :: 0 <= j < m ==> a[j] == b[j]
    ensures a[m..] != b[m..]
  {
    var j :| 0 <= j < |a| && a[j] != b[j];
    assert a[m..][j - m] == a[j] && b[m..][j - m] == b[j];
  }

  /** One key under two seeds hashes apart. */
  lemma SeedShows32(key: Key, seed: Word32, seed': Word32)
    requires seed != seed'
    ensures Hash32(key, seed) != Hash32(key, seed')
  {
    hide Hash32;
    Hashes32Apart(key, key, 0, seed, seed');
  }

  // ---------------------------------------------------------------------------
  // MurmurHash3_x64_128

  datatype State128 = State128(h1: Word64, h2: Word64)

  const C1: Word64 := 0x87c37b91114253d5
  const C2: Word64 := 0x4cf5ad432745937f

  function MixKey1(k: Word64): Word64 { Times64(Rotl64(Times64(k, C1), 31), C2) }
  function MixKey2(k: Word64): Word64 { Times64(Rotl64(Times64(k, C2), 33), C1) }

  function MixBlock128(s: State128, k1: Word64, k2: Word64): State128 {
    var h1 := Plus64(Times64(Plus64(Rotl64(Xor64(s.h1, MixKey1(k1)), 27), s.h2), 5), 0x52dce729);
    var h2 := Plus64(Times64(Plus64(Rotl64(Xor64(s.h2, MixKey2(k2)), 31), h1), 5), 0x38495ab5);
    State128(h1, h2)
  }

  function Fmix64(k: Word64): Word64 {
    Fold64(Times64(Fold64(Times64(Fold64(k, 33), 0xff51afd7ed558ccd), 33), 0xc4ceb9fe1a85ec53), 33)
  }

  /** h1 += h2; h2 += h1 */
  function Cross(s: State128): State128 {
    var h1 := Plus64(s.h1, s.h2);
    State128(h1, Plus64(s.h2, h1))
  }

  function Body128(key: seq<Byte>, n: nat, seed: Word32): State128
    requires 16 * n <= |key|
  {
    if n == 0 then State128(seed, seed)
    else MixBlock128(Body128(key, n - 1, seed), GetBlock64(key, 2 * n - 2), GetBlock64(key, 2 * n - 1))
  }

  function TailWord64(t: seq<Byte>): Word64
    requires |t| <= 8
  {
    LittleEndianBelow(t);
    Pow2Sum(8 * |t|, 64 - 8 * |t|);
    WordSizes();
    LittleEndian(t)
  }

  /** The tail's first eight bytes go into h1, the rest into h2. */
  function MixTail128(s: State128, t: seq<Byte>): State128
    requires |t| < 16
  {
    if t == [] then s
    else if |t| <= 8 then s.(h1 := Xor64(s.h1, MixKey1(TailWord64(t))))
    else State128(Xor64(s.h1, MixKey1(TailWord64(t[..8]))), Xor64(s.h2, MixKey2(TailWord64(t[8..]))))
  }

  function Finish128(s: State128, t: seq<Byte>, len: Word64): State128
    requires |t| < 16
  {
    var u := MixTail128(s, t);
    var v := Cross(State128(Xor64(u.h1, len), Xor64(u.h2, len)));
    Cross(State128(Fmix64(v.h1), Fmix64(v.h2)))
  }

  function Hash128(key: Key, seed: Word32): State128 {
    var n := |key| / 16;
    Finish128(Body128(key, n, seed), key[16 * n..], |key|)
  }

  method Fmix64InPlace(k0: Word64) returns (k: Word64)
    ensures k == Fmix64(k0)
  {
    k := Fold64(k0, 33);
    k := Times64(k, 0xff51afd7ed558ccd);
    k := Fold64(k, 33);
    k := Times64(k, 0xc4ceb9fe1a85ec53);
    k := Fold64(k, 33);
  }

  method MurmurHash3X64(key: Key, seed: Word32) returns (out: State128)
    ensures out == Hash128(key, seed)
  {
    hide Times64, Rotl64, Xor64, Plus64, Fmix64, GetBlock64, LittleEndian;
    var nblocks := |key| / 16;
    var h1: Word64, h2: Word64 := seed, seed;

    for i := 0 to nblocks
      invariant State128(h1, h2) == Body128(key, i, seed)
    {
      var k1, k2 := GetBlock64(key, i * 2), GetBlock64(key, i * 2 + 1);
      k1 := Times64(k1, C1);
      k1 := Rotl64(k1, 31);
      k1 := Times64(k1, C2);
      h1 := Xor64(h1, k1);
      h1 := Rotl64(h1, 27);
      h1 := Plus64(h1, h2);
      h1 := Plus64(Times64(h1, 5), 0x52dce729);

      k2 := Times64(k2, C2);
      k2 := Rotl64(k2, 33);
      k2 := Times64(k2, C1);
      h2 := Xor64(h2, k2);
      h2 := Rotl64(h2, 31);
      h2 := Plus64(h2, h1);
      h2 := Plus64(Times64(h2, 5), 0x38495ab5);
    }

    h1, h2 := ApplyTail128(State128(h1, h2), key[nblocks * 16..]);
    h1 := Xor64(h1, |key|);
    h2 := Xor64(h2, |key|);
    h1 := Plus64(h1, h2);
    h2 := Plus64(h2, h1);
    h1 := Fmix64InPlace(h1);
    h2 := Fmix64InPlace(h2);
    h1 := Plus64(h1, h2);
    h2 := Plus64(h2, h1);
    out := State128(h1, h2);
  }

  /** The switch over the tail. */
  method ApplyTail128(s: State128, tail: seq<Byte>) returns (h1: Word64, h2: Word64)
    requires |tail| < 16
    ensures State128(h1, h2) == MixTail128(s, tail)
  {
    hide Times64, Rotl64, Xor64, LittleEndian;
    h1, h2 := s.h1, s.h2;
    if |tail| > 8 {
      var k2 := GatherTail(tail[8..]);
      assert k2 == TailWord64(tail[8..]);
      k2 := Times64(k2, C2);
      k2 := Rotl64(k2, 33);
      k2 := Times64(k2, C1);
      h2 := Xor64(h2, k2);
    }
    if |tail| > 0 {
      var first := if |tail| > 8 then tail[..8] else tail;
      var k1 := GatherTail(first);
      assert k1 == TailWord64(first);
      k1 := Times64(k1, C1);
      k1 := Rotl64(k1, 31);
      k1 := Times64(k1, C2);
      h1 := Xor64(h1, k1);
    }
  }

  lemma MixKeys1Differ(k: Word64, k': Word64)
    ensures MixKey1(k) == MixKey1(k') ==> k == k'
  {
    hide Times64, Rotl64;
    if MixKey1(k) == MixKey1(k') {
      var x, x' := Times64(k, C1), Times64(k', C1);
      Times64Injective(Rotl64(x, 31), Rotl64(x', 31), C2);
      Rotl64Injective(x, x', 31);
      Times64Injective(k, k', C1);
    }
  }

  lemma MixKeys2Differ(k: Word64, k': Word64)
    ensures MixKey2(k) == MixKey2(k') ==> k == k'
  {
    hide Times64, Rotl64;
    if MixKey2(k) == MixKey2(k') {
      var x, x' := Times64(k, C2), Times64(k', C2);
      Times64Injective(Rotl64(x, 33), Rotl64(x', 33), C1);
      Rotl64Injective(x, x', 33);
      Times64Injective(k, k', C2);
    }
  }

  /** One half of a block step: rotate, add c, multiply by 5, add d. */
  function HalfStep(x: Word64, r: nat, c: Word64, d: Word64): Word64
    requires r <= 64
  {
    Plus64(Times64(Plus64(Rotl64(x, r), c), 5), d)
  }

  lemma HalfStepInjective(x: Word64, x': Word64, r: nat, c: Word64, d: Word64)
    requires r <= 64 && HalfStep(x, r, c, d) == HalfStep(x', r, c, d)
    ensures x == x'
  {
    hide Times64, Rotl64, Plus64;
    var y, y' := Plus64(Rotl64(x, r), c), Plus64(Rotl64(x', r), c);
    Plus64Injective(Times64(y, 5), Times64(y', 5), d);
    Times64Injective(y, y', 5);
    Plus64Injective(Rotl64(x, r), Rotl64(x', r), c);
    Rotl64Injective(x, x', r);
  }

  /** A block step loses neither the state nor the two key words. */
  lemma MixBlock128Injective(s: State128, k1: Word64, k2: Word64, s': State128, k1': Word64, k2': Word64)
    requires MixBlock128(s, k1, k2) == MixBlock128(s', k1', k2')
    ensures s == s' <==> k1 == k1' && k2 == k2'
  {
    hide Times64, Rotl64, Plus64, Xor, MixKey1, MixKey2;
    var m1, m1', m2, m2' := MixKey1(k1), MixKey1(k1'), MixKey2(k2), MixKey2(k2');
    var t := MixBlock128(s, k1, k2);
    var x, x' := Xor64(s.h2, m2), Xor64(s'.h2, m2');
    assert t.h2 == HalfStep(x, 31, t.h1, 0x38495ab5) == HalfStep(x', 31, t.h1, 0x38495ab5);
    HalfStepInjective(x, x', 31, t.h1, 0x38495ab5);
    XorInjective(m2, m2', s.h2);
    XorInjective(s.h2, s'.h2, m2);
    MixKeys1Differ(k1, k1');
    MixKeys2Differ(k2, k2');
    if s.h2 == s'.h2 {
      var y, y' := Xor64(s.h1, m1), Xor64(s'.h1, m1');
      HalfStepInjective(y, y', 27, s.h2, 0x52dce729);
      XorInjective(m1, m1', s.h1);
      XorInjective(s.h1, s'.h1, m1);
    }
  }

  lemma Fmix64Injective(k: Word64, k': Word64)
    ensures Fmix64(k) == Fmix64(k') ==> k == k'
  {
    hide Times64, Fold;
    if Fmix64(k) == Fmix64(k') {
      WordSizes();
      var a, a' := Fold64(k, 33), Fold64(k', 33);
      var b, b' := Times64(a, 0xff51afd7ed558ccd), Times64(a', 0xff51afd7ed558ccd);
      var c, c' := Fold64(b, 33), Fold64(b', 33);
      FoldInjective(Times64(c, 0xc4ceb9fe1a85ec53), Times64(c', 0xc4ceb9fe1a85ec53), 33, 64);
      Times64Injective(c, c', 0xc4ceb9fe1a85ec53);
      FoldInjective(b, b', 33, 64);
      Times64Injective(a, a', 0xff51afd7ed558ccd);
      FoldInjective(k, k', 33, 64);
    }
  }

  lemma CrossInjective(s: State128, s': State128)
    requires Cross(s) == Cross(s')
    ensures s == s'
  {
    hide Plus64;
    Plus64Injective(s.h2, s'.h2, Cross(s).h1);
    Plus64Injective(s.h1, s'.h1, s.h2);
  }

  lemma MixTail128Injective(s: State128, t: seq<Byte>, s': State128, t': seq<Byte>)
    requires |t| == |t'| < 16 && MixTail128(s, t) == MixTail128(s', t')
    ensures s == s' <==> t == t'
  {
    hide MixKey1, MixKey2, Xor, LittleEndian;
    if |t| > 8 {
      TailHalf(s.h1, t[..8], s'.h1, t'[..8], true);
      TailHalf(s.h2, t[8..], s'.h2, t'[8..], false);
      assert t == t[..8] + t[8..] && t' == t'[..8] + t'[8..];
    } else if t != [] {
      TailHalf(s.h1, t, s'.h1, t', true);
    }
  }

  lemma TailHalf(h: Word64, t: seq<Byte>, h': Word64, t': seq<Byte>, first: bool)
    requires |t| == |t'| <= 8
    requires var k, k' := TailWord64(t), TailWord64(t');
      if first then Xor64(h, MixKey1(k)) == Xor64(h', MixKey1(k')) else Xor64(h, MixKey2(k)) == Xor64(h', MixKey2(k'))
    ensures h == h' <==> t == t'
  {
    hide MixKey1, MixKey2, Xor, LittleEndian;
    var k, k' := TailWord64(t), TailWord64(t');
    var m := if first then MixKey1(k) else MixKey2(k);
    var m' := if first then MixKey1(k') else MixKey2(k');
    XorInjective(h, h', m);
    XorInjective(m, m', h);
    MixKeys1Differ(k, k');
    MixKeys2Differ(k, k');
    if k == k' { LittleEndianInjective(t, t'); }
  }

  lemma Finish128Injective(s: State128, t: seq<Byte>, s': State128, t': seq<Byte>, len: Word64)
    requires |t| == |t'| < 16 && Finish128(s, t, len) == Finish128(s', t', len)
    ensures s == s' <==> t == t'
  {
    hide MixTail128, Fmix64, Cross, Xor;
    var u, u' := MixTail128(s, t), MixTail128(s', t');
    var w := State128(Xor64(u.h1, len), Xor64(u.h2, len));
    var w' := State128(Xor64(u'.h1, len), Xor64(u'.h2, len));
    var v, v' := Cross(w), Cross(w');
    CrossInjective(State128(Fmix64(v.h1), Fmix64(v.h2)), State128(Fmix64(v'.h1), Fmix64(v'.h2)));
    Fmix64Injective(v.h1, v'.h1);
    Fmix64Injective(v.h2, v'.h2);
    CrossInjective(w, w');
    XorInjective(u.h1, u'.h1, len);
    XorInjective(u.h2, u'.h2, len);
    MixTail128Injective(s, t, s', t');
  }

  lemma {:induction false} Body128Same(a: seq<Byte>, b: seq<Byte>, n: nat, seed: Word32)
    requires 16 * n <= |a| && 16 * n <= |b| && forall j :: 0 <= j < 16 * n ==> a[j] == b[j]
    ensures Body128(a, n, seed) == Body128(b, n, seed)
  {
    hide MixBlock128, LittleEndian;
    if n > 0 {
      Body128Same(a, b, n - 1, seed);
      assert Block(a, 8, 2 * n - 2) == Block(b, 8, 2 * n - 2) && Block(a, 8, 2 * n - 1) == Block(b, 8, 2 * n - 1);
    }
  }

  lemma {:induction false} Body128Apart(a: seq<Byte>, b: seq<Byte>, m: nat, n: nat, s: Word32, s': Word32)
    requires m <= n && 16 * n <= |a| && |a| == |b|
    requires forall j :: 16 * m <= j < |a| ==> a[j] == b[j]
    requires Body128(a, m, s) != Body128(b, m, s')
    ensures Body128(a, n, s) != Body128(b, n, s')
  {
    hide MixBlock128, LittleEndian;
    if m < n {
      Body128Apart(a, b, m, n - 1, s, s');
      assert Block(a, 8, 2 * n - 2) == Block(b, 8, 2 * n - 2) && Block(a, 8, 2 * n - 1) == Block(b, 8, 2 * n - 1);
      var k1, k2 := GetBlock64(a, 2 * n - 2), GetBlock64(a, 2 * n - 1);
      var h, h' := Body128(a, n - 1, s), Body128(b, n - 1, s');
      if MixBlock128(h, k1, k2) == MixBlock128(h', k1, k2) { MixBlock128Injective(h, k1, k2, h', k1, k2); }
    }
  }

  lemma Hashes128Apart(a: Key, b: Key, m: nat, s: Word32, s': Word32)
    requires 16 * m <= |a| && |a| == |b|
    requires forall j :: 16 * m <= j < |a| ==> a[j] == b[j]
    requires Body128(a, m, s) != Body128(b, m, s')
    ensures Hash128(a, s) != Hash128(b, s')
  {
    hide Finish128, Body128;
    var n := |a| / 16;
    Body128Apart(a, b, m, n, s, s');
    assert a[16 * n..] == b[16 * n..];
    if Hash128(a, s) == Hash128(b, s') {
      Finish128Injective(Body128(a, n, s), a[16 * n..], Body128(b, n, s'), b[16 * n..], |a|);
    }
  }

  lemma OneBlockStep128(a: seq<Byte>, b: seq<Byte>, p: nat, seed: Word32)
    requires 16 * p + 16 <= |a| && |a| == |b| && Block(a, 16, p) != Block(b, 16, p)
    requires Body128(a, p, seed) == Body128(b, p, seed)
    ensures Body128(a, p + 1, seed) != Body128(b, p + 1, seed)
  {
    hide MixBlock128, LittleEndian;
    var s := Body128(a, p, seed);
    var k1, k2 := GetBlock64(a, 2 * p), GetBlock64(a, 2 * p + 1);
    var k1', k2' := GetBlock64(b, 2 * p), GetBlock64(b, 2 * p + 1);
    assert Block(a, 16, p) == Block(a, 8, 2 * p) + Block(a, 8, 2 * p + 1);
    assert Block(b, 16, p) == Block(b, 8, 2 * p) + Block(b, 8, 2 * p + 1);
    if k1 == k1' { LittleEndianInjective(Block(a, 8, 2 * p), Block(b, 8, 2 * p)); }
    if k2 == k2' { LittleEndianInjective(Block(a, 8, 2 * p + 1), Block(b, 8, 2 * p + 1)); }
    if MixBlock128(s, k1, k2) == MixBlock128(s, k1', k2') { MixBlock128Injective(s, k1, k2, s, k1', k2'); }
  }

  /** Two keys of one length that differ only inside one block, or only inside the tail, hash apart. */
  lemma OneBlockShows128(a: Key, b: Key, p: nat, seed: Word32)
    requires |a| == |b| && a != b
    requires forall j :: 0 <= j < |a| && (j < 16 * p || 16 * p + 16 <= j) ==> a[j] == b[j]
    ensures Hash128(a, seed) != Hash128(b, seed)
  {
    hide Finish128, Body128;
    var n := |a| / 16;
    if p < n {
      Body128Same(a, b, p, seed);
      BlocksDiffer(a, b, 16, p);
      OneBlockStep128(a, b, p, seed);
      Hashes128Apart(a, b, p + 1, seed, seed);
    } else {
      Body128Same(a, b, n, seed);
      TailsDiffer(a, b, 16 * n);
      if Hash128(a, seed) == Hash128(b, seed) {
        Finish128Injective(Body128(a, n, seed), a[16 * n..], Body128(b, n, seed), b[16 * n..], |a|);
      }
    }
  }

  /** One key under two seeds hashes apart. */
  lemma SeedShows128(key: Key, seed: Word32, seed': Word32)
    requires seed != seed'
    ensures Hash128(key, seed) != Hash128(key, seed')
  {
    hide Hash128;
    Hashes128Apart(key, key, 0, seed, seed');
  }
}
