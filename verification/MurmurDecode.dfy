/** MurmurHash3 read backwards (redis/src/MurmurHash3.cc): from a hash, and the hash of the key without its
    last bytes, these bytes come back. The decoders are written with divisions, remainders and the inverses of
    the constants alone, not with the steps of the hash, so they say what every one of those steps does. */
module MurmurDecode {
  import opened MurmurHash3
  import opened Words

  // ---------------------------------------------------------------------------
  // Undoing the operations on words

  function Minus(x: nat, c: nat, w: nat): nat
    requires x < w && c < w
  {
    (x + (w - c)) % w
  }

  lemma SumLessOne(x: nat, c: nat, w: nat)
    requires x < w && c < w
    ensures Minus((x + c) % w, c, w) == x
  {
    if x + c < w {
      DivideUnique(x + c, w, 0, x + c);
      DivideUnique(x + w, w, 1, x);
    } else {
      DivideUnique(x + c, w, 1, x + c - w);
      DivideUnique(x, w, 0, x);
    }
  }

  /** The bits of x above the lowest r. */
  function Above(x: nat, r: nat): (d: nat)
    ensures d <= x
  {
    QuotientLess(x, Pow2(r));
    x / Pow2(r)
  }

  lemma QuotientLess(x: nat, p: nat)
    requires p >= 1
    ensures 0 <= x / p <= x
  {
    assert x == p * (x / p) + x % p;
    if x / p > x { MultipleTooBig(x / p, p); }
  }

  /** A rotation right by r of a word of k bits. */
  function Rotr(x: nat, r: nat, k: nat): nat
    requires r <= k
  {
    ProductIsNat(x % Pow2(r), Pow2(k - r));
    Above(x, r) + (x % Pow2(r)) * Pow2(k - r)
  }

  lemma AboveAndRest(x: nat, r: nat) returns (t: nat)
    ensures x == Pow2(r) * Above(x, r) + t && t == x % Pow2(r) && t < Pow2(r)
  {
    hide Pow2;
    t := x % Pow2(r);
  }

  lemma RotrIs(x: nat, r: nat, k: nat, t: nat)
    requires r <= k && t == x % Pow2(r)
    ensures Rotr(x, r, k) == Above(x, r) + t * Pow2(k - r)
  {
    hide Pow2, Above;
  }

  lemma RotrBelow(x: nat, r: nat, k: nat)
    requires r <= k && x < Pow2(k)
    ensures Rotr(x, r, k) < Pow2(k)
  {
    hide Pow2, Above, Rotr;
    var q, a, b := Above(x, r), Pow2(r), Pow2(k - r);
    var t := AboveAndRest(x, r);
    Pow2Sum(r, k - r);
    QuotientBelow(x, b, a, q, t);
    RotrIs(x, r, k, t);
    PartsBelow(q, t, a, b);
  }

  lemma PartsBelow(q: nat, t: nat, a: nat, b: nat)
    requires q < b && t < a
    ensures q + t * b < a * b
  {
    ProductBelow(t, a, b);
  }

  function Rotr32(x: Word32, r: nat): Word32
    requires r <= 32
  {
    WordSizes();
    RotrBelow(x, r, 32);
    Rotr(x, r, 32)
  }

  function Rotr64(x: Word64, r: nat): Word64
    requires r <= 64
  {
    WordSizes();
    RotrBelow(x, r, 64);
    Rotr(x, r, 64)
  }

  lemma RotationUndone(x: nat, r: nat, k: nat)
    requires r <= k && x < Pow2(k)
    ensures Pow2(r) * Pow2(k - r) >= 1 && Rotr(Rotl(x, Pow2(r), Pow2(k - r)), r, k) == x
  {
    hide Pow2, Rotl;
    var a, b := Pow2(r), Pow2(k - r);
    Pow2Sum(r, k - r);
    RotlParts(x, a, b);
    DivideUnique(Rotl(x, a, b), a, x % b, x / b);
  }

  lemma {:induction false} ShiftDivides(x: nat, k: nat)
    ensures Shr(x, k) == Above(x, k)
    decreases k
  {
    if k > 0 {
      ShiftDivides(x / 2, k - 1);
      HalfDivided(x, Pow2(k - 1));
    }
  }

  lemma HalfDivided(x: nat, p: nat)
    requires p >= 1
    ensures (x / 2) / p == x / (2 * p)
  {
    var q := (x / 2) / p;
    assert x / 2 == p * q + (x / 2) % p;
    DivideUnique(x, 2 * p, q, 2 * ((x / 2) % p) + x % 2);
  }

  /** Two shifts by r bits leave nothing of a word: the fold is its own inverse. */
  lemma FoldTwice(h: nat, r: nat, k: nat)
    requires h < Pow2(k) && k <= 2 * r
    ensures Xor(Fold(h, r), Above(Fold(h, r), r)) == h
  {
    hide Xor, Shr, Pow2, Fold;
    var y := Fold(h, r);
    FoldInverse(h, r, k, 2);
    ShiftDivides(y, r);
    UnfoldTwice(y, r);
  }

  lemma UnfoldTwice(y: nat, r: nat)
    ensures Unfolded(y, r, 2) == Xor(y, Shr(y, r))
  {
    ShrZero(r);
    XorZero(y);
    hide Xor, Shr;
    assert Unfolded(y, r, 1) == Xor(y, Shr(0, r)) == y;
  }

  lemma FoldThrice(h: nat, r: nat, k: nat)
    requires h < Pow2(k) && k <= 3 * r
    ensures var y := Fold(h, r); Xor(y, Above(Xor(y, Above(y, r)), r)) == h
  {
    hide Xor, Shr, Pow2, Fold;
    var y := Fold(h, r);
    FoldInverse(h, r, k, 3);
    ShiftDivides(y, r);
    UnfoldTwice(y, r);
    ShiftDivides(Xor(y, Shr(y, r)), r);
    assert Unfolded(y, r, 3) == Xor(y, Shr(Unfolded(y, r, 2), r));
  }

  /** The n low bytes of a word, the lowest first. */
  function Bytes(w: nat, n: nat): (t: seq<Byte>)
    ensures |t| == n
  {
    if n == 0 then [] else [w % 0x100] + Bytes(w / 0x100, n - 1)
  }

  /** t, filled up with zeros to n bytes. */
  function Padded(t: seq<Byte>, n: nat): (p: seq<Byte>)
    requires |t| <= n
    ensures |p| == n && t <= p
  {
    t + seq(n - |t|, _ => 0)
  }

  lemma {:induction false} BytesOfWord(t: seq<Byte>, n: nat)
    requires |t| <= n
    ensures Bytes(LittleEndian(t), n) == Padded(t, n)
  {
    if t == [] {
      BytesOfZero(n);
    } else {
      BytesOfWord(t[1..], n - 1);
      DivideUnique(LittleEndian(t), 0x100, LittleEndian(t[1..]), t[0]);
      assert [t[0]] + Padded(t[1..], n - 1) == Padded(t, n);
    }
  }

  lemma NoBytes()
    ensures LittleEndian([]) == 0
  {
  }

  lemma {:induction false} BytesOfZero(n: nat)
    ensures Bytes(0, n) == Padded([], n)
  {
    if n > 0 {
      BytesOfZero(n - 1);
      assert [0] + Padded([], n - 1) == Padded([], n);
    }
  }

  // ---------------------------------------------------------------------------
  // MurmurHash3_x64_128 backwards

  /** What is left of k1 before it was multiplied, rotated by 31 and multiplied. */
  function Unkey1(m: Word64): Word64 {
    var x := (m * 0xa81e14edd9de2c7f) % W64;
    (Rotr64(x, 31) * 0xa98409e882ce4d7d) % W64
  }

  /** The same for k2, which is rotated by 33. */
  function Unkey2(m: Word64): Word64 {
    var x := (m * 0xa98409e882ce4d7d) % W64;
    (Rotr64(x, 33) * 0xa81e14edd9de2c7f) % W64
  }

  function Unfmix64(y: Word64): Word64 {
    var a := (Xor64(y, Above(y, 33)) * 0x9cb4b2f8129337db) % W64;
    var b := (Xor64(a, Above(a, 33)) * 0x4f74430c22a54005) % W64;
    Xor64(b, Above(b, 33))
  }

  function Uncross(s: State128): State128 {
    var h2 := Minus(s.h2, s.h1, W64);
    State128(Minus(s.h1, h2, W64), h2)
  }

  /** The two words before the finalization of a key of len bytes. */
  function Unfinished128(out: State128, len: Word64): State128 {
    var v := Uncross(out);
    var w := Uncross(State128(Unfmix64(v.h1), Unfmix64(v.h2)));
    State128(Xor64(w.h1, len), Xor64(w.h2, len))
  }

  /** What a word was before it was rotated left by r, increased by c, multiplied by 5 and increased by d. */
  function Unhalf(h: Word64, r: nat, c: Word64, d: Word64): Word64
    requires r <= 64
  {
    var x := Minus((Minus(h, d, W64) * 0xcccccccccccccccd) % W64, c, W64);
    Rotr64(x, r)
  }

  /** The last n bytes of a key of len bytes, filled up with zeros, from its hash and the two words of the
      state before them. */
  function Decode128(out: State128, before: State128, len: Word64, n: nat): (t: seq<Byte>)
    ensures |t| == 16
  {
    var after := Unfinished128(out, len);
    if n == 16 then
      var x1 := Unhalf(after.h1, 27, before.h2, 0x52dce729);
      var x2 := Unhalf(after.h2, 31, after.h1, 0x38495ab5);
      Bytes(Unkey1(Xor64(x1, before.h1)), 8) + Bytes(Unkey2(Xor64(x2, before.h2)), 8)
    else
      Bytes(Unkey1(Xor64(after.h1, before.h1)), 8) + Bytes(Unkey2(Xor64(after.h2, before.h2)), 8)
  }

  lemma RotationUndone64(x: Word64, r: nat)
    requires r <= 64
    ensures Rotr64(Rotl64(x, r), r) == x
  {
    hide Rotl, Rotr;
    WordSizes();
    RotationUndone(x, r, 64);
  }

  lemma Key1Undone(k: Word64)
    ensures Unkey1(MixKey1(k)) == k
  {
    hide Rotl64, Rotr64;
    var x := Times64(k, C1);
    var y := Rotl64(x, 31);
    TimesInverse(y, C2, 0xa81e14edd9de2c7f, W64, 0x328a44c9121df37a);
    RotationUndone64(x, 31);
    TimesInverse(k, C1, 0xa98409e882ce4d7d, W64, 0x59e6129fa91071c3);
  }

  lemma Key2Undone(k: Word64)
    ensures Unkey2(MixKey2(k)) == k
  {
    hide Rotl64, Rotr64;
    var x := Times64(k, C2);
    var y := Rotl64(x, 33);
    TimesInverse(y, C1, 0xa98409e882ce4d7d, W64, 0x59e6129fa91071c3);
    RotationUndone64(x, 33);
    TimesInverse(k, C2, 0xa81e14edd9de2c7f, W64, 0x328a44c9121df37a);
  }

  /** Where no byte was read, nothing comes back. */
  lemma NoKeys()
    ensures Unkey1(0) == 0 && Unkey2(0) == 0
  {
    hide Pow2;
    Divided(Pow2(31), 0);
    Divided(Pow2(33), 0);
  }

  lemma Divided(p: nat, r: nat)
    requires r < p
    ensures r / p == 0 && r % p == r
  {
    DivideUnique(r, p, 0, r);
  }

  lemma FmixUndone64(k: Word64)
    ensures Unfmix64(Fmix64(k)) == k
  {
    hide Fold, Xor, Pow2, Above;
    WordSizes();
    var a := Fold64(k, 33);
    var b := Times64(a, 0xff51afd7ed558ccd);
    var c := Fold64(b, 33);
    var d := Times64(c, 0xc4ceb9fe1a85ec53);
    FoldTwice(d, 33, 64);
    TimesInverse(c, 0xc4ceb9fe1a85ec53, 0x9cb4b2f8129337db, W64, 0x7878e44812b2d581);
    FoldTwice(b, 33, 64);
    TimesInverse(a, 0xff51afd7ed558ccd, 0x4f74430c22a54005, W64, 0x4f3e2925cb7c5b4e);
    FoldTwice(k, 33, 64);
  }

  lemma CrossUndone(s: State128)
    ensures Uncross(Cross(s)) == s
  {
    hide Minus;
    var t := Cross(s);
    SumLessOne(s.h2, t.h1, W64);
    SumLessOne(s.h1, s.h2, W64);
  }

  lemma FinishUndone128(s: State128, t: seq<Byte>, len: Word64)
    requires |t| < 16
    ensures Unfinished128(Finish128(s, t, len), len) == MixTail128(s, t)
  {
    hide MixTail128, Cross, Uncross, Fmix64, Unfmix64, Xor;
    var u := MixTail128(s, t);
    var w := State128(Xor64(u.h1, len), Xor64(u.h2, len));
    var v := Cross(w);
    CrossUndone(State128(Fmix64(v.h1), Fmix64(v.h2)));
    FmixUndone64(v.h1);
    FmixUndone64(v.h2);
    CrossUndone(w);
    XorCancels(u.h1, len);
    XorCancels(u.h2, len);
  }

  lemma HalfUndone(x: Word64, r: nat, c: Word64, d: Word64)
    requires r <= 64
    ensures Unhalf(HalfStep(x, r, c, d), r, c, d) == x
  {
    hide Rotl64, Rotr64, Minus;
    var y := Plus64(Rotl64(x, r), c);
    SumLessOne(Times64(y, 5), d, W64);
    TimesInverse(y, 5, 0xcccccccccccccccd, W64, 4);
    SumLessOne(Rotl64(x, r), c, W64);
    RotationUndone64(x, r);
  }

  /** A block gives its two words back. */
  lemma BlockUndone128(s: State128, k1: Word64, k2: Word64)
    ensures var t := MixBlock128(s, k1, k2);
      && Unkey1(Xor64(Unhalf(t.h1, 27, s.h2, 0x52dce729), s.h1)) == k1
      && Unkey2(Xor64(Unhalf(t.h2, 31, t.h1, 0x38495ab5), s.h2)) == k2
  {
    hide Times64, Rotl64, Plus64, Xor, MixKey1, MixKey2, Unkey1, Unkey2, Unhalf;
    var t := MixBlock128(s, k1, k2);
    var m1, m2 := MixKey1(k1), MixKey2(k2);
    assert t.h1 == HalfStep(Xor64(s.h1, m1), 27, s.h2, 0x52dce729);
    assert t.h2 == HalfStep(Xor64(s.h2, m2), 31, t.h1, 0x38495ab5);
    HalfUndone(Xor64(s.h1, m1), 27, s.h2, 0x52dce729);
    HalfUndone(Xor64(s.h2, m2), 31, t.h1, 0x38495ab5);
    WordReturns(s.h1, m1);
    WordReturns(s.h2, m2);
    Key1Undone(k1);
    Key2Undone(k2);
  }

  lemma WordReturns(h: nat, m: nat)
    ensures Xor(Xor(h, m), h) == m
  {
    hide Xor;
    XorSymmetric(h, m);
    XorCancels(m, h);
  }

  /** A tail gives its bytes back. */
  lemma TailUndone128(s: State128, t: seq<Byte>)
    requires |t| < 16
    ensures var u := MixTail128(s, t);
      Bytes(Unkey1(Xor64(u.h1, s.h1)), 8) + Bytes(Unkey2(Xor64(u.h2, s.h2)), 8) == Padded(t, 16)
  {
    hide Xor, MixKey1, MixKey2, Unkey1, Unkey2, LittleEndian, Bytes;
    var first, second := if |t| <= 8 then t else t[..8], if |t| <= 8 then [] else t[8..];
    NoKeys();
    XorZero(s.h1);
    XorZero(s.h2);
    WordReturns(s.h1, 0);
    WordReturns(s.h2, 0);
    BytesOfWord(first, 8);
    BytesOfWord(second, 8);
    NoBytes();
    if t != [] {
      WordReturns(s.h1, MixKey1(TailWord64(first)));
      Key1Undone(TailWord64(first));
    }
    if |t| > 8 {
      WordReturns(s.h2, MixKey2(TailWord64(second)));
      Key2Undone(TailWord64(second));
    }
    assert Padded(first, 8) + Padded(second, 8) == Padded(t, 16);
  }

  /** The state before the last bytes is what the hash of the key without them gives. */
  lemma StateReturns128(p: Key, seed: Word32)
    requires |p| % 16 == 0
    ensures Unfinished128(Hash128(p, seed), |p|) == Body128(p, |p| / 16, seed)
  {
    hide Unfinished128, Finish128, Body128;
    var n := |p| / 16;
    assert p[16 * n..] == [];
    FinishUndone128(Body128(p, n, seed), [], |p|);
  }

  lemma BlocksOf(p: seq<Byte>, t: seq<Byte>, n: nat)
    requires |p| == 16 * n && |t| == 16
    ensures Block(p + t, 8, 2 * n) == t[..8] && Block(p + t, 8, 2 * n + 1) == t[8..]
  {
    assert (p + t)[16 * n..16 * n + 8] == t[..8] && (p + t)[16 * n + 8..16 * n + 16] == t[8..];
  }

  /** One more block. */
  lemma Extended128(p: Key, t: seq<Byte>, seed: Word32)
    requires |p| % 16 == 0 && |t| == 16
    ensures Body128(p + t, |p| / 16 + 1, seed)
      == MixBlock128(Body128(p, |p| / 16, seed), TailWord64(t[..8]), TailWord64(t[8..]))
  {
    hide MixBlock128, LittleEndian, Block;
    var n := |p| / 16;
    Body128Same(p, p + t, n, seed);
    BlocksOf(p, t, n);
  }

  lemma LastBlockReturns128(s: State128, t: seq<Byte>)
    requires |t| == 16
    ensures var u := MixBlock128(s, TailWord64(t[..8]), TailWord64(t[8..]));
      Bytes(Unkey1(Xor64(Unhalf(u.h1, 27, s.h2, 0x52dce729), s.h1)), 8)
      + Bytes(Unkey2(Xor64(Unhalf(u.h2, 31, u.h1, 0x38495ab5), s.h2)), 8) == Padded(t, 16)
  {
    hide MixBlock128, Unkey1, Unkey2, Unhalf, LittleEndian, Xor, Bytes;
    BlockUndone128(s, TailWord64(t[..8]), TailWord64(t[8..]));
    BytesOfWord(t[..8], 8);
    BytesOfWord(t[8..], 8);
    assert Padded(t[..8], 8) + Padded(t[8..], 8) == Padded(t, 16);
  }

  /** The last bytes of a key, up to a whole block, come back from its hash and the hash of the key without
      them, for every key and every seed. */
  lemma LastBytesReturn128(p: Key, t: seq<Byte>, seed: Word32)
    requires |p| % 16 == 0 && |t| <= 16 && |p + t| < 0x8000_0000
    ensures Decode128(Hash128(p + t, seed), Unfinished128(Hash128(p, seed), |p|), |p + t|, |t|) == Padded(t, 16)
  {
    hide Unfinished128, Finish128, MixBlock128, MixTail128, Body128, Unkey1, Unkey2, Unhalf, Xor, Bytes, Padded;
    var n, key := |p| / 16, p + t;
    var s := Body128(p, n, seed);
    StateReturns128(p, seed);
    if |t| == 16 {
      StateReturns128(key, seed);
      Extended128(p, t, seed);
      LastBlockReturns128(s, t);
    } else {
      Body128Same(p, key, n, seed);
      assert key[16 * n..] == t;
      FinishUndone128(s, t, |key|);
      TailUndone128(s, t);
    }
  }

  /** The empty key leaves the seed in both words. */
  lemma SeedReturns128(seed: Word32)
    ensures Unfinished128(Hash128([], seed), 0) == State128(seed, seed)
  {
    hide Unfinished128, Hash128;
    StateReturns128([], seed);
  }

  /** Every key of at most sixteen bytes comes back from its hash, its length and the seed. */
  lemma ShortKeysReturn128(key: Key, seed: Word32)
    requires |key| <= 16
    ensures Decode128(Hash128(key, seed), State128(seed, seed), |key|, |key|) == Padded(key, 16)
  {
    hide Unfinished128, Hash128, Decode128;
    SeedReturns128(seed);
    LastBytesReturn128([], key, seed);
    assert [] + key == key;
  }

  // ---------------------------------------------------------------------------
  // MurmurHash3_x86_32 backwards

  /** What is left of k1 before it was multiplied, rotated by 15 and multiplied. */
  function Unkey(m: Word32): Word32 {
    var x := (m * 0x56ed309b) % W32;
    (Rotr32(x, 15) * 0xdee13bb1) % W32
  }

  function Unfmix32(y: Word32): Word32 {
    var a := (Xor32(y, Above(y, 16)) * 0x7ed1b41d) % W32;
    var b := (Xor32(a, Above(Xor32(a, Above(a, 13)), 13)) * 0xa5cb9243) % W32;
    Xor32(b, Above(b, 16))
  }

  /** The word before the finalization of a key of len bytes. */
  function Unfinished32(out: Word32, len: Word32): Word32 { Xor32(Unfmix32(out), len) }

  /** What the state was before it was rotated left by 13, multiplied by 5 and increased. */
  function Unround(h: Word32): Word32 { Rotr32((Minus(h, 0xe6546b64, W32) * 0xcccccccd) % W32, 13) }

  /** The last n bytes of a key of len bytes, filled up with zeros, from its hash and the state before them. */
  function Decode32(out: Word32, before: Word32, len: Word32, n: nat): (t: seq<Byte>)
    ensures |t| == 4
  {
    var after := Unfinished32(out, len);
    if n == 4 then
      Bytes(Unkey(Xor32(Unround(after), before)), 4)
    else
      Bytes(Unkey(Xor32(after, before)), 4)
  }

  lemma RotationUndone32(x: Word32, r: nat)
    requires r <= 32
    ensures Rotr32(Rotl32(x, r), r) == x
  {
    hide Rotl, Rotr;
    WordSizes();
    RotationUndone(x, r, 32);
  }

  lemma KeyUndone(k: Word32)
    ensures Unkey(MixKey32(k)) == k
  {
    hide Rotl32, Rotr32;
    var x := Times32(k, 0xcc9e2d51);
    var y := Rotl32(x, 15);
    TimesInverse(y, 0x1b873593, 0x56ed309b, W32, 0x958ed66);
    RotationUndone32(x, 15);
    TimesInverse(k, 0xcc9e2d51, 0xdee13bb1, W32, 0xb2253208);
  }

  lemma NoKey()
    ensures Unkey(0) == 0
  {
    hide Pow2;
    Divided(Pow2(15), 0);
  }

  lemma FmixUndone32(h: Word32)
    ensures Unfmix32(Fmix32(h)) == h
  {
    hide Fold, Xor, Pow2, Above;
    WordSizes();
    var a := Fold32(h, 16);
    var b := Times32(a, 0x85ebca6b);
    var c := Fold32(b, 13);
    var d := Times32(c, 0xc2b2ae35);
    FoldTwice(d, 16, 32);
    TimesInverse(c, 0xc2b2ae35, 0x7ed1b41d, W32, 0x60736e9a);
    FoldThrice(b, 13, 32);
    TimesInverse(a, 0x85ebca6b, 0xa5cb9243, W32, 0x56bb77f4);
    FoldTwice(h, 16, 32);
  }

  lemma FinishUndone32(h: Word32, t: seq<Byte>, len: Word32)
    requires |t| < 4
    ensures Unfinished32(Finish32(h, t, len), len) == MixTail32(h, t)
  {
    hide MixTail32, Fmix32, Unfmix32, Xor;
    FmixUndone32(Xor32(MixTail32(h, t), len));
    XorCancels(MixTail32(h, t), len);
  }

  lemma BlockUndone32(h: Word32, k: Word32)
    ensures Unkey(Xor32(Unround(MixBlock32(h, k)), h)) == k
  {
    hide Rotl32, Rotr32, Xor, MixKey32, Unkey, Minus;
    var m := MixKey32(k);
    var y := Rotl32(Xor32(h, m), 13);
    SumLessOne(Times32(y, 5), 0xe6546b64, W32);
    TimesInverse(y, 5, 0xcccccccd, W32, 4);
    RotationUndone32(Xor32(h, m), 13);
    WordReturns(h, m);
    KeyUndone(k);
  }

  lemma TailUndone32(h: Word32, t: seq<Byte>)
    requires |t| < 4
    ensures Bytes(Unkey(Xor32(MixTail32(h, t), h)), 4) == Padded(t, 4)
  {
    hide Xor, MixKey32, Unkey, LittleEndian, Bytes;
    NoKey();
    XorZero(h);
    WordReturns(h, 0);
    BytesOfWord(t, 4);
    NoBytes();
    if t != [] {
      WordReturns(h, MixKey32(TailWord32(t)));
      KeyUndone(TailWord32(t));
    }
  }

  lemma StateReturns32(p: Key, seed: Word32)
    requires |p| % 4 == 0
    ensures Unfinished32(Hash32(p, seed), |p|) == Body32(p, |p| / 4, seed)
  {
    hide Unfinished32, Finish32, Body32;
    var n := |p| / 4;
    assert p[4 * n..] == [];
    FinishUndone32(Body32(p, n, seed), [], |p|);
  }

  /** One more block. */
  lemma Extended32(p: Key, t: seq<Byte>, seed: Word32) returns (k: Word32)
    requires |p| % 4 == 0 && |t| == 4
    ensures k == LittleEndian(t) && Body32(p + t, |p| / 4 + 1, seed) == MixBlock32(Body32(p, |p| / 4, seed), k)
  {
    hide MixBlock32, LittleEndian;
    var n, key := |p| / 4, p + t;
    Body32Same(p, key, n, seed);
    assert Block(key, 4, n) == t;
    k := GetBlock32(key, n);
  }

  /** The last bytes of a key, up to a whole block, come back from its hash and the hash of the key without
      them, for every key and every seed. */
  lemma LastBytesReturn32(p: Key, t: seq<Byte>, seed: Word32)
    requires |p| % 4 == 0 && |t| <= 4 && |p + t| < 0x8000_0000
    ensures Decode32(Hash32(p + t, seed), Unfinished32(Hash32(p, seed), |p|), |p + t|, |t|) == Padded(t, 4)
  {
    hide Unfinished32, Finish32, MixBlock32, MixTail32, Body32, Unkey, Unround, Xor, Bytes, Padded;
    var n, key := |p| / 4, p + t;
    var h := Body32(p, n, seed);
    StateReturns32(p, seed);
    if |t| == 4 {
      StateReturns32(key, seed);
      var k := Extended32(p, t, seed);
      BlockUndone32(h, k);
      BytesOfWord(t, 4);
    } else {
      Body32Same(p, key, n, seed);
      assert key[4 * n..] == t;
      FinishUndone32(h, t, |key|);
      TailUndone32(h, t);
    }
  }

  /** The empty key leaves the seed. */
  lemma SeedReturns32(seed: Word32)
    ensures Unfinished32(Hash32([], seed), 0) == seed
  {
    hide Unfinished32, Hash32;
    StateReturns32([], seed);
  }

  /** Every key of at most four bytes comes back from its hash, its length and the seed. */
  lemma ShortKeysReturn32(key: Key, seed: Word32)
    requires |key| <= 4
    ensures Decode32(Hash32(key, seed), seed, |key|, |key|) == Padded(key, 4)
  {
    hide Unfinished32, Hash32, Decode32;
    SeedReturns32(seed);
    LastBytesReturn32([], key, seed);
    assert [] + key == key;
  }
}
