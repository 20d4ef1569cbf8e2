/** Machine words as naturals: exclusive or, shifts, rotations and wrapping multiplication,
    each with the inverse that makes it a bijection. */
module Words {

  const W32 := 0x1_0000_0000
  const W64 := 0x1_0000_0000_0000_0000

  type Byte = x: nat | x < 0x100
  type Word32 = x: nat | x < W32
  type Word64 = x: nat | x < W64

  function Pow2(k: nat): (p: nat)
    ensures p >= 1
  {
    if k == 0 then 1 else 2 * Pow2(k - 1)
  }

  // ---------------------------------------------------------------------------
  // Exclusive or

  function Xor(x: nat, y: nat): nat {
    if x == 0 && y == 0 then 0 else 2 * Xor(x / 2, y / 2) + (x + y) % 2
  }

  /** The low bit and the others. */
  lemma XorStep(x: nat, y: nat)
    ensures Xor(x, y) / 2 == Xor(x / 2, y / 2) && Xor(x, y) % 2 == (x % 2 + y % 2) % 2
  {
    if x != 0 || y != 0 {
      var a := Xor(x / 2, y / 2);
      assert Xor(x, y) == 2 * a + (x + y) % 2;
      hide Xor;
      Parity(x, y);
      assert (2 * a + (x + y) % 2) / 2 == a;
    }
  }

  lemma Parity(x: nat, y: nat)
    ensures (x + y) % 2 == (x % 2 + y % 2) % 2
  {
  }

  lemma Halves(x: nat, y: nat)
    requires x / 2 == y / 2 && x % 2 == y % 2
    ensures x == y
  {
  }

  lemma {:induction false} XorSymmetric(x: nat, y: nat)
    ensures Xor(x, y) == Xor(y, x)
  {
    if x != 0 || y != 0 { XorSymmetric(x / 2, y / 2); }
  }

  lemma {:induction false} XorZero(x: nat)
    ensures Xor(x, 0) == x && Xor(0, x) == x
  {
    if x != 0 { XorZero(x / 2); }
  }

  lemma {:induction false} XorCancels(x: nat, y: nat)
    ensures Xor(Xor(x, y), y) == x
  {
    hide Xor;
    if x != 0 || y != 0 {
      XorCancels(x / 2, y / 2);
      XorStep(x, y);
      XorStep(Xor(x, y), y);
      Halves(Xor(Xor(x, y), y), x);
    } else {
      XorZero(0);
    }
  }

  lemma {:induction false} XorAssociative(x: nat, y: nat, z: nat)
    ensures Xor(Xor(x, y), z) == Xor(x, Xor(y, z))
    decreases x + y + z
  {
    hide Xor;
    if x != 0 || y != 0 || z != 0 {
      XorAssociative(x / 2, y / 2, z / 2);
      XorStep(x, y);
      XorStep(y, z);
      XorStep(Xor(x, y), z);
      XorStep(x, Xor(y, z));
      Halves(Xor(Xor(x, y), z), Xor(x, Xor(y, z)));
    } else {
      XorZero(0);
    }
  }

  lemma {:induction false} XorBelow(x: nat, y: nat, k: nat)
    requires x < Pow2(k) && y < Pow2(k)
    ensures Xor(x, y) < Pow2(k)
  {
    if k > 0 { XorBelow(x / 2, y / 2, k - 1); }
  }

  /** x >> k */
  function Shr(x: nat, k: nat): (r: nat)
    ensures r <= x
  {
    if k == 0 then x else Shr(x / 2, k - 1)
  }

  /** Shifting right distributes over exclusive or. */
  lemma {:induction false} XorShifted(x: nat, y: nat, k: nat)
    ensures Shr(Xor(x, y), k) == Xor(Shr(x, k), Shr(y, k))
    decreases k
  {
    if k > 0 {
      XorShifted(x / 2, y / 2, k - 1);
      XorStep(x, y);
      hide Xor;
    }
  }

  lemma {:induction false} ShrTwice(x: nat, j: nat, k: nat)
    ensures Shr(Shr(x, j), k) == Shr(x, j + k)
    decreases j
  {
    if j > 0 { ShrTwice(x / 2, j - 1, k); }
  }

  lemma {:induction false} ShrBelow(x: nat, k: nat)
    requires x < Pow2(k)
    ensures Shr(x, k) == 0
    decreases k
  {
    if k > 0 { ShrBelow(x / 2, k - 1); }
  }

  /** Without common bits, exclusive or is addition. */
  lemma {:induction false} XorDisjoint(a: nat, b: nat, k: nat)
    requires b < Pow2(k)
    ensures Xor(a * Pow2(k), b) == a * Pow2(k) + b
    decreases k
  {
    if k == 0 {
      XorZero(a);
    } else {
      XorDisjoint(a, b / 2, k - 1);
      var h := a * Pow2(k - 1);
      DoubledProduct(a, Pow2(k - 1));
      XorStep(2 * h, b);
      hide Xor, Pow2;
      Halves(Xor(2 * h, b), 2 * h + b);
    }
  }

  lemma DoubledProduct(a: nat, p: nat)
    ensures a * (2 * p) == 2 * (a * p)
  {
  }

  lemma XorDoubled(x: nat, y: nat)
    ensures Xor(2 * x, 2 * y) == 2 * Xor(x, y)
  {
    XorStep(2 * x, 2 * y);
    hide Xor;
    Halves(Xor(2 * x, 2 * y), 2 * Xor(x, y));
  }

  /** Exclusive or of two values shifted left alike. */
  lemma {:induction false} XorScaled(a: nat, b: nat, k: nat)
    ensures Xor(a * Pow2(k), b * Pow2(k)) == Xor(a, b) * Pow2(k)
    decreases k
  {
    hide Xor;
    if k > 0 {
      var p := Pow2(k - 1);
      XorScaled(a, b, k - 1);
      XorDoubled(a * p, b * p);
      ScaledStep(a, b, p);
    }
  }

  lemma ScaledStep(a: nat, b: nat, p: nat)
    requires Xor(2 * (a * p), 2 * (b * p)) == 2 * (Xor(a, b) * p)
    ensures Xor(a * (2 * p), b * (2 * p)) == Xor(a, b) * (2 * p)
  {
    hide Xor;
    DoubledProduct(a, p);
    DoubledProduct(b, p);
    DoubledProduct(Xor(a, b), p);
  }

  // ---------------------------------------------------------------------------
  // Operations on words of k bits

  lemma XorInjective(x: nat, y: nat, c: nat)
    ensures Xor(x, c) == Xor(y, c) ==> x == y
    ensures Xor(c, x) == Xor(c, y) ==> x == y
  {
    hide Xor;
    XorCancels(x, c);
    XorCancels(y, c);
    XorSymmetric(x, c);
    XorSymmetric(y, c);
  }

  /** h ^= h >> r */
  function Fold(h: nat, r: nat): nat { Xor(h, Shr(h, r)) }

  /** What n steps recover of the word whose fold is y. */
  function Unfolded(y: nat, r: nat, n: nat): nat {
    if n == 0 then 0 else Xor(y, Shr(Unfolded(y, r, n - 1), r))
  }

  /** After n steps only the lowest bits may differ, those that n shifts leave. */
  lemma {:induction false} UnfoldedSteps(h: nat, r: nat, n: nat)
    ensures Xor(Unfolded(Fold(h, r), r, n), h) == Shr(h, n * r)
  {
    hide Xor, Shr, Fold;
    if n == 0 {
      XorZero(h);
      ShiftNone(h);
    } else {
      var x := Unfolded(Fold(h, r), r, n - 1);
      UnfoldedSteps(h, r, n - 1);
      FoldStep(h, r, x);
      ShrTwice(h, (n - 1) * r, r);
      assert (n - 1) * r + r == n * r;
    }
  }

  lemma ShiftNone(h: nat)
    ensures Shr(h, 0) == h
  {
  }

  lemma FoldStep(h: nat, r: nat, x: nat)
    ensures Xor(Xor(Fold(h, r), Shr(x, r)), h) == Shr(Xor(x, h), r)
  {
    hide Xor, Shr;
    var s, t := Shr(h, r), Shr(x, r);
    XorShifted(x, h, r);
    XorAssociative(h, s, t);
    XorSymmetric(h, Xor(s, t));
    XorCancels(Xor(s, t), h);
    XorSymmetric(s, t);
  }

  /** Folding can be undone, whatever the shift and the width of the word, so it loses nothing. */
  lemma FoldInverse(h: nat, r: nat, k: nat, n: nat)
    requires h < Pow2(k) && k <= n * r
    ensures Unfolded(Fold(h, r), r, n) == h
  {
    hide Xor, Shr, Fold, Unfolded;
    var x := Unfolded(Fold(h, r), r, n);
    UnfoldedSteps(h, r, n);
    ShrVanishes(h, n * r, k);
    XorCancels(x, h);
    XorZero(h);
  }

  lemma ShrVanishes(x: nat, j: nat, k: nat)
    requires x < Pow2(k) && k <= j
    ensures Shr(x, j) == 0
  {
    hide Shr;
    ShrBelow(x, k);
    ShrTwice(x, k, j - k);
    ShrZero(j - k);
  }

  lemma {:induction false} ShrZero(k: nat)
    ensures Shr(0, k) == 0
  {
    if k > 0 { ShrZero(k - 1); }
  }

  lemma FoldInjective(h: nat, h': nat, r: nat, k: nat)
    requires h < Pow2(k) && h' < Pow2(k) && r >= 1 && Fold(h, r) == Fold(h', r)
    ensures h == h'
  {
    hide Fold, Unfolded;
    assert k <= k * r;
    FoldInverse(h, r, k, k);
    FoldInverse(h', r, k, k);
  }

  lemma WordSizes()
    ensures Pow2(32) == W32 && Pow2(64) == W64
  {
    assert Pow2(8) == 0x100;
    Pow2Sum(8, 8);
    Pow2Sum(16, 16);
    Pow2Sum(32, 32);
  }

  lemma {:induction false} Pow2Sum(j: nat, k: nat)
    ensures Pow2(j + k) == Pow2(j) * Pow2(k)
  {
    if j > 0 {
      Pow2Sum(j - 1, k);
      assert Pow2(j + k) == 2 * Pow2(j - 1 + k);
      assert Pow2(j) * Pow2(k) == 2 * (Pow2(j - 1) * Pow2(k));
    }
  }

  lemma DivideUnique(a: int, d: nat, q: int, r: nat)
    requires a == d * q + r && r < d
    ensures a / d == q && a % d == r
  {
    var q', r' := a / d, a % d;
    assert d * (q - q') == r' - r;
    if q < q' { MultipleTooBig(d, q' - q); } else if q' < q { MultipleTooBig(d, q - q'); }
  }

  lemma MultipleTooBig(d: int, k: int)
    requires d >= 0 && k >= 1
    ensures d * k >= d && d * -k <= -d
  {
  }

  /** Multiplication by c, wrapping at w, is undone by multiplication by d when c * d wraps to 1. */
  lemma TimesInverse(x: nat, c: nat, d: nat, w: nat, m: nat)
    requires x < w && c * d == 1 + m * w
    ensures (((x * c) % w) * d) % w == x
  {
    var q, r := (x * c) / w, (x * c) % w;
    assert x * c == w * q + r;
    Rearrange(x, c, d, w, m, q, r);
    DivideUnique(r * d, w, x * m - q * d, x);
  }

  lemma Rearrange(x: nat, c: nat, d: nat, w: nat, m: nat, q: nat, r: nat)
    requires c * d == 1 + m * w && x * c == w * q + r
    ensures r * d == w * (x * m - q * d) + x
  {
    calc {
      r * d;
      (x * c - w * q) * d;
      x * (c * d) - w * (q * d);
      x * (1 + m * w) - w * (q * d);
      x + w * (x * m) - w * (q * d);
    }
  }

  /** Rotating left by r bits a word of r + s bits, where a is 2^r and b is 2^s: the bits shifted out
      on the left come back on the right, where the shift left zeros, so "or" is addition. */
  function Rotl(x: nat, a: nat, b: nat): nat
    requires a >= 1 && b >= 1 && a * b >= 1
  {
    (x * a) % (a * b) + x / b
  }

  lemma RotlParts(x: nat, a: nat, b: nat)
    requires a >= 1 && b >= 1 && x < a * b
    ensures a * b >= 1 && x / b >= 0 && x % b >= 0
    ensures Rotl(x, a, b) == a * (x % b) + x / b && x / b < a && Rotl(x, a, b) < a * b
  {
    var q, t := x / b, x % b;
    assert x == b * q + t;
    QuotientBelow(x, a, b, q, t);
    assert x * a == (a * b) * q + t * a by { Distribute(a, b, q, t); }
    assert t * a < a * b by { ProductBelow(t, b, a); }
    DivideUnique(x * a, a * b, q, t * a);
    assert a * t + a <= a * b by { ProductBelow(t, b, a); Distribute(a, 1, t, 1); }
  }

  lemma QuotientBelow(x: nat, a: nat, b: nat, q: int, t: nat)
    requires x == b * q + t && t < b && x < a * b
    ensures 0 <= q < a
  {
    if q < 0 { MultipleTooBig(b, -q); }
    if q >= a { ProductBelow(a, q + 1, b); }
  }

  lemma ProductBelow(t: nat, b: nat, a: nat)
    requires t < b
    ensures t * a + a <= b * a
  {
    ProductIsNat(b - t - 1, a);
    assert (b - t - 1) * a + t * a + a == b * a by { Regroup(b - t - 1, t, b, a); }
  }

  lemma {:induction false} ProductIsNat(x: nat, a: nat)
    ensures x * a >= 0
  {
  }

  lemma Regroup(x: nat, t: nat, b: nat, a: nat)
    requires b == x + t + 1
    ensures x * a + t * a + a == b * a
  {
    assert (x + t + 1) * a == x * a + t * a + a;
  }

  lemma Distribute(a: nat, b: nat, q: nat, t: nat)
    ensures (b * q + t) * a == (a * b) * q + t * a
  {
  }

  lemma RotlInjective(x: nat, y: nat, a: nat, b: nat)
    requires a >= 1 && b >= 1 && x < a * b && y < a * b
    requires a * b >= 1 && Rotl(x, a, b) == Rotl(y, a, b)
    ensures x == y
  {
    RotlParts(x, a, b);
    RotlParts(y, a, b);
    hide Rotl;
    DivideUnique(Rotl(x, a, b), a, x % b, x / b);
    DivideUnique(Rotl(x, a, b), a, y % b, y / b);
    assert x == b * (x / b) + x % b && y == b * (y / b) + y % b;
  }
}
