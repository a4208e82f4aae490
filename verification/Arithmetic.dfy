/** Machine arithmetic of the C sources, written out over unbounded integers. */
module Arithmetic {
  const U32_LIMIT: nat := 0x1_0000_0000
  const U64_LIMIT: nat := 0x1_0000_0000_0000_0000

  type uint32 = x: nat | x < U32_LIMIT
  type uint64 = x: nat | x < U64_LIMIT
  type byte = x: nat | x < 256

  /** Truncation to 32 bits; Dafny's % is Euclidean, so negative values wrap as in C. */
  function U32(x: int): uint32 {
    x % U32_LIMIT
  }

  function U64(x: int): uint64 {
    x % U64_LIMIT
  }

  function Pow2(n: nat): (p: nat)
    ensures p >= 1
  {
    if n == 0 then 1 else 2 * Pow2(n - 1)
  }

  lemma Pow2Small()
    ensures Pow2(2) == 4
  {
  }

  lemma Pow2Values()
    ensures Pow2(2) == 4 && Pow2(4) == 16 && Pow2(6) == 64 && Pow2(8) == 256
    ensures Pow2(16) == 65536 && Pow2(32) == U32_LIMIT && Pow2(64) == U64_LIMIT
  {
    hide Pow2;
    Pow2Small();
    Pow2Sum(2, 2);
    Pow2Sum(2, 4);
    Pow2Sum(4, 4);
    Pow2Sum(8, 8);
    Pow2Sum(16, 16);
    Pow2Sum(32, 32);
  }

  lemma {:induction false} Pow2Sum(m: nat, n: nat)
    ensures Pow2(m + n) == Pow2(m) * Pow2(n)
  {
    if m > 0 {
      Pow2Sum(m - 1, n);
    }
  }

  /** k * n by repeated addition: keeps products of two variables out of most proofs. */
  function Times(k: nat, n: nat): nat {
    if k == 0 then 0 else n + Times(k - 1, n)
  }

  lemma {:induction false} TimesIsProduct(k: nat, n: nat)
    ensures Times(k, n) == k * n
  {
    if k > 0 {
      TimesIsProduct(k - 1, n);
    }
  }

  /** Bitwise operations on naturals, least significant bit first. */
  function BitXor(a: nat, b: nat): nat
    decreases a + b
  {
    if a == 0 && b == 0 then 0 else 2 * BitXor(a / 2, b / 2) + (a + b) % 2
  }

  function BitAnd(a: nat, b: nat): nat
    decreases a
  {
    if a == 0 then 0
    else 2 * BitAnd(a / 2, b / 2) + (if a % 2 == 1 && b % 2 == 1 then 1 else 0)
  }

  function BitOr(a: nat, b: nat): nat
    decreases a + b
  {
    if a == 0 && b == 0 then 0
    else 2 * BitOr(a / 2, b / 2) + (if a % 2 == 1 || b % 2 == 1 then 1 else 0)
  }

  lemma {:induction false} BitXorCommutes(a: nat, b: nat)
    ensures BitXor(a, b) == BitXor(b, a)
    decreases a + b
  {
    if a != 0 || b != 0 {
      BitXorCommutes(a / 2, b / 2);
    }
  }

  lemma {:induction false} BitXorZero(a: nat, b: nat)
    ensures BitXor(a, b) == 0 <==> a == b
    decreases a + b
  {
    if a != 0 || b != 0 {
      BitXorZero(a / 2, b / 2);
    }
  }

  lemma {:induction false} BitXorSwaps(a: nat, b: nat, c: nat)
    ensures BitXor(BitXor(a, b), c) == BitXor(BitXor(a, c), b)
    decreases a + b + c
  {
    hide BitXor;
    if a != 0 || b != 0 || c != 0 {
      BitXorSwaps(a / 2, b / 2, c / 2);
      BitXorStep(a, b);
      BitXorStep(a, c);
      BitXorStep(BitXor(a, b), c);
      BitXorStep(BitXor(a, c), b);
      OddSums(a, b, c, BitXor(a, b), BitXor(a, c));
    } else {
      BitXorStep(0, 0);
    }
  }

  lemma BitXorStep(a: nat, b: nat)
    ensures BitXor(a, b) == 2 * BitXor(a / 2, b / 2) + (a + b) % 2
    ensures BitXor(a, b) / 2 == BitXor(a / 2, b / 2) && BitXor(a, b) % 2 == (a + b) % 2
  {
  }

  lemma OddSums(a: nat, b: nat, c: nat, x: nat, y: nat)
    requires x % 2 == (a + b) % 2 && y % 2 == (a + c) % 2
    ensures (x + c) % 2 == (y + b) % 2
  {
  }

  /** Where the two have no bit in common, the XOR is the sum. */
  lemma {:induction false} BitXorDisjoint(a: nat, b: nat, n: nat)
    requires a % Pow2(n) == 0 && b < Pow2(n)
    ensures BitXor(a, b) == a + b == BitXor(b, a)
  {
    hide BitXor;
    BitXorCommutes(a, b);
    if n == 0 {
      BitXorNothing(a);
    } else {
      HalfMultiple(a, Pow2(n - 1));
      BitXorDisjoint(a / 2, b / 2, n - 1);
      BitXorStep(a, b);
    }
  }

  lemma HalfMultiple(a: nat, p: nat)
    requires p > 0 && a % (2 * p) == 0
    ensures a % 2 == 0 && a / 2 % p == 0
  {
    ModStep(a, p);
  }

  lemma {:induction false} BitXorNothing(a: nat)
    ensures BitXor(a, 0) == a
  {
    if a > 0 {
      BitXorNothing(a / 2);
    }
  }

  lemma {:induction false} BitXorBound(a: nat, b: nat, n: nat)
    requires a < Pow2(n) && b < Pow2(n)
    ensures BitXor(a, b) < Pow2(n)
    decreases n
  {
    if n > 0 {
      BitXorBound(a / 2, b / 2, n - 1);
    }
  }

  lemma {:induction false} BitOrZero(a: nat)
    ensures BitOr(0, a) == a && BitOr(a, 0) == a
  {
    if a != 0 {
      BitOrZero(a / 2);
    }
  }

  lemma {:induction false} BitOrZeroIff(a: nat, b: nat)
    ensures BitOr(a, b) == 0 <==> a == 0 && b == 0
    decreases a + b
  {
    if a != 0 || b != 0 {
      BitOrZeroIff(a / 2, b / 2);
    }
  }

  /** Masking with n ones keeps exactly the low n bits. */
  lemma {:induction false} BitAndMask(n: nat, v: nat)
    ensures BitAnd(Pow2(n) - 1, v) == v % Pow2(n)
  {
    hide BitAnd;
    if n == 0 {
      BitAndZero(v);
    } else {
      BitAndMask(n - 1, v / 2);
      MaskStep(Pow2(n - 1), v);
    }
  }

  lemma BitAndZero(v: nat)
    ensures BitAnd(0, v) == 0
  {
  }

  lemma MaskStep(p: nat, v: nat)
    requires p >= 1 && BitAnd(p - 1, v / 2) == (v / 2) % p
    ensures BitAnd(2 * p - 1, v) == v % (2 * p)
  {
    hide BitAnd;
    BitAndOdd(p, v);
    ModStep(v, p);
  }

  lemma BitAndOdd(p: nat, v: nat)
    requires p >= 1
    ensures BitAnd(2 * p - 1, v) == 2 * BitAnd(p - 1, v / 2) + v % 2
  {
    assert (2 * p - 1) / 2 == p - 1 && (2 * p - 1) % 2 == 1;
  }

  lemma ModStep(v: nat, p: nat)
    requires p >= 1
    ensures v % (2 * p) == 2 * ((v / 2) % p) + v % 2
  {
    var q, r := (v / 2) / p, (v / 2) % p;
    assert v / 2 == q * p + r;
    assert v == 2 * p * q + (2 * r + v % 2) by {
      assert v == 2 * (q * p + r) + v % 2;
      assert 2 * (q * p + r) == 2 * p * q + 2 * r;
    }
    DivModUnique(v, 2 * p, q, 2 * r + v % 2);
  }

  lemma DivModUnique(v: int, d: nat, q: int, r: nat)
    requires d > 0 && r < d && v == d * q + r
    ensures v / d == q && v % d == r
  {
    var q' := v / d;
    var r' := v - d * q';
    assert d * (q - q') == r' - r;
    if q > q' {
      MulAtLeast(d, q - q');
    } else if q < q' {
      assert d * (q' - q) == r - r';
      MulAtLeast(d, q' - q);
    }
  }

  lemma MulAtLeast(d: nat, k: int)
    requires k >= 1
    ensures d * k >= d
  {
  }
}
