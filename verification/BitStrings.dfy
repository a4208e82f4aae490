/** Bit strings, most significant bit first: the common ground of bytes, sextets and accumulators. */
module BitStrings {
  import opened Arithmetic

  type Bits = seq<bool>

  /** The low n bits of v. */
  function Low(v: nat, n: nat): (b: Bits)
    ensures |b| == n
  {
    if n == 0 then [] else Low(v / 2, n - 1) + [v % 2 == 1]
  }

  function Value(b: Bits): nat {
    if b == [] then 0 else 2 * Value(b[..|b| - 1]) + (if b[|b| - 1] then 1 else 0)
  }

  function Zeros(n: nat): (b: Bits)
    ensures |b| == n
  {
    seq(n, _ => false)
  }

  /** Logical shift right. */
  function Shr(v: nat, k: nat): nat {
    if k == 0 then v else Shr(v / 2, k - 1)
  }

  lemma {:induction false} LowOfValue(b: Bits)
    ensures Low(Value(b), |b|) == b && Value(b) < Pow2(|b|)
  {
    if b != [] {
      LowOfValue(b[..|b| - 1]);
    }
  }

  lemma {:induction false} LowInjective(v: nat, w: nat, n: nat)
    requires v < Pow2(n) && w < Pow2(n) && Low(v, n) == Low(w, n)
    ensures v == w
  {
    if n > 0 {
      var a, b := Low(v / 2, n - 1), Low(w / 2, n - 1);
      assert (a + [v % 2 == 1])[n - 1] == (b + [w % 2 == 1])[n - 1];
      assert a == (a + [v % 2 == 1])[..n - 1] && b == (b + [w % 2 == 1])[..n - 1];
      LowInjective(v / 2, w / 2, n - 1);
    }
  }

  /** Bits above n do not matter: a wrapped or unmasked accumulator has the same low bits. */
  lemma {:induction false} LowOfRemainder(v: nat, m: nat, n: nat)
    requires n <= m
    ensures Low(v % Pow2(m), n) == Low(v, n)
  {
    if n > 0 {
      var p := Pow2(m - 1);
      ModStep(v, p);
      Halves((v / 2) % p, v % 2);
      LowOfRemainder(v / 2, m - 1, n - 1);
    }
  }

  lemma Halves(h: nat, bit: nat)
    requires bit < 2
    ensures (2 * h + bit) / 2 == h && (2 * h + bit) % 2 == bit
  {
  }

  lemma {:induction false} LowSplit(v: nat, n: nat, k: nat)
    ensures Low(v, n + k) == Low(Shr(v, k), n) + Low(v, k)
  {
    if k > 0 {
      LowSplit(v / 2, n, k - 1);
    }
  }

  lemma {:induction false} LowAppend(v: nat, w: nat, n: nat, k: nat)
    requires w < Pow2(k)
    ensures Low(v * Pow2(k) + w, n + k) == Low(v, n) + Low(w, k)
  {
    if k > 0 {
      var p := Pow2(k - 1);
      LowAppend(v, w / 2, n, k - 1);
      assert v * Pow2(k) + w == 2 * (v * p + w / 2) + w % 2 by {
        assert v * (2 * p) == 2 * (v * p);
      }
      Halves(v * p + w / 2, w % 2);
    }
  }

  lemma {:induction false} LowZero(n: nat)
    ensures Low(0, n) == Zeros(n)
  {
    if n > 0 {
      LowZero(n - 1);
    }
  }

  lemma LowIsZero(v: nat, n: nat)
    ensures Low(v, n) == Zeros(n) <==> v % Pow2(n) == 0
  {
    LowOfRemainder(v, n, n);
    LowZero(n);
    if Low(v, n) == Zeros(n) {
      LowInjective(v % Pow2(n), 0, n);
    }
  }

  /** The concatenation of n-bit groups. */
  function Join(groups: seq<nat>, n: nat): (b: Bits)
    ensures |b| == Times(|groups|, n)
  {
    if groups == [] then [] else
      JoinLength(groups, n);
      Join(groups[..|groups| - 1], n) + Low(groups[|groups| - 1], n)
  }

  lemma JoinLength(groups: seq<nat>, n: nat)
    requires groups != []
    ensures Times(|groups|, n) == Times(|groups| - 1, n) + n
  {
  }

  lemma JoinSnoc(groups: seq<nat>, g: nat, n: nat)
    ensures Join(groups + [g], n) == Join(groups, n) + Low(g, n)
  {
    assert (groups + [g])[..|groups|] == groups;
  }

  predicate Below(groups: seq<nat>, bound: nat) {
    forall k :: 0 <= k < |groups| ==> groups[k] < bound
  }

  lemma BelowPrefix(groups: seq<nat>, bound: nat)
    requires groups != [] && Below(groups, bound)
    ensures groups[|groups| - 1] < bound && Below(groups[..|groups| - 1], bound)
  {
  }

  lemma {:induction false} JoinInjective(a: seq<nat>, b: seq<nat>, n: nat)
    requires |a| == |b| && Join(a, n) == Join(b, n)
    requires Below(a, Pow2(n)) && Below(b, Pow2(n))
    ensures a == b
  {
    hide Low, Pow2, Join, Below, Times;
    if a != [] {
      var k := |a| - 1;
      assert a == a[..k] + [a[k]] && b == b[..k] + [b[k]];
      JoinSnoc(a[..k], a[k], n);
      JoinSnoc(b[..k], b[k], n);
      SplitLast(Join(a[..k], n), Low(a[k], n), Join(b[..k], n), Low(b[k], n));
      BelowPrefix(a, Pow2(n));
      BelowPrefix(b, Pow2(n));
      LowInjective(a[k], b[k], n);
      JoinInjective(a[..k], b[..k], n);
    }
  }

  lemma SplitLast(x: Bits, u: Bits, y: Bits, v: Bits)
    requires x + u == y + v && |x| == |y|
    ensures x == y && u == v
  {
    assert (x + u)[..|x|] == x && (y + v)[..|y|] == y;
    assert (x + u)[|x|..] == u && (y + v)[|y|..] == v;
  }

  /** A bit string cut into count groups of n bits. */
  function Cut(b: Bits, n: nat, count: nat): (groups: seq<nat>)
    requires |b| == Times(count, n)
    ensures |groups| == count
    decreases count
  {
    if count == 0 then [] else Cut(b[..|b| - n], n, count - 1) + [Value(b[|b| - n..])]
  }

  lemma {:induction false} JoinOfCut(b: Bits, n: nat, count: nat)
    requires |b| == Times(count, n)
    ensures Join(Cut(b, n, count), n) == b
    ensures Below(Cut(b, n, count), Pow2(n))
    decreases count
  {
    hide Low, Value, Pow2;
    if count > 0 {
      var front, last := b[..|b| - n], b[|b| - n..];
      JoinOfCut(front, n, count - 1);
      LowOfValue(last);
      JoinSnoc(Cut(front, n, count - 1), Value(last), n);
      assert front + last == b;
    }
  }
}
