/** The BlaMka round in its scalar and its 128-bit form (blake2/blamka-round-ref.h,
    blake2/blamka-round-opt.h). */
module Argon2Round {
  import opened Arithmetic

  type Word = uint64

  function XorWord(a: Word, b: Word): Word {
    Pow2Values();
    BitXorBound(a, b, 64);
    BitXor(a, b)
  }

  type Sixteen = r: seq<Word> | |r| == 16 witness [0, 0, 0, 0, 0, 0, 0, 0, 0, 0, 0, 0, 0, 0, 0, 0]

  /** fBlaMka and the rotation to the right, shared by both forms. */
  datatype Mixer = Mixer(f: (Word, Word) -> Word, rotr: (Word, nat) -> Word)

  /** fBlaMka and rotr64 of the C sources. */
  function BlaMka(x: Word, y: Word): Word {
    U64(x + y + 2 * ((x % U32_LIMIT) * (y % U32_LIMIT)))
  }

  function Rotr64(w: Word, c: nat): Word {
    if 0 < c < 64 then U64(w / Pow2(c) + w % Pow2(c) * Pow2(64 - c)) else w
  }

  const BLAMKA: Mixer := Mixer(BlaMka, Rotr64)

  datatype Quad = Quad(a: Word, b: Word, c: Word, d: Word)

  /** The first and the second half of the macro G differ in the rotation counts only. */
  function HalfG(m: Mixer, q: Quad, r1: nat, r2: nat): Quad {
    var a := m.f(q.a, q.b);
    var d := m.rotr(XorWord(q.d, a), r1);
    var c := m.f(q.c, d);
    var b := m.rotr(XorWord(q.b, c), r2);
    Quad(a, b, c, d)
  }

  function G(m: Mixer, a: Word, b: Word, c: Word, d: Word): Quad {
    HalfG(m, HalfG(m, Quad(a, b, c, d), 32, 24), 16, 63)
  }

  /** BLAKE2_ROUND_NOMSG: four columns, then four diagonals. */
  function ScalarRound(m: Mixer, v: Sixteen): Sixteen {
    var p0 := G(m, v[0], v[4], v[8], v[12]);
    var p1 := G(m, v[1], v[5], v[9], v[13]);
    var p2 := G(m, v[2], v[6], v[10], v[14]);
    var p3 := G(m, v[3], v[7], v[11], v[15]);
    var q0 := G(m, p0.a, p1.b, p2.c, p3.d);
    var q1 := G(m, p1.a, p2.b, p3.c, p0.d);
    var q2 := G(m, p2.a, p3.b, p0.c, p1.d);
    var q3 := G(m, p3.a, p0.b, p1.c, p2.d);
    [q0.a, q1.a, q2.a, q3.a, q3.b, q0.b, q1.b, q2.b,
     q2.c, q3.c, q0.c, q1.c, q1.d, q2.d, q3.d, q0.d]
  }

  /** The eight calls of the macro: G over the columns of the 4 x 4 words, then over its diagonals. */
  lemma RoundByDiagonals(m: Mixer, v: Sixteen) returns (u: Sixteen)
    ensures G(m, v[0], v[4], v[8], v[12]) == Quad(u[0], u[4], u[8], u[12])
    ensures G(m, v[1], v[5], v[9], v[13]) == Quad(u[1], u[5], u[9], u[13])
    ensures G(m, v[2], v[6], v[10], v[14]) == Quad(u[2], u[6], u[10], u[14])
    ensures G(m, v[3], v[7], v[11], v[15]) == Quad(u[3], u[7], u[11], u[15])
    ensures var w := ScalarRound(m, v);
            && G(m, u[0], u[5], u[10], u[15]) == Quad(w[0], w[5], w[10], w[15])
            && G(m, u[1], u[6], u[11], u[12]) == Quad(w[1], w[6], w[11], w[12])
            && G(m, u[2], u[7], u[8], u[13]) == Quad(w[2], w[7], w[8], w[13])
            && G(m, u[3], u[4], u[9], u[14]) == Quad(w[3], w[4], w[9], w[14])
  {
    hide G;
    var p0, p1 := G(m, v[0], v[4], v[8], v[12]), G(m, v[1], v[5], v[9], v[13]);
    var p2, p3 := G(m, v[2], v[6], v[10], v[14]), G(m, v[3], v[7], v[11], v[15]);
    u := [p0.a, p1.a, p2.a, p3.a, p0.b, p1.b, p2.b, p3.b, p0.c, p1.c, p2.c, p3.c, p0.d, p1.d, p2.d, p3.d];
  }

  lemma RotateOne()
    ensures Rotr64(1, 32) == 0x1_0000_0000 && Rotr64(0x1_0000_0000, 24) == 0x100
  {
    hide Pow2;
    Pow2Values();
    Pow2Sum(16, 8);
    Pow2Sum(32, 8);
  }

  lemma RotateMore()
    ensures Rotr64(0x1_0000_0301, 16) == 0x0301_0000_0001_0000
    ensures Rotr64(0x0301_0001_0001_0100, 63) == 0x0602_0002_0002_0200
  {
    hide Pow2;
    Pow2Values();
    Pow2Sum(32, 16);
    Pow2One();
    Pow2Sum(1, 63);
  }

  lemma Pow2One()
    ensures Pow2(1) == 2
  {
  }

  lemma FirstHalfOfOne()
    ensures HalfG(BLAMKA, Quad(1, 0, 0, 0), 32, 24) == Quad(1, 0x100, 0x1_0000_0000, 0x1_0000_0000)
  {
    hide BitXor, Rotr64;
    RotateOne();
    BitXorNothing(1);
    BitXorCommutes(0, 1);
    BitXorNothing(0x1_0000_0000);
    BitXorCommutes(0, 0x1_0000_0000);
  }

  /** One word through G: each of the four rotations and the product shows in the result. */
  lemma MixOfOne()
    ensures G(BLAMKA, 1, 0, 0, 0)
            == Quad(0x301, 0x0602_0002_0002_0200, 0x0301_0001_0001_0000, 0x0301_0000_0001_0000)
  {
    hide BitXor, Rotr64, Pow2;
    FirstHalfOfOne();
    RotateMore();
    Pow2Values();
    BitXorDisjoint(0x1_0000_0000, 0x301, 16);
    BitXorDisjoint(0x0301_0001_0001_0000, 0x100, 16);
  }

  /** A 128-bit register: two words, the low one first in memory. */
  datatype M128 = M128(lo: Word, hi: Word)

  function Map2(f: (Word, Word) -> Word, x: M128, y: M128): M128 {
    M128(f(x.lo, y.lo), f(x.hi, y.hi))
  }

  function XorM128(x: M128, y: M128): M128 {
    M128(XorWord(x.lo, y.lo), XorWord(x.hi, y.hi))
  }

  function RotM128(m: Mixer, x: M128, c: nat): M128 {
    M128(m.rotr(x.lo, c), m.rotr(x.hi, c))
  }

  type Eight = r: seq<M128> | |r| == 8
    witness [M128(0, 0), M128(0, 0), M128(0, 0), M128(0, 0), M128(0, 0), M128(0, 0), M128(0, 0), M128(0, 0)]

  /** Registers in the order of the macro parameters: A0, A1, B0, B1, C0, C1, D0, D1. */
  datatype Registers = Registers(a0: M128, a1: M128, b0: M128, b1: M128,
                                 c0: M128, c1: M128, d0: M128, d1: M128)

  /** G1 has rotations 32 and 24, G2 has 16 and 63. */
  function HalfGM128(m: Mixer, r: Registers, r1: nat, r2: nat): Registers {
    var a0, a1 := Map2(m.f, r.a0, r.b0), Map2(m.f, r.a1, r.b1);
    var d0, d1 := RotM128(m, XorM128(r.d0, a0), r1), RotM128(m, XorM128(r.d1, a1), r1);
    var c0, c1 := Map2(m.f, r.c0, d0), Map2(m.f, r.c1, d1);
    var b0, b1 := RotM128(m, XorM128(r.b0, c0), r2), RotM128(m, XorM128(r.b1, c1), r2);
    Registers(a0, a1, b0, b1, c0, c1, d0, d1)
  }

  /** _mm_alignr_epi8(x, y, 8) */
  function Align(x: M128, y: M128): M128 {
    M128(y.hi, x.lo)
  }

  /** _mm_unpackhi_epi64 and _mm_unpacklo_epi64 */
  function UnpackHi(x: M128, y: M128): M128 {
    M128(x.hi, y.hi)
  }

  function UnpackLo(x: M128, y: M128): M128 {
    M128(x.lo, y.lo)
  }

  /** DIAGONALIZE and UNDIAGONALIZE as compiled for SSSE3. */
  function Diagonalize(r: Registers): Registers {
    Registers(r.a0, r.a1, Align(r.b1, r.b0), Align(r.b0, r.b1), r.c1, r.c0,
              Align(r.d0, r.d1), Align(r.d1, r.d0))
  }

  function Undiagonalize(r: Registers): Registers {
    Registers(r.a0, r.a1, Align(r.b0, r.b1), Align(r.b1, r.b0), r.c1, r.c0,
              Align(r.d1, r.d0), Align(r.d0, r.d1))
  }

  /** The same two macros as compiled for plain SSE2. */
  function DiagonalizeSse2(r: Registers): Registers {
    var b0 := UnpackHi(r.b0, UnpackLo(r.b1, r.b1));
    Registers(r.a0, r.a1, b0, UnpackHi(r.b1, UnpackLo(r.b0, r.b0)), r.c1, r.c0,
              UnpackHi(r.d1, UnpackLo(r.d0, r.d0)), UnpackHi(r.d0, UnpackLo(r.d1, r.d1)))
  }

  function UndiagonalizeSse2(r: Registers): Registers {
    var b0 := UnpackHi(r.b1, UnpackLo(r.b0, r.b0));
    Registers(r.a0, r.a1, b0, UnpackHi(r.b0, UnpackLo(r.b1, r.b1)), r.c1, r.c0,
              UnpackHi(r.d0, UnpackLo(r.d1, r.d1)), UnpackHi(r.d1, UnpackLo(r.d0, r.d0)))
  }

  /** BLAKE2_ROUND on eight registers. */
  function SimdRound(m: Mixer, sse2: bool, s: Eight): Eight {
    var r0 := Registers(s[0], s[1], s[2], s[3], s[4], s[5], s[6], s[7]);
    var r1 := HalfGM128(m, HalfGM128(m, r0, 32, 24), 16, 63);
    var r2 := if sse2 then DiagonalizeSse2(r1) else Diagonalize(r1);
    var r3 := HalfGM128(m, HalfGM128(m, r2, 32, 24), 16, 63);
    var r4 := if sse2 then UndiagonalizeSse2(r3) else Undiagonalize(r3);
    [r4.a0, r4.a1, r4.b0, r4.b1, r4.c0, r4.c1, r4.d0, r4.d1]
  }

  function Flatten(s: Eight): Sixteen {
    [s[0].lo, s[0].hi, s[1].lo, s[1].hi, s[2].lo, s[2].hi, s[3].lo, s[3].hi,
     s[4].lo, s[4].hi, s[5].lo, s[5].hi, s[6].lo, s[6].hi, s[7].lo, s[7].hi]
  }

  /** Lane k of a register file: the four words the scalar macro works on. */
  function LaneOf(r: Registers, k: nat): Quad {
    if k == 0 then Quad(r.a0.lo, r.b0.lo, r.c0.lo, r.d0.lo)
    else if k == 1 then Quad(r.a0.hi, r.b0.hi, r.c0.hi, r.d0.hi)
    else if k == 2 then Quad(r.a1.lo, r.b1.lo, r.c1.lo, r.d1.lo)
    else Quad(r.a1.hi, r.b1.hi, r.c1.hi, r.d1.hi)
  }

  lemma HalfGByLane(m: Mixer, r: Registers, r1: nat, r2: nat)
    ensures forall k :: 0 <= k < 4 ==> LaneOf(HalfGM128(m, r, r1, r2), k) == HalfG(m, LaneOf(r, k), r1, r2)
  {
  }

  lemma FullGByLane(m: Mixer, r: Registers)
    ensures var r' := HalfGM128(m, HalfGM128(m, r, 32, 24), 16, 63);
            forall k :: 0 <= k < 4 ==>
              LaneOf(r', k) == HalfG(m, HalfG(m, LaneOf(r, k), 32, 24), 16, 63)
  {
    HalfGByLane(m, r, 32, 24);
    HalfGByLane(m, HalfGM128(m, r, 32, 24), 16, 63);
  }

  /** The 128-bit round, in both compiled shapes, computes the scalar round on the flattened words. */
  lemma SimdRoundRefinesScalar(m: Mixer, sse2: bool, s: Eight)
    ensures Flatten(SimdRound(m, sse2, s)) == ScalarRound(m, Flatten(s))
  {
    var v := Flatten(s);
    var r0 := Registers(s[0], s[1], s[2], s[3], s[4], s[5], s[6], s[7]);
    var r1 := HalfGM128(m, HalfGM128(m, r0, 32, 24), 16, 63);
    FullGByLane(m, r0);
    assert LaneOf(r1, 0) == G(m, v[0], v[4], v[8], v[12]);
    assert LaneOf(r1, 1) == G(m, v[1], v[5], v[9], v[13]);
    assert LaneOf(r1, 2) == G(m, v[2], v[6], v[10], v[14]);
    assert LaneOf(r1, 3) == G(m, v[3], v[7], v[11], v[15]);
    var r2 := if sse2 then DiagonalizeSse2(r1) else Diagonalize(r1);
    FullGByLane(m, r2);
    var r3 := HalfGM128(m, HalfGM128(m, r2, 32, 24), 16, 63);
    var r4 := if sse2 then UndiagonalizeSse2(r3) else Undiagonalize(r3);
    Reassemble(r3, sse2);
  }

  lemma Reassemble(r: Registers, sse2: bool)
    ensures var u := if sse2 then UndiagonalizeSse2(r) else Undiagonalize(r);
            var q0, q1, q2, q3 := LaneOf(r, 0), LaneOf(r, 1), LaneOf(r, 2), LaneOf(r, 3);
            Flatten([u.a0, u.a1, u.b0, u.b1, u.c0, u.c1, u.d0, u.d1])
            == [q0.a, q1.a, q2.a, q3.a, q3.b, q0.b, q1.b, q2.b,
                q2.c, q3.c, q0.c, q1.c, q1.d, q2.d, q3.d, q0.d]
  {
  }
}
