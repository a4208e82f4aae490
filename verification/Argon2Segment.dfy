/** Filling one segment: the block recurrence of RFC 9106, and fill_segment as ref.c and opt.c
    compute it over the flat memory. */
module Argon2Segment {
  import opened Arithmetic
  import opened Argon2Geometry
  import opened Argon2Index
  import opened Argon2Round
  import opened Argon2Blocks

  const ADDRESSES_IN_BLOCK: nat := 128

  /** The memory as RFC 9106 draws it: one row per lane. */
  type Matrix = seq<seq<Block>>

  predicate Shaped(g: Instance, m: Matrix) {
    |m| == g.lanes && forall l :: 0 <= l < g.lanes ==> |m[l]| == g.laneLength
  }

  predicate DataIndependent(g: Instance, p: Position) {
    g.ty == Argon2i || (g.ty == Argon2id && p.pass == 0 && p.slice < SYNC_POINTS / 2)
  }

  function Zero(): Block {
    seq(WORDS, _ => 0)
  }

  /** The input of the address generator with a given counter value. */
  function AddressInput(g: Instance, p: Position, counter: Word): Block
    requires p.lane < U32_LIMIT && p.slice < U32_LIMIT
  {
    [p.pass, p.lane, p.slice, g.memoryBlocks, g.passes, g.ty.Code(), counter] + seq(WORDS - 7, _ => 0)
  }

  /** Two applications of G with a zero block, as in section 3.4.1.2 of RFC 9106. */
  function Addresses(perm: Permutation, input: Block): Block {
    FillBlock(perm, Zero(), FillBlock(perm, Zero(), input, Zero(), false), Zero(), false)
  }

  /** J1 and J2 for block i: word i mod 128 of address block i / 128 + 1, or the first word of the
      previous block. */
  function PseudoRandom(g: Instance, perm: Permutation, m: Matrix, p: Position): Word
    requires ValidPosition(g, p) && Shaped(g, m)
  {
    if DataIndependent(g, p) then
      Addresses(perm, AddressInput(g, p, p.index / ADDRESSES_IN_BLOCK + 1))[p.index % ADDRESSES_IN_BLOCK]
    else
      ColumnsInLane(g, p);
      m[p.lane][PreviousColumn(g, p)][0]
  }

  lemma ColumnsInLane(g: Instance, p: Position)
    requires ValidPosition(g, p)
    ensures PreviousColumn(g, p) < g.laneLength
    ensures SliceStart(g, p.slice) + p.index < g.laneLength
  {
  }

  /** A cell of the matrix. */
  datatype Cell = Cell(lane: nat, column: nat)

  predicate InMatrix(g: Instance, c: Cell) {
    c.lane < g.lanes && c.column < g.laneLength
  }

  function Current(g: Instance, p: Position): (c: Cell)
    requires ValidPosition(g, p)
    ensures InMatrix(g, c)
  {
    ColumnsInLane(g, p);
    Cell(p.lane, SliceStart(g, p.slice) + p.index)
  }

  function Previous(g: Instance, p: Position): (c: Cell)
    requires ValidPosition(g, p)
    ensures InMatrix(g, c)
  {
    ColumnsInLane(g, p);
    Cell(p.lane, PreviousColumn(g, p))
  }

  function ReferenceLane(g: Instance, p: Position, j: Word): (l: nat)
    requires ValidPosition(g, p)
    ensures l < g.lanes
  {
    if p.pass == 0 && p.slice == 0 then p.lane else j / U32_LIMIT % g.lanes
  }

  function Reference(g: Instance, p: Position, j: Word): (c: Cell)
    requires ValidPosition(g, p)
    ensures InMatrix(g, c)
  {
    var l := ReferenceLane(g, p, j);
    IndexAlphaRefinesRfc(g, p, j % U32_LIMIT, l == p.lane);
    Cell(l, IndexAlpha(g, p, j % U32_LIMIT, l == p.lane))
  }

  /** Lane and column for the word hi * 2^32 + lo, in numbers: section 3.4.2 of RFC 9106. */
  predicate RefersTo(g: Instance, p: Position, hi: nat, lo: nat, c: Cell)
    requires ValidPosition(g, p)
  {
    var lane := if p.pass == 0 && p.slice == 0 then p.lane else hi % g.lanes;
    var w := ReferenceSet(g, p, lane == p.lane);
    var x := |w| - 1 - (|w| * (lo * lo / 0x1_0000_0000)) / 0x1_0000_0000;
    c.lane == lane && 0 <= x < |w| && c.column == w[x]
  }

  lemma ReferenceOfWord(g: Instance, p: Position, hi: nat, lo: nat)
    requires ValidPosition(g, p) && hi < 0x1_0000_0000 && lo < 0x1_0000_0000
    ensures hi * 0x1_0000_0000 + lo < 0x1_0000_0000_0000_0000
    ensures RefersTo(g, p, hi, lo, Reference(g, p, hi * 0x1_0000_0000 + lo))
  {
    hide IndexAlpha, ReferenceSet;
    var j := hi * 0x1_0000_0000 + lo;
    DivModUnique(j, 0x1_0000_0000, hi, lo);
    IndexAlphaRefinesRfc(g, p, lo, ReferenceLane(g, p, j) == p.lane);
  }

  function At(g: Instance, m: Matrix, c: Cell): Block
    requires Shaped(g, m) && InMatrix(g, c)
  {
    m[c.lane][c.column]
  }

  function Put(g: Instance, m: Matrix, c: Cell, b: Block): (m': Matrix)
    requires Shaped(g, m) && InMatrix(g, c)
    ensures Shaped(g, m')
    ensures forall d :: InMatrix(g, d) ==> At(g, m', d) == if d == c then b else At(g, m, d)
  {
    var row: seq<Block> := m[c.lane];
    m[c.lane := row[c.column := b]]
  }

  function NewBlock(g: Instance, perm: Permutation, m: Matrix, p: Position): Block
    requires ValidPosition(g, p) && Shaped(g, m)
  {
    FillBlock(perm, At(g, m, Previous(g, p)), At(g, m, Reference(g, p, PseudoRandom(g, perm, m, p))),
              At(g, m, Current(g, p)), g.version != VERSION_10 && p.pass != 0)
  }

  /** One step of a lane: build the block at p. */
  function StepBlock(g: Instance, perm: Permutation, m: Matrix, p: Position): (m': Matrix)
    requires ValidPosition(g, p) && Shaped(g, m)
    ensures Shaped(g, m')
  {
    Put(g, m, Current(g, p), NewBlock(g, perm, m, p))
  }

  function FirstIndex(pass: nat, slice: nat): nat {
    if pass == 0 && slice == 0 then 2 else 0
  }

  predicate ValidSegment(g: Instance, pass: nat, lane: nat, slice: nat) {
    ValidInstance(g) && pass < g.passes && lane < g.lanes && slice < SYNC_POINTS
  }

  /** The matrix after a lane has built its blocks up to, not including, index i. */
  function FillTo(g: Instance, perm: Permutation, m: Matrix, pass: nat, lane: nat, slice: nat, i: nat): (m': Matrix)
    requires ValidSegment(g, pass, lane, slice) && Shaped(g, m)
    requires i <= g.segmentLength
    ensures Shaped(g, m')
  {
    if i <= FirstIndex(pass, slice) then m
    else StepBlock(g, perm, FillTo(g, perm, m, pass, lane, slice, i - 1), Position(pass, lane, slice, i - 1))
  }

  /** The cells referred to while building the same blocks. */
  function References(g: Instance, perm: Permutation, m: Matrix, pass: nat, lane: nat, slice: nat, i: nat): seq<Cell>
    requires ValidSegment(g, pass, lane, slice) && Shaped(g, m)
    requires i <= g.segmentLength
  {
    if i <= FirstIndex(pass, slice) then []
    else
      var p := Position(pass, lane, slice, i - 1);
      References(g, perm, m, pass, lane, slice, i - 1)
      + [Reference(g, p, PseudoRandom(g, perm, FillTo(g, perm, m, pass, lane, slice, i - 1), p))]
  }

  /** The cells referred to, block by block, in numbers. */
  predicate RefersInOrder(g: Instance, perm: Permutation, m: Matrix, pass: nat, lane: nat, slice: nat, i: nat,
                          references: seq<Cell>)
    requires ValidSegment(g, pass, lane, slice) && Shaped(g, m) && i <= g.segmentLength
  {
    && |references| == (if i <= FirstIndex(pass, slice) then 0 else i - FirstIndex(pass, slice))
    && forall k :: 0 <= k < |references| ==>
         var p := Position(pass, lane, slice, FirstIndex(pass, slice) + k);
         var j := PseudoRandom(g, perm, FillTo(g, perm, m, pass, lane, slice, p.index), p);
         RefersTo(g, p, j / 0x1_0000_0000, j % 0x1_0000_0000, references[k])
  }

  lemma {:induction false} ReferencesReferInOrder(g: Instance, perm: Permutation, m: Matrix, pass: nat, lane: nat,
                                                  slice: nat, i: nat)
    requires ValidSegment(g, pass, lane, slice) && Shaped(g, m) && i <= g.segmentLength
    ensures RefersInOrder(g, perm, m, pass, lane, slice, i, References(g, perm, m, pass, lane, slice, i))
  {
    hide RefersTo, PseudoRandom, FillTo, Reference;
    if i > FirstIndex(pass, slice) {
      ReferencesReferInOrder(g, perm, m, pass, lane, slice, i - 1);
      var p := Position(pass, lane, slice, i - 1);
      var j := PseudoRandom(g, perm, FillTo(g, perm, m, pass, lane, slice, i - 1), p);
      HighLow(j);
      ReferenceOfWord(g, p, j / 0x1_0000_0000, j % 0x1_0000_0000);
    }
  }

  lemma HighLow(j: Word)
    ensures j / 0x1_0000_0000 < 0x1_0000_0000
    ensures j / 0x1_0000_0000 * 0x1_0000_0000 + j % 0x1_0000_0000 == j
  {
  }

  /** Argon2i always, and Argon2id in the first half of pass 0, refer to the same cells whatever the
      memory holds. */
  lemma {:induction false} ReferencesIgnoreMemory(g: Instance, perm: Permutation, m1: Matrix, m2: Matrix,
                                                  pass: nat, lane: nat, slice: nat, i: nat)
    requires ValidSegment(g, pass, lane, slice) && Shaped(g, m1) && Shaped(g, m2)
    requires i <= g.segmentLength
    requires DataIndependent(g, Position(pass, lane, slice, 0))
    ensures References(g, perm, m1, pass, lane, slice, i) == References(g, perm, m2, pass, lane, slice, i)
  {
    hide IndexAlpha, Addresses, FillTo, Reference;
    if i > FirstIndex(pass, slice) {
      ReferencesIgnoreMemory(g, perm, m1, m2, pass, lane, slice, i - 1);
    }
  }

  /** Offset of a cell in the flat memory, in blocks. */
  function BlockOffset(g: Instance, c: Cell): nat {
    Times(c.lane, g.laneLength) + c.column
  }

  function View(g: Instance, words: seq<Word>): (m: Matrix)
    requires ValidInstance(g) && |words| == WORDS * g.memoryBlocks
    ensures Shaped(g, m)
  {
    seq(g.lanes, l requires 0 <= l < g.lanes => LaneView(g, words, l))
  }

  function LaneView(g: Instance, words: seq<Word>, l: nat): (lane: seq<Block>)
    requires ValidInstance(g) && |words| == WORDS * g.memoryBlocks && l < g.lanes
    ensures |lane| == g.laneLength
  {
    seq(g.laneLength, j requires 0 <= j < g.laneLength => BlockOf(g, words, Cell(l, j)))
  }

  function BlockOf(g: Instance, words: seq<Word>, c: Cell): Block
    requires ValidInstance(g) && |words| == WORDS * g.memoryBlocks && InMatrix(g, c)
  {
    OffsetInMemory(g, c.lane, c.column);
    BlockAt(words, WORDS * BlockOffset(g, c))
  }

  lemma ViewAt(g: Instance, words: seq<Word>, c: Cell)
    requires ValidInstance(g) && |words| == WORDS * g.memoryBlocks && InMatrix(g, c)
    ensures Shaped(g, View(g, words))
    ensures At(g, View(g, words), c) == BlockOf(g, words, c)
  {
  }

  lemma OffsetsDistinct(g: Instance, c: Cell, d: Cell)
    requires ValidInstance(g) && InMatrix(g, c) && InMatrix(g, d) && c != d
    ensures BlockOffset(g, c) != BlockOffset(g, d)
  {
    OffsetInMemory(g, c.lane, c.column);
    OffsetInMemory(g, d.lane, d.column);
  }

  /** Writing one block of the flat memory writes one cell of the matrix. */
  lemma StoreIsPut(g: Instance, words: seq<Word>, c: Cell, b: Block)
    requires ValidInstance(g) && |words| == WORDS * g.memoryBlocks && InMatrix(g, c)
    ensures WORDS * BlockOffset(g, c) + WORDS <= |words|
    ensures |Store(words, WORDS * BlockOffset(g, c), b)| == |words|
    ensures Shaped(g, View(g, words))
    ensures View(g, Store(words, WORDS * BlockOffset(g, c), b)) == Put(g, View(g, words), c, b)
  {
    OffsetInMemory(g, c.lane, c.column);
    var words' := Store(words, WORDS * BlockOffset(g, c), b);
    ViewAt(g, words, c);
    ViewAt(g, words', c);
    var m, m' := Put(g, View(g, words), c, b), View(g, words');
    forall l, j | 0 <= l < g.lanes && 0 <= j < g.laneLength ensures m[l][j] == m'[l][j] {
      var d := Cell(l, j);
      ViewAt(g, words, d);
      ViewAt(g, words', d);
      assert At(g, m, d) == m[l][j];
      OffsetInMemory(g, l, j);
      if d != c {
        OffsetsDistinct(g, c, d);
        StoreElsewhere(words, WORDS * BlockOffset(g, c), WORDS * BlockOffset(g, d), b);
      } else {
        StoreTwice(words, WORDS * BlockOffset(g, c), b, b);
      }
    }
    SameMatrix(g, m, m');
  }

  lemma StoreElsewhere(words: seq<Word>, at: nat, other: nat, b: Block)
    requires at + WORDS <= |words| && other + WORDS <= |words|
    requires other + WORDS <= at || at + WORDS <= other
    ensures |Store(words, at, b)| == |words|
    ensures BlockAt(Store(words, at, b), other) == BlockAt(words, other)
  {
  }

  lemma SameMatrix(g: Instance, a: Matrix, b: Matrix)
    requires Shaped(g, a) && Shaped(g, b)
    requires forall l, j :: 0 <= l < g.lanes && 0 <= j < g.laneLength ==> a[l][j] == b[l][j]
    ensures a == b
  {
    forall l | 0 <= l < g.lanes ensures a[l] == b[l] {
    }
  }
}
