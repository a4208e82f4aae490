/** Section 3.2 of RFC 9106 as equations between the memory before and after a pass, on numbers and
    bytes: every tag of the code solves them. */
module Argon2Standard {
  import opened Arithmetic
  import opened Argon2Geometry
  import opened Argon2Index
  import opened Argon2Round
  import opened Argon2Blocks
  import opened Argon2Segment
  import opened Argon2Schedule
  import opened Argon2Hash

  // ----- The sequential order keeps what it has built

  /** Before the block at p is built in the sequential order. */
  function Before(g: Instance, perm: Permutation, m: Matrix, p: Position): (m': Matrix)
    requires ValidPosition(g, p) && Shaped(g, m)
    ensures Shaped(g, m')
  {
    FillTo(g, perm, SliceTo(g, perm, PassTo(g, perm, m, p.pass, p.slice), p.pass, p.slice, p.lane),
           p.pass, p.lane, p.slice, p.index)
  }

  lemma {:induction false} FillToKeeps(g: Instance, perm: Permutation, m: Matrix, pass: nat, lane: nat, slice: nat,
                                       i: nat, i': nat, c: Cell)
    requires ValidSegment(g, pass, lane, slice) && Shaped(g, m) && i <= i' <= g.segmentLength && InMatrix(g, c)
    requires c.lane != lane || !(SliceStart(g, slice) + i <= c.column < SliceStart(g, slice) + i')
    ensures At(g, FillTo(g, perm, m, pass, lane, slice, i'), c) == At(g, FillTo(g, perm, m, pass, lane, slice, i), c)
    decreases i'
  {
    hide NewBlock, Times, SliceStart, At;
    if i < i' && i' > FirstIndex(pass, slice) {
      FillToKeeps(g, perm, m, pass, lane, slice, i, i' - 1, c);
    }
  }

  lemma {:induction false} SliceToKeeps(g: Instance, perm: Permutation, m: Matrix, pass: nat, slice: nat,
                                        l: nat, l': nat, c: Cell)
    requires ValidSlice(g, pass, slice) && Shaped(g, m) && l <= l' <= g.lanes && InMatrix(g, c)
    requires !(l <= c.lane < l') || !InSlice(g, slice, c.column)
    ensures At(g, SliceTo(g, perm, m, pass, slice, l'), c) == At(g, SliceTo(g, perm, m, pass, slice, l), c)
    decreases l'
  {
    hide FillTo, Times, InSlice, At;
    if l < l' {
      SliceToKeeps(g, perm, m, pass, slice, l, l' - 1, c);
      FillToFrame(g, perm, SliceTo(g, perm, m, pass, slice, l' - 1), pass, l' - 1, slice, g.segmentLength, c);
    }
  }

  lemma {:induction false} PassToKeeps(g: Instance, perm: Permutation, m: Matrix, pass: nat, s: nat, s': nat, c: Cell)
    requires ValidInstance(g) && pass < g.passes && Shaped(g, m) && s <= s' <= SYNC_POINTS && InMatrix(g, c)
    requires c.column < SliceStart(g, s) || SliceStart(g, s') <= c.column
    ensures At(g, PassTo(g, perm, m, pass, s'), c) == At(g, PassTo(g, perm, m, pass, s), c)
    decreases s'
  {
    hide SliceTo, Times, At;
    if s < s' {
      PassToKeeps(g, perm, m, pass, s, s' - 1, c);
      SliceToKeeps(g, perm, PassTo(g, perm, m, pass, s' - 1), pass, s' - 1, 0, g.lanes, c);
      NoLanes(g, perm, PassTo(g, perm, m, pass, s' - 1), pass, s' - 1);
    }
  }

  lemma NoLanes(g: Instance, perm: Permutation, m: Matrix, pass: nat, slice: nat)
    requires ValidSlice(g, pass, slice) && Shaped(g, m)
    ensures SliceTo(g, perm, m, pass, slice, 0) == m
  {
  }

  lemma NoBlocks(g: Instance, perm: Permutation, m: Matrix, pass: nat, lane: nat, slice: nat)
    requires ValidSegment(g, pass, lane, slice) && Shaped(g, m)
    ensures FillTo(g, perm, m, pass, lane, slice, 0) == m
  {
  }

  /** Built earlier in the pass, by the lane of p or before the slice. */
  predicate Built(g: Instance, p: Position, c: Cell) {
    c.column < SliceStart(g, p.slice) || (c.lane == p.lane && c.column < SliceStart(g, p.slice) + p.index)
  }

  lemma SliceAhead(g: Instance, s: nat)
    requires ValidInstance(g) && s < SYNC_POINTS
    ensures SliceStart(g, s + 1) == SliceStart(g, s) + g.segmentLength <= g.laneLength == SliceStart(g, 4)
  {
  }

  lemma FromStart(g: Instance, perm: Permutation, m: Matrix, pass: nat, s: nat, c: Cell)
    requires ValidInstance(g) && pass < g.passes && s < SYNC_POINTS && Shaped(g, m) && InMatrix(g, c)
    requires SliceStart(g, s) <= c.column
    ensures At(g, PassTo(g, perm, m, pass, s), c) == At(g, m, c)
  {
    hide SliceTo, At, Times;
    PassToKeeps(g, perm, m, pass, 0, s, c);
  }

  lemma Elsewhere(g: Instance, perm: Permutation, m: Matrix, p: Position, c: Cell)
    requires ValidPosition(g, p) && Shaped(g, m) && InMatrix(g, c) && !InSlice(g, p.slice, c.column)
    ensures At(g, Before(g, perm, m, p), c) == At(g, PassTo(g, perm, m, p.pass, p.slice), c)
  {
    hide FillTo, SliceTo, PassTo, Times, At, Shaped, InSlice;
    var x := PassTo(g, perm, m, p.pass, p.slice);
    NoLanes(g, perm, x, p.pass, p.slice);
    SliceToKeeps(g, perm, x, p.pass, p.slice, 0, p.lane, c);
    FillToFrame(g, perm, SliceTo(g, perm, x, p.pass, p.slice, p.lane), p.pass, p.lane, p.slice, p.index, c);
  }

  lemma InsideSlice(g: Instance, s: nat, column: nat, i: nat)
    requires ValidInstance(g) && s < SYNC_POINTS && i <= g.segmentLength
    requires SliceStart(g, s) <= column < SliceStart(g, s) + i
    ensures InSlice(g, s, column)
  {
  }

  lemma OfLane(g: Instance, perm: Permutation, m: Matrix, p: Position, c: Cell)
    requires ValidPosition(g, p) && Shaped(g, m) && InMatrix(g, c) && c.lane == p.lane
    requires SliceStart(g, p.slice) <= c.column < SliceStart(g, p.slice) + p.index
    ensures At(g, Before(g, perm, m, p), c) == At(g, PassTo(g, perm, m, p.pass, SYNC_POINTS), c)
  {
    hide FillTo, SliceTo, PassTo, Times, At, Shaped, SliceStart, InSlice;
    InsideSlice(g, p.slice, c.column, p.index);
    var y := SliceTo(g, perm, PassTo(g, perm, m, p.pass, p.slice), p.pass, p.slice, p.lane);
    assert At(g, FillTo(g, perm, y, p.pass, p.lane, p.slice, g.segmentLength), c)
           == At(g, Before(g, perm, m, p), c) by {
      FillToKeeps(g, perm, y, p.pass, p.lane, p.slice, p.index, g.segmentLength, c);
    }
    LaneFinished(g, perm, m, p.pass, p.lane, p.slice, c);
  }

  lemma OfSlice(g: Instance, perm: Permutation, m: Matrix, p: Position, c: Cell)
    requires ValidPosition(g, p) && Shaped(g, m) && InMatrix(g, c) && c.lane == p.lane
    requires SliceStart(g, p.slice) + p.index <= c.column && InSlice(g, p.slice, c.column)
    ensures At(g, Before(g, perm, m, p), c) == At(g, m, c)
  {
    hide FillTo, SliceTo, PassTo, Times, At, Shaped, SliceStart;
    var x := PassTo(g, perm, m, p.pass, p.slice);
    var y := SliceTo(g, perm, x, p.pass, p.slice, p.lane);
    NoLanes(g, perm, x, p.pass, p.slice);
    NoBlocks(g, perm, y, p.pass, p.lane, p.slice);
    SliceToKeeps(g, perm, x, p.pass, p.slice, 0, p.lane, c);
    FillToKeeps(g, perm, y, p.pass, p.lane, p.slice, 0, p.index, c);
    FromStart(g, perm, m, p.pass, p.slice, c);
  }

  /** What a lane leaves in its slice is there at the end of the pass. */
  lemma LaneFinished(g: Instance, perm: Permutation, m: Matrix, pass: nat, lane: nat, slice: nat, c: Cell)
    requires ValidSegment(g, pass, lane, slice) && Shaped(g, m) && InMatrix(g, c)
    requires c.lane == lane && InSlice(g, slice, c.column)
    ensures var y := SliceTo(g, perm, PassTo(g, perm, m, pass, slice), pass, slice, lane);
            At(g, FillTo(g, perm, y, pass, lane, slice, g.segmentLength), c)
            == At(g, PassTo(g, perm, m, pass, SYNC_POINTS), c)
  {
    hide FillTo, Times, At, Shaped, SliceStart;
    var x := PassTo(g, perm, m, pass, slice);
    SliceToKeeps(g, perm, x, pass, slice, lane + 1, g.lanes, c);
    PassToKeeps(g, perm, m, pass, slice + 1, SYNC_POINTS, c);
  }

  /** Nothing of the own lane or of another slice has been lost: the memory holds the block of this pass if
      it is built, and the one from before the pass otherwise. */
  lemma BeforeBuilt(g: Instance, perm: Permutation, m: Matrix, p: Position, c: Cell)
    requires ValidPosition(g, p) && Shaped(g, m) && InMatrix(g, c)
    requires c.lane == p.lane || !InSlice(g, p.slice, c.column)
    ensures At(g, Before(g, perm, m, p), c)
            == if Built(g, p, c) then At(g, PassTo(g, perm, m, p.pass, SYNC_POINTS), c) else At(g, m, c)
  {
    hide Before, PassTo, Times, At, Shaped, SliceStart;
    SliceAhead(g, p.slice);
    if InSlice(g, p.slice, c.column) {
      if Built(g, p, c) {
        OfLane(g, perm, m, p, c);
      } else {
        OfSlice(g, perm, m, p, c);
      }
    } else {
      Elsewhere(g, perm, m, p, c);
      if Built(g, p, c) {
        PassToKeeps(g, perm, m, p.pass, p.slice, SYNC_POINTS, c);
      } else {
        FromStart(g, perm, m, p.pass, p.slice, c);
      }
    }
  }

  // ----- Numbers and bytes

  /** The n lowest bytes of a number, the lowest first. */
  function LittleEndian(x: nat, n: nat): (b: seq<byte>)
    ensures |b| == n
  {
    if n == 0 then [] else [x % 256] + LittleEndian(x / 256, n - 1)
  }

  lemma LittleEndianStep(x: nat, n: nat)
    requires n > 0
    ensures LittleEndian(x, n) == [x % 256] + LittleEndian(x / 256, n - 1)
  {
  }

  lemma Le32IsLittleEndian(x: uint32)
    ensures Le32(x) == LittleEndian(x, 4)
  {
    LittleEndianStep(x, 4);
    LittleEndianStep(x / 256, 3);
    LittleEndianStep(x / 65536, 2);
    LittleEndianStep(x / 16777216, 1);
    assert LittleEndian(x / 4294967296, 0) == [];
    assert x / 256 / 256 == x / 65536 && x / 65536 / 256 == x / 16777216;
  }

  lemma Le64IsLittleEndian(x: uint64)
    ensures Le64(x) == LittleEndian(x, 8)
  {
    hide LittleEndian, Le32;
    FourAndFour(x);
    Le32IsLittleEndian(x / U32_LIMIT);
    Le32IsLittleEndian(x % U32_LIMIT);
    LowBytes(x);
  }

  lemma FourAndFour(x: nat)
    ensures LittleEndian(x, 8) == LittleEndian(x, 4) + LittleEndian(x / U32_LIMIT, 4)
  {
    hide LittleEndian;
    var a, b, c := x / 256, x / 256 / 256, x / 256 / 256 / 256;
    LittleEndianStep(x, 8);
    LittleEndianStep(a, 7);
    LittleEndianStep(b, 6);
    LittleEndianStep(c, 5);
    LittleEndianStep(x, 4);
    LittleEndianStep(a, 3);
    LittleEndianStep(b, 2);
    LittleEndianStep(c, 1);
    NoBytes(c / 256);
    assert c / 256 == x / U32_LIMIT;
  }

  lemma LowBytes(x: nat)
    ensures LittleEndian(x % U32_LIMIT, 4) == LittleEndian(x, 4)
  {
    hide LittleEndian;
    var y := x % U32_LIMIT;
    LittleEndianStep(x, 4);
    LittleEndianStep(x / 256, 3);
    LittleEndianStep(x / 256 / 256, 2);
    LittleEndianStep(x / 256 / 256 / 256, 1);
    LittleEndianStep(y, 4);
    LittleEndianStep(y / 256, 3);
    LittleEndianStep(y / 256 / 256, 2);
    LittleEndianStep(y / 256 / 256 / 256, 1);
    NoBytes(x / 256 / 256 / 256 / 256);
    NoBytes(y / 256 / 256 / 256 / 256);
    var q := x / U32_LIMIT;
    assert x == U32_LIMIT * q + y;
    assert x / 256 == 16777216 * q + y / 256;
    assert x / 256 / 256 == 65536 * q + y / 256 / 256;
    assert x / 256 / 256 / 256 == 256 * q + y / 256 / 256 / 256;
  }

  lemma NoBytes(x: nat)
    ensures LittleEndian(x, 0) == []
  {
  }

  /** The input of the address generator, byte by byte: section 3.4.1.2. */
  function GeneratorBytes(g: Instance, p: Position, counter: nat): seq<byte> {
    LittleEndian(p.pass, 8) + LittleEndian(p.lane, 8) + LittleEndian(p.slice, 8)
    + LittleEndian(g.memoryBlocks, 8) + LittleEndian(g.passes, 8)
    + LittleEndian(match g.ty case Argon2d => 0 case Argon2i => 1 case Argon2id => 2, 8)
    + LittleEndian(counter, 8) + seq(968, _ => 0)
  }

  lemma AddressInputBytes(g: Instance, p: Position, counter: Word)
    requires p.lane < U32_LIMIT && p.slice < U32_LIMIT
    ensures StoreBlock(AddressInput(g, p, counter)) == GeneratorBytes(g, p, counter)
  {
    hide Le64, LittleEndian;
    var b := AddressInput(g, p, counter);
    forall k | 0 <= k < WORDS ensures Le64(b[k]) == LittleEndian(b[k], 8) {
      Le64IsLittleEndian(b[k]);
    }
    ZeroBytes();
  }

  lemma ZeroBytes()
    ensures LittleEndian(0, 8) == [0, 0, 0, 0, 0, 0, 0, 0]
  {
  }

  // ----- The compression function

  /** The round over every row, the registers of a row standing one after the other. */
  predicate RowsRound(perm: Permutation, r: Block, q: Block) {
    forall i :: 0 <= i < 8 ==> q[16 * i..16 * i + 16] == perm(r[16 * i..16 * i + 16])
  }

  /** And over every column: of each row the two words at 2i. */
  predicate ColumnsRound(perm: Permutation, q: Block, z: Block) {
    forall i :: 0 <= i < 8 ==> Column(z, i) == perm(Column(q, i))
  }

  function Column(b: Block, i: nat): Sixteen
    requires i < 8
  {
    var k := 2 * i;
    [b[k], b[k + 1], b[k + 16], b[k + 17], b[k + 32], b[k + 33], b[k + 48], b[k + 49],
     b[k + 64], b[k + 65], b[k + 80], b[k + 81], b[k + 96], b[k + 97], b[k + 112], b[k + 113]]
  }

  /** a is the XOR of the two others, bit by bit. */
  predicate IsXor(a: Block, b: Block, c: Block) {
    forall k :: 0 <= k < WORDS ==> a[k] == BitXor(b[k], c[k])
  }

  /** out = G(x, y) of section 3.5: R = x XOR y, Q the rounds over rows, Z over columns, out = Z XOR R. */
  predicate Compression(perm: Permutation, x: Block, y: Block, r: Block, q: Block, z: Block, out: Block) {
    IsXor(r, x, y) && RowsRound(perm, r, q) && ColumnsRound(perm, q, z) && IsXor(out, z, r)
  }

  ghost predicate IsCompressed(perm: Permutation, x: Block, y: Block, out: Block) {
    exists r: Block, q: Block, z: Block :: Compression(perm, x, y, r, q, z, out)
  }

  lemma RowsAreRows(perm: Permutation, r: Block)
    ensures RowsRound(perm, r, Rows(perm, r))
  {
    forall i | 0 <= i < 8 ensures Rows(perm, r)[16 * i..16 * i + 16] == perm(r[16 * i..16 * i + 16]) {
      forall j | 0 <= j < 16 ensures Rows(perm, r)[16 * i + j] == perm(RowOf(r, i))[j] {
        assert (16 * i + j) / 16 == i && (16 * i + j) % 16 == j;
      }
    }
  }

  lemma ColumnListed(b: Block, i: nat)
    requires i < 8
    ensures Column(b, i) == ColumnOf(b, i)
  {
  }

  lemma ColumnsAreColumns(perm: Permutation, q: Block)
    ensures ColumnsRound(perm, q, Columns(perm, q))
  {
    hide Column;
    forall i | 0 <= i < 8 ensures Column(Columns(perm, q), i) == perm(Column(q, i)) {
      ColumnListed(q, i);
      ColumnListed(Columns(perm, q), i);
      forall j | 0 <= j < 16 ensures ColumnOf(Columns(perm, q), i)[j] == perm(ColumnOf(q, i))[j] {
        SlotOf(i, j);
      }
    }
  }

  lemma SlotOf(i: nat, j: nat)
    requires i < 8 && j < 16
    ensures var k := 16 * (j / 2) + 2 * i + j % 2; k < WORDS && ColumnIndex(k) == i && ColumnSlot(k) == j
  {
    CoordinatesUnique(j / 2, i, j % 2);
    assert (16 * (j / 2) + 2 * i + j % 2) / 16 == j / 2;
    assert (16 * (j / 2) + 2 * i + j % 2) % 2 == j % 2;
  }

  lemma FillBlockCompresses(perm: Permutation, x: Block, y: Block, old_: Block)
    ensures IsCompressed(perm, x, y, FillBlock(perm, x, y, old_, false))
  {
    hide Rows, Columns, RowsRound, ColumnsRound;
    var r := XorBlock(y, x);
    XorBlockCommutes(x, y);
    RowsAreRows(perm, r);
    ColumnsAreColumns(perm, Rows(perm, r));
    XorBlockCommutes(r, Columns(perm, Rows(perm, r)));
    assert Compression(perm, x, y, r, Rows(perm, r), Columns(perm, Rows(perm, r)), FillBlock(perm, x, y, old_, false));
  }

  lemma FillBlockOver(perm: Permutation, x: Block, y: Block, old_: Block)
    ensures IsXor(FillBlock(perm, x, y, old_, true), FillBlock(perm, x, y, old_, false), old_)
  {
    hide Rows, Columns;
    var r := XorBlock(y, x);
    var z := Columns(perm, Rows(perm, r));
    forall k | 0 <= k < WORDS
      ensures BitXor(BitXor(r[k], old_[k]), z[k]) == BitXor(BitXor(r[k], z[k]), old_[k])
    {
      BitXorSwaps(r[k], old_[k], z[k]);
    }
  }

  // ----- The equations of one pass

  /** The 64-bit word J1 + 2^32 * J2 of a position, section 3.4.1: word i mod 128 of the address block, or
      the first word of the previous block. */
  ghost predicate IsPseudoRandom(g: Instance, perm: Permutation, p: Position, prev: Block, j: Word) {
    if g.ty == Argon2i || (g.ty == Argon2id && p.pass == 0 && p.slice < 2) then
      exists input: Block, half: Block, address: Block ::
        && StoreBlock(input) == GeneratorBytes(g, p, p.index / 128 + 1)
        && IsCompressed(perm, Zero(), input, half) && IsCompressed(perm, Zero(), half, address)
        && j == address[p.index % 128]
    else j == prev[0]
  }

  /** The block a position refers to: of this pass where it has been built, else of the pass before. */
  function Latest(g: Instance, p: Position, before: Matrix, after: Matrix, c: Cell): Block
    requires ValidPosition(g, p) && Shaped(g, before) && Shaped(g, after) && InMatrix(g, c)
  {
    if Built(g, p, c) then after[c.lane][c.column] else before[c.lane][c.column]
  }

  predicate IsStored(g: Instance, p: Position, out: Block, was: Block, now: Block) {
    if p.pass == 0 || g.version == 0x10 then now == out else IsXor(now, out, was)
  }

  /** B[i][j] = G(B[i][j - 1], B[l][z]), in later passes XORed over the old block unless the version is 1.0. */
  ghost predicate BlockEquation(g: Instance, perm: Permutation, before: Matrix, after: Matrix, p: Position)
    requires ValidPosition(g, p) && Shaped(g, before) && Shaped(g, after)
  {
    var column := SliceStart(g, p.slice) + p.index;
    && column < g.laneLength
    && var prev := if column == 0 then before[p.lane][g.laneLength - 1] else after[p.lane][column - 1];
    exists j: Word, c: Cell, out: Block ::
      && IsPseudoRandom(g, perm, p, prev, j) && RefersTo(g, p, j / 0x1_0000_0000, j % 0x1_0000_0000, c)
      && InMatrix(g, c) && IsCompressed(perm, prev, Latest(g, p, before, after, c), out)
      && IsStored(g, p, out, before[p.lane][column], after[p.lane][column])
  }

  /** Every block of the pass solves its equation; the first pass leaves the first two of every lane. */
  ghost predicate PassEquations(g: Instance, perm: Permutation, before: Matrix, after: Matrix, pass: nat)
    requires ValidInstance(g) && Shaped(g, before) && Shaped(g, after)
  {
    && (forall p :: ValidPosition(g, p) && p.pass == pass ==> BlockEquation(g, perm, before, after, p))
    && (pass == 0 ==> forall l :: 0 <= l < g.lanes ==> after[l][..2] == before[l][..2])
  }

  lemma WordIsPseudoRandom(g: Instance, perm: Permutation, m: Matrix, p: Position)
    requires ValidPosition(g, p) && Shaped(g, m)
    ensures IsPseudoRandom(g, perm, p, At(g, m, Previous(g, p)), PseudoRandom(g, perm, m, p))
  {
    hide StoreBlock, GeneratorBytes, FillBlock, IsCompressed, PreviousColumn;
    if DataIndependent(g, p) {
      var input := AddressInput(g, p, p.index / ADDRESSES_IN_BLOCK + 1);
      AddressInputBytes(g, p, p.index / ADDRESSES_IN_BLOCK + 1);
      var half := FillBlock(perm, Zero(), input, Zero(), false);
      FillBlockCompresses(perm, Zero(), input, Zero());
      FillBlockCompresses(perm, Zero(), half, Zero());
    }
  }

  lemma NewBlockStored(g: Instance, perm: Permutation, m: Matrix, p: Position)
    requires ValidPosition(g, p) && Shaped(g, m)
    ensures var r := Reference(g, p, PseudoRandom(g, perm, m, p));
            exists out: Block ::
              && IsCompressed(perm, At(g, m, Previous(g, p)), At(g, m, r), out)
              && IsStored(g, p, out, At(g, m, Current(g, p)), NewBlock(g, perm, m, p))
  {
    hide FillBlock, IsCompressed, PseudoRandom, Reference, IsXor, At;
    var r := Reference(g, p, PseudoRandom(g, perm, m, p));
    var x, y, was := At(g, m, Previous(g, p)), At(g, m, r), At(g, m, Current(g, p));
    FillBlockCompresses(perm, x, y, was);
    FillBlockOver(perm, x, y, was);
    var out := FillBlock(perm, x, y, was, false);
    assert IsStored(g, p, out, was, NewBlock(g, perm, m, p));
  }

  lemma AfterIsNew(g: Instance, perm: Permutation, m: Matrix, p: Position)
    requires ValidPosition(g, p) && Shaped(g, m)
    ensures At(g, PassTo(g, perm, m, p.pass, SYNC_POINTS), Current(g, p))
            == NewBlock(g, perm, Before(g, perm, m, p), p)
  {
    hide PassTo, SliceTo, NewBlock, Times, SliceStart, At;
    var y := SliceTo(g, perm, PassTo(g, perm, m, p.pass, p.slice), p.pass, p.slice, p.lane);
    CurrentInSlice(g, p);
    LaneFinished(g, perm, m, p.pass, p.lane, p.slice, Current(g, p));
    FillToKeeps(g, perm, y, p.pass, p.lane, p.slice, p.index + 1, g.segmentLength, Current(g, p));
  }

  /** The cells a block is made of, in the memory before it and at the end of the pass. */
  lemma ReadCells(g: Instance, perm: Permutation, m: Matrix, p: Position, j: Word)
    requires ValidPosition(g, p) && Shaped(g, m)
    ensures var x, after := Before(g, perm, m, p), PassTo(g, perm, m, p.pass, SYNC_POINTS);
            var column := SliceStart(g, p.slice) + p.index;
            && column < g.laneLength && Current(g, p) == Cell(p.lane, column)
            && At(g, x, Previous(g, p))
               == (if column == 0 then m[p.lane][g.laneLength - 1] else after[p.lane][column - 1])
            && At(g, x, Reference(g, p, j)) == Latest(g, p, m, after, Reference(g, p, j))
            && At(g, x, Current(g, p)) == m[p.lane][column]
  {
    hide Before, PassTo, Times, SliceStart, Reference, InSlice;
    ColumnsInLane(g, p);
    NoCrossLaneRead(g, p, j);
    BeforeBuilt(g, perm, m, p, Previous(g, p));
    BeforeBuilt(g, perm, m, p, Reference(g, p, j));
    BeforeBuilt(g, perm, m, p, Current(g, p));
  }

  lemma BlockSolves(g: Instance, perm: Permutation, m: Matrix, p: Position)
    requires ValidPosition(g, p) && Shaped(g, m)
    ensures BlockEquation(g, perm, m, PassTo(g, perm, m, p.pass, SYNC_POINTS), p)
  {
    hide Before, PassTo, Times, SliceStart, Reference, NewBlock, IsPseudoRandom, PseudoRandom, IsCompressed, IsStored;
    hide RefersTo, Latest;
    var x := Before(g, perm, m, p);
    var j := PseudoRandom(g, perm, x, p);
    var c := Reference(g, p, j);
    ReadCells(g, perm, m, p, j);
    WordIsPseudoRandom(g, perm, x, p);
    HighLow(j);
    ReferenceOfWord(g, p, j / 0x1_0000_0000, j % 0x1_0000_0000);
    NewBlockStored(g, perm, x, p);
    AfterIsNew(g, perm, m, p);
    var out: Block :| IsCompressed(perm, At(g, x, Previous(g, p)), At(g, x, c), out)
                      && IsStored(g, p, out, At(g, x, Current(g, p)), NewBlock(g, perm, x, p));
    assert IsPseudoRandom(g, perm, p, At(g, x, Previous(g, p)), j);
  }

  lemma FirstBlocksStay(g: Instance, perm: Permutation, m: Matrix, l: nat, j: nat)
    requires ValidInstance(g) && Shaped(g, m) && l < g.lanes && j < 2
    ensures InMatrix(g, Cell(l, j))
    ensures At(g, PassTo(g, perm, m, 0, SYNC_POINTS), Cell(l, j)) == At(g, m, Cell(l, j))
  {
    hide SliceTo, Times, At;
    var x := PassTo(g, perm, m, 0, 0);
    LaneFinished(g, perm, m, 0, l, 0, Cell(l, j));
    NoLanes(g, perm, x, 0, 0);
    SliceToKeeps(g, perm, x, 0, 0, 0, l, Cell(l, j));
    FillToKeeps(g, perm, SliceTo(g, perm, x, 0, 0, l), 0, l, 0, 2, g.segmentLength, Cell(l, j));
  }

  /** The sequential order, hence every complete run of threads, solves the equations of every pass. */
  lemma PassSolves(g: Instance, perm: Permutation, m: Matrix, pass: nat)
    requires ValidInstance(g) && Shaped(g, m) && pass < g.passes
    ensures PassEquations(g, perm, m, PassTo(g, perm, m, pass, SYNC_POINTS), pass)
  {
    hide PassTo, BlockEquation, Times, ValidPosition;
    var after := PassTo(g, perm, m, pass, SYNC_POINTS);
    forall p | ValidPosition(g, p) && p.pass == pass ensures BlockEquation(g, perm, m, after, p) {
      BlockSolves(g, perm, m, p);
    }
    if pass == 0 {
      forall l | 0 <= l < g.lanes ensures after[l][..2] == m[l][..2] {
        FirstBlocksStay(g, perm, m, l, 0);
        FirstBlocksStay(g, perm, m, l, 1);
      }
    }
  }

  // ----- From the request to the tag

  /** The words of a block as bytes, the lowest first. */
  predicate IsBytesOf(b: Block, bytes: seq<byte>) {
    |bytes| == 1024 && forall k :: 0 <= k < WORDS ==> bytes[8 * k..8 * k + 8] == LittleEndian(b[k], 8)
  }

  lemma StoreBlockBytes(b: Block)
    ensures IsBytesOf(b, StoreBlock(b))
  {
    hide Le64, LittleEndian;
    forall k | 0 <= k < WORDS ensures StoreBlock(b)[8 * k..8 * k + 8] == LittleEndian(b[k], 8) {
      Le64IsLittleEndian(b[k]);
    }
  }

  lemma LoadBlockBytes(bytes: seq<byte>)
    requires |bytes| == 1024
    ensures IsBytesOf(LoadBlock(bytes), bytes)
  {
    hide Le64, FromLe64, LittleEndian;
    forall k | 0 <= k < WORDS ensures bytes[8 * k..8 * k + 8] == LittleEndian(LoadBlock(bytes)[k], 8) {
      Le64Back(bytes[8 * k..8 * k + 8]);
      Le64IsLittleEndian(LoadBlock(bytes)[k]);
    }
  }

  lemma Le32Back(b: seq<byte>)
    requires |b| == 4
    ensures Le32(FromLe32(b)) == b
  {
    FourBytes(b[0], b[1], b[2], b[3]);
  }

  lemma FourBytes(a: byte, b: byte, c: byte, d: byte)
    ensures var x := a as int + 256 * (b as int) + 65536 * (c as int) + 16777216 * (d as int);
            x % 256 == a && x / 256 % 256 == b && x / 65536 % 256 == c && x / 16777216 == d
  {
    var y := b as int + 256 * (c as int) + 65536 * (d as int);
    var z := c as int + 256 * (d as int);
    assert a as int + 256 * y == a as int + 256 * (b as int) + 65536 * z;
  }

  lemma Le64Back(b: seq<byte>)
    requires |b| == 8
    ensures Le64(FromLe64(b)) == b
  {
    hide Le32, FromLe32;
    Le32Back(b[..4]);
    Le32Back(b[4..]);
    assert FromLe64(b) % U32_LIMIT == FromLe32(b[..4]) && FromLe64(b) / U32_LIMIT == FromLe32(b[4..]);
    assert b == b[..4] + b[4..];
  }

  function LengthThenBytes(b: Buffer): seq<byte> {
    LittleEndian(b.Len(), 4) + if b.Data? then b.bytes else []
  }

  /** The 64-byte H0: step 1 of section 3.2. */
  function PreHash(h: Primitives, c: Context, ty: ArgonType): seq<byte> {
    h.blake2b(LittleEndian(c.lanes, 4) + LittleEndian(c.out.Len(), 4) + LittleEndian(c.mCost, 4)
              + LittleEndian(c.tCost, 4) + LittleEndian(c.version, 4)
              + LittleEndian(match ty case Argon2d => 0 case Argon2i => 1 case Argon2id => 2, 4)
              + LengthThenBytes(c.pwd) + LengthThenBytes(c.salt) + LengthThenBytes(c.secret) + LengthThenBytes(c.ad))
  }

  lemma PreHashIsInput(h: Primitives, c: Context, ty: ArgonType)
    ensures PreHash(h, c, ty) == h.blake2b(InitialHashInput(c, ty))
  {
    hide Le32, LittleEndian;
    forall x: uint32 ensures Le32(x) == LittleEndian(x, 4) {
      Le32IsLittleEndian(x);
    }
    var a, b, d, e := LittleEndian(c.lanes, 4), LittleEndian(c.out.Len(), 4), LittleEndian(c.mCost, 4),
                      LittleEndian(c.tCost, 4);
    var f, t := LittleEndian(c.version, 4), LittleEndian(ty.Code(), 4);
    var w, x, y, z := LengthThenBytes(c.pwd), LengthThenBytes(c.salt), LengthThenBytes(c.secret), LengthThenBytes(c.ad);
    assert a + b + d + e + f + t + w + x + y + z
           == a + (b + (d + (e + (f + (t + (w + (x + (y + z))))))));
  }

  /** Steps 3 and 4: the first two blocks of every lane. */
  ghost predicate StartsWith(h: Primitives, h0: seq<byte>, g: Instance, m: Matrix)
    requires Shaped(g, m)
  {
    forall l, i :: 0 <= l < g.lanes && 0 <= i < 2 && i < g.laneLength ==>
      IsBytesOf(m[l][i], h.hLong(h0 + LittleEndian(i, 4) + LittleEndian(l, 4), 1024))
  }

  lemma FirstBlocksStart(h: Primitives, h0: seq<byte>, g: Instance, m: Matrix)
    requires ValidPrimitives(h) && ValidInstance(g) && Shaped(g, m) && HasFirstBlocks(h, h0, g, m)
    ensures StartsWith(h, h0, g, m)
  {
    hide Le32, LittleEndian, LoadBlock, Times, IsBytesOf;
    forall l, i | 0 <= l < g.lanes && 0 <= i < 2 && i < g.laneLength
      ensures IsBytesOf(m[l][i], h.hLong(h0 + LittleEndian(i, 4) + LittleEndian(l, 4), 1024))
    {
      Le32IsLittleEndian(i);
      Le32IsLittleEndian(l);
      assert At(g, m, Cell(l, i)) == FirstBlock(h, h0, l, i);
      LoadBlockBytes(h.hLong(h0 + Le32(i) + Le32(l), 1024));
    }
  }

  /** Step 7: c holds the XOR of the last blocks of the lanes up to each one. */
  predicate XorsOfLast(g: Instance, m: Matrix, c: seq<Block>)
    requires ValidInstance(g) && Shaped(g, m)
  {
    && |c| == g.lanes && c[0] == m[0][g.laneLength - 1]
    && forall l :: 1 <= l < g.lanes ==> IsXor(c[l], c[l - 1], m[l][g.laneLength - 1])
  }

  lemma XorLastSolves(g: Instance, m: Matrix)
    requires ValidInstance(g) && Shaped(g, m)
    ensures XorsOfLast(g, m, seq(g.lanes, l requires 0 <= l < g.lanes => XorLast(g, m, l)))
  {
    hide Times;
  }

  /** The parameters of section 3.2: four slices, m' = 4 * p * floor(m / 4p) blocks in p lanes. */
  predicate IsInstance(c: Context, ty: ArgonType, g: Instance) {
    && c.lanes > 0 && ValidInstance(g)
    && g.version == c.version && g.passes == c.tCost && g.lanes == c.lanes && g.ty == ty
    && g.memoryBlocks == 4 * c.lanes * (c.mCost / (4 * c.lanes)) == g.lanes * g.laneLength
  }

  /** The matrices before the first and after every pass, and the tag of the last. */
  ghost predicate Solves(h: Primitives, c: Context, ty: ArgonType, g: Instance, ms: seq<Matrix>, xors: seq<Block>,
                         last: seq<byte>, tag: seq<byte>)
    requires IsInstance(c, ty, g)
  {
    && |ms| == g.passes + 1 && (forall r :: 0 <= r < |ms| ==> Shaped(g, ms[r]))
    && StartsWith(h, PreHash(h, c, ty), g, ms[0])
    && (forall r :: 0 <= r < g.passes ==> PassEquations(g, h.perm, ms[r], ms[r + 1], r))
    && XorsOfLast(g, ms[g.passes], xors)
    && IsBytesOf(xors[g.lanes - 1], last) && tag == h.hLong(last, c.out.Len())
  }

  lemma PassesSolve(g: Instance, perm: Permutation, m0: Matrix, ms: seq<Matrix>)
    requires ValidInstance(g) && Shaped(g, m0) && |ms| == g.passes + 1
    requires forall r :: 0 <= r <= g.passes ==> ms[r] == RunTo(g, perm, m0, r)
    ensures (forall r :: 0 <= r < |ms| ==> Shaped(g, ms[r])) && ms[0] == m0
    ensures forall r :: 0 <= r < g.passes ==> PassEquations(g, perm, ms[r], ms[r + 1], r)
  {
    hide RunTo, PassEquations, Shaped;
    NoPass(g, perm, m0);
    assert forall r :: 0 <= r < |ms| ==> Shaped(g, ms[r]);
    forall r | 0 <= r < g.passes ensures PassEquations(g, perm, ms[r], ms[r + 1], r) {
      OnePass(g, perm, m0, r);
      PassSolves(g, perm, RunTo(g, perm, m0, r), r);
    }
  }

  lemma InstanceIs(c: Context, ty: ArgonType)
    requires ValidInputs(c)
    ensures IsInstance(c, ty, InstanceOf(c, ty))
  {
    GeometryOfValidInputs(c, ty);
  }

  lemma RunSolves(h: Primitives, c: Context, ty: ArgonType, m0: Matrix)
    returns (ms: seq<Matrix>, xors: seq<Block>, last: seq<byte>)
    requires ValidPrimitives(h) && ValidInputs(c) && IsInstance(c, ty, InstanceOf(c, ty))
    requires Shaped(InstanceOf(c, ty), m0)
    requires HasFirstBlocks(h, h.blake2b(InitialHashInput(c, ty)), InstanceOf(c, ty), m0)
    ensures var g := InstanceOf(c, ty);
            Solves(h, c, ty, g, ms, xors, last, TagOf(h, g, RunTo(g, h.perm, m0, g.passes), c.out.Len()))
  {
    hide RunTo, InitialHashInput, StoreBlock, XorLast, HasFirstBlocks, StartsWith, PassEquations, XorsOfLast;
    hide IsBytesOf, ValidPrimitives, PreHash, InstanceOf, ValidInputs, ValidInstance, Shaped;
    var g := InstanceOf(c, ty);
    PreHashIsInput(h, c, ty);
    FirstBlocksStart(h, h.blake2b(InitialHashInput(c, ty)), g, m0);
    ms := seq(g.passes + 1, r requires 0 <= r <= g.passes => RunTo(g, h.perm, m0, r));
    PassesSolve(g, h.perm, m0, ms);
    xors := seq(g.lanes, l requires 0 <= l < g.lanes => XorLast(g, ms[g.passes], l));
    XorLastSolves(g, ms[g.passes]);
    last := StoreBlock(xors[g.lanes - 1]);
    StoreBlockBytes(xors[g.lanes - 1]);
  }

  /** Whatever the allocation held, and however the threads were limited and timed: a tag of the code is one
      of section 3.2 of RFC 9106. */
  lemma TagSolvesStandard(h: Primitives, c: Context, ty: ArgonType, tag: seq<byte>)
    requires ValidPrimitives(h) && Produces(h, c, ty, tag)
    ensures exists g, ms, xors, last :: IsInstance(c, ty, g) && Solves(h, c, ty, g, ms, xors, last, tag)
  {
    hide RunTo, InitialHashInput, Filled, HasFirstBlocks, ValidPrimitives, TagOf, InstanceOf, Solves, IsInstance;
    hide ValidInputs;
    InstanceIs(c, ty);
    var g := InstanceOf(c, ty);
    var m0: Matrix, m: Matrix :|
      && Shaped(g, m0) && HasFirstBlocks(h, h.blake2b(InitialHashInput(c, ty)), g, m0)
      && Filled(g, h.perm, ThreadsOf(c), m0, m) && Shaped(g, m) && tag == TagOf(h, g, m, c.out.Len());
    ThreadsWithinLanes(c, ty);
    FilledIsRun(g, h.perm, ThreadsOf(c), m0, m);
    var ms, xors, last := RunSolves(h, c, ty, m0);
  }

  lemma ThreadsWithinLanes(c: Context, ty: ArgonType)
    requires ValidInputs(c)
    ensures 1 <= ThreadsOf(c) <= InstanceOf(c, ty).lanes
  {
    InstanceFields(c, ty);
  }

  lemma OnePass(g: Instance, perm: Permutation, m: Matrix, r: nat)
    requires ValidInstance(g) && Shaped(g, m) && r < g.passes
    ensures RunTo(g, perm, m, r + 1) == PassTo(g, perm, RunTo(g, perm, m, r), r, SYNC_POINTS)
  {
  }

  lemma NoPass(g: Instance, perm: Permutation, m: Matrix)
    requires ValidInstance(g) && Shaped(g, m)
    ensures RunTo(g, perm, m, 0) == m
  {
  }
}
