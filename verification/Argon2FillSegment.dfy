/** fill_segment of ref.c and of opt.c: both leave the matrix of the block recurrence. */
module Argon2FillSegment {
  import opened Arithmetic
  import opened Argon2Geometry
  import opened Argon2Index
  import opened Argon2Round
  import opened Argon2Blocks
  import opened Argon2Segment

  /** Offsets of the current and previous block: in memory, without wrap-around. */
  lemma Offsets(g: Instance, p: Position)
    requires ValidPosition(g, p)
    ensures var curr := BlockOffset(g, Current(g, p));
            && curr == p.lane * g.laneLength + p.slice * g.segmentLength + p.index
            && curr < g.memoryBlocks
            && curr % g.laneLength == SliceStart(g, p.slice) + p.index
    ensures BlockOffset(g, Previous(g, p)) < g.memoryBlocks
    ensures var column := SliceStart(g, p.slice) + p.index;
            BlockOffset(g, Previous(g, p)) == BlockOffset(g, Current(g, p))
              + (if column == 0 then g.laneLength - 1 else -1)
  {
    SliceProduct(g, p.slice);
    ColumnsInLane(g, p);
    OffsetInMemory(g, p.lane, SliceStart(g, p.slice) + p.index);
    OffsetInMemory(g, p.lane, PreviousColumn(g, p));
  }

  /** What the two forms know of their addresses before block i: the counter counts address blocks
      generated so far, and the current one serves the rest of its 128 blocks. */
  predicate AddressState(g: Instance, perm: Permutation, p: Position, input: seq<Word>, address: seq<Word>)
    requires p.lane < U32_LIMIT && p.slice < U32_LIMIT
  {
    var counter := (p.index + ADDRESSES_IN_BLOCK - 1) / ADDRESSES_IN_BLOCK;
    && input == AddressInput(g, p, counter)
    && (p.index % ADDRESSES_IN_BLOCK != 0 ==> address == Addresses(perm, input))
  }

  lemma NextAddressState(g: Instance, perm: Permutation, p: Position, input: seq<Word>, address: seq<Word>)
    requires p.lane < U32_LIMIT && p.slice < U32_LIMIT && p.index + 1 < U32_LIMIT
    requires input == AddressInput(g, p, p.index / ADDRESSES_IN_BLOCK + 1)
    requires address == Addresses(perm, input)
    ensures AddressState(g, perm, p.(index := p.index + 1), input, address)
  {
    hide FillBlock, Addresses;
  }

  /** The counter is right for block i after the increment made when i starts an address block. */
  lemma CounterForBlock(g: Instance, perm: Permutation, p: Position, input: seq<Word>, address: seq<Word>)
    requires p.lane < U32_LIMIT && p.slice < U32_LIMIT && AddressState(g, perm, p, input, address)
    ensures (if p.index % ADDRESSES_IN_BLOCK == 0 then input[6 := U64(input[6] as int + 1)] else input)
            == AddressInput(g, p, p.index / ADDRESSES_IN_BLOCK + 1)
  {
    hide FillBlock, Addresses;
    var q, r := p.index / ADDRESSES_IN_BLOCK, p.index % ADDRESSES_IN_BLOCK;
    assert p.index == ADDRESSES_IN_BLOCK * q + r;
    assert (p.index + ADDRESSES_IN_BLOCK - 1) / ADDRESSES_IN_BLOCK == if r == 0 then q else q + 1;
  }

  /** Before the first block of a segment the counter is 0, or 1 when two blocks are given. */
  lemma InitialAddressState(g: Instance, perm: Permutation, p: Position, input: seq<Word>, address: seq<Word>)
    requires p.lane < U32_LIMIT && p.slice < U32_LIMIT && p.index == FirstIndex(p.pass, p.slice)
    requires input == AddressInput(g, p, if p.index == 0 then 0 else 1)
    requires p.index != 0 ==> address == Addresses(perm, input)
    ensures AddressState(g, perm, p, input, address)
  {
    hide FillBlock, Addresses, AddressInput;
  }

  /** Offset of the reference block: a 64-bit sum inside the memory. */
  lemma ReferenceOffset(g: Instance, p: Position, j: Word)
    requires ValidPosition(g, p)
    ensures var c := Reference(g, p, j);
            BlockOffset(g, c) == U64(g.laneLength * c.lane + c.column) < g.memoryBlocks
  {
    hide IndexAlpha;
    var c := Reference(g, p, j);
    OffsetInMemory(g, c.lane, c.column);
  }

  method InitInputBlock(g: Instance, pass: uint32, lane: uint32, slice: uint32, inputBlock: array<Word>)
    requires inputBlock.Length == WORDS && inputBlock[..] == Zero()
    modifies inputBlock
    ensures forall i :: inputBlock[..] == AddressInput(g, Position(pass, lane, slice, i), 0)
    ensures forall i :: inputBlock[..][6 := 1] == AddressInput(g, Position(pass, lane, slice, i), 1)
    ensures inputBlock[6] == 0
  {
    inputBlock[0], inputBlock[1], inputBlock[2] := pass, lane, slice;
    inputBlock[3], inputBlock[4], inputBlock[5] := g.memoryBlocks, g.passes, g.ty.Code();
  }

  /** Without the version 1.3 XOR what is overwritten does not matter. */
  lemma WithoutXor(perm: Permutation, prev: Block, reference: Block, a: Block, b: Block)
    ensures FillBlock(perm, prev, reference, a, false) == FillBlock(perm, prev, reference, b, false)
  {
    hide Rows, Columns, XorBlock;
  }

  /** The destination also serves as the reference of the second call. */
  method NextAddressesRef(perm: Permutation, addressBlock: array<Word>, inputBlock: array<Word>, zeroBlock: array<Word>)
    requires addressBlock.Length == inputBlock.Length == zeroBlock.Length == WORDS
    requires addressBlock != inputBlock && addressBlock != zeroBlock && inputBlock != zeroBlock
    requires zeroBlock[..] == Zero()
    modifies addressBlock, inputBlock
    ensures inputBlock[..] == old(inputBlock[..])[6 := U64(old(inputBlock[6]) as int + 1)]
    ensures addressBlock[..] == Addresses(perm, inputBlock[..])
  {
    hide FillBlock, Store, Zero;
    inputBlock[6] := U64(inputBlock[6] as int + 1);
    ghost var first := FillBlock(perm, Zero(), inputBlock[..], Zero(), false);
    StoreAll(zeroBlock[..], Zero());
    StoreAll(inputBlock[..], Zero());
    StoreAll(addressBlock[..], first);
    WithoutXor(perm, Zero(), inputBlock[..], addressBlock[..], Zero());
    FillBlockRef(perm, zeroBlock, 0, inputBlock, 0, addressBlock, 0, false);
    assert addressBlock[..] == first;
    StoreAll(first, Addresses(perm, inputBlock[..]));
    WithoutXor(perm, Zero(), first, first, Zero());
    FillBlockRef(perm, zeroBlock, 0, addressBlock, 0, addressBlock, 0, false);
  }

  lemma ZeroRegisters(s: seq<M128>)
    requires |s| == 64 && forall k :: 0 <= k < 64 ==> s[k] == M128(0, 0)
    ensures Unpack(s) == Zero()
  {
  }

  method NextAddressesOpt(simd: Eight -> Eight, ghost perm: Permutation, addressBlock: array<Word>,
      inputBlock: array<Word>)
    requires addressBlock.Length == inputBlock.Length == WORDS && addressBlock != inputBlock
    requires Computes(simd, perm)
    modifies addressBlock, inputBlock
    ensures inputBlock[..] == old(inputBlock[..])[6 := U64(old(inputBlock[6]) as int + 1)]
    ensures addressBlock[..] == Addresses(perm, inputBlock[..])
  {
    hide FillBlock, Store, Unpack, Zero;
    var zeroBlock, zero2Block := new M128[64](_ => M128(0, 0)), new M128[64](_ => M128(0, 0));
    ZeroRegisters(zeroBlock[..]);
    ZeroRegisters(zero2Block[..]);
    inputBlock[6] := U64(inputBlock[6] as int + 1);
    ghost var first := FillBlock(perm, Zero(), inputBlock[..], Zero(), false);
    StoreAll(inputBlock[..], Zero());
    StoreAll(addressBlock[..], first);
    WithoutXor(perm, Zero(), inputBlock[..], addressBlock[..], Zero());
    FillBlockOpt(simd, perm, zeroBlock, inputBlock, 0, addressBlock, 0, false);
    assert addressBlock[..] == first;
    StoreAll(first, Addresses(perm, inputBlock[..]));
    WithoutXor(perm, Zero(), first, first, Zero());
    FillBlockOpt(simd, perm, zero2Block, addressBlock, 0, addressBlock, 0, false);
  }

  /** Step 1.2.2 of the loop body: the reference block. */
  method ChooseReference(g: Instance, p: Position, pseudoRand: Word) returns (refOffset: nat)
    requires ValidPosition(g, p)
    ensures refOffset == BlockOffset(g, Reference(g, p, pseudoRand)) < g.memoryBlocks
  {
    hide IndexAlpha, Times;
    var refLane := pseudoRand / U32_LIMIT % g.lanes;
    if p.pass == 0 && p.slice == 0 {
      refLane := p.lane;
    }
    var refIndex := IndexAlpha(g, p, pseudoRand % U32_LIMIT, refLane == p.lane);
    assert Cell(refLane, refIndex) == Reference(g, p, pseudoRand);
    ReferenceOffset(g, p, pseudoRand);
    refOffset := U64(g.laneLength * refLane + refIndex);
  }

  /** A block stored at an offset stays in memory and is read back there. */
  predicate ValidStore(g: Instance, words: seq<Word>, c: nat, b: Block)
    requires |words| == WORDS * g.memoryBlocks && c < g.memoryBlocks
  {
    |Store(words, WORDS * c, b)| == |words| && BlockAt(Store(words, WORDS * c, b), WORDS * c) == b
  }

  lemma CellInMemory(g: Instance, words: seq<Word>, c: Cell)
    requires ValidInstance(g) && |words| == WORDS * g.memoryBlocks && InMatrix(g, c)
    ensures Shaped(g, View(g, words)) && BlockOffset(g, c) < g.memoryBlocks
    ensures BlockAt(words, WORDS * BlockOffset(g, c)) == At(g, View(g, words), c)
  {
    hide BlockAt, View, Times;
    OffsetInMemory(g, c.lane, c.column);
    ViewAt(g, words, c);
  }

  lemma StoreInMemory(g: Instance, words: seq<Word>, c: Cell, b: Block)
    requires ValidInstance(g) && |words| == WORDS * g.memoryBlocks && InMatrix(g, c)
    requires BlockOffset(g, c) < g.memoryBlocks
    ensures Shaped(g, View(g, words)) && ValidStore(g, words, BlockOffset(g, c), b)
    ensures View(g, Store(words, WORDS * BlockOffset(g, c), b)) == Put(g, View(g, words), c, b)
  {
    hide BlockAt, View, Times, Put, Store, BlockOffset;
    StoreIsPut(g, words, c, b);
    StoreTwice(words, WORDS * BlockOffset(g, c), b, b);
  }

  /** The new block over the flat memory, and the memory with it. */
  lemma BlockInMemory(g: Instance, perm: Permutation, words: seq<Word>, p: Position, j: Word)
    requires ValidPosition(g, p) && |words| == WORDS * g.memoryBlocks
    requires Shaped(g, View(g, words)) && j == PseudoRandom(g, perm, View(g, words), p)
    ensures var m, r, c := View(g, words), BlockOffset(g, Reference(g, p, j)), BlockOffset(g, Current(g, p));
            && r < g.memoryBlocks && c < g.memoryBlocks && BlockOffset(g, Previous(g, p)) < g.memoryBlocks
            && BlockAt(words, WORDS * BlockOffset(g, Previous(g, p))) == At(g, m, Previous(g, p))
            && NewBlock(g, perm, m, p)
               == FillBlock(perm, At(g, m, Previous(g, p)), BlockAt(words, WORDS * r), BlockAt(words, WORDS * c),
                            g.version != VERSION_10 && p.pass != 0)
            && ValidStore(g, words, c, NewBlock(g, perm, m, p))
            && View(g, Store(words, WORDS * c, NewBlock(g, perm, m, p))) == StepBlock(g, perm, m, p)
  {
    hide FillBlock, Store, View, BlockAt, PseudoRandom, Previous, Current, Reference, Times, BlockOffset, ValidStore;
    hide At, Put, Shaped, InMatrix, ValidInstance;
    PositionInInstance(g, p);
    CellInMemory(g, words, Previous(g, p));
    CellInMemory(g, words, Reference(g, p, j));
    CellInMemory(g, words, Current(g, p));
    StoreInMemory(g, words, Current(g, p), NewBlock(g, perm, View(g, words), p));
  }

  lemma PositionInInstance(g: Instance, p: Position)
    requires ValidPosition(g, p)
    ensures ValidInstance(g)
  {
  }

  /** Step 2 of the loop body. */
  method BuildRef(g: Instance, perm: Permutation, memory: array<Word>, p: Position, pseudoRand: Word,
                  prevOffset: uint32, currOffset: uint32)
    requires ValidPosition(g, p) && memory.Length == WORDS * g.memoryBlocks
    requires Shaped(g, View(g, memory[..])) && pseudoRand == PseudoRandom(g, perm, View(g, memory[..]), p)
    requires prevOffset == BlockOffset(g, Previous(g, p)) && currOffset == BlockOffset(g, Current(g, p))
    modifies memory
    ensures View(g, memory[..]) == StepBlock(g, perm, old(View(g, memory[..])), p)
  {
    hide FillBlock, Store, View, BlockAt, PseudoRandom, Previous, Current, Reference, Times, BlockOffset, StepBlock;
    hide NewBlock;
    BlockInMemory(g, perm, memory[..], p, pseudoRand);
    var refOffset := ChooseReference(g, p, pseudoRand);
    var withXor := if g.version == VERSION_10 then false else p.pass != 0;
    FillBlockRef(perm, memory, WORDS * prevOffset, memory, WORDS * refOffset, memory, WORDS * currOffset, withXor);
  }

  method BuildOpt(g: Instance, simd: Eight -> Eight, ghost perm: Permutation, memory: array<Word>, state: array<M128>,
                  p: Position, pseudoRand: Word, currOffset: uint32)
    requires ValidPosition(g, p) && memory.Length == WORDS * g.memoryBlocks
    requires Computes(simd, perm) && state.Length == 64
    requires Shaped(g, View(g, memory[..])) && pseudoRand == PseudoRandom(g, perm, View(g, memory[..]), p)
    requires currOffset == BlockOffset(g, Current(g, p))
    requires Unpack(state[..]) == At(g, View(g, memory[..]), Previous(g, p))
    modifies memory, state
    ensures View(g, memory[..]) == StepBlock(g, perm, old(View(g, memory[..])), p)
    ensures Shaped(g, View(g, memory[..]))
    ensures Unpack(state[..]) == At(g, View(g, memory[..]), Current(g, p))
  {
    hide FillBlock, Store, View, BlockAt, PseudoRandom, Previous, Current, Reference, Times, BlockOffset, NewBlock;
    hide Unpack, Computes, Shaped, At, Put;
    BlockInMemory(g, perm, memory[..], p, pseudoRand);
    var refOffset := ChooseReference(g, p, pseudoRand);
    var withXor := if g.version == VERSION_10 then false else p.pass != 0;
    FillBlockOpt(simd, perm, state, memory, WORDS * refOffset, memory, WORDS * currOffset, withXor);
  }

  /** The offsets before block i: the predecessor is right except where it is about to be rotated. */
  predicate OffsetState(g: Instance, p: Position, prevOffset: nat, currOffset: nat) {
    ValidPosition(g, p) ==>
      && currOffset == BlockOffset(g, Current(g, p))
      && (Current(g, p).column != 1 ==> prevOffset == BlockOffset(g, Previous(g, p)))
  }

  /** The first offset of a segment, computed with two products, lies in the lane and in memory. */
  lemma StartColumn(g: Instance, pass: nat, lane: nat, slice: nat)
    requires ValidSegment(g, pass, lane, slice)
    ensures var column := SliceStart(g, slice) + FirstIndex(pass, slice);
            var curr := lane * g.laneLength + slice * g.segmentLength + FirstIndex(pass, slice);
            && column < g.laneLength
            && curr == U32(curr) == BlockOffset(g, Cell(lane, column)) < g.memoryBlocks
            && curr % g.laneLength == column
            && curr - column + g.laneLength <= g.memoryBlocks
  {
    var column := SliceStart(g, slice) + FirstIndex(pass, slice);
    SliceProduct(g, slice);
    OffsetInMemory(g, lane, column);
    OffsetInMemory(g, lane, g.laneLength - 1);
  }

  /** opt.c reads the previous block even when the segment has no block left to build. */
  lemma StartOffsets(g: Instance, p: Position, curr: nat)
    requires ValidSegment(g, p.pass, p.lane, p.slice) && p.index == FirstIndex(p.pass, p.slice)
    requires curr == U32(p.lane * g.laneLength + p.slice * g.segmentLength + p.index)
    ensures var prev := if curr % g.laneLength == 0 then U32(curr + g.laneLength - 1) else U32(curr - 1);
            OffsetState(g, p, prev, curr) && prev < g.memoryBlocks
  {
    hide Times;
    StartColumn(g, p.pass, p.lane, p.slice);
  }

  lemma RotateOffset(g: Instance, p: Position, prevOffset: nat, currOffset: uint32)
    requires ValidPosition(g, p) && OffsetState(g, p, prevOffset, currOffset)
    ensures (if currOffset % g.laneLength == 1 then U32(currOffset - 1) else prevOffset)
            == BlockOffset(g, Previous(g, p)) < g.memoryBlocks
  {
    Offsets(g, p);
  }

  lemma AdvanceOffsets(g: Instance, p: Position)
    requires ValidPosition(g, p) && p.index + 1 < U32_LIMIT
    ensures OffsetState(g, p.(index := p.index + 1), U32(BlockOffset(g, Previous(g, p)) + 1),
                        U32(BlockOffset(g, Current(g, p)) + 1))
    ensures var q := p.(index := p.index + 1); ValidPosition(g, q) ==> Previous(g, q) == Current(g, p)
  {
    hide Times, SliceStart, Current, Previous;
    OffsetsInMemory(g, p);
    if p.index + 1 < g.segmentLength {
      NextCells(g, p);
      OffsetsInMemory(g, p.(index := p.index + 1));
    }
  }

  lemma OffsetsInMemory(g: Instance, p: Position)
    requires ValidPosition(g, p)
    ensures BlockOffset(g, Current(g, p)) < g.memoryBlocks && BlockOffset(g, Previous(g, p)) < g.memoryBlocks
  {
    ColumnsInLane(g, p);
    OffsetInMemory(g, p.lane, SliceStart(g, p.slice) + p.index);
    OffsetInMemory(g, p.lane, PreviousColumn(g, p));
  }

  lemma NextCells(g: Instance, p: Position)
    requires ValidPosition(g, p) && p.index + 1 < g.segmentLength
    ensures var q := p.(index := p.index + 1);
            && ValidPosition(g, q) && Previous(g, q) == Current(g, p)
            && Current(g, p).lane == Previous(g, p).lane == p.lane
            && Current(g, q) == Cell(p.lane, Current(g, p).column + 1)
            && (Current(g, p).column != 0 ==> Current(g, p) == Cell(p.lane, Previous(g, p).column + 1))
  {
    hide Times;
  }

  /** The first index of the segment with the offsets of its block and its predecessor. */
  method StartSegment(g: Instance, pass: uint32, lane: uint32, slice: uint32)
    returns (startingIndex: uint32, currOffset: uint32, prevOffset: uint32)
    requires ValidSegment(g, pass, lane, slice)
    ensures startingIndex == FirstIndex(pass, slice) && prevOffset < g.memoryBlocks
    ensures OffsetState(g, Position(pass, lane, slice, startingIndex), prevOffset, currOffset)
  {
    startingIndex := if pass == 0 && slice == 0 then 2 else 0;
    currOffset := U32(lane * g.laneLength + slice * g.segmentLength + startingIndex);
    StartOffsets(g, Position(pass, lane, slice, startingIndex), currOffset);
    prevOffset := if currOffset % g.laneLength == 0 then U32(currOffset + g.laneLength - 1) else U32(currOffset - 1);
  }

  method RotatePrevious(g: Instance, ghost p: Position, prevOffset: uint32, currOffset: uint32)
      returns (rotated: uint32)
    requires ValidPosition(g, p) && OffsetState(g, p, prevOffset, currOffset)
    ensures rotated == BlockOffset(g, Previous(g, p)) < g.memoryBlocks
    ensures currOffset == BlockOffset(g, Current(g, p)) < g.memoryBlocks
  {
    RotateOffset(g, p, prevOffset, currOffset);
    Offsets(g, p);
    rotated := if currOffset % g.laneLength == 1 then U32(currOffset - 1) else prevOffset;
  }

  /** Step 1.2.1 in data-dependent mode. */
  method PreviousWord(g: Instance, ghost perm: Permutation, memory: array<Word>, ghost p: Position, prevOffset: uint32)
    returns (pseudoRand: Word)
    requires ValidPosition(g, p) && memory.Length == WORDS * g.memoryBlocks && !DataIndependent(g, p)
    requires prevOffset == BlockOffset(g, Previous(g, p)) < g.memoryBlocks
    ensures Shaped(g, View(g, memory[..])) && pseudoRand == PseudoRandom(g, perm, View(g, memory[..]), p)
  {
    ViewAt(g, memory[..], Previous(g, p));
    pseudoRand := memory[WORDS * prevOffset];
  }

  /** Step 1.2.1 in data-independent mode. */
  method AddressWordRef(g: Instance, perm: Permutation, p: Position, addressBlock: array<Word>,
                        inputBlock: array<Word>, zeroBlock: array<Word>, ghost m: Matrix)
    returns (pseudoRand: Word)
    requires ValidPosition(g, p) && Shaped(g, m) && DataIndependent(g, p)
    requires addressBlock.Length == inputBlock.Length == zeroBlock.Length == WORDS
    requires addressBlock != inputBlock && addressBlock != zeroBlock && inputBlock != zeroBlock
    requires zeroBlock[..] == Zero() && AddressState(g, perm, p, inputBlock[..], addressBlock[..])
    modifies addressBlock, inputBlock
    ensures pseudoRand == PseudoRandom(g, perm, m, p)
    ensures p.index + 1 < U32_LIMIT
    ensures AddressState(g, perm, p.(index := p.index + 1), inputBlock[..], addressBlock[..])
  {
    hide FillBlock, Addresses, IndexAlpha, AddressInput, PreviousColumn;
    CounterForBlock(g, perm, p, inputBlock[..], addressBlock[..]);
    if p.index % ADDRESSES_IN_BLOCK == 0 {
      NextAddressesRef(perm, addressBlock, inputBlock, zeroBlock);
    }
    pseudoRand := addressBlock[p.index % ADDRESSES_IN_BLOCK];
    NextAddressState(g, perm, p, inputBlock[..], addressBlock[..]);
  }

  method AddressWordOpt(g: Instance, simd: Eight -> Eight, ghost perm: Permutation, p: Position,
                        addressBlock: array<Word>, inputBlock: array<Word>, ghost m: Matrix)
    returns (pseudoRand: Word)
    requires ValidPosition(g, p) && Shaped(g, m) && DataIndependent(g, p) && Computes(simd, perm)
    requires addressBlock.Length == inputBlock.Length == WORDS && addressBlock != inputBlock
    requires AddressState(g, perm, p, inputBlock[..], addressBlock[..])
    modifies addressBlock, inputBlock
    ensures pseudoRand == PseudoRandom(g, perm, m, p)
    ensures p.index + 1 < U32_LIMIT
    ensures AddressState(g, perm, p.(index := p.index + 1), inputBlock[..], addressBlock[..])
  {
    hide FillBlock, Addresses, IndexAlpha, AddressInput, PreviousColumn;
    CounterForBlock(g, perm, p, inputBlock[..], addressBlock[..]);
    if p.index % ADDRESSES_IN_BLOCK == 0 {
      NextAddressesOpt(simd, perm, addressBlock, inputBlock);
    }
    pseudoRand := addressBlock[p.index % ADDRESSES_IN_BLOCK];
    NextAddressState(g, perm, p, inputBlock[..], addressBlock[..]);
  }

  /** The address generator at the start of a segment, with its first block when two blocks are given. */
  method StartAddressesRef(g: Instance, perm: Permutation, pass: uint32, lane: uint32, slice: uint32,
      dataIndependent: bool)
    returns (addressBlock: array<Word>, inputBlock: array<Word>, zeroBlock: array<Word>)
    ensures fresh(addressBlock) && fresh(inputBlock) && fresh(zeroBlock)
    ensures addressBlock.Length == inputBlock.Length == zeroBlock.Length == WORDS
    ensures addressBlock != inputBlock && addressBlock != zeroBlock && inputBlock != zeroBlock
    ensures zeroBlock[..] == Zero()
    ensures dataIndependent ==>
              AddressState(g, perm, Position(pass, lane, slice, FirstIndex(pass, slice)), inputBlock[..],
                  addressBlock[..])
  {
    hide FillBlock, Addresses, AddressInput, AddressState;
    addressBlock, inputBlock := new Word[WORDS](_ => 0), new Word[WORDS](_ => 0);
    zeroBlock := new Word[WORDS](_ => 0);
    if dataIndependent {
      InitInputBlock(g, pass, lane, slice, inputBlock);
      if pass == 0 && slice == 0 {
        NextAddressesRef(perm, addressBlock, inputBlock, zeroBlock);
      }
      InitialAddressState(g, perm, Position(pass, lane, slice, FirstIndex(pass, slice)), inputBlock[..],
          addressBlock[..]);
    }
  }

  method StartAddressesOpt(g: Instance, simd: Eight -> Eight, ghost perm: Permutation, pass: uint32, lane: uint32,
      slice: uint32, dataIndependent: bool)
    returns (addressBlock: array<Word>, inputBlock: array<Word>)
    requires Computes(simd, perm)
    ensures fresh(addressBlock) && fresh(inputBlock)
    ensures addressBlock.Length == inputBlock.Length == WORDS && addressBlock != inputBlock
    ensures dataIndependent ==>
              AddressState(g, perm, Position(pass, lane, slice, FirstIndex(pass, slice)), inputBlock[..],
                  addressBlock[..])
  {
    hide FillBlock, Addresses, AddressInput, AddressState;
    addressBlock, inputBlock := new Word[WORDS](_ => 0), new Word[WORDS](_ => 0);
    if dataIndependent {
      InitInputBlock(g, pass, lane, slice, inputBlock);
      if pass == 0 && slice == 0 {
        NextAddressesOpt(simd, perm, addressBlock, inputBlock);
      }
      InitialAddressState(g, perm, Position(pass, lane, slice, FirstIndex(pass, slice)), inputBlock[..],
          addressBlock[..]);
    }
  }

  method FillSegmentRef(g: Instance, perm: Permutation, memory: array<Word>, pass: uint32, lane: uint32, slice: uint32)
    returns (ghost references: seq<Cell>)
    requires ValidSegment(g, pass, lane, slice) && memory.Length == WORDS * g.memoryBlocks
    modifies memory
    ensures Shaped(g, old(View(g, memory[..])))
    ensures View(g, memory[..]) == FillTo(g, perm, old(View(g, memory[..])), pass, lane, slice, g.segmentLength)
    ensures references == References(g, perm, old(View(g, memory[..])), pass, lane, slice, g.segmentLength)
    ensures RefersInOrder(g, perm, old(View(g, memory[..])), pass, lane, slice, g.segmentLength, references)
  {
    hide FillBlock, Addresses, IndexAlpha, AddressInput, AddressState, PseudoRandom, StepBlock, OffsetState, View;
    hide At, Reference, RefersInOrder;
    hide Times, BlockOffset, Previous, Current, PreviousColumn, SliceStart, Unpack, Put, NewBlock, BlockAt, Shaped;
    var dataIndependent := g.ty == Argon2i || (g.ty == Argon2id && pass == 0 && slice < SYNC_POINTS / 2);
    var addressBlock, inputBlock, zeroBlock := StartAddressesRef(g, perm, pass, lane, slice, dataIndependent);
    var i, currOffset, prevOffset := StartSegment(g, pass, lane, slice);
    ghost var m0 := View(g, memory[..]);
    references := [];
    while i < g.segmentLength
      invariant FirstIndex(pass, slice) <= i <= g.segmentLength
      invariant zeroBlock[..] == Zero()
      invariant View(g, memory[..]) == FillTo(g, perm, m0, pass, lane, slice, i)
      invariant references == References(g, perm, m0, pass, lane, slice, i)
      invariant OffsetState(g, Position(pass, lane, slice, i), prevOffset, currOffset)
      invariant dataIndependent ==>
        AddressState(g, perm, Position(pass, lane, slice, i), inputBlock[..], addressBlock[..])
    {
      var p := Position(pass, lane, slice, i);
      prevOffset := RotatePrevious(g, p, prevOffset, currOffset);
      var pseudoRand: Word;
      if dataIndependent {
        pseudoRand := AddressWordRef(g, perm, p, addressBlock, inputBlock, zeroBlock, View(g, memory[..]));
      } else {
        pseudoRand := PreviousWord(g, perm, memory, p, prevOffset);
      }
      references := references + [Reference(g, p, pseudoRand)];
      BuildRef(g, perm, memory, p, pseudoRand, prevOffset, currOffset);
      AdvanceOffsets(g, p);
      i, currOffset, prevOffset := i + 1, U32(currOffset as int + 1), U32(prevOffset as int + 1);
    }
    ReferencesReferInOrder(g, perm, m0, pass, lane, slice, g.segmentLength);
  }

  /** The fast form: the previous block is carried in state and never read back from memory. */
  method FillSegmentOpt(g: Instance, simd: Eight -> Eight, ghost perm: Permutation, memory: array<Word>,
                        pass: uint32, lane: uint32, slice: uint32)
    returns (ghost references: seq<Cell>)
    requires ValidSegment(g, pass, lane, slice) && memory.Length == WORDS * g.memoryBlocks
    requires Computes(simd, perm)
    modifies memory
    ensures Shaped(g, old(View(g, memory[..])))
    ensures View(g, memory[..]) == FillTo(g, perm, old(View(g, memory[..])), pass, lane, slice, g.segmentLength)
    ensures references == References(g, perm, old(View(g, memory[..])), pass, lane, slice, g.segmentLength)
    ensures RefersInOrder(g, perm, old(View(g, memory[..])), pass, lane, slice, g.segmentLength, references)
  {
    hide FillBlock, Addresses, IndexAlpha, AddressInput, AddressState, PseudoRandom, StepBlock, OffsetState, View;
    hide At, Reference, RefersInOrder;
    hide Times, BlockOffset, Previous, Current, PreviousColumn, SliceStart, Unpack, Put, NewBlock, BlockAt, Shaped;
    var dataIndependent := g.ty == Argon2i || (g.ty == Argon2id && pass == 0 && slice < SYNC_POINTS / 2);
    var addressBlock, inputBlock := StartAddressesOpt(g, simd, perm, pass, lane, slice, dataIndependent);
    var i, currOffset, prevOffset := StartSegment(g, pass, lane, slice);
    ghost var m0 := View(g, memory[..]);
    var state := LoadState(memory, WORDS * prevOffset);
    StateCarriesPrevious(g, Position(pass, lane, slice, i), memory[..], prevOffset, currOffset);
    references := [];
    while i < g.segmentLength
      invariant FirstIndex(pass, slice) <= i <= g.segmentLength
      invariant View(g, memory[..]) == FillTo(g, perm, m0, pass, lane, slice, i)
      invariant references == References(g, perm, m0, pass, lane, slice, i)
      invariant OffsetState(g, Position(pass, lane, slice, i), prevOffset, currOffset)
      invariant i < g.segmentLength ==>
        Unpack(state[..]) == At(g, View(g, memory[..]), Previous(g, Position(pass, lane, slice, i)))
      invariant dataIndependent ==>
        AddressState(g, perm, Position(pass, lane, slice, i), inputBlock[..], addressBlock[..])
    {
      var p := Position(pass, lane, slice, i);
      prevOffset := RotatePrevious(g, p, prevOffset, currOffset);
      var pseudoRand: Word;
      if dataIndependent {
        pseudoRand := AddressWordOpt(g, simd, perm, p, addressBlock, inputBlock, View(g, memory[..]));
      } else {
        pseudoRand := PreviousWord(g, perm, memory, p, prevOffset);
      }
      references := references + [Reference(g, p, pseudoRand)];
      BuildOpt(g, simd, perm, memory, state, p, pseudoRand, currOffset);
      AdvanceOffsets(g, p);
      i, currOffset, prevOffset := i + 1, U32(currOffset as int + 1), U32(prevOffset as int + 1);
    }
    ReferencesReferInOrder(g, perm, m0, pass, lane, slice, g.segmentLength);
  }

  lemma StateCarriesPrevious(g: Instance, p: Position, words: seq<Word>, prevOffset: nat, currOffset: nat)
    requires ValidSegment(g, p.pass, p.lane, p.slice) && |words| == WORDS * g.memoryBlocks
    requires p.index == FirstIndex(p.pass, p.slice) && prevOffset < g.memoryBlocks
    requires OffsetState(g, p, prevOffset, currOffset)
    ensures ValidPosition(g, p) ==>
              && Shaped(g, View(g, words))
              && BlockAt(words, WORDS * prevOffset) == At(g, View(g, words), Previous(g, p))
  {
    if ValidPosition(g, p) {
      ViewAt(g, words, Previous(g, p));
    }
  }
}
