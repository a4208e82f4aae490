/** index_alpha of core.c against the reference set of section 3.4.2 of RFC 9106. */
module Argon2Index {
  import opened Arithmetic
  import opened Argon2Geometry

  /** Where a block is built: lane is the lane being filled. */
  datatype Position = Position(pass: uint32, lane: nat, slice: nat, index: uint32)

  predicate ValidPosition(g: Instance, p: Position) {
    && ValidInstance(g)
    && p.pass < g.passes && p.lane < g.lanes && p.slice < SYNC_POINTS
    && p.index < g.segmentLength
    && (p.pass == 0 && p.slice == 0 ==> p.index >= 2)
  }

  function AreaSize(g: Instance, p: Position, sameLane: bool): uint32 {
    if p.pass == 0 then
      if p.slice == 0 then U32(p.index - 1)
      else if sameLane then U32(p.slice * g.segmentLength + p.index - 1)
      else U32(p.slice * g.segmentLength + if p.index == 0 then -1 else 0)
    else if sameLane then U32(g.laneLength - g.segmentLength + p.index - 1)
    else U32(g.laneLength - g.segmentLength + if p.index == 0 then -1 else 0)
  }

  function RelativePosition(area: uint32, rand: uint32): uint64 {
    var squared := U64(rand * rand) / U32_LIMIT;
    U64(U32(area - 1) - U64(area * squared) / U32_LIMIT)
  }

  function StartPosition(g: Instance, p: Position): uint32 {
    if p.pass == 0 || p.slice == SYNC_POINTS - 1 then 0 else U32((p.slice + 1) * g.segmentLength)
  }

  function IndexAlpha(g: Instance, p: Position, rand: uint32, sameLane: bool): uint32
    requires g.laneLength > 0
  {
    U32(U64(StartPosition(g, p) + RelativePosition(AreaSize(g, p, sameLane), rand)) % g.laneLength)
  }

  /** First column of slice s of a lane, for the four slices and the lane's end. */
  function SliceStart(g: Instance, s: nat): nat {
    if s == 0 then 0 else if s == 1 then g.segmentLength else if s == 2 then 2 * g.segmentLength
    else if s == 3 then 3 * g.segmentLength else 4 * g.segmentLength
  }

  lemma SliceProduct(g: Instance, s: nat)
    requires ValidInstance(g) && s <= 4
    ensures s * g.segmentLength == U32(s * g.segmentLength) == SliceStart(g, s)
    ensures g.laneLength <= g.memoryBlocks
  {
    TimesMonotone(1, g.lanes, g.laneLength);
    if s == 0 {
    } else if s == 1 {
    } else if s == 2 {
    } else if s == 3 {
    } else {
      assert s == 4;
    }
  }

  /** The columns of segment s, in the order they are built. */
  function SegmentColumns(g: Instance, s: nat): seq<nat> {
    seq(g.segmentLength, (k: nat) => SliceStart(g, s) + k)
  }

  /** The finished segments a block may refer to: those of this pass, or the last three. */
  function FinishedColumns(g: Instance, p: Position): seq<nat> {
    if p.pass == 0 then
      (if p.slice > 0 then SegmentColumns(g, 0) else [])
      + (if p.slice > 1 then SegmentColumns(g, 1) else [])
      + (if p.slice > 2 then SegmentColumns(g, 2) else [])
    else
      SegmentColumns(g, (p.slice + 1) % 4) + SegmentColumns(g, (p.slice + 2) % 4)
      + SegmentColumns(g, (p.slice + 3) % 4)
  }

  /** The set W of section 3.4.2 in order of construction: the finished segments, for the own lane
      also the blocks of the current segment, without the last one when that is the predecessor of
      the current block (own lane) or the block is the first of its segment (other lanes). */
  function ReferenceSet(g: Instance, p: Position, sameLane: bool): seq<nat>
    requires ValidPosition(g, p) && (p.pass == 0 && p.slice == 0 ==> sameLane)
  {
    var current := if sameLane
                   then seq(p.index, (k: nat) => SliceStart(g, p.slice) + k) else [];
    var all := FinishedColumns(g, p) + current;
    if sameLane || p.index == 0 then all[..|all| - 1] else all
  }

  /** The skewed choice of section 3.4.2: 0 <= Distance < size. */
  function Distance(size: nat, rand: uint32): nat {
    size * (rand * rand / U32_LIMIT) / U32_LIMIT
  }

  lemma SquareFits(rand: uint32)
    ensures U64(rand * rand) == rand * rand
    ensures rand * rand / U32_LIMIT < U32_LIMIT
  {
    MulLess(rand, U32_LIMIT, rand, U32_LIMIT);
  }

  lemma MulLess(a: nat, b: nat, c: nat, d: nat)
    requires a < b && c < d
    ensures a * c < b * d
  {
    assert a * c <= a * d;
    assert a * d < b * d;
  }

  lemma DistanceInRange(size: uint32, rand: uint32)
    requires size > 0
    ensures Distance(size, rand) < size
    ensures U64(size * (rand * rand / U32_LIMIT)) == size * (rand * rand / U32_LIMIT)
  {
    SquareFits(rand);
    Scaled(size, rand * rand / U32_LIMIT);
  }

  lemma Scaled(size: uint32, x: uint32)
    requires size > 0
    ensures size * x / U32_LIMIT < size
    ensures U64(size * x) == size * x
  {
    MulAtMost(size, x, U32_LIMIT - 1);
    ScaledBelow(size, size * x);
  }

  lemma ScaledBelow(size: uint32, product: nat)
    requires size > 0 && product <= size * (U32_LIMIT - 1)
    ensures product / U32_LIMIT < size
    ensures U64(product) == product
  {
  }

  /** A larger pseudo-random value never chooses a later block. */
  lemma DistanceMonotone(size: uint32, r1: uint32, r2: uint32)
    requires r1 <= r2
    ensures Distance(size, r1) <= Distance(size, r2)
  {
    MulMono(r1, r2, r1, r2);
    var x1, x2 := r1 * r1 / U32_LIMIT, r2 * r2 / U32_LIMIT;
    assert x1 <= x2;
    MulMono(size, size, x1, x2);
  }

  lemma MulMono(a: nat, b: nat, c: nat, d: nat)
    requires a <= b && c <= d
    ensures a * c <= b * d
  {
    assert a * c <= a * d;
    assert a * d <= b * d;
  }

  /** Column of a running count, for counts below two lane lengths. */
  function Cyclic(g: Instance, k: nat): nat {
    if k < g.laneLength then k else k - g.laneLength
  }

  lemma CyclicIsModulo(g: Instance, k: nat)
    requires ValidInstance(g) && k < 2 * g.laneLength
    ensures Cyclic(g, k) == k % g.laneLength < g.laneLength
  {
    if k < g.laneLength {
      DivModUnique(k, g.laneLength, 0, k);
    } else {
      DivModUnique(k, g.laneLength, 1, k - g.laneLength);
    }
  }

  /** The columns of w follow one another cyclically from start. */
  predicate IsRun(g: Instance, w: seq<nat>, start: nat) {
    forall k :: 0 <= k < |w| ==> w[k] == Cyclic(g, start + k)
  }

  lemma RunAppend(g: Instance, a: seq<nat>, b: seq<nat>, start: nat)
    requires IsRun(g, a, start) && IsRun(g, b, start + |a|)
    ensures IsRun(g, a + b, start)
  {
    forall k | |a| <= k < |a + b| ensures (a + b)[k] == Cyclic(g, start + k) {
      assert b[k - |a|] == Cyclic(g, start + |a| + (k - |a|));
    }
  }

  lemma SegmentIsRun(g: Instance, s: nat, start: nat)
    requires ValidInstance(g) && s < 4
    requires start == SliceStart(g, s) || start == SliceStart(g, s) + g.laneLength
    ensures IsRun(g, SegmentColumns(g, s), start)
  {
  }

  /** Blocks a lane has finished and not lost before the current segment. */
  function FinishedSize(g: Instance, p: Position): nat {
    if p.pass == 0 then SliceStart(g, p.slice) else 3 * g.segmentLength
  }

  lemma FinishedIsRun(g: Instance, p: Position)
    requires ValidPosition(g, p)
    ensures IsRun(g, FinishedColumns(g, p), StartPosition(g, p))
    ensures |FinishedColumns(g, p)| == FinishedSize(g, p)
    ensures StartPosition(g, p) + FinishedSize(g, p) == SliceStart(g, p.slice)
         || StartPosition(g, p) + FinishedSize(g, p) == SliceStart(g, p.slice) + g.laneLength
  {
    SliceProduct(g, p.slice + 1);
    if p.pass == 0 {
      ThreeSegments(g, 0, 1, 2, 0);
      SegmentIsRun(g, 0, 0);
      RunAppend(g, SegmentColumns(g, 0), SegmentColumns(g, 1), 0);
    } else {
      ThreeSegments(g, (p.slice + 1) % 4, (p.slice + 2) % 4, (p.slice + 3) % 4, StartPosition(g, p));
    }
  }

  lemma ThreeSegments(g: Instance, s1: nat, s2: nat, s3: nat, start: nat)
    requires ValidInstance(g) && s1 < 4
    requires s2 == (s1 + 1) % 4 && s3 == (s1 + 2) % 4
    requires start == SliceStart(g, s1)
    ensures IsRun(g, SegmentColumns(g, s1) + SegmentColumns(g, s2) + SegmentColumns(g, s3), start)
    ensures IsRun(g, SegmentColumns(g, s1) + SegmentColumns(g, s2), start)
  {
    var x, y, z := SegmentColumns(g, s1), SegmentColumns(g, s2), SegmentColumns(g, s3);
    SegmentIsRun(g, s1, start);
    SegmentIsRun(g, s2, start + g.segmentLength);
    SegmentIsRun(g, s3, start + 2 * g.segmentLength);
    RunAppend(g, x, y, start);
    RunAppend(g, x + y, z, start);
  }

  lemma CurrentIsRun(g: Instance, p: Position, start: nat)
    requires ValidPosition(g, p)
    requires start == SliceStart(g, p.slice) || start == SliceStart(g, p.slice) + g.laneLength
    ensures IsRun(g, seq(p.index, (k: nat) => SliceStart(g, p.slice) + k), start)
  {
  }

  lemma AreaIsExact(g: Instance, p: Position, sameLane: bool)
    requires ValidPosition(g, p) && (p.pass == 0 && p.slice == 0 ==> sameLane)
    ensures 1 <= AreaSize(g, p, sameLane) == FinishedSize(g, p)
              + (if sameLane then p.index else 0) - (if sameLane || p.index == 0 then 1 else 0)
    ensures StartPosition(g, p) + AreaSize(g, p, sameLane) < 2 * g.laneLength
  {
    hide Times, StartPosition, U32;
    SliceProduct(g, p.slice);
    StartIsExact(g, p);
    if p.pass == 0 {
      AreaArithmetic(g, p, sameLane, p.slice * g.segmentLength);
    } else {
      AreaArithmetic(g, p, sameLane, SliceStart(g, p.slice));
    }
  }

  lemma StartIsExact(g: Instance, p: Position)
    requires ValidPosition(g, p)
    ensures StartPosition(g, p) == if p.pass == 0 || p.slice == 3 then 0 else SliceStart(g, p.slice + 1)
  {
    SliceProduct(g, p.slice + 1);
  }

  lemma AreaArithmetic(g: Instance, p: Position, sameLane: bool, finished: nat)
    requires ValidPosition(g, p) && (p.pass == 0 && p.slice == 0 ==> sameLane)
    requires finished == SliceStart(g, p.slice) && g.laneLength <= g.memoryBlocks
    ensures U32(p.index - 1) == if p.index == 0 then U32_LIMIT - 1 else p.index - 1
    ensures p.slice > 0 ==> U32(finished + p.index - 1) == finished + p.index - 1
    ensures p.slice > 0 ==> U32(finished + if p.index == 0 then -1 else 0) == finished - if p.index == 0 then 1 else 0
    ensures U32(g.laneLength - g.segmentLength + p.index - 1) == 3 * g.segmentLength + p.index - 1
    ensures U32(g.laneLength - g.segmentLength + if p.index == 0 then -1 else 0)
            == 3 * g.segmentLength - if p.index == 0 then 1 else 0
    ensures p.slice > 0 ==> finished >= g.segmentLength
    ensures finished + g.segmentLength <= g.laneLength
  {
    hide Times;
  }

  /** The reference set is an unbroken cyclic run of columns from StartPosition, of the size the
      code computes: the 32-bit sums for size and start do not wrap. */
  lemma ReferenceSetShape(g: Instance, p: Position, sameLane: bool)
    requires ValidPosition(g, p) && (p.pass == 0 && p.slice == 0 ==> sameLane)
    ensures var w := ReferenceSet(g, p, sameLane);
            && 1 <= |w| == AreaSize(g, p, sameLane)
            && IsRun(g, w, StartPosition(g, p))
            && StartPosition(g, p) + |w| < 2 * g.laneLength
  {
    hide FinishedColumns, Cyclic, Times, AreaSize, StartPosition, FinishedSize, SliceStart;
    FinishedIsRun(g, p);
    AreaIsExact(g, p, sameLane);
    var current := seq(p.index, (k: nat) => SliceStart(g, p.slice) + k);
    CurrentIsRun(g, p, StartPosition(g, p) + FinishedSize(g, p));
    RunAppend(g, FinishedColumns(g, p), current, StartPosition(g, p));
  }

  /** index_alpha picks the member of the reference set that section 3.4.2 prescribes. */
  lemma IndexAlphaRefinesRfc(g: Instance, p: Position, rand: uint32, sameLane: bool)
    requires ValidPosition(g, p) && (p.pass == 0 && p.slice == 0 ==> sameLane)
    ensures var w := ReferenceSet(g, p, sameLane);
            && Distance(|w|, rand) < |w|
            && IndexAlpha(g, p, rand, sameLane) == w[|w| - 1 - Distance(|w|, rand)]
            && IndexAlpha(g, p, rand, sameLane) < g.laneLength
  {
    hide AreaSize, StartPosition, RelativePosition, Distance, ReferenceSet, SliceStart, Times, Cyclic;
    var size := AreaSize(g, p, sameLane);
    ReferenceSetShape(g, p, sameLane);
    RelativeIsChoice(size, rand);
    SliceProduct(g, p.slice + 1);
    AbsolutePosition(g, StartPosition(g, p), size - 1 - Distance(size, rand));
  }

  lemma AbsolutePosition(g: Instance, start: nat, k: nat)
    requires ValidInstance(g) && start + k < 2 * g.laneLength
    ensures U32(U64(start + k) % g.laneLength) == Cyclic(g, start + k) < g.laneLength
  {
    CyclicIsModulo(g, start + k);
  }

  lemma RelativeIsChoice(size: uint32, rand: uint32)
    requires size > 0
    ensures Distance(size, rand) < size
    ensures RelativePosition(size, rand) == size - 1 - Distance(size, rand)
  {
    SquareFits(rand);
    DistanceInRange(size, rand);
  }

  /** The column cyclically before the current one: the block chained from. */
  function PreviousColumn(g: Instance, p: Position): nat
    requires ValidPosition(g, p)
  {
    var column := SliceStart(g, p.slice) + p.index;
    if column == 0 then g.laneLength - 1 else column - 1
  }

  /** Neither the current block nor its predecessor is ever chosen in the own lane, and no block of
      the slice being written is chosen in another lane. */
  lemma IndexAlphaAvoids(g: Instance, p: Position, rand: uint32, sameLane: bool)
    requires ValidPosition(g, p) && (p.pass == 0 && p.slice == 0 ==> sameLane)
    ensures var z := IndexAlpha(g, p, rand, sameLane);
            var column := SliceStart(g, p.slice) + p.index;
            && (sameLane ==> z != column && z != PreviousColumn(g, p))
            && (sameLane && InSlice(g, p.slice, z) ==> z < column)
            && (!sameLane ==> !InSlice(g, p.slice, z))
            && (p.pass == 0 ==> z < column)
  {
    hide AreaSize, StartPosition, IndexAlpha, Distance, FinishedColumns, ReferenceSet, Times;
    ReferenceSetShape(g, p, sameLane);
    IndexAlphaRefinesRfc(g, p, rand, sameLane);
    AreaIsExact(g, p, sameLane);
    StartIsExact(g, p);
    var w := ReferenceSet(g, p, sameLane);
    var k := |w| - 1 - Distance(|w|, rand);
    assert w[k] == Cyclic(g, StartPosition(g, p) + k);
  }

  predicate InSlice(g: Instance, slice: nat, column: nat) {
    SliceStart(g, slice) <= column < SliceStart(g, slice + 1)
  }

  /** Position in the reference set falls as the pseudo-random value grows. */
  lemma ChoiceMonotone(g: Instance, p: Position, r1: uint32, r2: uint32, sameLane: bool)
    requires ValidPosition(g, p) && (p.pass == 0 && p.slice == 0 ==> sameLane)
    requires r1 <= r2
    ensures RelativePosition(AreaSize(g, p, sameLane), r1)
            >= RelativePosition(AreaSize(g, p, sameLane), r2)
  {
    ReferenceSetShape(g, p, sameLane);
    var size := AreaSize(g, p, sameLane);
    RelativeIsChoice(size, r1);
    RelativeIsChoice(size, r2);
    DistanceMonotone(size, r1, r2);
  }
}
