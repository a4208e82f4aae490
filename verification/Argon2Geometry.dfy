/** Inputs, validation and memory geometry (core.c, argon2.c, argon2.h). */
module Argon2Geometry {
  import opened Arithmetic

  const SYNC_POINTS: nat := 4
  const VERSION_10: nat := 0x10
  const VERSION_13: nat := 0x13
  const MAX_LANES: nat := 0xFF_FFFF
  const MIN_OUTLEN: nat := 4
  const MIN_SALT_LENGTH: nat := 8
  const MIN_MEMORY: nat := 2 * SYNC_POINTS

  datatype ArgonType = Argon2d | Argon2i | Argon2id {
    /** The enumerator's numeric value, as stored in an address block. */
    function Code(): nat {
      match this
      case Argon2d => 0
      case Argon2i => 1
      case Argon2id => 2
    }
  }

  datatype ErrorCode =
    | Ok | OutputPtrNull | OutputTooShort | PwdPtrMismatch | SaltTooShort | SaltPtrMismatch
    | SecretPtrMismatch | AdPtrMismatch | MemoryTooLittle | TimeTooSmall
    | LanesTooFew | LanesTooMany | ThreadsTooFew | ThreadsTooMany
    | FreeMemoryCbkNull | AllocateMemoryCbkNull
    | EncodingFail | DecodingFail | VerifyMismatch

  type Bytes = s: seq<byte> | |s| < U32_LIMIT

  /** A pointer with its declared length: NULL may still be declared non-empty. */
  datatype Buffer = Null(declared: uint32) | Data(bytes: Bytes) {
    function Len(): uint32 {
      if Null? then declared else |bytes|
    }
  }

  datatype Context = Context(
    out: Buffer, pwd: Buffer, salt: Buffer, secret: Buffer, ad: Buffer,
    tCost: uint32, mCost: uint32, lanes: uint32, threads: uint32, version: uint32,
    allocateCbk: bool, freeCbk: bool)

  /** Upper length limits and the 64-bit memory limit equal the range of uint32,
      so those comparisons never reject and are not repeated here. */
  function ValidateInputs(c: Context): ErrorCode {
    if c.out.Null? then OutputPtrNull
    else if c.out.Len() < MIN_OUTLEN then OutputTooShort
    else if c.pwd.Null? && c.pwd.Len() != 0 then PwdPtrMismatch
    else if c.salt.Null? && c.salt.Len() != 0 then SaltPtrMismatch
    else if c.salt.Len() < MIN_SALT_LENGTH then SaltTooShort
    else if c.secret.Null? && c.secret.Len() != 0 then SecretPtrMismatch
    else if c.ad.Null? && c.ad.Len() != 0 then AdPtrMismatch
    else if c.mCost < MIN_MEMORY then MemoryTooLittle
    else if c.mCost < U32(8 * c.lanes) then MemoryTooLittle
    else if c.tCost < 1 then TimeTooSmall
    else if c.lanes < 1 then LanesTooFew
    else if c.lanes > MAX_LANES then LanesTooMany
    else if c.threads < 1 then ThreadsTooFew
    else if c.threads > MAX_LANES then ThreadsTooMany
    else if c.allocateCbk && !c.freeCbk then FreeMemoryCbkNull
    else if !c.allocateCbk && c.freeCbk then AllocateMemoryCbkNull
    else Ok
  }

  /** What a caller has to supply; no wrap-around is involved. */
  predicate ValidInputs(c: Context) {
    && c.out.Data? && c.salt.Data?
    && (c.pwd.Null? ==> c.pwd.Len() == 0)
    && (c.secret.Null? ==> c.secret.Len() == 0)
    && (c.ad.Null? ==> c.ad.Len() == 0)
    && c.out.Len() >= 4 && c.salt.Len() >= 8
    && 1 <= c.lanes <= MAX_LANES && 1 <= c.threads <= MAX_LANES
    && 8 * c.lanes <= c.mCost && 1 <= c.tCost
    && (c.allocateCbk <==> c.freeCbk)
  }

  /** The memory test is made with a product that may wrap, before the lane count is checked;
      the later checks still make acceptance exact. */
  lemma ValidateInputsExact(c: Context)
    ensures ValidateInputs(c) == Ok <==> ValidInputs(c)
  {
    if c.lanes <= MAX_LANES {
      assert U32(8 * c.lanes) == 8 * c.lanes;
    }
  }

  /** The tests in the order of the code, on numbers; 8 * lanes is taken modulo 2^32. */
  function Tests(c: Context): seq<(ErrorCode, bool)> {
    [(OutputPtrNull, c.out.Null?), (OutputTooShort, c.out.Len() < 4),
     (PwdPtrMismatch, c.pwd.Null? && c.pwd.Len() > 0), (SaltPtrMismatch, c.salt.Null? && c.salt.Len() > 0),
     (SaltTooShort, c.salt.Len() < 8), (SecretPtrMismatch, c.secret.Null? && c.secret.Len() > 0),
     (AdPtrMismatch, c.ad.Null? && c.ad.Len() > 0), (MemoryTooLittle, c.mCost < 8),
     (MemoryTooLittle, c.mCost < 8 * c.lanes % 0x1_0000_0000), (TimeTooSmall, c.tCost == 0),
     (LanesTooFew, c.lanes == 0), (LanesTooMany, c.lanes > 0xFF_FFFF),
     (ThreadsTooFew, c.threads == 0), (ThreadsTooMany, c.threads > 0xFF_FFFF),
     (FreeMemoryCbkNull, c.allocateCbk && !c.freeCbk), (AllocateMemoryCbkNull, c.freeCbk && !c.allocateCbk)]
  }

  /** The answer is the code of the first test that fails. */
  lemma FirstFailedTest(c: Context) returns (k: nat)
    ensures k <= |Tests(c)| && forall j :: 0 <= j < k ==> !Tests(c)[j].1
    ensures if k < |Tests(c)| then Tests(c)[k].1 && ValidateInputs(c) == Tests(c)[k].0 else ValidateInputs(c) == Ok
  {
    hide ValidateInputs;
    k := 0;
    while k < |Tests(c)| && !Tests(c)[k].1
      invariant k <= |Tests(c)| && forall j :: 0 <= j < k ==> !Tests(c)[j].1
    {
      k := k + 1;
    }
    AnswerOfTests(c, k);
  }

  lemma AnswerOfTests(c: Context, k: nat)
    requires k <= |Tests(c)| && (forall j :: 0 <= j < k ==> !Tests(c)[j].1) && (k < |Tests(c)| ==> Tests(c)[k].1)
    ensures ValidateInputs(c) == if k < |Tests(c)| then Tests(c)[k].0 else Ok
  {
    var t := Tests(c);
    assert (k > 0 ==> !t[0].1) && (k > 1 ==> !t[1].1) && (k > 2 ==> !t[2].1) && (k > 3 ==> !t[3].1);
    assert (k > 4 ==> !t[4].1) && (k > 5 ==> !t[5].1) && (k > 6 ==> !t[6].1) && (k > 7 ==> !t[7].1);
    assert (k > 8 ==> !t[8].1) && (k > 9 ==> !t[9].1) && (k > 10 ==> !t[10].1) && (k > 11 ==> !t[11].1);
    assert (k > 12 ==> !t[12].1) && (k > 13 ==> !t[13].1) && (k > 14 ==> !t[14].1) && (k > 15 ==> !t[15].1);
  }

  datatype Instance = Instance(
    version: uint32, passes: uint32, memoryBlocks: uint32, segmentLength: uint32,
    laneLength: uint32, lanes: uint32, ty: ArgonType)

  /** The geometry computed by argon2_ctx, every product and quotient in 32 bits. */
  function InstanceOf(c: Context, ty: ArgonType): Instance
    requires ValidInputs(c)
  {
    var least := U32(U32(2 * SYNC_POINTS) * c.lanes);
    var blocks := if c.mCost < least then least else c.mCost;
    var perLane := U32(c.lanes * SYNC_POINTS);
    assert perLane == 4 * c.lanes > 0;
    var segmentLength := blocks / perLane;
    Instance(c.version, c.tCost, U32(segmentLength * perLane), segmentLength,
             U32(segmentLength * SYNC_POINTS), c.lanes, ty)
  }

  /** The thread limit argon2_ctx runs with. */
  function ThreadsOf(c: Context): uint32 {
    if c.threads > c.lanes then c.lanes else c.threads
  }

  /** As many as asked for, but no more than there are lanes. */
  lemma ThreadLimit(c: Context)
    ensures ThreadsOf(c) <= c.threads && ThreadsOf(c) <= c.lanes
    ensures ThreadsOf(c) == c.threads || ThreadsOf(c) == c.lanes
  {
  }

  predicate ValidInstance(g: Instance) {
    && 1 <= g.lanes && 1 <= g.passes
    && 2 <= g.segmentLength
    && g.laneLength == 4 * g.segmentLength
    && g.memoryBlocks == Times(g.lanes, g.laneLength)
  }

  /** m' = 4 * p * floor(m / 4p) of section 3.2 of RFC 9106, with at least two blocks a segment. */
  lemma GeometryOfValidInputs(c: Context, ty: ArgonType)
    requires ValidInputs(c)
    ensures var g := InstanceOf(c, ty);
            && ValidInstance(g) && g.memoryBlocks == g.lanes * g.laneLength
            && g.memoryBlocks == 4 * c.lanes * (c.mCost / (4 * c.lanes))
            && g.memoryBlocks <= c.mCost < g.memoryBlocks + 4 * c.lanes
  {
    var d, m := 4 * c.lanes, c.mCost;
    var s := SegmentsFit(m, d);
    InstanceFields(c, ty);
    MulAtMost(4 * s, 1, c.lanes);
    Regroup(s, c.lanes);
    TimesIsProduct(c.lanes, s * 4);
  }

  lemma InstanceFields(c: Context, ty: ArgonType)
    requires ValidInputs(c)
    ensures var g, d := InstanceOf(c, ty), 4 * c.lanes;
            && g.segmentLength == c.mCost / d
            && g.laneLength == U32(g.segmentLength * 4)
            && g.memoryBlocks == U32(g.segmentLength * d)
            && g.lanes == c.lanes && g.passes == c.tCost
  {
    assert U32(8 * c.lanes) == 8 * c.lanes;
    assert U32(c.lanes * SYNC_POINTS) == 4 * c.lanes;
  }

  lemma Regroup(s: nat, p: nat)
    ensures s * (4 * p) == (4 * p) * s == (4 * s) * p == p * (s * 4)
  {
  }

  lemma SegmentsFit(m: nat, d: nat) returns (s: nat)
    requires d > 0 && 2 * d <= m
    ensures s == m / d && s >= 2 && d * s <= m < d * s + d
  {
    s := m / d;
    assert m == d * s + m % d;
    if s < 2 {
      MulAtMost(d, s, 1);
    }
  }

  lemma MulAtMost(d: nat, j: int, k: int)
    requires j <= k
    ensures d * j <= d * k
  {
  }

  /** Distinct cells of the lane-by-index matrix lie at distinct offsets, all inside memory. */
  lemma OffsetInMemory(g: Instance, lane: nat, j: nat)
    requires ValidInstance(g) && lane < g.lanes && j < g.laneLength
    ensures Times(lane, g.laneLength) == lane * g.laneLength
    ensures Times(lane, g.laneLength) + j < g.memoryBlocks
    ensures (Times(lane, g.laneLength) + j) % g.laneLength == j
    ensures (Times(lane, g.laneLength) + j) / g.laneLength == lane
  {
    TimesIsProduct(lane, g.laneLength);
    TimesMonotone(lane + 1, g.lanes, g.laneLength);
    DivModUnique(lane * g.laneLength + j, g.laneLength, lane, j);
  }

  lemma {:induction false} TimesMonotone(j: nat, k: nat, n: nat)
    requires j <= k
    ensures Times(j, n) <= Times(k, n)
    decreases k
  {
    if j < k {
      TimesMonotone(j, k - 1, n);
    }
  }
}
