/** The whole computation (argon2.c, core.c): pre-hash input, first blocks, tag, hashing and verifying. */
module Argon2Hash {
  import opened Arithmetic
  import opened Argon2Geometry
  import opened Argon2Round
  import opened Argon2Blocks
  import opened Argon2Segment
  import opened Argon2Schedule
  import opened Argon2Threads
  import Base64
  import opened HashString

  /** BLAKE2b with a 64-byte digest, the variable-length hash H', and the BlaMka round. */
  datatype Primitives = Primitives(blake2b: seq<byte> -> seq<byte>,
                                   hLong: (seq<byte>, uint32) -> seq<byte>,
                                   perm: Permutation)

  ghost predicate ValidPrimitives(h: Primitives) {
    && (forall x :: |h.blake2b(x)| == 64)
    && forall x, n :: |h.hLong(x, n)| == n
  }

  // ----- Pre-hashing

  /** store32 and store64, little endian. */
  function Le32(x: uint32): (b: seq<byte>)
    ensures |b| == 4
  {
    [x % 256, x / 256 % 256, x / 65536 % 256, x / 16777216]
  }

  function Le64(x: uint64): (b: seq<byte>)
    ensures |b| == 8
  {
    Le32(x % U32_LIMIT) + Le32(x / U32_LIMIT)
  }

  function FromLe32(b: seq<byte>): uint32
    requires |b| == 4
  {
    b[0] as int + 256 * (b[1] as int) + 65536 * (b[2] as int) + 16777216 * (b[3] as int)
  }

  function FromLe64(b: seq<byte>): uint64
    requires |b| == 8
  {
    FromLe32(b[..4]) + U32_LIMIT * FromLe32(b[4..])
  }

  lemma Le32RoundTrip(x: uint32)
    ensures FromLe32(Le32(x)) == x
  {
    var a, b, c := x / 256, x / 65536, x / 16777216;
    assert a / 256 == b && b / 256 == c;
    assert x == 256 * a + x % 256 && a == 256 * b + a % 256 && b == 256 * c + b % 256;
  }

  function BytesOf(b: Buffer): seq<byte> {
    if b.Data? then b.bytes else []
  }

  function Prefixed(b: Buffer): seq<byte> {
    Le32(b.Len()) + BytesOf(b)
  }

  /** What initial_hash feeds to BLAKE2b, in its order. */
  function InitialHashInput(c: Context, ty: ArgonType): seq<byte> {
    Le32(c.lanes) + (Le32(c.out.Len()) + (Le32(c.mCost) + (Le32(c.tCost) + (Le32(c.version)
      + (Le32(ty.Code()) + (Prefixed(c.pwd) + (Prefixed(c.salt) + (Prefixed(c.secret) + Prefixed(c.ad)))))))))
  }

  lemma SplitEqual(a: seq<byte>, x: seq<byte>, b: seq<byte>, y: seq<byte>)
    requires |a| == |b| && a + x == b + y
    ensures a == b && x == y
  {
    assert (a + x)[..|a|] == a && (b + y)[..|b|] == b;
    assert (a + x)[|a|..] == x && (b + y)[|b|..] == y;
  }

  lemma SplitNumber(m: uint32, x: seq<byte>, n: uint32, y: seq<byte>)
    requires Le32(m) + x == Le32(n) + y
    ensures m == n && x == y
  {
    hide Le32;
    SplitEqual(Le32(m), x, Le32(n), y);
    Le32RoundTrip(m);
    Le32RoundTrip(n);
  }

  lemma SplitPrefixed(b: Buffer, x: seq<byte>, d: Buffer, y: seq<byte>)
    requires Prefixed(b) + x == Prefixed(d) + y
    requires (b.Null? ==> b.Len() == 0) && (d.Null? ==> d.Len() == 0)
    ensures BytesOf(b) == BytesOf(d) && x == y
  {
    hide Le32;
    assert Prefixed(b) + x == Le32(b.Len()) + (BytesOf(b) + x);
    assert Prefixed(d) + y == Le32(d.Len()) + (BytesOf(d) + y);
    SplitNumber(b.Len(), BytesOf(b) + x, d.Len(), BytesOf(d) + y);
    SplitEqual(BytesOf(b), x, BytesOf(d), y);
  }

  /** The inputs that determine a tag. */
  predicate SameInputs(c: Context, d: Context) {
    && c.lanes == d.lanes && c.out.Len() == d.out.Len() && c.mCost == d.mCost && c.tCost == d.tCost
    && c.version == d.version && BytesOf(c.pwd) == BytesOf(d.pwd) && BytesOf(c.salt) == BytesOf(d.salt)
    && BytesOf(c.secret) == BytesOf(d.secret) && BytesOf(c.ad) == BytesOf(d.ad)
  }

  /** The pre-hash input separates all inputs: no two different requests are hashed alike. */
  lemma InitialHashInputInjective(c: Context, ty: ArgonType, d: Context, ty': ArgonType)
    requires ValidInputs(c) && ValidInputs(d)
    ensures InitialHashInput(c, ty) == InitialHashInput(d, ty') <==> SameInputs(c, d) && ty == ty'
  {
    hide Le32, Prefixed;
    if InitialHashInput(c, ty) == InitialHashInput(d, ty') {
      var c4, d4 := Prefixed(c.secret) + Prefixed(c.ad), Prefixed(d.secret) + Prefixed(d.ad);
      var c3, d3 := Prefixed(c.salt) + c4, Prefixed(d.salt) + d4;
      var c2, d2 := Prefixed(c.pwd) + c3, Prefixed(d.pwd) + d3;
      var cv, dv := Le32(c.version) + (Le32(ty.Code()) + c2), Le32(d.version) + (Le32(ty'.Code()) + d2);
      var ct, dt := Le32(c.tCost) + cv, Le32(d.tCost) + dv;
      var cm, dm := Le32(c.mCost) + ct, Le32(d.mCost) + dt;
      SplitNumber(c.lanes, Le32(c.out.Len()) + cm, d.lanes, Le32(d.out.Len()) + dm);
      SplitNumber(c.out.Len(), cm, d.out.Len(), dm);
      SplitNumber(c.mCost, ct, d.mCost, dt);
      SplitNumber(c.tCost, cv, d.tCost, dv);
      SplitNumber(c.version, Le32(ty.Code()) + c2, d.version, Le32(ty'.Code()) + d2);
      SplitNumber(ty.Code(), c2, ty'.Code(), d2);
      SplitPrefixed(c.pwd, c3, d.pwd, d3);
      SplitPrefixed(c.salt, c4, d.salt, d4);
      SplitPrefixed(c.secret, Prefixed(c.ad), d.secret, Prefixed(d.ad));
      assert Prefixed(c.ad) == Prefixed(c.ad) + [] && Prefixed(d.ad) == Prefixed(d.ad) + [];
      SplitPrefixed(c.ad, [], d.ad, []);
    }
    if SameInputs(c, d) {
      SamePrefixed(c.pwd, d.pwd);
      SamePrefixed(c.salt, d.salt);
      SamePrefixed(c.secret, d.secret);
      SamePrefixed(c.ad, d.ad);
    }
  }

  lemma SamePrefixed(b: Buffer, d: Buffer)
    requires (b.Null? ==> b.Len() == 0) && (d.Null? ==> d.Len() == 0) && BytesOf(b) == BytesOf(d)
    ensures Prefixed(b) == Prefixed(d)
  {
  }

  // ----- First blocks and tag

  /** load_block and store_block. */
  function LoadBlock(b: seq<byte>): Block
    requires |b| == 1024
  {
    seq(WORDS, k requires 0 <= k < WORDS => FromLe64(b[8 * k..8 * k + 8]))
  }

  function StoreBlock(b: Block): seq<byte> {
    seq(1024, k requires 0 <= k < 1024 => Le64(b[k / 8])[k % 8])
  }

  /** H'(H0 || i || lane) as a block, section 3.2 of RFC 9106. */
  function FirstBlock(h: Primitives, h0: seq<byte>, lane: uint32, i: uint32): Block {
    var b := h.hLong(h0 + Le32(i) + Le32(lane), 1024);
    if |b| == 1024 then LoadBlock(b) else Zero()
  }

  ghost predicate HasFirstBlocks(h: Primitives, h0: seq<byte>, g: Instance, m: Matrix)
    requires Shaped(g, m)
  {
    forall c :: InMatrix(g, c) && c.column < 2 ==>
      At(g, m, c) == FirstBlock(h, h0, c.lane, c.column)
  }

  /** fill_first_blocks: two blocks per lane, nothing else. */
  method FillFirstBlocks(h: Primitives, h0: seq<byte>, g: Instance, memory: array<Word>)
    requires ValidPrimitives(h) && ValidInstance(g) && memory.Length == WORDS * g.memoryBlocks
    modifies memory
    ensures HasFirstBlocks(h, h0, g, View(g, memory[..]))
  {
    hide View, Times, FirstBlock;
    var l: uint32 := 0;
    while l < g.lanes
      invariant l <= g.lanes
      invariant forall c :: InMatrix(g, c) && c.column < 2 && c.lane < l ==>
        At(g, View(g, memory[..]), c) == FirstBlock(h, h0, c.lane, c.column)
    {
      PutFirstBlock(h, h0, g, memory, l, 0);
      PutFirstBlock(h, h0, g, memory, l, 1);
      l := l + 1;
    }
  }

  method PutFirstBlock(h: Primitives, h0: seq<byte>, g: Instance, memory: array<Word>, l: uint32, i: uint32)
    requires ValidPrimitives(h) && ValidInstance(g) && memory.Length == WORDS * g.memoryBlocks
    requires l < g.lanes && i < 2
    modifies memory
    ensures InMatrix(g, Cell(l, i))
    ensures View(g, memory[..]) == Put(g, old(View(g, memory[..])), Cell(l, i), FirstBlock(h, h0, l, i))
  {
    hide View, FromLe64;
    var b := h.hLong(h0 + Le32(i) + Le32(l), 1024);
    assert |b| == 1024;
    OffsetInMemory(g, l, i);
    ghost var was, block := memory[..], LoadBlock(b);
    StoreIsPut(g, was, Cell(l, i), block);
    var at := WORDS * (l * g.laneLength + i);
    var k := 0;
    while k < WORDS
      invariant 0 <= k <= WORDS
      invariant forall j :: 0 <= j < memory.Length ==>
        memory[j] == if at <= j < at + k then block[j - at] else was[j]
    {
      memory[at + k] := FromLe64(b[8 * k..8 * k + 8]);
      k := k + 1;
    }
    StoreByWords(was, at, block, memory[..]);
  }

  /** The XOR of the last blocks of lanes 0 to n. */
  function XorLast(g: Instance, m: Matrix, n: nat): Block
    requires ValidInstance(g) && Shaped(g, m) && n < g.lanes
  {
    var last := m[n][g.laneLength - 1];
    if n == 0 then last else XorBlock(XorLast(g, m, n - 1), last)
  }

  function TagOf(h: Primitives, g: Instance, m: Matrix, outLen: uint32): seq<byte>
    requires ValidInstance(g) && Shaped(g, m)
  {
    h.hLong(StoreBlock(XorLast(g, m, g.lanes - 1)), outLen)
  }

  /** Where the last block of a lane starts. */
  function LastOffset(g: Instance, l: nat): nat
    requires ValidInstance(g)
  {
    WORDS * (l * g.laneLength + (g.laneLength - 1))
  }

  /** finalize */
  method Finalize(h: Primitives, g: Instance, memory: array<Word>, outLen: uint32) returns (tag: seq<byte>)
    requires ValidInstance(g) && memory.Length == WORDS * g.memoryBlocks
    ensures tag == TagOf(h, g, View(g, memory[..]), outLen)
  {
    hide View, XorBlock, StoreBlock, Times, LastOffset, Store;
    var blockhash := new Word[WORDS](_ => 0);
    ghost var m := View(g, memory[..]);
    LastBlock(g, memory[..], 0);
    StoreAll(blockhash[..], XorLast(g, m, 0));
    CopyBlock(blockhash, 0, memory, LastOffset(g, 0));
    var l: nat := 1;
    while l < g.lanes
      invariant 1 <= l <= g.lanes && blockhash[..] == XorLast(g, m, l - 1)
    {
      LastBlock(g, memory[..], l);
      StoreAll(blockhash[..], XorLast(g, m, l));
      XorInto(blockhash, 0, memory, LastOffset(g, l));
      l := l + 1;
    }
    tag := h.hLong(StoreBlock(blockhash[..]), outLen);
  }

  lemma LastBlock(g: Instance, words: seq<Word>, l: nat)
    requires ValidInstance(g) && |words| == WORDS * g.memoryBlocks && l < g.lanes
    ensures LastOffset(g, l) + WORDS <= |words|
    ensures BlockAt(words, LastOffset(g, l)) == View(g, words)[l][g.laneLength - 1]
  {
    OffsetInMemory(g, l, g.laneLength - 1);
    ViewAt(g, words, Cell(l, g.laneLength - 1));
  }

  // ----- One request, whatever the timing

  /** The memory after filling: sequentially for one thread, by any complete run of threads otherwise. */
  ghost predicate Filled(g: Instance, perm: Permutation, threads: nat, m0: Matrix, m: Matrix)
    requires ValidInstance(g) && Shaped(g, m0)
  {
    if threads == 1 then m == RunTo(g, perm, m0, g.passes)
    else exists states: seq<MtState>, actions: seq<Action> ::
           && IsMtRun(g, perm, states, actions) && states[0] == MtInit(g, threads, m0)
           && states[|actions|].pass == g.passes && states[|actions|].m == m
  }

  /** The tags argon2_ctx may produce: any allocation content, any timing. */
  ghost predicate Produces(h: Primitives, c: Context, ty: ArgonType, tag: seq<byte>) {
    && ValidInputs(c)
    && var g := InstanceOf(c, ty);
       && ValidInstance(g)
       && exists m0: Matrix, m: Matrix ::
            && Shaped(g, m0) && HasFirstBlocks(h, h.blake2b(InitialHashInput(c, ty)), g, m0)
            && Filled(g, h.perm, ThreadsOf(c), m0, m)
            && Shaped(g, m) && tag == TagOf(h, g, m, c.out.Len())
  }

  lemma FilledIsRun(g: Instance, perm: Permutation, threads: nat, m0: Matrix, m: Matrix)
    requires ValidInstance(g) && Shaped(g, m0) && 1 <= threads <= g.lanes && Filled(g, perm, threads, m0, m)
    ensures m == RunTo(g, perm, m0, g.passes)
  {
    hide RunTo, MtStep, Enabled, MtShape, MtInit;
    if threads != 1 {
      var states: seq<MtState>, actions: seq<Action> :|
        && IsMtRun(g, perm, states, actions) && states[0] == MtInit(g, threads, m0)
        && states[|actions|].pass == g.passes && states[|actions|].m == m;
      MtRefinesSt(g, perm, threads, m0, states, actions);
    }
  }

  /** A tag depends on the hashed inputs only: not on the allocation, the thread limit or the timing. */
  lemma TagUnique(h: Primitives, c: Context, d: Context, ty: ArgonType, tag1: seq<byte>, tag2: seq<byte>)
    requires Produces(h, c, ty, tag1) && Produces(h, d, ty, tag2) && SameInputs(c, d)
    ensures tag1 == tag2
  {
    hide RunTo, FirstBlock, TagOf, InitialHashInput, Filled;
    InitialHashInputInjective(c, ty, d, ty);
    var g, h0 := InstanceOf(c, ty), h.blake2b(InitialHashInput(c, ty));
    assert g == InstanceOf(d, ty);
    var m0: Matrix, m: Matrix :|
      && Shaped(g, m0) && HasFirstBlocks(h, h0, g, m0) && Filled(g, h.perm, ThreadsOf(c), m0, m)
      && Shaped(g, m) && tag1 == TagOf(h, g, m, c.out.Len());
    var n0: Matrix, n: Matrix :|
      && Shaped(g, n0) && HasFirstBlocks(h, h0, g, n0) && Filled(g, h.perm, ThreadsOf(d), n0, n)
      && Shaped(g, n) && tag2 == TagOf(h, g, n, d.out.Len());
    FilledIsRun(g, h.perm, ThreadsOf(c), m0, m);
    FilledIsRun(g, h.perm, ThreadsOf(d), n0, n);
    SameFirstBlocks(h, h0, g, m0, n0);
    FillIgnoresGarbage(g, h.perm, m0, n0, g.passes);
  }

  lemma SameFirstBlocks(h: Primitives, h0: seq<byte>, g: Instance, m0: Matrix, n0: Matrix)
    requires ValidInstance(g) && Shaped(g, m0) && Shaped(g, n0)
    requires HasFirstBlocks(h, h0, g, m0) && HasFirstBlocks(h, h0, g, n0)
    ensures AgreeOnWritten(g, 0, 0, 2, m0, n0)
  {
    hide FirstBlock;
    forall c | InMatrix(g, c) && Written(g, 0, 0, 2, c) ensures At(g, m0, c) == At(g, n0, c) {
      assert c.column < 2;
    }
  }

  function FirstMatrix(h: Primitives, h0: seq<byte>, g: Instance): (m: Matrix)
    requires ValidInstance(g)
    ensures Shaped(g, m)
  {
    seq(g.lanes, l requires 0 <= l < g.lanes => FirstRow(h, h0, g, l))
  }

  function FirstRow(h: Primitives, h0: seq<byte>, g: Instance, l: uint32): (row: seq<Block>)
    ensures |row| == g.laneLength
  {
    seq(g.laneLength, j requires 0 <= j < g.laneLength => FirstRowBlock(h, h0, l, j))
  }

  function FirstRowBlock(h: Primitives, h0: seq<byte>, l: uint32, j: nat): Block {
    if j < 2 then FirstBlock(h, h0, l, j) else Zero()
  }

  /** Every valid request produces a tag under its own thread limit. */
  lemma SomeTag(h: Primitives, c: Context, ty: ArgonType) returns (tag: seq<byte>)
    requires ValidInputs(c)
    ensures Produces(h, c, ty, tag)
  {
    hide RunTo, FirstBlock, TagOf, InitialHashInput, IsMtRun, MtInvariant;
    GeometryOfValidInputs(c, ty);
    var g, h0 := InstanceOf(c, ty), h.blake2b(InitialHashInput(c, ty));
    var m0 := FirstMatrix(h, h0, g);
    var m := RunTo(g, h.perm, m0, g.passes);
    assert HasFirstBlocks(h, h0, g, m0);
    if ThreadsOf(c) != 1 {
      MtInitInvariant(g, h.perm, ThreadsOf(c), m0);
      var states, actions := MtCompletes(g, h.perm, m0, MtInit(g, ThreadsOf(c), m0));
      MtRefinesSt(g, h.perm, ThreadsOf(c), m0, states, actions);
    }
    assert Filled(g, h.perm, ThreadsOf(c), m0, m);
    tag := TagOf(h, g, m, c.out.Len());
  }

  lemma ProducesSame(h: Primitives, c: Context, d: Context, ty: ArgonType, tag: seq<byte>)
    requires Produces(h, c, ty, tag) && ValidInputs(d) && SameInputs(c, d)
    ensures Produces(h, d, ty, tag)
  {
    hide Produces;
    var tag' := SomeTag(h, d, ty);
    TagUnique(h, c, d, ty, tag, tag');
  }

  lemma TextIsLonger(c: Context, ty: ArgonType)
    requires c.salt.Data? && c.out.Data?
    ensures c.salt.Len() <= |HashText(c, ty)| && c.out.Len() <= |HashText(c, ty)|
  {
    hide Base64.Encode, Base64.Decode;
    Base64.DecodeEncode(c.salt.bytes);
    Base64.DecodeEncode(c.out.bytes);
  }

  /** fill_memory_blocks: one thread fills in order, several under the given timing. */
  method FillMemoryBlocks(g: Instance, perm: Permutation, memory: array<Word>, threads: nat, timing: nat -> Action)
    requires ValidInstance(g) && memory.Length == WORDS * g.memoryBlocks && 1 <= threads <= g.lanes
    modifies memory
    ensures Filled(g, perm, threads, old(View(g, memory[..])), View(g, memory[..]))
  {
    hide View, RunTo, IsMtRun, MtInit;
    if threads == 1 {
      FillMemoryBlocksSt(g, perm, memory);
    } else {
      ghost var states, actions := FillMemoryBlocksMt(g, perm, memory, threads, timing);
    }
  }

  /** argon2_ctx on an allocation with arbitrary content, under any timing of the threads. */
  method Argon2Ctx(h: Primitives, c: Context, ty: ArgonType, garbage: nat -> Word, timing: nat -> Action)
    returns (code: ErrorCode, tag: seq<byte>)
    requires ValidPrimitives(h)
    ensures code == ValidateInputs(c)
    ensures code == Ok ==> Produces(h, c, ty, tag) && |tag| == c.out.Len()
  {
    hide View, Filled, FirstBlock, TagOf, InitialHashInput, ValidateInputs;
    code, tag := ValidateInputs(c), [];
    if code != Ok {
      return;
    }
    ValidateInputsExact(c);
    GeometryOfValidInputs(c, ty);
    var g := InstanceOf(c, ty);
    var memory := new Word[WORDS * g.memoryBlocks](garbage);
    var h0 := h.blake2b(InitialHashInput(c, ty));
    FillFirstBlocks(h, h0, g, memory);
    ghost var m0 := View(g, memory[..]);
    FillMemoryBlocks(g, h.perm, memory, ThreadsOf(c), timing);
    ghost var m := View(g, memory[..]);
    tag := Finalize(h, g, memory, c.out.Len());
    TagLength(h, g, m, c.out.Len());
  }

  lemma TagLength(h: Primitives, g: Instance, m: Matrix, n: uint32)
    requires ValidPrimitives(h) && ValidInstance(g) && Shaped(g, m)
    ensures |TagOf(h, g, m, n)| == n
  {
  }

  // ----- Comparing and verifying

  /** argon2_compare: 0 for equal bytes, -1 otherwise, without a branch on the data. */
  method Compare(b1: seq<byte>, b2: seq<byte>) returns (r: int)
    requires |b1| == |b2|
    ensures r == if b1 == b2 then 0 else -1
  {
    var d: nat := 0;
    var i := 0;
    while i < |b1|
      invariant 0 <= i <= |b1|
      invariant d == 0 <==> b1[..i] == b2[..i]
      invariant d < 256
    {
      assert b1[..i + 1] == b1[..i] + [b1[i]] && b2[..i + 1] == b2[..i] + [b2[i]];
      BitXorZero(b1[i], b2[i]);
      BitOrZeroIff(d, BitXor(b1[i], b2[i]));
      Pow2Values();
      BitXorBound(b1[i], b2[i], 8);
      BitOrBound(d, BitXor(b1[i], b2[i]), 8);
      d := BitOr(d, BitXor(b1[i], b2[i]));
      i := i + 1;
    }
    // (1 & ((d - 1) >> 8)) - 1: the shift is arithmetic, so -1 stays -1
    assert b1[..|b1|] == b1 && b2[..|b2|] == b2;
    var shifted := (d - 1) / 256;
    r := shifted % 2 - 1;
  }

  lemma {:induction false} BitOrBound(a: nat, b: nat, n: nat)
    requires a < Pow2(n) && b < Pow2(n)
    ensures BitOr(a, b) < Pow2(n)
    decreases n
  {
    if n > 0 {
      BitOrBound(a / 2, b / 2, n - 1);
    }
  }

  /** What argon2_verify may answer for a text, a password and a type. */
  ghost predicate MayAnswer(h: Primitives, s: string, pwd: Buffer, ty: ArgonType, code: ErrorCode) {
    match ParseHash(s, ty, |s|, |s|, pwd)
    case Rejected(e) => code == e
    case Accepted(c) =>
      exists tag :: Produces(h, c, ty, tag) && c.out.Data? && code == if tag == c.out.bytes then Ok else VerifyMismatch
  }

  /** A hash made of a password verifies with that password, on any number of threads and however they
      were timed; for another password the answer is OK exactly when its tag is the same; under
      another type the text is refused. */
  lemma HashThenVerify(h: Primitives, c: Context, ty: ArgonType, other: ArgonType, pwd: Buffer, code: ErrorCode)
    requires ValidateInputs(c) == Ok && c.secret == Null(0) && c.ad == Null(0)
    requires c.salt.Data? && c.out.Data? && Produces(h, c, ty, c.out.bytes)
    requires pwd.Null? ==> pwd.Len() == 0
    requires MayAnswer(h, HashText(c, ty), pwd, other, code)
    ensures other != ty ==> code == DecodingFail
    ensures other == ty && BytesOf(pwd) == BytesOf(c.pwd) ==> code == Ok
    ensures other == ty ==> (code == Ok <==> Produces(h, c.(pwd := pwd), ty, c.out.bytes))
  {
    hide HashText, Produces, ValidateInputs, ParseHash;
    var s := HashText(c, ty);
    if other != ty {
      WrongTypeRejected(c, ty, other, |s|, |s|, pwd);
    } else {
      ValidateInputsExact(c);
      TextIsLonger(c, ty);
      DecodeOfEncode(c, ty, |s|, |s|, pwd);
      var d := ParseHash(s, ty, |s|, |s|, pwd).context;
      var tag :| Produces(h, d, ty, tag) && code == if tag == c.out.bytes then Ok else VerifyMismatch;
      if BytesOf(pwd) == BytesOf(c.pwd) {
        TagUnique(h, c, d, ty, c.out.bytes, tag);
      }
      if Produces(h, c.(pwd := pwd), ty, c.out.bytes) {
        TagUnique(h, c.(pwd := pwd), d, ty, c.out.bytes, tag);
      }
      if tag == c.out.bytes {
        ProducesSame(h, d, c.(pwd := pwd), ty, tag);
      }
    }
  }
}
