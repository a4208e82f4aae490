/** The compression step on 1024-byte blocks: what it computes, and the two C forms of fill_block. */
module Argon2Blocks {
  import opened Arithmetic
  import opened Argon2Round

  const WORDS: nat := 128

  type Block = b: seq<Word> | |b| == WORDS witness seq(WORDS, _ => 0)

  /** The BlaMka round of a run, the same for every block. */
  type Permutation = Sixteen -> Sixteen

  function XorBlock(x: Block, y: Block): Block {
    seq(WORDS, k requires 0 <= k < WORDS => XorWord(x[k], y[k]))
  }

  /** Row i holds words 16i..16i+15; column i holds the word pairs 2i, 2i+1 of every row. */
  function RowOf(b: Block, i: nat): Sixteen
    requires i < 8
  {
    b[16 * i..16 * i + 16]
  }

  function ColumnOf(b: Block, i: nat): Sixteen
    requires i < 8
  {
    seq(16, j requires 0 <= j < 16 => b[16 * (j / 2) + 2 * i + j % 2])
  }

  function Rows(p: Permutation, b: Block): Block {
    seq(WORDS, k requires 0 <= k < WORDS => RowWord(p, b, k))
  }

  function RowWord(p: Permutation, b: Block, k: nat): Word
    requires k < WORDS
  {
    p(RowOf(b, k / 16))[k % 16]
  }

  function Columns(p: Permutation, b: Block): Block {
    seq(WORDS, k requires 0 <= k < WORDS => ColumnWord(p, b, k))
  }

  function ColumnWord(p: Permutation, b: Block, k: nat): Word
    requires k < WORDS
  {
    p(ColumnOf(b, ColumnIndex(k)))[ColumnSlot(k)]
  }

  /** The column a word lies in, and its place in that column. */
  function ColumnIndex(k: nat): (i: nat)
    ensures i < 8
  {
    k % 16 / 2
  }

  function ColumnSlot(k: nat): (j: nat)
    requires k < WORDS
    ensures j < 16
  {
    2 * (k / 16) + k % 2
  }

  /** The compression function of section 3.5 of RFC 9106, optionally XORed over the old block. */
  function FillBlock(p: Permutation, prev: Block, reference: Block, old_: Block, withXor: bool): Block {
    var r := XorBlock(reference, prev);
    var kept := if withXor then XorBlock(r, old_) else r;
    XorBlock(kept, Columns(p, Rows(p, r)))
  }

  lemma XorBlockCommutes(x: Block, y: Block)
    ensures XorBlock(x, y) == XorBlock(y, x)
  {
    forall k | 0 <= k < WORDS ensures XorWord(x[k], y[k]) == XorWord(y[k], x[k]) {
      BitXorCommutes(x[k], y[k]);
    }
  }

  /** A round on sixteen listed words of an array, in place. */
  method RoundAt(p: Permutation, v: array<Word>, at: seq<nat>)
    requires v.Length == WORDS && |at| == 16
    requires forall j :: 0 <= j < 16 ==> at[j] < WORDS
    requires forall j, k :: 0 <= j < k < 16 ==> at[j] != at[k]
    modifies v
    ensures forall j :: 0 <= j < 16 ==> v[at[j]] == p(old(Gather(v[..], at)))[j]
    ensures forall k :: 0 <= k < WORDS && k !in at ==> v[k] == old(v[k])
  {
    var out := p(Gather(v[..], at));
    var j := 0;
    while j < 16
      invariant 0 <= j <= 16
      invariant forall i :: 0 <= i < j ==> v[at[i]] == out[i]
      invariant forall k :: 0 <= k < WORDS && k !in at ==> v[k] == old(v[k])
    {
      v[at[j]] := out[j];
      j := j + 1;
    }
  }

  function Gather(v: seq<Word>, at: seq<nat>): Sixteen
    requires |at| == 16 && forall j :: 0 <= j < 16 ==> at[j] < |v|
  {
    seq(16, j requires 0 <= j < 16 => v[at[j]])
  }

  /** The argument lists of the two macro calls in ref.c. */
  function RowWords(i: nat): seq<nat> {
    [16 * i, 16 * i + 1, 16 * i + 2, 16 * i + 3, 16 * i + 4, 16 * i + 5, 16 * i + 6, 16 * i + 7,
     16 * i + 8, 16 * i + 9, 16 * i + 10, 16 * i + 11, 16 * i + 12, 16 * i + 13, 16 * i + 14, 16 * i + 15]
  }

  function ColumnWords(i: nat): seq<nat> {
    [2 * i, 2 * i + 1, 2 * i + 16, 2 * i + 17, 2 * i + 32, 2 * i + 33, 2 * i + 48, 2 * i + 49,
     2 * i + 64, 2 * i + 65, 2 * i + 80, 2 * i + 81, 2 * i + 96, 2 * i + 97, 2 * i + 112, 2 * i + 113]
  }

  lemma RowWordsAt(i: nat)
    ensures forall j :: 0 <= j < 16 ==> RowWords(i)[j] == 16 * i + j
  {
  }

  lemma ColumnWordsAt(i: nat)
    ensures |ColumnWords(i)| == 16
    ensures forall j :: 0 <= j < 16 ==> ColumnWords(i)[j] == 16 * (j / 2) + 2 * i + j % 2
  {
  }

  /** Word k lies in exactly one row and one column. */
  lemma RowOfWord(k: nat, i: nat)
    requires k < WORDS && i < 8
    ensures k in RowWords(i) <==> k / 16 == i
  {
    RowWordsAt(i);
    if k / 16 == i {
      assert RowWords(i)[k % 16] == k;
    }
  }

  lemma ColumnOfWord(k: nat, i: nat)
    requires k < WORDS && i < 8
    ensures k in ColumnWords(i) <==> ColumnIndex(k) == i
    ensures ColumnIndex(k) == i ==> ColumnWords(i)[ColumnSlot(k)] == k
  {
    hide ColumnWords;
    ColumnWordsAt(i);
    Coordinates(k);
    if ColumnIndex(k) == i {
      assert ColumnWords(i)[ColumnSlot(k)] == k;
    }
    if k in ColumnWords(i) {
      var j :| 0 <= j < 16 && ColumnWords(i)[j] == k;
      CoordinatesUnique(j / 2, i, j % 2);
    }
  }

  lemma Coordinates(k: nat)
    requires k < WORDS
    ensures var j := ColumnSlot(k); k == 16 * (j / 2) + 2 * ColumnIndex(k) + j % 2
  {
    assert k == 16 * (k / 16) + k % 16;
    assert k % 16 == 2 * (k % 16 / 2) + k % 16 % 2;
  }

  lemma CoordinatesUnique(row: nat, column: nat, bit: nat)
    requires row < 8 && column < 8 && bit < 2
    ensures ColumnIndex(16 * row + 2 * column + bit) == column
  {
  }

  predicate RowsDone(p: Permutation, b: Block, v: seq<Word>, i: nat) {
    |v| == WORDS
    && forall k :: 0 <= k < WORDS ==> v[k] == if k / 16 < i then RowWord(p, b, k) else b[k]
  }

  lemma RowGathered(p: Permutation, b: Block, v: seq<Word>, i: nat)
    requires i < 8 && RowsDone(p, b, v, i)
    ensures forall j :: 0 <= j < 16 ==> RowWords(i)[j] < WORDS
    ensures Gather(v, RowWords(i)) == RowOf(b, i)
  {
    RowWordsAt(i);
  }

  lemma RowStep(p: Permutation, b: Block, v: seq<Word>, w: seq<Word>, i: nat)
    requires i < 8 && RowsDone(p, b, v, i) && |w| == WORDS
    requires forall j :: 0 <= j < 16 ==> RowWords(i)[j] < WORDS && w[RowWords(i)[j]] == p(RowOf(b, i))[j]
    requires forall k :: 0 <= k < WORDS && k !in RowWords(i) ==> w[k] == v[k]
    ensures RowsDone(p, b, w, i + 1)
  {
    RowWordsAt(i);
    forall k | 0 <= k < WORDS
      ensures w[k] == if k / 16 < i + 1 then RowWord(p, b, k) else b[k]
    {
      RowOfWord(k, i);
      if k / 16 == i {
        assert RowWords(i)[k % 16] == k;
      }
    }
  }

  method RowRounds(p: Permutation, v: array<Word>)
    requires v.Length == WORDS
    modifies v
    ensures v[..] == Rows(p, old(v[..]))
  {
    ghost var b: Block := v[..];
    var i := 0;
    while i < 8
      invariant 0 <= i <= 8
      invariant RowsDone(p, b, v[..], i)
    {
      ghost var before := v[..];
      RowGathered(p, b, before, i);
      RoundAt(p, v, RowWords(i));
      RowStep(p, b, before, v[..], i);
      i := i + 1;
    }
  }

  predicate ColumnsDone(p: Permutation, b: Block, v: seq<Word>, i: nat) {
    |v| == WORDS
    && forall k :: 0 <= k < WORDS ==> v[k] == if ColumnIndex(k) < i then ColumnWord(p, b, k) else b[k]
  }

  lemma ColumnGathered(p: Permutation, b: Block, v: seq<Word>, i: nat)
    requires i < 8 && ColumnsDone(p, b, v, i)
    ensures forall j :: 0 <= j < 16 ==> ColumnWords(i)[j] < WORDS
    ensures Gather(v, ColumnWords(i)) == ColumnOf(b, i)
  {
    hide ColumnWord;
    ColumnWordsAt(i);
    forall j | 0 <= j < 16 ensures Gather(v, ColumnWords(i))[j] == ColumnOf(b, i)[j] {
      CoordinatesUnique(j / 2, i, j % 2);
      assert ColumnWords(i)[j] == 16 * (j / 2) + 2 * i + j % 2;
    }
  }

  lemma ColumnStep(p: Permutation, b: Block, v: seq<Word>, w: seq<Word>, i: nat)
    requires i < 8 && ColumnsDone(p, b, v, i) && |w| == WORDS
    requires forall j :: 0 <= j < 16 ==> ColumnWords(i)[j] < WORDS && w[ColumnWords(i)[j]] == p(ColumnOf(b, i))[j]
    requires forall k :: 0 <= k < WORDS && k !in ColumnWords(i) ==> w[k] == v[k]
    ensures ColumnsDone(p, b, w, i + 1)
  {
    forall k | 0 <= k < WORDS
      ensures w[k] == if ColumnIndex(k) < i + 1 then ColumnWord(p, b, k) else b[k]
    {
      ColumnOfWord(k, i);
    }
  }

  method ColumnRounds(p: Permutation, v: array<Word>)
    requires v.Length == WORDS
    modifies v
    ensures v[..] == Columns(p, old(v[..]))
  {
    ghost var b: Block := v[..];
    var i := 0;
    while i < 8
      invariant 0 <= i <= 8
      invariant ColumnsDone(p, b, v[..], i)
    {
      ghost var before := v[..];
      ColumnGathered(p, b, before, i);
      RoundAt(p, v, ColumnWords(i));
      ColumnStep(p, b, before, v[..], i);
      i := i + 1;
    }
  }

  /** The block of a word array at a word offset, and that array with the block replaced. */
  function BlockAt(w: seq<Word>, at: nat): Block
    requires at + WORDS <= |w|
  {
    w[at..at + WORDS]
  }

  function Store(w: seq<Word>, at: nat, b: Block): seq<Word>
    requires at + WORDS <= |w|
  {
    w[..at] + b + w[at + WORDS..]
  }

  method CopyBlock(dst: array<Word>, d: nat, src: array<Word>, s: nat)
    requires dst != src && d + WORDS <= dst.Length && s + WORDS <= src.Length
    modifies dst
    ensures dst[..] == Store(old(dst[..]), d, BlockAt(src[..], s))
  {
    var i := 0;
    while i < WORDS
      invariant 0 <= i <= WORDS
      invariant forall k :: 0 <= k < dst.Length ==>
        dst[k] == if d <= k < d + i then src[s + k - d] else old(dst[k])
    {
      dst[d + i] := src[s + i];
      i := i + 1;
    }
    StoreByWords(old(dst[..]), d, BlockAt(src[..], s), dst[..]);
  }

  method XorInto(dst: array<Word>, d: nat, src: array<Word>, s: nat)
    requires dst != src && d + WORDS <= dst.Length && s + WORDS <= src.Length
    modifies dst
    ensures dst[..] == Store(old(dst[..]), d, XorBlock(old(BlockAt(dst[..], d)), BlockAt(src[..], s)))
  {
    var i := 0;
    while i < WORDS
      invariant 0 <= i <= WORDS
      invariant forall k :: 0 <= k < dst.Length ==>
        dst[k] == if d <= k < d + i then XorWord(old(dst[k]), src[s + k - d]) else old(dst[k])
    {
      dst[d + i] := XorWord(dst[d + i], src[s + i]);
      i := i + 1;
    }
    StoreByWords(old(dst[..]), d, XorBlock(old(BlockAt(dst[..], d)), BlockAt(src[..], s)), dst[..]);
  }

  lemma StoreByWords(was: seq<Word>, at: nat, b: Block, now: seq<Word>)
    requires at + WORDS <= |was| == |now|
    requires forall k :: 0 <= k < |was| ==> now[k] == if at <= k < at + WORDS then b[k - at] else was[k]
    ensures now == Store(was, at, b)
  {
  }

  lemma StoreAll(w: seq<Word>, b: Block)
    requires |w| == WORDS
    ensures Store(w, 0, b) == b && BlockAt(w, 0) == w
  {
  }

  lemma StoreTwice(w: seq<Word>, at: nat, b: Block, c: Block)
    requires at + WORDS <= |w|
    ensures |Store(w, at, b)| == |w|
    ensures BlockAt(Store(w, at, b), at) == b
    ensures Store(Store(w, at, b), at, c) == Store(w, at, c)
  {
  }

  /** fill_block of ref.c. The three blocks may coincide or overlap in any way: everything is read
      into locals before the destination is written. */
  method FillBlockRef(p: Permutation, prevA: array<Word>, prev: nat, refA: array<Word>, reference: nat,
                      nextA: array<Word>, next: nat, withXor: bool)
    requires prev + WORDS <= prevA.Length && reference + WORDS <= refA.Length
    requires next + WORDS <= nextA.Length
    modifies nextA
    ensures nextA[..] == Store(old(nextA[..]), next,
              FillBlock(p, old(BlockAt(prevA[..], prev)), old(BlockAt(refA[..], reference)),
                        old(BlockAt(nextA[..], next)), withXor))
  {
    hide Rows, Columns, XorBlock, BlockAt, Store;
    var blockR, blockTmp := new Word[WORDS](_ => 0), new Word[WORDS](_ => 0);
    ghost var r := XorBlock(BlockAt(refA[..], reference), BlockAt(prevA[..], prev));
    StoreAll(blockR[..], BlockAt(refA[..], reference));
    CopyBlock(blockR, 0, refA, reference);
    StoreAll(blockR[..], r);
    XorInto(blockR, 0, prevA, prev);
    StoreAll(blockTmp[..], r);
    StoreAll(blockR[..], r);
    CopyBlock(blockTmp, 0, blockR, 0);
    ghost var kept := if withXor then XorBlock(r, BlockAt(nextA[..], next)) else r;
    StoreAll(blockTmp[..], kept);
    if withXor {
      XorInto(blockTmp, 0, nextA, next);
    }
    assert blockTmp[..] == kept;
    RowRounds(p, blockR);
    ColumnRounds(p, blockR);
    assert blockR[..] == Columns(p, Rows(p, r));
    ghost var was := nextA[..];
    CopyBlock(nextA, next, blockTmp, 0);
    StoreAll(kept, kept);
    StoreAll(blockR[..], blockR[..]);
    StoreTwice(was, next, kept, XorBlock(kept, blockR[..]));
    XorInto(nextA, next, blockR, 0);
  }

  /** The 64 registers of opt.c as the words they hold. */
  function Unpack(s: seq<M128>): Block
    requires |s| == 64
  {
    seq(WORDS, k requires 0 <= k < WORDS => WordOf(s, k))
  }

  function WordOf(s: seq<M128>, k: nat): Word
    requires |s| == 64 && k < WORDS
  {
    if k % 2 == 0 then s[k / 2].lo else s[k / 2].hi
  }

  /** A register round that computes p on the words of its eight registers. */
  ghost predicate Computes(simd: Eight -> Eight, p: Permutation) {
    forall s: Eight :: Flatten(simd(s)) == p(Flatten(s))
  }

  function Take8(v: seq<M128>, at: seq<nat>): Eight
    requires |at| == 8 && forall j :: 0 <= j < 8 ==> at[j] < |v|
  {
    seq(8, j requires 0 <= j < 8 => v[at[j]])
  }

  function Doubled(at: seq<nat>): (w: seq<nat>)
    requires |at| == 8
    ensures |w| == 16
  {
    [2 * at[0], 2 * at[0] + 1, 2 * at[1], 2 * at[1] + 1, 2 * at[2], 2 * at[2] + 1,
     2 * at[3], 2 * at[3] + 1, 2 * at[4], 2 * at[4] + 1, 2 * at[5], 2 * at[5] + 1,
     2 * at[6], 2 * at[6] + 1, 2 * at[7], 2 * at[7] + 1]
  }

  lemma FlattenGathers(v: seq<M128>, at: seq<nat>)
    requires |v| == 64 && |at| == 8 && forall j :: 0 <= j < 8 ==> at[j] < 64
    ensures forall j :: 0 <= j < 16 ==> Doubled(at)[j] < WORDS
    ensures Flatten(Take8(v, at)) == Gather(Unpack(v), Doubled(at))
  {
  }

  method RoundAt128(simd: Eight -> Eight, ghost p: Permutation, v: array<M128>, at: seq<nat>)
    requires v.Length == 64 && |at| == 8 && Computes(simd, p)
    requires forall j :: 0 <= j < 8 ==> at[j] < 64
    requires forall j, k :: 0 <= j < k < 8 ==> at[j] != at[k]
    modifies v
    ensures forall j :: 0 <= j < 16 ==> Doubled(at)[j] < WORDS
    ensures forall j :: 0 <= j < 16 ==>
      Unpack(v[..])[Doubled(at)[j]] == p(old(Gather(Unpack(v[..]), Doubled(at))))[j]
    ensures forall k :: 0 <= k < WORDS && k !in Doubled(at) ==> Unpack(v[..])[k] == old(Unpack(v[..]))[k]
  {
    hide Flatten, Doubled, Unpack;
    FlattenGathers(v[..], at);
    var out := simd(Take8(v[..], at));
    ghost var was := v[..];
    var j := 0;
    while j < 8
      invariant 0 <= j <= 8
      invariant forall i :: 0 <= i < j ==> v[at[i]] == out[i]
      invariant forall k :: 0 <= k < 64 && k !in at ==> v[k] == was[k]
    {
      v[at[j]] := out[j];
      j := j + 1;
    }
    Scattered(was, v[..], at, out);
    assert Flatten(out) == p(Flatten(Take8(was, at)));
  }

  lemma DoubledAt(at: seq<nat>)
    requires |at| == 8
    ensures forall j :: 0 <= j < 16 ==> Doubled(at)[j] == 2 * at[j / 2] + j % 2
  {
  }

  lemma DoubledHas(at: seq<nat>, k: nat)
    requires |at| == 8 && k / 2 in at
    ensures k in Doubled(at)
  {
    var j :| 0 <= j < 8 && at[j] == k / 2;
    DoubledAt(at);
    HalfOf(j, k % 2);
    assert Doubled(at)[2 * j + k % 2] == k;
  }

  lemma FlattenAt(out: Eight)
    ensures forall j :: 0 <= j < 16 ==> Flatten(out)[j] == if j % 2 == 0 then out[j / 2].lo else out[j / 2].hi
  {
  }

  lemma Scattered(was: seq<M128>, now: seq<M128>, at: seq<nat>, out: Eight)
    requires |was| == |now| == 64 && |at| == 8
    requires forall j :: 0 <= j < 8 ==> at[j] < 64 && now[at[j]] == out[j]
    requires forall k :: 0 <= k < 64 && k !in at ==> now[k] == was[k]
    ensures forall j :: 0 <= j < 16 ==> Doubled(at)[j] < WORDS
    ensures forall j :: 0 <= j < 16 ==> Unpack(now)[Doubled(at)[j]] == Flatten(out)[j]
    ensures forall k :: 0 <= k < WORDS && k !in Doubled(at) ==> Unpack(now)[k] == Unpack(was)[k]
  {
    DoubledAt(at);
    FlattenAt(out);
    forall j | 0 <= j < 16
      ensures Doubled(at)[j] < WORDS && Unpack(now)[Doubled(at)[j]] == Flatten(out)[j]
    {
      HalfOf(at[j / 2], j % 2);
    }
    forall k | 0 <= k < WORDS && k !in Doubled(at) ensures Unpack(now)[k] == Unpack(was)[k] {
      if k / 2 in at {
        DoubledHas(at, k);
      }
    }
  }

  lemma HalfOf(k: nat, bit: nat)
    requires bit < 2
    ensures (2 * k + bit) / 2 == k && (2 * k + bit) % 2 == bit
  {
  }

  /** The argument lists of the two macro calls in opt.c. */
  function RowRegisters(i: nat): seq<nat> {
    [8 * i, 8 * i + 1, 8 * i + 2, 8 * i + 3, 8 * i + 4, 8 * i + 5, 8 * i + 6, 8 * i + 7]
  }

  function ColumnRegisters(i: nat): seq<nat> {
    [i, 8 + i, 16 + i, 24 + i, 32 + i, 40 + i, 48 + i, 56 + i]
  }

  /** Both forms group the words in the same way. */
  lemma SameGrouping(i: nat)
    ensures Doubled(RowRegisters(i)) == RowWords(i)
    ensures Doubled(ColumnRegisters(i)) == ColumnWords(i)
  {
  }

  method StateRounds(simd: Eight -> Eight, ghost p: Permutation, state: array<M128>)
    requires state.Length == 64 && Computes(simd, p)
    modifies state
    ensures Unpack(state[..]) == Columns(p, Rows(p, old(Unpack(state[..]))))
  {
    ghost var b := Unpack(state[..]);
    var i := 0;
    while i < 8
      invariant 0 <= i <= 8
      invariant RowsDone(p, b, Unpack(state[..]), i)
    {
      ghost var before := Unpack(state[..]);
      SameGrouping(i);
      RowGathered(p, b, before, i);
      RoundAt128(simd, p, state, RowRegisters(i));
      RowStep(p, b, before, Unpack(state[..]), i);
      i := i + 1;
    }
    ghost var c := Rows(p, b);
    assert Unpack(state[..]) == c;
    i := 0;
    while i < 8
      invariant 0 <= i <= 8
      invariant ColumnsDone(p, c, Unpack(state[..]), i)
    {
      ghost var before := Unpack(state[..]);
      SameGrouping(i);
      ColumnGathered(p, c, before, i);
      RoundAt128(simd, p, state, ColumnRegisters(i));
      ColumnStep(p, c, before, Unpack(state[..]), i);
      i := i + 1;
    }
  }

  /** The registers of a block, as _mm_loadu_si128 reads them. */
  function Packed(b: Block): (s: seq<M128>)
    ensures |s| == 64
  {
    seq(64, i requires 0 <= i < 64 => M128(b[2 * i], b[2 * i + 1]))
  }

  lemma UnpackPacked(b: Block)
    ensures Unpack(Packed(b)) == b
  {
    var s := Packed(b);
    forall k | 0 <= k < WORDS ensures WordOf(s, k) == b[k] {
      assert k == 2 * (k / 2) + k % 2;
    }
  }

  function XorRegisters(x: seq<M128>, y: seq<M128>): (z: seq<M128>)
    requires |x| == |y| == 64
    ensures |z| == 64
  {
    seq(64, i requires 0 <= i < 64 => XorM128(x[i], y[i]))
  }

  lemma UnpackXor(x: seq<M128>, y: seq<M128>)
    requires |x| == |y| == 64
    ensures Unpack(XorRegisters(x, y)) == XorBlock(Unpack(x), Unpack(y))
  {
    var z := XorRegisters(x, y);
    forall k | 0 <= k < WORDS ensures WordOf(z, k) == XorWord(WordOf(x, k), WordOf(y, k)) {
    }
  }

  /** memcpy of a memory block into the carried state. */
  method LoadState(src: array<Word>, s: nat) returns (state: array<M128>)
    requires s + WORDS <= src.Length
    ensures fresh(state) && state.Length == 64
    ensures Unpack(state[..]) == BlockAt(src[..], s)
  {
    state := new M128[64](_ => M128(0, 0));
    var i := 0;
    while i < 64
      invariant 0 <= i <= 64
      invariant forall k :: 0 <= k < i ==> state[k].lo == src[s + 2 * k] && state[k].hi == src[s + 2 * k + 1]
    {
      state[i] := M128(src[s + 2 * i], src[s + 2 * i + 1]);
      i := i + 1;
    }
    forall k | 0 <= k < WORDS ensures WordOf(state[..], k) == src[s + k] {
      assert k == 2 * (k / 2) + k % 2;
    }
  }

  /** The first loop of fill_block: take the reference into the state, keep what is XORed at the end. */
  method Absorb(state: array<M128>, refA: array<Word>, reference: nat, nextA: array<Word>, next: nat,
                withXor: bool) returns (blockXY: array<M128>)
    requires state.Length == 64
    requires reference + WORDS <= refA.Length && next + WORDS <= nextA.Length
    modifies state
    ensures fresh(blockXY) && blockXY.Length == 64
    ensures var r := XorRegisters(old(state[..]), Packed(BlockAt(refA[..], reference)));
            && state[..] == r
            && blockXY[..] == if withXor then XorRegisters(r, Packed(BlockAt(nextA[..], next))) else r
  {
    hide Store, XorWord, Unpack, BlockAt;
    blockXY := new M128[64](_ => M128(0, 0));
    ghost var was := state[..];
    ghost var x, y := Packed(BlockAt(refA[..], reference)), Packed(BlockAt(nextA[..], next));
    var i := 0;
    while i < 64
      invariant 0 <= i <= 64
      invariant forall k :: 0 <= k < i ==> state[k] == XorM128(was[k], x[k])
      invariant forall k :: 0 <= k < i ==>
        blockXY[k] == if withXor then XorM128(XorM128(was[k], x[k]), y[k]) else XorM128(was[k], x[k])
      invariant forall k :: i <= k < 64 ==> state[k] == was[k]
    {
      PackedPair(refA[..], reference, i);
      PackedPair(nextA[..], next, i);
      state[i] := XorM128(state[i], M128(refA[reference + 2 * i], refA[reference + 2 * i + 1]));
      if withXor {
        blockXY[i] := XorM128(state[i], M128(nextA[next + 2 * i], nextA[next + 2 * i + 1]));
      } else {
        blockXY[i] := state[i];
      }
      i := i + 1;
    }
    Absorbed(was, x, y, state[..], blockXY[..], withXor);
  }

  lemma Absorbed(was: seq<M128>, x: seq<M128>, y: seq<M128>, now: seq<M128>, xy: seq<M128>, withXor: bool)
    requires |was| == |x| == |y| == |now| == |xy| == 64
    requires forall k :: 0 <= k < 64 ==> now[k] == XorM128(was[k], x[k])
    requires forall k :: 0 <= k < 64 ==>
      xy[k] == if withXor then XorM128(XorM128(was[k], x[k]), y[k]) else XorM128(was[k], x[k])
    ensures now == XorRegisters(was, x)
    ensures xy == if withXor then XorRegisters(now, y) else now
  {
  }

  lemma PackedPair(w: seq<Word>, at: nat, i: nat)
    requires at + WORDS <= |w| && i < 64
    ensures Packed(BlockAt(w, at))[i] == M128(w[at + 2 * i], w[at + 2 * i + 1])
  {
  }

  /** The last loop of fill_block: finish the state and store it. */
  method Emit(state: array<M128>, blockXY: array<M128>, nextA: array<Word>, next: nat)
    requires state != blockXY && state.Length == blockXY.Length == 64
    requires next + WORDS <= nextA.Length
    modifies state, nextA
    ensures state[..] == XorRegisters(old(state[..]), blockXY[..])
    ensures nextA[..] == Store(old(nextA[..]), next, Unpack(state[..]))
  {
    ghost var result := XorRegisters(state[..], blockXY[..]);
    var i := 0;
    while i < 64
      invariant 0 <= i <= 64
      invariant forall k :: 0 <= k < i ==> state[k] == result[k]
      invariant forall k :: i <= k < 64 ==> state[k] == old(state[k])
      invariant forall k :: 0 <= k < nextA.Length ==>
        nextA[k] == if next <= k < next + 2 * i then WordOf(result, k - next) else old(nextA[k])
    {
      state[i] := XorM128(state[i], blockXY[i]);
      StorePair(nextA, next, i, state[i], result);
      i := i + 1;
    }
    assert state[..] == result;
  }

  /** _mm_storeu_si128 */
  method StorePair(nextA: array<Word>, next: nat, i: nat, x: M128, ghost result: seq<M128>)
    requires next + WORDS <= nextA.Length && i < 64 && |result| == 64 && result[i] == x
    modifies nextA
    ensures forall k :: 0 <= k < nextA.Length ==>
      nextA[k] == if next + 2 * i <= k < next + 2 * i + 2 then WordOf(result, k - next) else old(nextA[k])
  {
    HalfOf(i, 0);
    HalfOf(i, 1);
    nextA[next + 2 * i], nextA[next + 2 * i + 1] := x.lo, x.hi;
  }

  /** fill_block of opt.c (128-bit form): state holds the previous block and is replaced by the new
      one. The reference and the destination may coincide or overlap in any way. */
  method FillBlockOpt(simd: Eight -> Eight, ghost p: Permutation, state: array<M128>,
                      refA: array<Word>, reference: nat, nextA: array<Word>, next: nat, withXor: bool)
    requires state.Length == 64 && Computes(simd, p)
    requires reference + WORDS <= refA.Length && next + WORDS <= nextA.Length
    modifies state, nextA
    ensures nextA[..] == Store(old(nextA[..]), next,
              FillBlock(p, old(Unpack(state[..])), old(BlockAt(refA[..], reference)),
                        old(BlockAt(nextA[..], next)), withXor))
    ensures Unpack(state[..]) == BlockAt(nextA[..], next)
  {
    ghost var prev, x, y := state[..], BlockAt(refA[..], reference), BlockAt(nextA[..], next);
    var blockXY := Absorb(state, refA, reference, nextA, next, withXor);
    UnpackPacked(x);
    UnpackXor(prev, Packed(x));
    XorBlockCommutes(Unpack(prev), x);
    if withXor {
      UnpackPacked(y);
      UnpackXor(state[..], Packed(y));
    }
    ghost var kept := blockXY[..];
    StateRounds(simd, p, state);
    ghost var mixed := state[..];
    UnpackXor(mixed, kept);
    XorBlockCommutes(Unpack(mixed), Unpack(kept));
    Emit(state, blockXY, nextA, next);
    StoreTwice(old(nextA[..]), next, Unpack(state[..]), Unpack(state[..]));
  }
}
