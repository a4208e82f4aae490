/** The equations of RFC 9106 have one solution: the tags of the code are exactly those of the standard. */
module Argon2Exact {
  import opened Arithmetic
  import opened Argon2Geometry
  import opened Argon2Index
  import opened Argon2Round
  import opened Argon2Blocks
  import opened Argon2Segment
  import opened Argon2Schedule
  import opened Argon2Hash
  import opened Argon2Standard

  // ----- The compression function is one

  lemma XorIs(a: Block, b: Block, c: Block)
    requires IsXor(a, b, c)
    ensures a == XorBlock(b, c)
  {
  }

  lemma RowsAre(perm: Permutation, r: Block, q: Block)
    requires RowsRound(perm, r, q)
    ensures q == Rows(perm, r)
  {
    forall k | 0 <= k < WORDS ensures q[k] == RowWord(perm, r, k) {
      var i := k / 16;
      assert q[16 * i..16 * i + 16] == perm(r[16 * i..16 * i + 16]);
      assert q[k] == q[16 * i..16 * i + 16][k % 16];
    }
  }

  lemma ColumnsAre(perm: Permutation, q: Block, z: Block)
    requires ColumnsRound(perm, q, z)
    ensures z == Columns(perm, q)
  {
    hide Column;
    forall k | 0 <= k < WORDS ensures z[k] == ColumnWord(perm, q, k) {
      var i := ColumnIndex(k);
      assert Column(z, i) == perm(Column(q, i));
      ColumnListed(z, i);
      ColumnListed(q, i);
      Coordinates(k);
    }
  }

  lemma CompressedIs(perm: Permutation, x: Block, y: Block, out: Block)
    requires IsCompressed(perm, x, y, out)
    ensures out == FillBlock(perm, x, y, Zero(), false)
  {
    hide IsXor, RowsRound, ColumnsRound, Rows, Columns, XorBlock;
    var r: Block, q: Block, z: Block :| Compression(perm, x, y, r, q, z, out);
    XorIs(r, x, y);
    XorBlockCommutes(x, y);
    RowsAre(perm, r, q);
    ColumnsAre(perm, q, z);
    XorIs(out, z, r);
    XorBlockCommutes(z, r);
  }

  lemma StoredIs(g: Instance, p: Position, out: Block, was: Block, now: Block, now': Block)
    requires IsStored(g, p, out, was, now) && IsStored(g, p, out, was, now')
    ensures now == now'
  {
    if !(p.pass == 0 || g.version == 0x10) {
      XorIs(now, out, was);
      XorIs(now', out, was);
    }
  }

  // ----- Bytes determine blocks

  lemma LittleEndianInjective(x: uint64, y: uint64)
    requires LittleEndian(x, 8) == LittleEndian(y, 8)
    ensures x == y
  {
    hide LittleEndian, Le32, FromLe32;
    Le64IsLittleEndian(x);
    Le64IsLittleEndian(y);
    Le32RoundTrip(x % U32_LIMIT);
    Le32RoundTrip(x / U32_LIMIT);
    Le32RoundTrip(y % U32_LIMIT);
    Le32RoundTrip(y / U32_LIMIT);
    SplitEqual(Le32(x % U32_LIMIT), Le32(x / U32_LIMIT), Le32(y % U32_LIMIT), Le32(y / U32_LIMIT));
  }

  lemma BytesDetermine(a: Block, b: Block, bytes: seq<byte>)
    requires IsBytesOf(a, bytes) && IsBytesOf(b, bytes)
    ensures a == b
  {
    hide LittleEndian;
    forall k | 0 <= k < WORDS ensures a[k] == b[k] {
      assert LittleEndian(a[k], 8) == bytes[8 * k..8 * k + 8];
      assert LittleEndian(b[k], 8) == bytes[8 * k..8 * k + 8];
      LittleEndianInjective(a[k], b[k]);
    }
  }

  // ----- One pass

  lemma PseudoRandomIs(g: Instance, perm: Permutation, p: Position, prev: Block, j: Word, j': Word)
    requires IsPseudoRandom(g, perm, p, prev, j) && IsPseudoRandom(g, perm, p, prev, j')
    ensures j == j'
  {
    hide StoreBlock, GeneratorBytes, IsCompressed, IsBytesOf, FillBlock;
    if g.ty == Argon2i || (g.ty == Argon2id && p.pass == 0 && p.slice < 2) {
      var input: Block, half: Block, address: Block :|
        && StoreBlock(input) == GeneratorBytes(g, p, p.index / 128 + 1)
        && IsCompressed(perm, Zero(), input, half) && IsCompressed(perm, Zero(), half, address)
        && j == address[p.index % 128];
      var input': Block, half': Block, address': Block :|
        && StoreBlock(input') == GeneratorBytes(g, p, p.index / 128 + 1)
        && IsCompressed(perm, Zero(), input', half') && IsCompressed(perm, Zero(), half', address')
        && j' == address'[p.index % 128];
      StoreBlockBytes(input);
      StoreBlockBytes(input');
      BytesDetermine(input, input', StoreBlock(input));
      CompressedIs(perm, Zero(), input, half);
      CompressedIs(perm, Zero(), input, half');
      CompressedIs(perm, Zero(), half, address);
      CompressedIs(perm, Zero(), half, address');
    }
  }

  lemma RefersIs(g: Instance, p: Position, j: Word, c: Cell)
    requires ValidPosition(g, p) && RefersTo(g, p, j / 0x1_0000_0000, j % 0x1_0000_0000, c)
    ensures c == Reference(g, p, j)
  {
    hide ReferenceSet, Reference, ValidPosition;
    HighLow(j);
    ReferenceOfWord(g, p, j / 0x1_0000_0000, j % 0x1_0000_0000);
  }

  /** What two memories before a pass must share: in the first pass the first two blocks of every lane. */
  ghost predicate SameStart(g: Instance, pass: nat, a: Matrix, b: Matrix)
    requires Shaped(g, a) && Shaped(g, b)
  {
    forall c :: InMatrix(g, c) && (pass > 0 || c.column < 2) ==> At(g, a, c) == At(g, b, c)
  }

  ghost predicate SameColumns(g: Instance, k: nat, a: Matrix, b: Matrix)
    requires Shaped(g, a) && Shaped(g, b)
  {
    forall c :: InMatrix(g, c) && c.column < k ==> At(g, a, c) == At(g, b, c)
  }

  lemma LatestSame(g: Instance, p: Position, m: Matrix, a: Matrix, n: Matrix, b: Matrix, j: Word)
    requires ValidPosition(g, p) && Shaped(g, m) && Shaped(g, a) && Shaped(g, n) && Shaped(g, b)
    requires SameStart(g, p.pass, m, n) && SameColumns(g, SliceStart(g, p.slice) + p.index, a, b)
    ensures Latest(g, p, m, a, Reference(g, p, j)) == Latest(g, p, n, b, Reference(g, p, j))
  {
    hide Reference, SliceStart, ValidInstance;
    var c := Reference(g, p, j);
    if p.pass == 0 {
      FirstPassReadsWritten(g, p, j);
    }
    assert At(g, a, c) == a[c.lane][c.column] && At(g, b, c) == b[c.lane][c.column];
    assert At(g, m, c) == m[c.lane][c.column] && At(g, n, c) == n[c.lane][c.column];
  }

  /** The position at which a pass builds a column. */
  function PositionAt(g: Instance, pass: nat, lane: nat, column: nat): (p: Position)
    requires ValidSegment(g, pass, lane, 0) && column < g.laneLength && (pass == 0 ==> column >= 2)
    ensures ValidPosition(g, p) && p.pass == pass && p.lane == lane
    ensures SliceStart(g, p.slice) + p.index == column
  {
    var n := g.segmentLength;
    if column < n then Position(pass, lane, 0, column)
    else if column < 2 * n then Position(pass, lane, 1, column - n)
    else if column < 3 * n then Position(pass, lane, 2, column - 2 * n)
    else Position(pass, lane, 3, column - 3 * n)
  }

  /** Two solutions that share what comes before a block share the block. */
  lemma BlockIs(g: Instance, perm: Permutation, p: Position, m: Matrix, a: Matrix, n: Matrix, b: Matrix)
    requires ValidPosition(g, p) && Shaped(g, m) && Shaped(g, a) && Shaped(g, n) && Shaped(g, b)
    requires BlockEquation(g, perm, m, a, p) && BlockEquation(g, perm, n, b, p)
    requires SameStart(g, p.pass, m, n) && SameColumns(g, SliceStart(g, p.slice) + p.index, a, b)
    ensures SliceStart(g, p.slice) + p.index < g.laneLength
    ensures a[p.lane][SliceStart(g, p.slice) + p.index] == b[p.lane][SliceStart(g, p.slice) + p.index]
  {
    hide IsPseudoRandom, RefersTo, IsCompressed, IsStored, FillBlock, Latest, SliceStart, SameColumns, SameStart;
    var column := SliceStart(g, p.slice) + p.index;
    var prev := if column == 0 then m[p.lane][g.laneLength - 1] else a[p.lane][column - 1];
    PreviousSame(g, p, m, a, n, b);
    var j: Word, c: Cell, out: Block :|
      && IsPseudoRandom(g, perm, p, prev, j) && RefersTo(g, p, j / 0x1_0000_0000, j % 0x1_0000_0000, c)
      && InMatrix(g, c) && IsCompressed(perm, prev, Latest(g, p, m, a, c), out)
      && IsStored(g, p, out, m[p.lane][column], a[p.lane][column]);
    var j': Word, c': Cell, out': Block :|
      && IsPseudoRandom(g, perm, p, prev, j') && RefersTo(g, p, j' / 0x1_0000_0000, j' % 0x1_0000_0000, c')
      && InMatrix(g, c') && IsCompressed(perm, prev, Latest(g, p, n, b, c'), out')
      && IsStored(g, p, out', n[p.lane][column], b[p.lane][column]);
    PseudoRandomIs(g, perm, p, prev, j, j');
    RefersIs(g, p, j, c);
    RefersIs(g, p, j, c');
    LatestSame(g, p, m, a, n, b, j);
    CompressedIs(perm, prev, Latest(g, p, m, a, c), out);
    CompressedIs(perm, prev, Latest(g, p, m, a, c), out');
    StoredSame(g, p, out, m[p.lane][column], n[p.lane][column], a[p.lane][column], b[p.lane][column]);
  }

  lemma PreviousSame(g: Instance, p: Position, m: Matrix, a: Matrix, n: Matrix, b: Matrix)
    requires ValidPosition(g, p) && Shaped(g, m) && Shaped(g, a) && Shaped(g, n) && Shaped(g, b)
    requires SameStart(g, p.pass, m, n) && SameColumns(g, SliceStart(g, p.slice) + p.index, a, b)
    ensures var column := SliceStart(g, p.slice) + p.index;
            && column < g.laneLength
            && (if column == 0 then m[p.lane][g.laneLength - 1] == n[p.lane][g.laneLength - 1]
                else a[p.lane][column - 1] == b[p.lane][column - 1])
            && (p.pass > 0 ==> m[p.lane][column] == n[p.lane][column])
  {
    hide Times;
    ColumnsInLane(g, p);
    var column := SliceStart(g, p.slice) + p.index;
    if column == 0 {
      assert At(g, m, Cell(p.lane, g.laneLength - 1)) == At(g, n, Cell(p.lane, g.laneLength - 1));
    } else {
      assert At(g, a, Cell(p.lane, column - 1)) == At(g, b, Cell(p.lane, column - 1));
    }
    if p.pass > 0 {
      assert At(g, m, Cell(p.lane, column)) == At(g, n, Cell(p.lane, column));
    }
  }

  lemma StoredSame(g: Instance, p: Position, out: Block, was: Block, was': Block, now: Block, now': Block)
    requires IsStored(g, p, out, was, now) && IsStored(g, p, out, was', now') && (p.pass > 0 ==> was == was')
    ensures now == now'
  {
    hide IsXor;
    StoredIs(g, p, out, was, now, if p.pass > 0 then now' else now);
  }

  lemma {:induction false} ColumnsIs(g: Instance, perm: Permutation, pass: nat, k: nat, m: Matrix, a: Matrix, n: Matrix,
                                     b: Matrix)
    requires ValidInstance(g) && pass < g.passes && k <= g.laneLength
    requires Shaped(g, m) && Shaped(g, a) && Shaped(g, n) && Shaped(g, b)
    requires PassEquations(g, perm, m, a, pass) && PassEquations(g, perm, n, b, pass) && SameStart(g, pass, m, n)
    ensures SameColumns(g, k, a, b)
  {
    hide BlockEquation, SameStart, ValidPosition;
    if k > 0 {
      ColumnsIs(g, perm, pass, k - 1, m, a, n, b);
      forall c | InMatrix(g, c) && c.column < k ensures At(g, a, c) == At(g, b, c) {
        if c.column == k - 1 {
          if pass == 0 && c.column < 2 {
            GivenBlock(g, c, m, a, n, b);
          } else {
            var p := PositionAt(g, pass, c.lane, c.column);
            BlockIs(g, perm, p, m, a, n, b);
          }
        }
      }
    }
  }

  lemma GivenBlock(g: Instance, c: Cell, m: Matrix, a: Matrix, n: Matrix, b: Matrix)
    requires Shaped(g, m) && Shaped(g, a) && Shaped(g, n) && Shaped(g, b)
    requires ValidInstance(g) && InMatrix(g, c) && c.column < 2 && SameStart(g, 0, m, n)
    requires a[c.lane][..2] == m[c.lane][..2] && b[c.lane][..2] == n[c.lane][..2]
    ensures At(g, a, c) == At(g, b, c)
  {
    hide Times;
    assert At(g, m, c) == At(g, n, c);
    assert a[c.lane][..2][c.column] == m[c.lane][..2][c.column];
    assert b[c.lane][..2][c.column] == n[c.lane][..2][c.column];
  }

  /** The equations of a pass determine the memory after it. */
  lemma PassDetermined(g: Instance, perm: Permutation, pass: nat, m: Matrix, a: Matrix, n: Matrix, b: Matrix)
    requires ValidInstance(g) && pass < g.passes
    requires Shaped(g, m) && Shaped(g, a) && Shaped(g, n) && Shaped(g, b)
    requires PassEquations(g, perm, m, a, pass) && PassEquations(g, perm, n, b, pass) && SameStart(g, pass, m, n)
    ensures a == b
  {
    hide PassEquations, SameStart, At, ValidInstance;
    ColumnsIs(g, perm, pass, g.laneLength, m, a, n, b);
    SameCells(g, a, b);
  }

  // ----- From the request to the tag

  lemma StartsSame(h: Primitives, h0: seq<byte>, g: Instance, m: Matrix, n: Matrix)
    requires ValidInstance(g) && Shaped(g, m) && Shaped(g, n) && StartsWith(h, h0, g, m) && StartsWith(h, h0, g, n)
    ensures SameStart(g, 0, m, n)
  {
    hide IsBytesOf, LittleEndian, Times;
    forall c | InMatrix(g, c) && c.column < 2 ensures At(g, m, c) == At(g, n, c) {
      BytesDetermine(m[c.lane][c.column], n[c.lane][c.column],
          h.hLong(h0 + LittleEndian(c.column, 4) + LittleEndian(c.lane, 4), 1024));
    }
  }

  lemma {:induction false} PassesSame(g: Instance, perm: Permutation, ms: seq<Matrix>, ns: seq<Matrix>, r: nat)
    requires ValidInstance(g) && |ms| == |ns| == g.passes + 1 && 1 <= r <= g.passes
    requires forall k :: 0 <= k <= g.passes ==> Shaped(g, ms[k]) && Shaped(g, ns[k])
    requires forall k :: 0 <= k < g.passes ==> PassEquations(g, perm, ms[k], ms[k + 1], k)
    requires forall k :: 0 <= k < g.passes ==> PassEquations(g, perm, ns[k], ns[k + 1], k)
    requires SameStart(g, 0, ms[0], ns[0])
    ensures ms[r] == ns[r]
  {
    hide PassEquations, Shaped, At, ValidInstance;
    if r > 1 {
      PassesSame(g, perm, ms, ns, r - 1);
    }
    PassDetermined(g, perm, r - 1, ms[r - 1], ms[r], ns[r - 1], ns[r]);
  }

  lemma {:induction false} XorsSame(g: Instance, m: Matrix, c: seq<Block>, d: seq<Block>, l: nat)
    requires ValidInstance(g) && Shaped(g, m) && XorsOfLast(g, m, c) && XorsOfLast(g, m, d) && l < g.lanes
    ensures c[l] == d[l]
  {
    hide IsXor, Times;
    if l > 0 {
      XorsSame(g, m, c, d, l - 1);
      XorIs(c[l], c[l - 1], m[l][g.laneLength - 1]);
      XorIs(d[l], d[l - 1], m[l][g.laneLength - 1]);
    }
  }

  lemma InstanceDetermined(c: Context, ty: ArgonType, g: Instance, g': Instance)
    requires IsInstance(c, ty, g) && IsInstance(c, ty, g')
    ensures g == g'
  {
    var n := g.lanes;
    assert n * g.laneLength == n * g'.laneLength;
    SameFactor(n, g.laneLength, g'.laneLength);
  }

  lemma SameFactor(n: nat, a: nat, b: nat)
    requires n > 0 && n * a == n * b
    ensures a == b
  {
    DivModUnique(n * a, n, a, 0);
    DivModUnique(n * b, n, b, 0);
  }

  lemma BytesOfSame(b: Block, x: seq<byte>, y: seq<byte>)
    requires IsBytesOf(b, x) && IsBytesOf(b, y)
    ensures x == y
  {
    hide LittleEndian;
    forall k | 0 <= k < 1024 ensures x[k] == y[k] {
      var w := k / 8;
      assert x[8 * w..8 * w + 8] == LittleEndian(b[w], 8) == y[8 * w..8 * w + 8];
      assert x[8 * w..8 * w + 8][k % 8] == x[k] && y[8 * w..8 * w + 8][k % 8] == y[k];
    }
  }

  lemma SolutionUnique(h: Primitives, c: Context, ty: ArgonType, g: Instance, ms: seq<Matrix>, xs: seq<Block>,
                       x: seq<byte>, tag: seq<byte>, ns: seq<Matrix>, ys: seq<Block>, y: seq<byte>, tag': seq<byte>)
    requires IsInstance(c, ty, g)
    requires Solves(h, c, ty, g, ms, xs, x, tag) && Solves(h, c, ty, g, ns, ys, y, tag')
    ensures tag == tag'
  {
    hide PassEquations, StartsWith, PreHash, IsBytesOf, XorsOfLast, Times, SameStart;
    StartsSame(h, PreHash(h, c, ty), g, ms[0], ns[0]);
    PassesSame(g, h.perm, ms, ns, g.passes);
    XorsLength(g, ms[g.passes], xs, ys);
    BytesOfSame(xs[g.lanes - 1], x, y);
  }

  lemma XorsLength(g: Instance, m: Matrix, c: seq<Block>, d: seq<Block>)
    requires ValidInstance(g) && Shaped(g, m) && XorsOfLast(g, m, c) && XorsOfLast(g, m, d)
    ensures |c| == |d| == g.lanes && c[g.lanes - 1] == d[g.lanes - 1]
  {
    XorsSame(g, m, c, d, g.lanes - 1);
  }

  /** The tags the code may produce are exactly those of section 3.2 of RFC 9106, and there is one. */
  lemma TagsExactly(h: Primitives, c: Context, ty: ArgonType, tag: seq<byte>)
    requires ValidPrimitives(h) && ValidInputs(c)
    ensures Produces(h, c, ty, tag)
            <==> exists g, ms, xors, last :: IsInstance(c, ty, g) && Solves(h, c, ty, g, ms, xors, last, tag)
  {
    hide Produces, Solves, IsInstance, ValidInputs, ValidPrimitives;
    if Produces(h, c, ty, tag) {
      TagSolvesStandard(h, c, ty, tag);
    }
    if exists g, ms, xors, last :: IsInstance(c, ty, g) && Solves(h, c, ty, g, ms, xors, last, tag) {
      var g, ms, xors, last :| IsInstance(c, ty, g) && Solves(h, c, ty, g, ms, xors, last, tag);
      var tag' := SomeTag(h, c, ty);
      TagSolvesStandard(h, c, ty, tag');
      var g', ns, ys, y :| IsInstance(c, ty, g') && Solves(h, c, ty, g', ns, ys, y, tag');
      InstanceDetermined(c, ty, g, g');
      SolutionUnique(h, c, ty, g, ms, xors, last, tag, ns, ys, y, tag');
    }
  }
}
