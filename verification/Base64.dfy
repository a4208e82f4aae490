/** Unpadded Base64 as encoding.c writes and reads it: branch-free character maps and a 32-bit
    accumulator that is never masked. */
module Base64 {
  import opened Arithmetic
  import opened BitStrings
  import opened Wrappers

  // ----- Character maps (constant-time macros)

  /** EQ, GT, GE, LT and LE of encoding.c: 0xFF for true and 0 for false, for operands 0..255. */
  function EqMask(x: nat, y: nat): nat {
    BitXor(BitAnd(255, U32(0 - BitXor(x, y)) / 256), 255)
  }

  function GtMask(x: nat, y: nat): nat {
    BitAnd(255, U32(y - x) / 256)
  }

  function GeMask(x: nat, y: nat): nat {
    BitXor(GtMask(y, x), 255)
  }

  function Mask(b: bool): nat {
    if b then 255 else 0
  }

  lemma MasksAreComparisons(x: nat, y: nat)
    requires x < 256 && y < 256
    ensures EqMask(x, y) == Mask(x == y)
    ensures GtMask(x, y) == Mask(x > y)
    ensures GeMask(x, y) == Mask(x >= y)
  {
    hide BitAnd, BitXor, EqMask;
    LowByte(x, y);
    LowByte(y, x);
    XorByte();
    EqMaskExact(x, y);
  }

  lemma EqMaskExact(x: nat, y: nat)
    requires x < 256 && y < 256
    ensures EqMask(x, y) == Mask(x == y)
  {
    hide BitAnd, BitXor;
    Pow2Values();
    BitXorBound(x, y, 8);
    BitXorZero(x, y);
    XorByte();
    LowByte(BitXor(x, y), 0);
  }

  lemma XorByte()
    ensures BitXor(0, 255) == 255 && BitXor(255, 255) == 0
  {
    BitXorZero(255, 255);
    BitXorWithZero(255);
  }

  lemma {:induction false} BitXorWithZero(a: nat)
    ensures BitXor(0, a) == a
  {
    if a != 0 {
      BitXorWithZero(a / 2);
    }
  }

  lemma LowByte(x: nat, y: nat)
    requires x < 256 && y < 256
    ensures BitAnd(255, U32(y - x) / 256) == Mask(x > y)
  {
    hide BitAnd;
    Pow2Values();
    BitAndMask(8, U32(y - x) / 256);
    assert Pow2(8) - 1 == 255;
    assert U32(y - x) / 256 == if x > y then 0xFF_FFFF else 0;
  }

  /** b64_byte_to_char */
  function ByteToChar(x: nat): nat {
    BitOr(BitOr(BitOr(BitOr(
      BitAnd(GtMask(26, x), x + 65),
      BitAnd(BitAnd(GeMask(x, 26), GtMask(52, x)), x + 71)),
      BitAnd(BitAnd(GeMask(x, 52), GtMask(62, x)), U32(x - 4))),
      BitAnd(EqMask(x, 62), 43)),
      BitAnd(EqMask(x, 63), 47))
  }

  /** b64_char_to_byte */
  function CharToByte(c: nat): nat {
    var x := BitOr(BitOr(BitOr(BitOr(
               BitAnd(BitAnd(GeMask(c, 65), GeMask(90, c)), U32(c - 65)),
               BitAnd(BitAnd(GeMask(c, 97), GeMask(122, c)), U32(c - 71))),
               BitAnd(BitAnd(GeMask(c, 48), GeMask(57, c)), U32(c + 4))),
               BitAnd(EqMask(c, 43), 62)),
               BitAnd(EqMask(c, 47), 63));
    BitOr(x, BitAnd(EqMask(x, 0), BitXor(EqMask(c, 65), 255)))
  }

  /** The alphabet of table 1 in section 4 of RFC 4648, by character code. */
  function Alphabet(x: nat): nat {
    if x < 26 then x + 65 else if x < 52 then x + 71 else if x < 62 then x - 4
    else if x == 62 then 43 else 47
  }

  /** Position of a character code in the alphabet, 255 outside it. */
  function Position(c: nat): nat {
    if 65 <= c <= 90 then c - 65 else if 97 <= c <= 122 then c - 71
    else if 48 <= c <= 57 then c + 4 else if c == 43 then 62 else if c == 47 then 63 else 255
  }

  lemma Select(b: bool, v: nat)
    requires b ==> v < 256
    ensures BitAnd(Mask(b), v) == if b then v else 0
  {
    hide BitAnd;
    Pow2Values();
    BitAndMask(8, v);
    BitAndMask(0, v);
  }

  lemma Both(b: bool, c: bool)
    ensures BitAnd(Mask(b), Mask(c)) == Mask(b && c)
  {
    hide BitAnd;
    Select(b, Mask(c));
  }

  lemma ByteToCharExact(x: nat)
    requires x < 64
    ensures ByteToChar(x) == Alphabet(x)
  {
    hide BitAnd, BitOr, EqMask, GtMask, GeMask;
    MasksAreComparisons(26, x);
    MasksAreComparisons(x, 26);
    MasksAreComparisons(52, x);
    MasksAreComparisons(x, 52);
    MasksAreComparisons(62, x);
    MasksAreComparisons(x, 62);
    MasksAreComparisons(x, 63);
    Select(26 > x, x + 65);
    Both(x >= 26, 52 > x);
    Select(x >= 26 && 52 > x, x + 71);
    Both(x >= 52, 62 > x);
    Select(x >= 52 && 62 > x, U32(x - 4));
    Select(x == 62, 43);
    Select(x == 63, 47);
    OrOfFive(if x < 26 then x + 65 else 0, if 26 <= x < 52 then x + 71 else 0,
             if 52 <= x < 62 then x - 4 else 0, if x == 62 then 43 else 0, if x == 63 then 47 else 0);
  }

  /** At most one alternative is selected. */
  lemma OrOfFive(a: nat, b: nat, c: nat, d: nat, e: nat)
    requires (b == 0 && c == 0 && d == 0 && e == 0) || (a == 0 && c == 0 && d == 0 && e == 0)
          || (a == 0 && b == 0 && d == 0 && e == 0) || (a == 0 && b == 0 && c == 0 && e == 0)
          || (a == 0 && b == 0 && c == 0 && d == 0)
    ensures BitOr(BitOr(BitOr(BitOr(a, b), c), d), e) == a + b + c + d + e
  {
    hide BitOr;
    BitOrZero(0);
    BitOrZero(a);
    BitOrZero(b);
    BitOrZero(c);
    BitOrZero(d);
    BitOrZero(e);
  }

  lemma CharToByteExact(c: nat)
    requires c < 256
    ensures CharToByte(c) == Position(c)
  {
    hide BitAnd, BitOr, BitXor, EqMask, GtMask, GeMask;
    MasksAreComparisons(c, 65);
    MasksAreComparisons(90, c);
    MasksAreComparisons(c, 97);
    MasksAreComparisons(122, c);
    MasksAreComparisons(c, 48);
    MasksAreComparisons(57, c);
    MasksAreComparisons(c, 43);
    MasksAreComparisons(c, 47);
    Both(c >= 65, 90 >= c);
    Select(c >= 65 && 90 >= c, U32(c - 65));
    Both(c >= 97, 122 >= c);
    Select(c >= 97 && 122 >= c, U32(c - 71));
    Both(c >= 48, 57 >= c);
    Select(c >= 48 && 57 >= c, U32(c + 4));
    Select(c == 43, 62);
    Select(c == 47, 63);
    var x := if 65 <= c <= 90 then c - 65 else if 97 <= c <= 122 then c - 71
             else if 48 <= c <= 57 then c + 4 else if c == 43 then 62 else if c == 47 then 63 else 0;
    OrOfFive(if 65 <= c <= 90 then c - 65 else 0, if 97 <= c <= 122 then c - 71 else 0,
             if 48 <= c <= 57 then c + 4 else 0, if c == 43 then 62 else 0, if c == 47 then 63 else 0);
    MasksAreComparisons(x, 0);
    XorByte();
    Select(x == 0, Mask(c != 65));
    BitOrZero(x);
    BitOrZero(255);
  }

  lemma AlphabetBijection(x: nat, c: nat)
    ensures x < 64 ==> Position(Alphabet(x)) == x && Alphabet(x) < 128 && Alphabet(x) != 0
    ensures Position(c) < 64 <==> Position(c) != 255
    ensures Position(c) != 255 ==> Alphabet(Position(c)) == c
  {
  }

  // ----- Reference definitions (section 4 of RFC 4648, without padding)

  /** b64len: the number of characters for n bytes. */
  function B64Len(n: nat): nat {
    4 * (n / 3) + if n % 3 == 2 then 3 else if n % 3 == 1 then 2 else 0
  }

  lemma B64LenBits(n: nat)
    ensures 0 <= 6 * B64Len(n) - 8 * n <= 4
    ensures Times(B64Len(n), 6) == 6 * B64Len(n) && Times(n, 8) == 8 * n
  {
    TimesIsProduct(B64Len(n), 6);
    TimesIsProduct(n, 8);
  }

  /** Zero bits that complete the last character. */
  function Padding(n: nat): nat {
    B64LenBits(n);
    6 * B64Len(n) - 8 * n
  }

  /** The bits of the bytes, padded with zeros to a whole number of 6-bit groups. */
  function Sextets(b: seq<byte>): (x: seq<nat>)
    ensures |x| == B64Len(|b|)
  {
    B64LenBits(|b|);
    Cut(Join(b, 8) + Zeros(Padding(|b|)), 6, B64Len(|b|))
  }

  function Chars(x: seq<nat>): (t: string)
    ensures |t| == |x|
  {
    seq(|x|, i requires 0 <= i < |x| => Alphabet(x[i]) as char)
  }

  function Encode(b: seq<byte>): string {
    Chars(Sextets(b))
  }

  predicate IsBase64(c: char) {
    Position(c as int) != 255
  }

  predicate AllBase64(t: string) {
    forall i :: 0 <= i < |t| ==> IsBase64(t[i])
  }

  function SextetsOf(t: string): (x: seq<nat>)
    ensures |x| == |t|
  {
    seq(|t|, i requires 0 <= i < |t| => Position(t[i] as int))
  }

  /** The bytes of a Base64 text: at most four bits may be left over, all of them zero. */
  function Decode(t: string): Option<seq<byte>> {
    var n := 6 * |t| / 8;
    TimesIsProduct(|t|, 6);
    TimesIsProduct(n, 8);
    Pow2Values();
    var bits := Join(SextetsOf(t), 6);
    if 6 * |t| - 8 * n > 4 || bits[8 * n..] != Zeros(6 * |t| - 8 * n) then None
    else
      JoinOfCut(bits[..8 * n], 8, n);
      Some(Cut(bits[..8 * n], 8, n))
  }

  lemma SextetsJoin(b: seq<byte>)
    ensures Join(Sextets(b), 6) == Join(b, 8) + Zeros(Padding(|b|))
    ensures Below(Sextets(b), 64)
  {
    Pow2Values();
    B64LenBits(|b|);
    JoinOfCut(Join(b, 8) + Zeros(Padding(|b|)), 6, B64Len(|b|));
  }

  /** Groups below 64 with the right bits are the sextets. */
  lemma SextetsUnique(b: seq<byte>, x: seq<nat>)
    requires Below(x, 64) && |x| == B64Len(|b|)
    requires Join(x, 6) == Join(b, 8) + Zeros(Padding(|b|))
    ensures x == Sextets(b)
  {
    Pow2Values();
    SextetsJoin(b);
    JoinInjective(x, Sextets(b), 6);
  }

  lemma CharsRoundTrip(x: seq<nat>)
    requires Below(x, 64)
    ensures AllBase64(Chars(x)) && SextetsOf(Chars(x)) == x
  {
    forall i | 0 <= i < |x| ensures Position(Chars(x)[i] as int) == x[i] {
      AlphabetBijection(x[i], 0);
    }
  }

  lemma TextRoundTrip(t: string)
    requires AllBase64(t)
    ensures Below(SextetsOf(t), 64) && Chars(SextetsOf(t)) == t
  {
    forall i | 0 <= i < |t| ensures SextetsOf(t)[i] < 64 && Chars(SextetsOf(t))[i] == t[i] {
      AlphabetBijection(0, t[i] as int);
    }
  }

  /** Decoding an encoding gives the bytes back; the text has b64len characters. */
  lemma DecodeEncode(b: seq<byte>)
    ensures AllBase64(Encode(b)) && |Encode(b)| == B64Len(|b|)
    ensures Decode(Encode(b)) == Some(b)
  {
    hide Low, Value, Pow2, Join, Cut, Sextets, Times;
    var x, n := Sextets(b), |b|;
    SextetsJoin(b);
    CharsRoundTrip(x);
    B64LenBits(n);
    LengthForth(n);
    PrefixOf(Join(b, 8), Zeros(Padding(n)));
    BytesOfBits(b);
  }

  lemma LengthForth(n: nat)
    ensures 6 * B64Len(n) / 8 == n
  {
  }

  lemma PrefixOf(x: Bits, y: Bits)
    ensures (x + y)[..|x|] == x && (x + y)[|x|..] == y
  {
  }

  lemma BytesOfBits(b: seq<byte>)
    ensures Cut(Join(b, 8), 8, |b|) == b
  {
    hide Low, Value, Pow2;
    JoinOfCut(Join(b, 8), 8, |b|);
    ByteBound(b);
    JoinInjective(Cut(Join(b, 8), 8, |b|), b, 8);
  }

  lemma ByteBound(b: seq<byte>)
    ensures Below(b, Pow2(8))
  {
    Pow2Values();
  }

  /** Every accepted text is the encoding of its decoding. */
  lemma EncodeDecode(t: string)
    requires AllBase64(t) && Decode(t).Some?
    ensures Encode(Decode(t).value) == t
    ensures |Decode(t).value| == 6 * |t| / 8
  {
    hide Low, Value, Pow2;
    var b, n := Decode(t).value, 6 * |t| / 8;
    TimesIsProduct(|t|, 6);
    TimesIsProduct(n, 8);
    var bits := Join(SextetsOf(t), 6);
    JoinOfCut(bits[..8 * n], 8, n);
    assert B64Len(n) == |t| by {
      LengthBack(|t|);
    }
    TextRoundTrip(t);
    assert bits == bits[..8 * n] + bits[8 * n..];
    SextetsUnique(b, SextetsOf(t));
  }

  lemma LengthBack(k: nat)
    requires 6 * k - 8 * (6 * k / 8) <= 4
    ensures B64Len(6 * k / 8) == k
  {
    var q, r := k / 4, k % 4;
    assert k == 4 * q + r;
    assert 6 * k / 8 == 3 * q + 6 * r / 8;
    assert r == 0 || r == 1 || r == 2 || r == 3;
  }

  // ----- The accumulator

  lemma LowWraps(v: nat, n: nat)
    requires n <= 32
    ensures Low(U32(v), n) == Low(v, n)
  {
    hide Low;
    Pow2Values();
    LowOfRemainder(v, 32, n);
  }

  lemma WrapTwice(v: nat, g: nat)
    ensures U32(U32(v) + g) == U32(v + g)
  {
  }

  /** Shifting in a group keeps the low bits exact although the accumulator wraps. */
  lemma FeedGroup(acc: uint32, len: nat, g: nat, n: nat)
    requires n == 6 || n == 8
    requires len < 8 && g < Pow2(n)
    ensures Low(U32(U32(acc * Pow2(n)) + g), len + n) == Low(acc, len) + Low(g, n)
  {
    hide Low, Pow2, U32;
    WrapTwice(acc * Pow2(n), g);
    LowWraps(acc * Pow2(n) + g, len + n);
    LowAppend(acc, g, len, n);
  }

  /** Taking a group off the top leaves the rest of the bits in place. */
  lemma TakeGroup(acc: uint32, len: nat, n: nat)
    requires n == 6 || n == 8
    ensures BitAnd(Pow2(n) - 1, Shr(acc, len)) < Pow2(n)
    ensures Low(acc, len + n) == Low(BitAnd(Pow2(n) - 1, Shr(acc, len)), n) + Low(acc, len)
  {
    hide Low, Shr, BitAnd;
    BitAndMask(n, Shr(acc, len));
    LowSplit(acc, n, len);
    LowOfRemainder(Shr(acc, len), n, n);
  }

  lemma FlushGroup(acc: uint32, len: nat)
    requires len < 6
    ensures BitAnd(63, U32(acc * Pow2(6 - len))) < 64
    ensures Low(BitAnd(63, U32(acc * Pow2(6 - len))), 6) == Low(acc, len) + Zeros(6 - len)
  {
    hide Low, BitAnd, Pow2, U32;
    var v := acc * Pow2(6 - len);
    BitAndMask(6, U32(v));
    Pow2Values();
    LowOfRemainder(U32(v), 6, 6);
    LowWraps(v, 6);
    LowAppend(acc, 0, len, 6 - len);
    LowZero(6 - len);
  }

  /** What to_base64 has done after consuming i bytes: the characters written so far and the low bits
      of the accumulator are the bits of those bytes. */
  ghost predicate Encoding(src: seq<byte>, i: nat, out: seq<nat>, acc: uint32, len: nat) {
    && i <= |src| && Below(out, 64)
    && Join(out, 6) + Low(acc, len) == Join(src[..i], 8)
    && 6 * |out| + len == 8 * i
  }

  lemma EncodingFeeds(src: seq<byte>, i: nat, out: seq<nat>, acc: uint32, len: nat)
    requires Encoding(src, i, out, acc, len) && i < |src| && len < 6
    ensures Encoding(src, i + 1, out, U32(U32(acc * 256) + src[i]), len + 8)
  {
    hide Low, Pow2, U32, BitAnd, Shr, Times;
    Pow2Values();
    FeedGroup(acc, len, src[i], 8);
    assert src[..i + 1] == src[..i] + [src[i]];
    JoinSnoc(src[..i], src[i], 8);
  }

  lemma EncodingEmits(src: seq<byte>, i: nat, out: seq<nat>, acc: uint32, len: nat)
    requires Encoding(src, i, out, acc, len + 6)
    ensures Encoding(src, i, out + [BitAnd(63, Shr(acc, len))], acc, len)
  {
    hide Low, Pow2, U32, BitAnd, Shr, Times;
    Pow2Values();
    TakeGroup(acc, len, 6);
    JoinSnoc(out, BitAnd(63, Shr(acc, len)), 6);
  }

  lemma EncodingEnds(src: seq<byte>, out: seq<nat>, acc: uint32, len: nat)
    requires Encoding(src, |src|, out, acc, len) && len < 6
    ensures var all := if len > 0 then out + [BitAnd(63, U32(acc * Pow2(6 - len)))] else out;
            all == Sextets(src)
  {
    hide Low, BitAnd, Shr, Cut;
    var all := if len > 0 then out + [BitAnd(63, U32(acc * Pow2(6 - len)))] else out;
    assert src[..|src|] == src;
    FlushGroup(acc, len);
    if len > 0 {
      JoinSnoc(out, BitAnd(63, U32(acc * Pow2(6 - len))), 6);
    }
    CountEnds(|src|, |out|, len);
    assert Join(all, 6) == Join(src, 8) + Zeros(Padding(|src|));
    SextetsUnique(src, all);
  }

  lemma CountEnds(n: nat, m: nat, len: nat)
    requires 6 * m + len == 8 * n && len < 6
    ensures (if len > 0 then m + 1 else m) == B64Len(n)
    ensures Padding(n) == if len > 0 then 6 - len else 0
  {
  }

  lemma CountWithin(n: nat, i: nat, m: nat, len: nat)
    requires 6 * m + len == 8 * i && i <= n && (len > 0 || i < n)
    ensures m < B64Len(n)
  {
  }

  /** The buffer with the characters of out stored from at, everything else as it was. */
  predicate Stored(was: seq<char>, now: seq<char>, at: nat, out: seq<nat>) {
    && |now| == |was| && at + |out| <= |was|
    && (forall k :: 0 <= k < |out| ==> now[at + k] == Alphabet(out[k]) as char)
    && forall k :: 0 <= k < |was| && !(at <= k < at + |out|) ==> now[k] == was[k]
  }

  /** *dst++ = b64_byte_to_char(v) */
  method PutChar(dst: array<char>, at: nat, v: nat, ghost was: seq<char>, ghost out: seq<nat>, d: nat)
      returns (next: nat)
    requires Stored(was, dst[..], at, out) && d == at + |out| < dst.Length && v < 64
    modifies dst
    ensures Stored(was, dst[..], at, out + [v]) && next == d + 1
  {
    hide ByteToChar, Alphabet;
    ByteToCharExact(v);
    AlphabetBijection(v, 0);
    dst[d] := ByteToChar(v) as char;
    next := d + 1;
  }

  /** The inner loop: write characters while six bits are held. */
  method Drain(dst: array<char>, at: nat, src: seq<byte>, i: nat, acc: uint32, held: nat, start: nat,
               ghost was: seq<char>, ghost out0: seq<nat>)
    returns (accLen: nat, d: nat, ghost out: seq<nat>)
    requires Encoding(src, i, out0, acc, held) && held < 14
    requires Stored(was, dst[..], at, out0) && start == at + |out0| && at + B64Len(|src|) <= dst.Length
    modifies dst
    ensures Encoding(src, i, out, acc, accLen) && accLen < 6
    ensures Stored(was, dst[..], at, out) && d == at + |out|
  {
    hide Encoding, BitAnd, Shr, Stored, B64Len;
    accLen, d, out := held, start, out0;
    while accLen >= 6
      invariant Encoding(src, i, out, acc, accLen)
      invariant Stored(was, dst[..], at, out) && d == at + |out|
    {
      RoomLeft(src, i, out, acc, accLen);
      accLen := accLen - 6;
      EncodingEmits(src, i, out, acc, accLen);
      var v := BitAnd(63, Shr(acc, accLen));
      LastBelow(src, i, out, v, acc, accLen);
      d := PutChar(dst, at, v, was, out, d);
      out := out + [v];
    }
  }

  /** to_base64: refuses a buffer without room for the text and its terminator, else writes both. */
  method ToBase64(dst: array<char>, at: nat, dstLen: nat, src: seq<byte>) returns (olen: Option<nat>)
    requires at + dstLen <= dst.Length
    modifies dst
    ensures olen == if dstLen <= B64Len(|src|) then None else Some(B64Len(|src|))
    ensures olen == None ==> dst[..] == old(dst[..])
    ensures olen.Some? ==> dst[..] == old(dst[..at]) + Encode(src) + ['\0'] + old(dst[at + B64Len(|src|) + 1..])
  {
    hide Encoding, BitAnd, Shr, Sextets, Stored, B64Len;
    var n := B64Len(|src|);
    if dstLen <= n {
      return None;
    }
    ghost var was := dst[..];
    var acc: uint32, accLen, i, d := 0, 0, 0, at;
    ghost var out: seq<nat> := [];
    EncodingStarts(src);
    NothingStored(was, at);
    while i < |src|
      invariant i <= |src| && accLen < 6 && d == at + |out|
      invariant Encoding(src, i, out, acc, accLen)
      invariant Stored(was, dst[..], at, out)
    {
      EncodingFeeds(src, i, out, acc, accLen);
      acc := U32(U32(acc * 256) + src[i]);
      i := i + 1;
      accLen, d, out := Drain(dst, at, src, i, acc, accLen + 8, d, was, out);
    }
    EncodingEnds(src, out, acc, accLen);
    if accLen > 0 {
      FlushGroup(acc, accLen);
      RoomLeft(src, i, out, acc, accLen);
      var v := BitAnd(63, U32(acc * Pow2(6 - accLen)));
      d := PutChar(dst, at, v, was, out, d);
      out := out + [v];
    }
    ghost var now := dst[..];
    dst[d] := '\0';
    Terminated(was, now, dst[..], at, src);
    return Some(n);
  }

  lemma NothingStored(was: seq<char>, at: nat)
    requires at <= |was|
    ensures Stored(was, was, at, [])
  {
  }

  lemma Terminated(was: seq<char>, now: seq<char>, end: seq<char>, at: nat, src: seq<byte>)
    requires Stored(was, now, at, Sextets(src)) && at + B64Len(|src|) < |was|
    requires end == now[at + B64Len(|src|) := '\0']
    ensures end == was[..at] + Encode(src) + ['\0'] + was[at + B64Len(|src|) + 1..]
  {
    hide Sextets, B64Len;
  }

  lemma EncodingStarts(src: seq<byte>)
    ensures Encoding(src, 0, [], 0, 0)
  {
  }

  lemma RoomLeft(src: seq<byte>, i: nat, out: seq<nat>, acc: uint32, len: nat)
    requires Encoding(src, i, out, acc, len) && len > 0
    ensures |out| < B64Len(|src|)
  {
    CountWithin(|src|, i, |out|, len);
  }

  lemma LastBelow(src: seq<byte>, i: nat, out: seq<nat>, v: nat, acc: uint32, len: nat)
    requires Encoding(src, i, out + [v], acc, len)
    ensures v < 64
  {
    assert (out + [v])[|out|] == v;
  }

  // ----- Reading

  /** The content of a C string: codes 1..255, the terminator behind the last character. */
  predicate CString(s: string) {
    forall i :: 0 <= i < |s| ==> 0 < s[i] as int < 256
  }

  /** The character a pointer at pos reads, the terminator at the end. */
  function CharAt(s: string, pos: nat): nat
    requires pos <= |s|
  {
    if pos < |s| then s[pos] as int else 0
  }

  /** End of the run of Base64 characters from pos. */
  function RunEnd(s: string, pos: nat): (e: nat)
    requires pos <= |s|
    ensures pos <= e <= |s|
    ensures AllBase64(s[pos..e])
    ensures e < |s| ==> !IsBase64(s[e])
    decreases |s| - pos
  {
    if pos < |s| && IsBase64(s[pos]) then
      var e := RunEnd(s, pos + 1);
      assert s[pos..e] == [s[pos]] + s[pos + 1..e];
      e
    else pos
  }

  /** What from_base64 has done at pos: bytes written and low bits are the bits of the characters read. */
  ghost predicate Decoding(t: string, out: seq<byte>, acc: uint32, len: nat) {
    && Join(out, 8) + Low(acc, len) == Join(SextetsOf(t), 6)
    && 8 * |out| + len == 6 * |t|
  }

  lemma SextetsOfSnoc(t: string, c: char)
    ensures SextetsOf(t + [c]) == SextetsOf(t) + [Position(c as int)]
  {
    hide Position;
  }

  lemma DecodingFeeds(t: string, c: char, out: seq<byte>, acc: uint32, len: nat)
    requires Decoding(t, out, acc, len) && len < 8 && IsBase64(c)
    ensures Decoding(t + [c], out, U32(U32(acc * 64) + Position(c as int)), len + 6)
  {
    hide Low, Pow2, U32, BitAnd, Shr, Times, SextetsOf, Position;
    Pow2Values();
    AlphabetBijection(0, c as int);
    FeedGroup(acc, len, Position(c as int), 6);
    SextetsOfSnoc(t, c);
    JoinSnoc(SextetsOf(t), Position(c as int), 6);
  }

  lemma DecodingEmits(t: string, out: seq<byte>, acc: uint32, len: nat)
    requires Decoding(t, out, acc, len + 8)
    ensures BitAnd(255, Shr(acc, len)) < 256
    ensures Decoding(t, out + [BitAnd(255, Shr(acc, len))], acc, len)
  {
    hide Low, Pow2, U32, BitAnd, Shr, Times;
    Pow2Values();
    TakeGroup(acc, len, 8);
    JoinSnoc(out, BitAnd(255, Shr(acc, len)), 8);
  }

  /** The final test rejects exactly the texts that have no decoding. */
  lemma DecodingEnds(t: string, out: seq<byte>, acc: uint32, len: nat)
    requires Decoding(t, out, acc, len) && len < 8
    ensures Decode(t) == if len > 4 || BitAnd(Pow2(len) - 1, acc) != 0 then None else Some(out)
  {
    hide Low, Cut, BitAnd, Pow2;
    BitAndMask(len, acc);
    LowIsZero(acc, len);
    var n := |out|;
    assert 6 * |t| / 8 == n && 6 * |t| - 8 * n == len;
    TimesIsProduct(|t|, 6);
    TimesIsProduct(n, 8);
    PrefixOf(Join(out, 8), Low(acc, len));
    BytesOfBits(out);
  }

  /** The spec of from_base64 at a position: the decoding of the run, if it fits. */
  function DecodeRun(s: string, pos: nat, capacity: nat): Option<(seq<byte>, nat)>
    requires pos <= |s|
  {
    var e := RunEnd(s, pos);
    match Decode(s[pos..e])
    case Some(b) => if |b| <= capacity then Some((b, e)) else None
    case None => None
  }

  lemma RunEndAt(s: string, pos: nat, e: nat)
    requires pos <= e <= |s| && AllBase64(s[pos..e]) && (e < |s| ==> !IsBase64(s[e]))
    ensures RunEnd(s, pos) == e
    decreases e - pos
  {
    if pos < e {
      assert s[pos] == s[pos..e][0];
      assert s[pos + 1..e] == s[pos..e][1..];
      RunEndAt(s, pos + 1, e);
    }
  }

  /** Bytes already complete inside a run are no more than its decoding has. */
  lemma TooLong(s: string, pos: nat, p: nat, len: nat, capacity: nat)
    requires pos <= p <= |s| && AllBase64(s[pos..p]) && 8 * len <= 6 * (p - pos) && len > capacity
    ensures DecodeRun(s, pos, capacity) == None
  {
    hide Decode;
    RunEndBeyond(s, pos, p);
    var e := RunEnd(s, pos);
    if Decode(s[pos..e]).Some? {
      EncodeDecode(s[pos..e]);
    }
  }

  lemma RunEndBeyond(s: string, pos: nat, p: nat)
    requires pos <= p <= |s| && AllBase64(s[pos..p])
    ensures p <= RunEnd(s, pos)
    decreases p - pos
  {
    if pos < p {
      assert s[pos] == s[pos..p][0];
      assert s[pos + 1..p] == s[pos..p][1..];
      RunEndBeyond(s, pos + 1, p);
    }
  }

  /** from_base64: stops at the first character outside the alphabet, which may be the terminator. */
  method FromBase64(dst: array<byte>, capacity: nat, src: string, pos: nat) returns (r: Option<(nat, nat)>)
    requires capacity <= dst.Length && pos <= |src| && CString(src)
    modifies dst
    ensures match DecodeRun(src, pos, capacity)
            case Some((b, e)) => r == Some((|b|, e)) && dst[..|b|] == b
            case None => r == None
  {
    hide Decoding, Decode, BitAnd, Shr, CharToByte, Pow2, EqMask, GtMask, GeMask;
    var acc: uint32, accLen, len, p := 0, 0, 0, pos;
    DecodingStarts(src[pos..p]);
    assert dst[..0] == [];
    while true
      invariant pos <= p <= |src| && len <= capacity && accLen < 8
      invariant AllBase64(src[pos..p])
      invariant Decoding(src[pos..p], dst[..len], acc, accLen)
      decreases |src| - p
    {
      CharToByteExact(CharAt(src, p));
      var v := CharToByte(CharAt(src, p));
      if v == 255 {
        break;
      }
      assert src[pos..p + 1] == src[pos..p] + [src[p]];
      DecodingFeeds(src[pos..p], src[p], dst[..len], acc, accLen);
      p := p + 1;
      acc := U32(U32(acc * 64) + v);
      accLen := accLen + 6;
      if accLen >= 8 {
        accLen := accLen - 8;
        DecodingEmits(src[pos..p], dst[..len], acc, accLen);
        if len >= capacity {
          DecodingLength(src[pos..p], dst[..len], acc, accLen + 8);
          TooLong(src, pos, p, len + 1, capacity);
          return None;
        }
        ghost var before := dst[..len];
        dst[len] := BitAnd(255, Shr(acc, accLen));
        len := len + 1;
        assert dst[..len] == before + [BitAnd(255, Shr(acc, accLen))];
      }
    }
    RunEndAt(src, pos, p);
    DecodingEnds(src[pos..p], dst[..len], acc, accLen);
    if accLen > 4 || BitAnd(Pow2(accLen) - 1, acc) != 0 {
      return None;
    }
    return Some((len, p));
  }

  lemma DecodingStarts(t: string)
    requires t == []
    ensures Decoding(t, [], 0, 0)
  {
  }

  lemma DecodingLength(t: string, out: seq<byte>, acc: uint32, len: nat)
    requires Decoding(t, out, acc, len)
    ensures 8 * |out| + len == 6 * |t|
  {
  }
}
