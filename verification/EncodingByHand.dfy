/** The encodings spelled out: Base64 by groups of three bytes, and a whole hash string. */
module EncodingByHand {
  import opened Arithmetic
  import opened BitStrings
  import opened Base64
  import opened Decimal
  import opened Argon2Geometry
  import opened HashString

  // ----- Base64, section 4 of RFC 4648

  /** A to Z, a to z, 0 to 9, + and /. */
  function Letter(x: nat): char {
    if x < 26 then 'A' + x as char
    else if x < 52 then 'a' + (x - 26) as char
    else if x < 62 then '0' + (x - 52) as char
    else if x == 62 then '+' else '/'
  }

  lemma AlphabetSpelled(x: nat)
    requires x < 64
    ensures Alphabet(x) as char == Letter(x)
  {
  }

  lemma {:induction false} JoinAppends(a: seq<nat>, b: seq<nat>, n: nat)
    ensures Join(a + b, n) == Join(a, n) + Join(b, n)
  {
    hide Low;
    if b == [] {
      assert a + b == a;
      assert Join(b, n) == [];
    } else {
      var front, last := b[..|b| - 1], b[|b| - 1];
      JoinAppends(a, front, n);
      assert a + b == (a + front) + [last] && b == front + [last];
      JoinSnoc(a + front, last, n);
      JoinSnoc(front, last, n);
    }
  }

  lemma JoinOne(x: nat, n: nat)
    ensures Join([x], n) == Low(x, n)
  {
    assert [] + [x] == [x];
    JoinSnoc([], x, n);
  }

  lemma NoPadding(n: nat)
    requires n % 3 == 0
    ensures Padding(n) == 0 && Zeros(0) == []
  {
  }

  lemma Encoded(b: seq<byte>, x: seq<nat>)
    requires Below(x, 64) && |x| == B64Len(|b|)
    requires Join(x, 6) == Join(b, 8) + Zeros(Padding(|b|))
    ensures |Encode(b)| == |x| && forall i :: 0 <= i < |x| ==> Encode(b)[i] == Letter(x[i])
  {
    hide Join, Alphabet;
    SextetsUnique(b, x);
    forall i | 0 <= i < |x| ensures Encode(b)[i] == Letter(x[i]) {
      AlphabetSpelled(x[i]);
    }
  }

  /** Three bytes, then whatever follows, are encoded one after the other. */
  lemma EncodeSplits(a: seq<byte>, b: seq<byte>)
    requires |a| % 3 == 0
    ensures Encode(a + b) == Encode(a) + Encode(b)
  {
    hide Join, Below, Cut, Sextets, Padding, B64Len, Alphabet;
    NoPadding(|a|);
    SextetsJoin(a);
    SextetsJoin(b);
    JoinAppends(Sextets(a), Sextets(b), 6);
    JoinAppends(a, b, 8);
    LengthsAdd(|a|, |b|);
    BelowBoth(Sextets(a), Sextets(b), 64);
    SextetsUnique(a + b, Sextets(a) + Sextets(b));
  }

  lemma LengthsAdd(m: nat, n: nat)
    requires m % 3 == 0
    ensures B64Len(m + n) == B64Len(m) + B64Len(n) && Padding(m + n) == Padding(n)
  {
  }

  lemma BelowBoth(a: seq<nat>, b: seq<nat>, bound: nat)
    requires Below(a, bound) && Below(b, bound)
    ensures Below(a + b, bound)
  {
  }

  lemma FirstBits(a: byte)
    ensures Low(a, 8) == Low(a / 4, 6) + Low(a % 4, 2)
  {
    hide Low, Pow2;
    Pow2Values();
    assert a == a / 4 * 4 + a % 4;
    LowAppend(a / 4, a % 4, 6, 2);
  }

  lemma MiddleBits(a: byte, b: byte)
    ensures Low(b, 8) == Low(b / 16, 4) + Low(b % 16, 4)
    ensures Low(a % 4 * 16 + b / 16, 6) == Low(a % 4, 2) + Low(b / 16, 4)
  {
    hide Low, Pow2;
    Pow2Values();
    assert b == b / 16 * 16 + b % 16;
    LowAppend(b / 16, b % 16, 4, 4);
    LowAppend(a % 4, b / 16, 2, 4);
  }

  lemma LastBits(b: byte, c: byte)
    ensures Low(c, 8) == Low(c / 64, 2) + Low(c % 64, 6)
    ensures Low(b % 16 * 4 + c / 64, 6) == Low(b % 16, 4) + Low(c / 64, 2)
  {
    hide Low, Pow2;
    Pow2Values();
    assert c == c / 64 * 64 + c % 64;
    LowAppend(c / 64, c % 64, 2, 6);
    LowAppend(b % 16, c / 64, 4, 2);
  }

  lemma ThreeBytes(a: byte, b: byte, c: byte)
    ensures Encode([a, b, c])
            == [Letter(a / 4), Letter(a % 4 * 16 + b / 16), Letter(b % 16 * 4 + c / 64), Letter(c % 64)]
  {
    hide Low, Join, Letter, Encode;
    var x: seq<nat> := [a / 4, a % 4 * 16 + b / 16, b % 16 * 4 + c / 64, c % 64];
    FirstBits(a);
    MiddleBits(a, b);
    LastBits(b, c);
    NoPadding(3);
    FourJoined(x, 6);
    ThreeJoined([a, b, c], 8);
    Encoded([a, b, c], x);
  }

  lemma FourJoined(x: seq<nat>, n: nat)
    requires |x| == 4
    ensures Join(x, n) == Low(x[0], n) + Low(x[1], n) + Low(x[2], n) + Low(x[3], n)
  {
    hide Low;
    ThreeJoined(x[..3], n);
    assert x == x[..3] + [x[3]];
    JoinSnoc(x[..3], x[3], n);
  }

  lemma ThreeJoined(x: seq<nat>, n: nat)
    requires |x| == 3
    ensures Join(x, n) == Low(x[0], n) + Low(x[1], n) + Low(x[2], n)
  {
    hide Low;
    TwoJoined(x[..2], n);
    assert x == x[..2] + [x[2]];
    JoinSnoc(x[..2], x[2], n);
  }

  lemma TwoJoined(x: seq<nat>, n: nat)
    requires |x| == 2
    ensures Join(x, n) == Low(x[0], n) + Low(x[1], n)
  {
    hide Low;
    JoinOne(x[0], n);
    assert x == [x[0]] + [x[1]];
    JoinSnoc([x[0]], x[1], n);
  }

  lemma TwoBytes(a: byte, b: byte)
    ensures Encode([a, b]) == [Letter(a / 4), Letter(a % 4 * 16 + b / 16), Letter(b % 16 * 4)]
  {
    hide Low, Join, Letter, Encode;
    var x: seq<nat> := [a / 4, a % 4 * 16 + b / 16, b % 16 * 4];
    FirstBits(a);
    MiddleBits(a, b);
    LastBits(b, 0);
    LowZero(2);
    assert Padding(2) == 2;
    ThreeJoined(x, 6);
    TwoJoined([a, b], 8);
    Encoded([a, b], x);
  }

  lemma OneByte(a: byte)
    ensures Encode([a]) == [Letter(a / 4), Letter(a % 4 * 16)]
  {
    hide Low, Join, Letter, Encode;
    var x: seq<nat> := [a / 4, a % 4 * 16];
    FirstBits(a);
    MiddleBits(a, 0);
    LowZero(4);
    assert Padding(1) == 4;
    TwoJoined(x, 6);
    JoinOne(a, 8);
    Encoded([a], x);
  }

  /** Base64 without padding, group by group. */
  function ByThrees(b: seq<byte>): string {
    if |b| == 0 then []
    else if |b| == 1 then [Letter(b[0] / 4), Letter(b[0] % 4 * 16)]
    else if |b| == 2 then [Letter(b[0] / 4), Letter(b[0] % 4 * 16 + b[1] / 16), Letter(b[1] % 16 * 4)]
    else
      [Letter(b[0] / 4), Letter(b[0] % 4 * 16 + b[1] / 16), Letter(b[1] % 16 * 4 + b[2] / 64), Letter(b[2] % 64)]
      + ByThrees(b[3..])
  }

  /** The bit string that the encoder works through gives the characters of section 4 of RFC 4648. */
  lemma {:induction false} EncodeByThrees(b: seq<byte>)
    ensures Encode(b) == ByThrees(b)
  {
    hide Encode, Letter;
    if |b| == 0 {
      NothingEncoded(b);
    } else if |b| == 1 {
      OneByte(b[0]);
      assert b == [b[0]];
    } else if |b| == 2 {
      TwoBytes(b[0], b[1]);
      assert b == [b[0], b[1]];
    } else {
      ThreeBytes(b[0], b[1], b[2]);
      EncodeByThrees(b[3..]);
      EncodeSplits([b[0], b[1], b[2]], b[3..]);
      assert b == [b[0], b[1], b[2]] + b[3..];
    }
  }

  lemma NothingEncoded(b: seq<byte>)
    requires b == []
    ensures Encode(b) == []
  {
  }

  // ----- A hash string

  const SALT: seq<byte> := [115, 111, 109, 101, 115, 97, 108, 116]
  const EXAMPLE: Context :=
    Context(Data([1, 2, 3, 4]), Null(0), Data(SALT), Null(0), Null(0), 3, 65536, 4, 4, 19, false, false)

  lemma SaltEnd()
    ensures ByThrees([101, 115, 97, 108, 116]) == "ZXNhbHQ"
  {
    assert [101, 115, 97, 108, 116][3..] == [108, 116];
    assert ByThrees([108, 116]) == "bHQ";
  }

  lemma SaltStart()
    ensures [Letter(28), Letter(54), Letter(61), Letter(45)] == "c29t"
  {
  }

  lemma SaltEncoded()
    ensures Encode(SALT) == "c29tZXNhbHQ"
  {
    hide Encode, Letter;
    EncodeByThrees(SALT);
    SaltStart();
    SaltEnd();
    assert SALT[3..] == [101, 115, 97, 108, 116];
    assert "c29t" + "ZXNhbHQ" == "c29tZXNhbHQ";
  }

  lemma TagEncoded()
    ensures Encode([1, 2, 3, 4]) == "AQIDBA"
  {
    hide Encode;
    EncodeByThrees([1, 2, 3, 4]);
    assert [1, 2, 3, 4][3..] == [4];
    assert ByThrees([4]) == "BA";
  }

  lemma NumbersPrinted()
    ensures Print(65536) == "65536" && Print(3) == "3" && Print(4) == "4" && Print(19) == "19"
  {
    assert Print(65) == "65" && Print(655) == "655" && Print(6553) == "6553";
  }

  lemma Grouped(a: string, b: string, c: string, d: string)
    ensures a + (b + (c + d)) == a + b + c + d
  {
    assert a + (b + (c + d)) == (a + b) + (c + d);
  }

  lemma SaltSpelled()
    ensures SaltText(SALT, [1, 2, 3, 4]) == "$" + "c29tZXNhbHQ" + "$" + "AQIDBA"
  {
    hide Encode;
    SaltEncoded();
    TagEncoded();
    Grouped("$", "c29tZXNhbHQ", "$", "AQIDBA");
  }

  lemma CostsSpelled()
    ensures CostText(EXAMPLE)
            == "$m=" + "65536" + (",t=" + "3" + (",p=" + "4" + ("$" + "c29tZXNhbHQ" + "$" + "AQIDBA")))
  {
    hide Print, SaltText;
    NumbersPrinted();
    SaltSpelled();
    var salt := SaltText(SALT, [1, 2, 3, 4]);
    var lanes := ",p=" + ("4" + salt);
    var time := ",t=" + ("3" + lanes);
    assert CostText(EXAMPLE) == "$m=" + ("65536" + time);
    Regroup(",p=", "4", salt);
    Regroup(",t=", "3", lanes);
    Regroup("$m=", "65536", time);
  }

  lemma Regroup(a: string, b: string, c: string)
    ensures a + (b + c) == a + b + c
  {
  }

  /** Version, costs, lanes, salt and tag of a hash as text. */
  lemma HashSpelled()
    ensures var costs := "$m=" + "65536" + (",t=" + "3" + (",p=" + "4" + ("$" + "c29tZXNhbHQ" + "$" + "AQIDBA")));
            && HashText(EXAMPLE, Argon2id) == "$" + "argon2id" + ("$v=" + "19" + costs)
            && HashText(EXAMPLE, Argon2d) == "$" + "argon2d" + ("$v=" + "19" + costs)
            && VersionlessText(EXAMPLE, Argon2i) == "$" + "argon2i" + costs
  {
    hide Print, CostText;
    NumbersPrinted();
    CostsSpelled();
    var costs := CostText(EXAMPLE);
    Regroup("$", "argon2id", "$v=" + "19" + costs);
    Regroup("$", "argon2d", "$v=" + "19" + costs);
    Regroup("$", "argon2i", costs);
  }
}
