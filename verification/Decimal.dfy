/** Decimal numbers as encoding.c prints, measures and reads them. */
module Decimal {
  import opened Arithmetic
  import opened Wrappers
  import opened Base64

  function Digit(d: nat): char
    requires d < 10
  {
    (d + 48) as char
  }

  predicate IsDigit(c: char) {
    48 <= c as int <= 57
  }

  predicate AllDigits(t: string) {
    forall i :: 0 <= i < |t| ==> IsDigit(t[i])
  }

  /** The text of "%lu". */
  function Print(v: nat): (t: string)
    ensures |t| >= 1 && AllDigits(t)
    ensures |t| > 1 ==> t[0] != '0'
    ensures v > 0 ==> t[0] != '0'
  {
    if v < 10 then [Digit(v)] else Print(v / 10) + [Digit(v % 10)]
  }

  function NumberOf(t: string): nat
    requires AllDigits(t)
  {
    if t == [] then 0 else 10 * NumberOf(t[..|t| - 1]) + (t[|t| - 1] as int - 48)
  }

  lemma {:induction false} NumberOfPrint(v: nat)
    ensures NumberOf(Print(v)) == v
  {
    if v < 10 {
      assert Print(v)[..0] == [];
    } else {
      NumberOfPrint(v / 10);
      assert Print(v)[..|Print(v)| - 1] == Print(v / 10);
    }
  }

  /** A digit string without superfluous zeros is the printed form of its number. */
  lemma {:induction false} PrintOfNumber(t: string)
    requires |t| >= 1 && AllDigits(t) && (|t| > 1 ==> t[0] != '0')
    ensures Print(NumberOf(t)) == t
    ensures |t| > 1 ==> NumberOf(t) >= 10
    ensures t[0] != '0' ==> NumberOf(t) > 0
  {
    var front, d := t[..|t| - 1], t[|t| - 1] as int - 48;
    assert t == front + [Digit(d)];
    if |t| == 1 {
      assert NumberOf(front) == 0;
    } else {
      PrintOfNumber(front);
      assert NumberOf(t) == 10 * NumberOf(front) + d;
    }
  }

  /** numlen */
  method NumLen(num: nat) returns (len: nat)
    ensures len == |Print(num)|
  {
    len := 1;
    var n := num;
    while n >= 10
      invariant len - 1 + |Print(n)| == |Print(num)|
    {
      len := len + 1;
      n := n / 10;
    }
  }

  /** End of the run of digits from pos. */
  function DigitsEnd(s: string, pos: nat): (e: nat)
    requires pos <= |s|
    ensures pos <= e <= |s|
    ensures AllDigits(s[pos..e])
    ensures e < |s| ==> !IsDigit(s[e])
    decreases |s| - pos
  {
    if pos < |s| && IsDigit(s[pos]) then
      var e := DigitsEnd(s, pos + 1);
      assert s[pos..e] == [s[pos]] + s[pos + 1..e];
      e
    else pos
  }

  /** What decode_decimal accepts at pos: the minimal form of a number below 2^64. */
  function NumberAt(s: string, pos: nat): Option<(nat, nat)>
    requires pos <= |s|
  {
    var e := DigitsEnd(s, pos);
    var t := s[pos..e];
    if t == [] || (t[0] == '0' && |t| > 1) || NumberOf(t) >= U64_LIMIT then None
    else Some((NumberOf(t), e))
  }

  lemma DigitsEndAt(s: string, pos: nat, e: nat)
    requires pos <= e <= |s| && AllDigits(s[pos..e]) && (e < |s| ==> !IsDigit(s[e]))
    ensures DigitsEnd(s, pos) == e
    decreases e - pos
  {
    if pos < e {
      assert s[pos] == s[pos..e][0];
      assert s[pos + 1..e] == s[pos..e][1..];
      DigitsEndAt(s, pos + 1, e);
    }
  }

  /** Exactly the printed numbers are accepted, each up to the first character that is no digit. */
  lemma NumberAtExact(s: string, pos: nat, v: nat, e: nat)
    requires pos <= |s|
    ensures NumberAt(s, pos) == Some((v, e)) <==>
              && v < U64_LIMIT && pos <= e <= |s|
              && s[pos..e] == Print(v) && (e < |s| ==> !IsDigit(s[e]))
  {
    if NumberAt(s, pos) == Some((v, e)) {
      PrintOfNumber(s[pos..e]);
    }
    if pos <= e <= |s| && s[pos..e] == Print(v) && (e < |s| ==> !IsDigit(s[e])) {
      DigitsEndAt(s, pos, e);
      NumberOfPrint(v);
    }
  }

  /** The number of a longer digit string is no smaller. */
  lemma {:induction false} NumberGrows(t: string, u: string)
    requires AllDigits(t) && AllDigits(u) && t <= u
    ensures NumberOf(t) <= NumberOf(u)
    decreases |u|
  {
    if |t| < |u| {
      assert t <= u[..|u| - 1];
      NumberGrows(t, u[..|u| - 1]);
    } else {
      assert t == u;
    }
  }

  lemma Overflowed(s: string, pos: nat, p: nat)
    requires pos <= p <= |s| && AllDigits(s[pos..p]) && NumberOf(s[pos..p]) >= U64_LIMIT
    ensures NumberAt(s, pos) == None
  {
    DigitsEndBeyond(s, pos, p);
    var e := DigitsEnd(s, pos);
    assert s[pos..p] == s[pos..e][..p - pos];
    NumberGrows(s[pos..p], s[pos..e]);
  }

  lemma DigitsEndBeyond(s: string, pos: nat, p: nat)
    requires pos <= p <= |s| && AllDigits(s[pos..p])
    ensures p <= DigitsEnd(s, pos)
    decreases p - pos
  {
    if pos < p {
      assert s[pos] == s[pos..p][0];
      assert s[pos + 1..p] == s[pos..p][1..];
      DigitsEndBeyond(s, pos + 1, p);
    }
  }

  lemma DigitFed(s: string, pos: nat, p: nat)
    requires pos <= p < |s| && AllDigits(s[pos..p]) && IsDigit(s[p])
    ensures AllDigits(s[pos..p + 1])
    ensures NumberOf(s[pos..p + 1]) == 10 * NumberOf(s[pos..p]) + (s[p] as int - 48)
  {
    assert s[pos..p + 1] == s[pos..p] + [s[p]];
    assert s[pos..p + 1][..p - pos] == s[pos..p];
  }

  lemma NoDigits(t: string)
    requires t == []
    ensures NumberOf(t) == 0
  {
  }

  /** decode_decimal with ULONG_MAX = 2^64 - 1: the tests before the product and before the sum keep
      the accumulator exact. */
  method DecodeDecimal(s: string, pos: nat) returns (r: Option<(nat, nat)>)
    requires pos <= |s| && CString(s)
    ensures r == NumberAt(s, pos)
  {
    hide NumberOf, DigitsEnd;
    var acc: uint64, p := 0, pos;
    NoDigits(s[pos..p]);
    while true
      invariant pos <= p <= |s| && AllDigits(s[pos..p]) && acc == NumberOf(s[pos..p])
      decreases |s| - p
    {
      var c := CharAt(s, p);
      if c < 48 || c > 57 {
        break;
      }
      c := c - 48;
      DigitFed(s, pos, p);
      if acc > (U64_LIMIT - 1) / 10 {
        Overflowed(s, pos, p + 1);
        return None;
      }
      var ten := U64(acc * 10);
      if c > U64_LIMIT - 1 - ten {
        Overflowed(s, pos, p + 1);
        return None;
      }
      acc := U64(ten + c);
      p := p + 1;
    }
    DigitsEndAt(s, pos, p);
    if p == pos || (s[pos] == '0' && p != pos + 1) {
      return None;
    }
    return Some((acc, p));
  }
}
