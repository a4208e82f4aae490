/** Argon2 hash strings: encode_string, decode_string and argon2_encodedlen. */
module HashString {
  import opened Arithmetic
  import opened Wrappers
  import opened Argon2Geometry
  import opened Base64
  import opened Decimal

  function TypeName(ty: ArgonType): string {
    match ty
    case Argon2d => "argon2d"
    case Argon2i => "argon2i"
    case Argon2id => "argon2id"
  }

  // ----- The format, from the inside out

  function TagText(out: seq<byte>): string {
    "$" + Encode(out)
  }

  function SaltText(salt: seq<byte>, out: seq<byte>): string {
    "$" + (Encode(salt) + TagText(out))
  }

  function CostText(c: Context): string
    requires c.salt.Data? && c.out.Data?
  {
    "$m=" + (Print(c.mCost) + (",t=" + (Print(c.tCost) + (",p=" + (Print(c.lanes)
      + SaltText(c.salt.bytes, c.out.bytes))))))
  }

  function VersionText(version: uint32): string {
    "$v=" + Print(version)
  }

  /** $argon2<T>$v=<num>$m=<num>,t=<num>,p=<num>$<bin>$<bin> */
  function HashText(c: Context, ty: ArgonType): string
    requires c.salt.Data? && c.out.Data?
  {
    "$" + (TypeName(ty) + (VersionText(c.version) + CostText(c)))
  }

  /** The older format, which leaves version 0x10 unsaid. */
  function VersionlessText(c: Context, ty: ArgonType): string
    requires c.salt.Data? && c.out.Data?
  {
    "$" + (TypeName(ty) + CostText(c))
  }

  // ----- Writing

  /** The macros SS and SX: append s and its terminator if both fit; text is the whole to be written. */
  method Append(dst: array<char>, at: nat, s: string, ghost rest: string, ghost text: string)
      returns (ok: bool, next: nat)
    requires at <= dst.Length && text == dst[..at] + (s + rest)
    modifies dst
    ensures ok ==> next < dst.Length && text == dst[..next] + rest && dst[next] == '\0'
    ensures !ok ==> |text| >= dst.Length
  {
    if |s| >= dst.Length - at {
      return false, at;
    }
    var i := 0;
    while i < |s|
      invariant 0 <= i <= |s|
      invariant dst[..at] == old(dst[..at])
      invariant forall k :: 0 <= k < i ==> dst[at + k] == s[k]
    {
      dst[at + i] := s[i];
      i := i + 1;
    }
    dst[at + |s|] := '\0';
    assert dst[..at + |s|] == old(dst[..at]) + s;
    return true, at + |s|;
  }

  /** The macro SB. */
  method AppendBase64(dst: array<char>, at: nat, b: seq<byte>, ghost rest: string, ghost text: string)
    returns (ok: bool, next: nat)
    requires at <= dst.Length && text == dst[..at] + (Encode(b) + rest)
    modifies dst
    ensures ok ==> next < dst.Length && text == dst[..next] + rest && dst[next] == '\0'
    ensures !ok ==> |text| >= dst.Length
  {
    hide Encode, Decode;
    DecodeEncode(b);
    var r := ToBase64(dst, at, dst.Length - at, b);
    ok := r.Some?;
    next := if ok then at + r.value else at;
    assert ok ==> dst[..next] == old(dst[..at]) + Encode(b);
  }

  /** The literal and the number of one field. */
  method AppendField(dst: array<char>, at: nat, lit: string, v: uint32, ghost rest: string, ghost text: string)
    returns (ok: bool, next: nat)
    requires at <= dst.Length && text == dst[..at] + (lit + (Print(v) + rest))
    modifies dst
    ensures ok ==> next < dst.Length && text == dst[..next] + rest && dst[next] == '\0'
    ensures !ok ==> |text| >= dst.Length
  {
    hide Print;
    ok, next := Append(dst, at, lit, Print(v) + rest, text);
    if ok {
      ok, next := Append(dst, next, Print(v), rest, text);
    }
  }

  /** A dollar sign and the Base64 text of some bytes. */
  method AppendBinary(dst: array<char>, at: nat, b: seq<byte>, ghost rest: string, ghost text: string)
    returns (ok: bool, next: nat)
    requires at <= dst.Length && text == dst[..at] + ("$" + (Encode(b) + rest))
    modifies dst
    ensures ok ==> next < dst.Length && text == dst[..next] + rest && dst[next] == '\0'
    ensures !ok ==> |text| >= dst.Length
  {
    hide Encode;
    ok, next := Append(dst, at, "$", Encode(b) + rest, text);
    if ok {
      ok, next := AppendBase64(dst, next, b, rest, text);
    }
  }

  /** encode_string: the text and its terminator, exactly when the inputs are valid and both fit. */
  method EncodeString(dst: array<char>, c: Context, ty: ArgonType) returns (code: ErrorCode)
    modifies dst
    ensures ValidateInputs(c) != Ok ==> code == ValidateInputs(c)
    ensures ValidateInputs(c) == Ok ==>
              && c.salt.Data? && c.out.Data?
              && code == if |HashText(c, ty)| < dst.Length then Ok else EncodingFail
    ensures code == Ok ==>
      var n := |HashText(c, ty)|; dst[..n] == HashText(c, ty) && dst[n] == '\0'
  {
    hide Encode, ValidateInputs, Print;
    code := ValidateInputs(c);
    if code != Ok {
      return;
    }
    ValidateInputsExact(c);
    code := EncodingFail;
    var ok, at;
    ghost var text, cost := HashText(c, ty), CostText(c);
    ghost var salt, tag := SaltText(c.salt.bytes, c.out.bytes), TagText(c.out.bytes);
    assert text == dst[..0] + text;
    ok, at := Append(dst, 0, "$", TypeName(ty) + (VersionText(c.version) + cost), text);
    if !ok { return; }
    ok, at := Append(dst, at, TypeName(ty), VersionText(c.version) + cost, text);
    if !ok { return; }
    assert VersionText(c.version) + cost == "$v=" + (Print(c.version) + cost);
    ok, at := AppendField(dst, at, "$v=", c.version, cost, text);
    if !ok { return; }
    ok, at := AppendField(dst, at, "$m=", c.mCost, ",t=" + (Print(c.tCost) + (",p=" + (Print(c.lanes) + salt))), text);
    if !ok { return; }
    ok, at := AppendField(dst, at, ",t=", c.tCost, ",p=" + (Print(c.lanes) + salt), text);
    if !ok { return; }
    ok, at := AppendField(dst, at, ",p=", c.lanes, salt, text);
    if !ok { return; }
    ok, at := AppendBinary(dst, at, c.salt.bytes, tag, text);
    if !ok { return; }
    assert tag == "$" + (Encode(c.out.bytes) + "");
    ok, at := AppendBinary(dst, at, c.out.bytes, "", text);
    if !ok { return; }
    assert text == dst[..at];
    code := Ok;
  }

  // ----- Sizing

  /** argon2_encodedlen, with the literal characters counted out and the default version. */
  method EncodedLen(tCost: uint32, mCost: uint32, parallelism: uint32, saltLen: uint32, hashLen: uint32, ty: ArgonType)
    returns (n: nat)
    ensures n == EncodedSize(tCost, mCost, parallelism, saltLen, hashLen, ty)
  {
    var t := NumLen(tCost);
    var m := NumLen(mCost);
    var p := NumLen(parallelism);
    var v := NumLen(VERSION_13);
    n := |"$$v=$m=,t=,p=$$"| + |TypeName(ty)| + t + m + p + B64Len(saltLen) + B64Len(hashLen) + v + 1;
  }

  function EncodedSize(tCost: nat, mCost: nat, parallelism: nat, saltLen: nat, hashLen: nat, ty: ArgonType): nat {
    15 + |TypeName(ty)| + |Print(tCost)| + |Print(mCost)| + |Print(parallelism)|
    + B64Len(saltLen) + B64Len(hashLen) + |Print(VERSION_13)| + 1
  }

  /** The announced size is the size of the text with its terminator exactly for two-digit versions,
      which 0x10 and 0x13 are. */
  lemma EncodedSizeExact(c: Context, ty: ArgonType)
    requires c.salt.Data? && c.out.Data?
    ensures EncodedSize(c.tCost, c.mCost, c.lanes, c.salt.Len(), c.out.Len(), ty) == |HashText(c, ty)| + 1
            <==> 10 <= c.version <= 99
  {
    hide Encode, Decode;
    DecodeEncode(c.salt.bytes);
    DecodeEncode(c.out.bytes);
    assert |HashText(c, ty)| == 15 + |TypeName(ty)| + |Print(c.version)| + |Print(c.mCost)| + |Print(c.tCost)|
           + |Print(c.lanes)| + B64Len(c.salt.Len()) + B64Len(c.out.Len()) by {
      hide Print;
    }
    TwoDigits(c.version);
    TwoDigits(VERSION_13);
  }

  lemma TwoDigits(v: nat)
    ensures |Print(v)| == 2 <==> 10 <= v <= 99
  {
    if v >= 100 {
      assert |Print(v / 10)| >= 2;
    }
  }

  // ----- Reading: what decode_string accepts

  /** The macro CC: the position behind a literal. */
  function Expect(s: string, pos: nat, lit: string): (r: Option<nat>)
    requires pos <= |s|
    ensures r.Some? ==> r.value <= |s|
  {
    if pos + |lit| <= |s| && s[pos..pos + |lit|] == lit then Some(pos + |lit|) else None
  }

  /** The macro DECIMAL_U32. */
  function Number32(s: string, pos: nat): (r: Option<(uint32, nat)>)
    requires pos <= |s|
    ensures r.Some? ==> r.value.1 <= |s|
  {
    match NumberAt(s, pos)
    case Some((v, e)) => if v < U32_LIMIT then Some((v, e)) else None
    case None => None
  }

  /** A literal followed by a number. */
  function Field(s: string, pos: nat, lit: string): (r: Option<(uint32, nat)>)
    requires pos <= |s|
    ensures r.Some? ==> r.value.1 <= |s|
  {
    match Expect(s, pos, lit)
    case Some(p) => Number32(s, p)
    case None => None
  }

  /** A dollar sign followed by Base64 data, the macro BIN. */
  function Binary(s: string, pos: nat, capacity: nat): (r: Option<(Bytes, nat)>)
    requires pos <= |s|
    ensures r.Some? ==> r.value.1 <= |s|
  {
    match Expect(s, pos, "$")
    case None => None
    case Some(p) =>
      match DecodeRun(s, p, capacity)
      case Some((b, e)) => if |b| < U32_LIMIT then Some((b, e)) else None
      case None => None
  }

  /** The optional version field: absent means 0x10. */
  function VersionField(s: string, pos: nat): (r: Option<(uint32, nat)>)
    requires pos <= |s|
    ensures r.Some? ==> r.value.1 <= |s|
  {
    match Expect(s, pos, "$v=")
    case Some(p) => Number32(s, p)
    case None => Some((VERSION_10, pos))
  }

  datatype Fields = Fields(version: uint32, mCost: uint32, tCost: uint32, lanes: uint32,
                           salt: Bytes, out: Bytes, end: nat)

  /** From the position behind the type name. */
  function ParseFields(s: string, pos: nat, saltCap: nat, outCap: nat): (r: Option<Fields>)
    requires pos <= |s|
    ensures r.Some? ==> r.value.end <= |s|
  {
    match VersionField(s, pos)
    case None => None
    case Some((version, p1)) =>
      match Field(s, p1, "$m=")
      case None => None
      case Some((m, p2)) =>
        match Field(s, p2, ",t=")
        case None => None
        case Some((t, p3)) =>
          match Field(s, p3, ",p=")
          case None => None
          case Some((p, p4)) =>
            match Binary(s, p4, saltCap)
            case None => None
            case Some((salt, p5)) =>
              match Binary(s, p5, outCap)
              case None => None
              case Some((out, p6)) => Some(Fields(version, m, t, p, salt, out, p6))
  }

  function ParseAll(s: string, ty: ArgonType, saltCap: nat, outCap: nat): (r: Option<Fields>)
    ensures r.Some? ==> r.value.end <= |s|
  {
    match Expect(s, 0, "$")
    case None => None
    case Some(p) =>
      match Expect(s, p, TypeName(ty))
      case None => None
      case Some(q) => ParseFields(s, q, saltCap, outCap)
  }

  /** The context decode_string leaves: secret, associated data and callbacks are reset, and as many
      threads as lanes. */
  function ContextOf(f: Fields, pwd: Buffer): Context {
    Context(Data(f.out), pwd, Data(f.salt), Null(0), Null(0), f.tCost, f.mCost, f.lanes, f.lanes,
            f.version, false, false)
  }

  datatype Decoded = Accepted(context: Context) | Rejected(code: ErrorCode)

  /** The inputs are validated before the end of the text is checked. */
  function ParseHash(s: string, ty: ArgonType, saltCap: nat, outCap: nat, pwd: Buffer): Decoded {
    match ParseAll(s, ty, saltCap, outCap)
    case None => Rejected(DecodingFail)
    case Some(f) =>
      var c := ContextOf(f, pwd);
      if ValidateInputs(c) != Ok then Rejected(ValidateInputs(c))
      else if f.end == |s| then Accepted(c) else Rejected(DecodingFail)
  }

  method ExpectNumber(s: string, pos: nat, lit: string) returns (r: Option<(uint32, nat)>)
    requires pos <= |s| && CString(s)
    ensures r == Field(s, pos, lit)
  {
    var p := Expect(s, pos, lit);
    if p == None {
      return None;
    }
    var d := DecodeDecimal(s, p.value);
    if d == None || d.value.0 >= U32_LIMIT {
      return None;
    }
    return Some((d.value.0, d.value.1));
  }

  method ExpectBinary(s: string, pos: nat, buf: array<byte>) returns (r: Option<(Bytes, nat)>)
    requires pos <= |s| && CString(s)
    modifies buf
    ensures r == Binary(s, pos, buf.Length)
    ensures r.Some? ==> |r.value.0| <= buf.Length && buf[..|r.value.0|] == r.value.0
  {
    var p := Expect(s, pos, "$");
    if p == None {
      return None;
    }
    var d := FromBase64(buf, buf.Length, s, p.value);
    if d == None || d.value.0 >= U32_LIMIT {
      return None;
    }
    return Some((buf[..d.value.0], d.value.1));
  }

  /** The part after the type: version, costs, lanes, salt and tag. */
  method DecodeFields(s: string, q: nat, salt: array<byte>, out: array<byte>) returns (r: Option<Fields>)
    requires CString(s) && salt != out && q <= |s|
    modifies salt, out
    ensures r == ParseFields(s, q, salt.Length, out.Length)
    ensures r.Some? ==> |r.value.salt| <= salt.Length && salt[..|r.value.salt|] == r.value.salt
    ensures r.Some? ==> |r.value.out| <= out.Length && out[..|r.value.out|] == r.value.out
  {
    hide Binary, Field, Number32;
    var version: uint32, pos := VERSION_10, q;
    if Expect(s, pos, "$v=").Some? {
      var v := ExpectNumber(s, pos, "$v=");
      VersionIsField(s, pos);
      if v == None { return None; }
      version, pos := v.value.0, v.value.1;
    }
    var m := ExpectNumber(s, pos, "$m=");
    if m == None { return None; }
    var t := ExpectNumber(s, m.value.1, ",t=");
    if t == None { return None; }
    var l := ExpectNumber(s, t.value.1, ",p=");
    if l == None { return None; }
    var b := ExpectBinary(s, l.value.1, salt);
    if b == None { return None; }
    var o := ExpectBinary(s, b.value.1, out);
    if o == None { return None; }
    return Some(Fields(version, m.value.0, t.value.0, l.value.0, b.value.0, o.value.0, o.value.1));
  }

  /** decode_string: salt and out are the caller's buffers, filled in place; an accepted context points
      at what they hold. */
  method DecodeString(s: string, ty: ArgonType, salt: array<byte>, out: array<byte>, pwd: Buffer) returns (d: Decoded)
    requires CString(s) && salt != out
    modifies salt, out
    ensures d == ParseHash(s, ty, salt.Length, out.Length, pwd)
    ensures d.Accepted? ==> d.context.salt.Data? && d.context.out.Data?
    ensures d.Accepted? ==>
              var x, y := d.context.salt.bytes, d.context.out.bytes;
              && |x| <= salt.Length && salt[..|x|] == x
              && |y| <= out.Length && out[..|y|] == y
  {
    hide ParseFields, ValidateInputs;
    var p := Expect(s, 0, "$");
    if p == None { return Rejected(DecodingFail); }
    p := Expect(s, p.value, TypeName(ty));
    if p == None { return Rejected(DecodingFail); }
    var f := DecodeFields(s, p.value, salt, out);
    if f == None { return Rejected(DecodingFail); }
    var c := ContextOf(f.value, pwd);
    if ValidateInputs(c) != Ok {
      return Rejected(ValidateInputs(c));
    }
    return if f.value.end == |s| then Accepted(c) else Rejected(DecodingFail);
  }

  lemma VersionIsField(s: string, pos: nat)
    requires pos <= |s| && Expect(s, pos, "$v=").Some?
    ensures VersionField(s, pos) == Field(s, pos, "$v=")
  {
  }

  // ----- Reading undoes writing

  /** The text t lies at pos and reaches to the end. */
  predicate Rest(s: string, pos: nat, t: string) {
    pos <= |s| && s[pos..] == t
  }

  lemma LiteralAt(s: string, pos: nat, lit: string, t: string)
    requires Rest(s, pos, lit + t)
    ensures Expect(s, pos, lit) == Some(pos + |lit|) && Rest(s, pos + |lit|, t)
  {
    assert s[pos..pos + |lit|] == s[pos..][..|lit|] == lit;
    assert s[pos + |lit|..] == s[pos..][|lit|..];
  }

  lemma NumberHere(s: string, pos: nat, v: uint32, t: string)
    requires Rest(s, pos, Print(v) + t) && (t == "" || !IsDigit(t[0]))
    ensures Number32(s, pos) == Some((v, pos + |Print(v)|)) && Rest(s, pos + |Print(v)|, t)
  {
    hide Print, NumberAt;
    LiteralAt(s, pos, Print(v), t);
    NumberAtExact(s, pos, v, pos + |Print(v)|);
  }

  lemma FieldHere(s: string, pos: nat, lit: string, v: uint32, t: string)
    requires Rest(s, pos, lit + (Print(v) + t)) && (t == "" || !IsDigit(t[0]))
    ensures Field(s, pos, lit) == Some((v, pos + |lit| + |Print(v)|))
    ensures Rest(s, pos + |lit| + |Print(v)|, t)
  {
    hide Print, Number32;
    LiteralAt(s, pos, lit, Print(v) + t);
    NumberHere(s, pos + |lit|, v, t);
  }

  lemma BinaryHere(s: string, pos: nat, b: Bytes, capacity: nat, t: string)
    requires Rest(s, pos, "$" + (Encode(b) + t)) && (t == "" || !IsBase64(t[0])) && |b| <= capacity
    ensures Binary(s, pos, capacity) == Some((b, pos + 1 + |Encode(b)|))
    ensures Rest(s, pos + 1 + |Encode(b)|, t)
  {
    hide Encode, Decode;
    LiteralAt(s, pos, "$", Encode(b) + t);
    LiteralAt(s, pos + 1, Encode(b), t);
    DecodeEncode(b);
    RunEndAt(s, pos + 1, pos + 1 + |Encode(b)|);
  }

  /** The fields one after the other. */
  lemma FieldsAre(s: string, q: nat, saltCap: nat, outCap: nat, f: Fields, p1: nat, p2: nat, p3: nat, p4: nat, p5: nat)
    requires q <= |s| && VersionField(s, q) == Some((f.version, p1))
    requires p1 <= |s| && Field(s, p1, "$m=") == Some((f.mCost, p2))
    requires p2 <= |s| && Field(s, p2, ",t=") == Some((f.tCost, p3))
    requires p3 <= |s| && Field(s, p3, ",p=") == Some((f.lanes, p4))
    requires p4 <= |s| && Binary(s, p4, saltCap) == Some((f.salt, p5))
    requires p5 <= |s| && Binary(s, p5, outCap) == Some((f.out, f.end))
    ensures ParseFields(s, q, saltCap, outCap) == Some(f)
  {
    hide VersionField, Field, Binary;
  }

  lemma MemoryHere(s: string, pos: nat, c: Context)
    requires c.salt.Data? && c.out.Data? && Rest(s, pos, CostText(c))
    ensures var p := pos + 3 + |Print(c.mCost)|;
            && Field(s, pos, "$m=") == Some((c.mCost, p))
            && Rest(s, p, ",t=" + (Print(c.tCost) + (",p=" + (Print(c.lanes) + SaltText(c.salt.bytes, c.out.bytes)))))
  {
    hide Encode, Print, Field, Rest, SaltText;
    var text := ",t=" + (Print(c.tCost) + (",p=" + (Print(c.lanes) + SaltText(c.salt.bytes, c.out.bytes))));
    assert CostText(c) == "$m=" + (Print(c.mCost) + text);
    FieldHere(s, pos, "$m=", c.mCost, text);
  }

  lemma TimeHere(s: string, pos: nat, c: Context)
    requires c.salt.Data? && c.out.Data?
    requires Rest(s, pos, ",t=" + (Print(c.tCost) + (",p=" + (Print(c.lanes) + SaltText(c.salt.bytes, c.out.bytes)))))
    ensures var p := pos + 3 + |Print(c.tCost)|;
            && Field(s, pos, ",t=") == Some((c.tCost, p))
            && Rest(s, p, ",p=" + (Print(c.lanes) + SaltText(c.salt.bytes, c.out.bytes)))
  {
    hide Encode, Print, Field, Rest, SaltText;
    FieldHere(s, pos, ",t=", c.tCost, ",p=" + (Print(c.lanes) + SaltText(c.salt.bytes, c.out.bytes)));
  }

  lemma LanesHere(s: string, pos: nat, c: Context)
    requires c.salt.Data? && c.out.Data?
    requires Rest(s, pos, ",p=" + (Print(c.lanes) + SaltText(c.salt.bytes, c.out.bytes)))
    ensures var p := pos + 3 + |Print(c.lanes)|;
            && Field(s, pos, ",p=") == Some((c.lanes, p))
            && Rest(s, p, SaltText(c.salt.bytes, c.out.bytes))
  {
    hide Encode, Print, Field, Rest;
    var text := SaltText(c.salt.bytes, c.out.bytes);
    assert text[0] == '$';
    FieldHere(s, pos, ",p=", c.lanes, text);
  }

  lemma SaltHere(s: string, pos: nat, salt: Bytes, out: Bytes, capacity: nat)
    requires Rest(s, pos, SaltText(salt, out)) && |salt| <= capacity
    ensures var p := pos + 1 + |Encode(salt)|;
            Binary(s, pos, capacity) == Some((salt, p)) && Rest(s, p, TagText(out))
  {
    hide Encode, Binary, Rest;
    assert TagText(out)[0] == '$';
    BinaryHere(s, pos, salt, capacity, TagText(out));
  }

  lemma TagHere(s: string, pos: nat, out: Bytes, capacity: nat)
    requires Rest(s, pos, TagText(out)) && |out| <= capacity
    ensures Binary(s, pos, capacity) == Some((out, |s|))
  {
    hide Encode, Binary;
    assert "$" + (Encode(out) + "") == TagText(out);
    BinaryHere(s, pos, out, capacity, "");
  }

  lemma CostHere(s: string, pos: nat, c: Context, version: uint32, q: nat, saltCap: nat, outCap: nat)
    requires c.salt.Data? && c.out.Data? && |c.salt.bytes| <= saltCap && |c.out.bytes| <= outCap
    requires q <= |s| && VersionField(s, q) == Some((version, pos)) && Rest(s, pos, CostText(c))
    ensures ParseFields(s, q, saltCap, outCap)
            == Some(Fields(version, c.mCost, c.tCost, c.lanes, c.salt.bytes, c.out.bytes, |s|))
  {
    hide Encode, Print, Field, Binary, VersionField, Rest, SaltText, TagText, CostText, ParseFields;
    var p2 := pos + 3 + |Print(c.mCost)|;
    var p3 := p2 + 3 + |Print(c.tCost)|;
    var p4 := p3 + 3 + |Print(c.lanes)|;
    var p5 := p4 + 1 + |Encode(c.salt.bytes)|;
    MemoryHere(s, pos, c);
    TimeHere(s, p2, c);
    LanesHere(s, p3, c);
    SaltHere(s, p4, c.salt.bytes, c.out.bytes, saltCap);
    TagHere(s, p5, c.out.bytes, outCap);
    RestWithin(s, pos, CostText(c));
    RestWithin(s, p5, TagText(c.out.bytes));
    FieldsAre(s, q, saltCap, outCap, Fields(version, c.mCost, c.tCost, c.lanes, c.salt.bytes, c.out.bytes, |s|),
              pos, p2, p3, p4, p5);
  }

  lemma RestWithin(s: string, pos: nat, t: string)
    requires Rest(s, pos, t)
    ensures pos <= |s|
  {
  }

  lemma FieldsOfEncode(c: Context, ty: ArgonType, saltCap: nat, outCap: nat)
    requires c.salt.Data? && c.out.Data? && |c.salt.bytes| <= saltCap && |c.out.bytes| <= outCap
    ensures var s := HashText(c, ty);
            ParseAll(s, ty, saltCap, outCap)
            == Some(Fields(c.version, c.mCost, c.tCost, c.lanes, c.salt.bytes, c.out.bytes, |s|))
  {
    hide Encode, Print, Number32, Field, Binary, ParseFields, CostText;
    var s, name := HashText(c, ty), TypeName(ty);
    var rest := VersionText(c.version) + CostText(c);
    assert Rest(s, 0, "$" + (name + rest));
    LiteralAt(s, 0, "$", name + rest);
    LiteralAt(s, 1, name, rest);
    VersionHere(s, 1 + |name|, c);
    CostHere(s, 1 + |name| + 3 + |Print(c.version)|, c, c.version, 1 + |name|, saltCap, outCap);
  }

  lemma VersionHere(s: string, q: nat, c: Context)
    requires c.salt.Data? && c.out.Data? && Rest(s, q, VersionText(c.version) + CostText(c))
    ensures q <= |s| && VersionField(s, q) == Some((c.version, q + 3 + |Print(c.version)|))
    ensures Rest(s, q + 3 + |Print(c.version)|, CostText(c))
  {
    hide Encode, Print, Number32, SaltText;
    assert VersionText(c.version) + CostText(c) == "$v=" + (Print(c.version) + CostText(c));
    LiteralAt(s, q, "$v=", Print(c.version) + CostText(c));
    FieldHere(s, q, "$v=", c.version, CostText(c));
    VersionIsField(s, q);
  }

  /** A text written for valid inputs, read with the same type and buffers large enough, gives back
      version, costs, lanes, salt and tag. */
  lemma DecodeOfEncode(c: Context, ty: ArgonType, saltCap: nat, outCap: nat, pwd: Buffer)
    requires ValidateInputs(c) == Ok && (pwd.Null? ==> pwd.Len() == 0)
    requires c.salt.Len() <= saltCap && c.out.Len() <= outCap
    ensures c.salt.Data? && c.out.Data?
    ensures ParseHash(HashText(c, ty), ty, saltCap, outCap, pwd)
            == Accepted(Context(c.out, pwd, c.salt, Null(0), Null(0), c.tCost, c.mCost, c.lanes, c.lanes,
                                c.version, false, false))
  {
    hide ParseAll, ValidateInputs, HashText;
    ValidateInputsExact(c);
    FieldsOfEncode(c, ty, saltCap, outCap);
    var f := Fields(c.version, c.mCost, c.tCost, c.lanes, c.salt.bytes, c.out.bytes, |HashText(c, ty)|);
    ValidateInputsExact(ContextOf(f, pwd));
  }

  /** A well-formed text whose costs, salt or tag a caller could not have asked for is refused with the error
      of the input test. */
  lemma DecodeValidates(c: Context, ty: ArgonType, saltCap: nat, outCap: nat, pwd: Buffer)
    requires c.salt.Data? && c.out.Data? && c.salt.Len() <= saltCap && c.out.Len() <= outCap
    ensures var d := Context(c.out, pwd, c.salt, Null(0), Null(0), c.tCost, c.mCost, c.lanes, c.lanes, c.version, false,
                             false);
            ParseHash(HashText(c, ty), ty, saltCap, outCap, pwd)
            == if ValidInputs(d) then Accepted(d) else Rejected(ValidateInputs(d))
  {
    hide ParseAll, ValidateInputs, HashText;
    FieldsOfEncode(c, ty, saltCap, outCap);
    ValidateInputsExact(ContextOf(ParseAll(HashText(c, ty), ty, saltCap, outCap).value, pwd));
  }

  // ----- Only written texts are read

  lemma LiteralBack(s: string, pos: nat, lit: string, t: string)
    requires pos <= |s| && Expect(s, pos, lit).Some? && Rest(s, pos + |lit|, t)
    ensures Rest(s, pos, lit + t)
  {
    assert s[pos..] == s[pos..pos + |lit|] + s[pos + |lit|..];
  }

  lemma FieldBack(s: string, pos: nat, lit: string, t: string)
    requires pos <= |s| && Field(s, pos, lit).Some? && Rest(s, Field(s, pos, lit).value.1, t)
    ensures Rest(s, pos, lit + (Print(Field(s, pos, lit).value.0) + t))
  {
    hide Print, NumberAt;
    var p := pos + |lit|;
    var (v, e) := Field(s, pos, lit).value;
    NumberAtExact(s, p, v, e);
    assert s[p..] == s[p..e] + s[e..];
    LiteralBack(s, pos, lit, Print(v) + t);
  }

  lemma BinaryBack(s: string, pos: nat, capacity: nat, t: string)
    requires pos <= |s| && Binary(s, pos, capacity).Some? && Rest(s, Binary(s, pos, capacity).value.1, t)
    ensures Rest(s, pos, "$" + (Encode(Binary(s, pos, capacity).value.0) + t))
    ensures |Binary(s, pos, capacity).value.0| <= capacity
  {
    hide Encode, Decode;
    var p := pos + 1;
    var (b, e) := Binary(s, pos, capacity).value;
    EncodeDecode(s[p..e]);
    assert s[p..] == s[p..e] + s[e..];
    LiteralBack(s, pos, "$", Encode(b) + t);
  }

  lemma CostBack(s: string, pos: nat, version: uint32, q: nat, saltCap: nat, outCap: nat, f: Fields, pwd: Buffer)
    requires pos <= |s| && q <= |s| && VersionField(s, q) == Some((version, pos))
    requires ParseFields(s, q, saltCap, outCap) == Some(f) && f.end == |s|
    ensures f.version == version && Rest(s, pos, CostText(ContextOf(f, pwd)))
  {
    hide Encode, Print, Number32, Field, Binary;
    var (m, p2) := Field(s, pos, "$m=").value;
    var (t, p3) := Field(s, p2, ",t=").value;
    var (l, p4) := Field(s, p3, ",p=").value;
    var (salt, p5) := Binary(s, p4, saltCap).value;
    assert Rest(s, |s|, "");
    BinaryBack(s, p5, outCap, "");
    assert "$" + (Encode(f.out) + "") == TagText(f.out);
    BinaryBack(s, p4, saltCap, TagText(f.out));
    FieldBack(s, p3, ",p=", SaltText(salt, f.out));
    FieldBack(s, p2, ",t=", ",p=" + (Print(l) + SaltText(salt, f.out)));
    FieldBack(s, pos, "$m=", ",t=" + (Print(t) + (",p=" + (Print(l) + SaltText(salt, f.out)))));
  }

  /** Every accepted text is the one encode_string writes for the decoded context, or its older form
      without a version, which then is 0x10. */
  lemma EncodeOfDecode(s: string, ty: ArgonType, saltCap: nat, outCap: nat, pwd: Buffer)
    requires ParseHash(s, ty, saltCap, outCap, pwd).Accepted?
    ensures var c := ParseHash(s, ty, saltCap, outCap, pwd).context;
            && c.salt.Data? && c.out.Data?
            && (s == HashText(c, ty) || (c.version == VERSION_10 && s == VersionlessText(c, ty)))
            && ValidInputs(c) && c.pwd == pwd && c.secret == c.ad == Null(0) && c.threads == c.lanes
  {
    hide Encode, Print, Number32, Field, Binary, ValidateInputs, ParseFields, CostText, TypeName, ValidInputs;
    ValidateInputsExact(ParseHash(s, ty, saltCap, outCap, pwd).context);
    var f := ParseAll(s, ty, saltCap, outCap).value;
    var c, name := ContextOf(f, pwd), TypeName(ty);
    var q := 1 + |name|;
    FieldsHaveVersion(s, q, saltCap, outCap);
    var (version, pos) := VersionField(s, q).value;
    CostBack(s, pos, version, q, saltCap, outCap, f, pwd);
    if Expect(s, q, "$v=").Some? {
      VersionIsField(s, q);
      FieldBack(s, q, "$v=", CostText(c));
      var rest := VersionText(c.version) + CostText(c);
      assert rest == "$v=" + (Print(c.version) + CostText(c));
      LiteralBack(s, 1, name, rest);
      LiteralBack(s, 0, "$", name + rest);
      assert s[0..] == s;
    } else {
      LiteralBack(s, 1, name, CostText(c));
      LiteralBack(s, 0, "$", name + CostText(c));
      assert s[0..] == s;
    }
  }

  lemma FieldsHaveVersion(s: string, q: nat, saltCap: nat, outCap: nat)
    requires q <= |s| && ParseFields(s, q, saltCap, outCap).Some?
    ensures VersionField(s, q).Some?
  {
  }

  /** Of two different names one is no prefix of the other followed by '$', so the other name is
      missed, or read up to the 'd' of argon2id. */
  lemma OtherName(s: string, ty: ArgonType, other: ArgonType, rest: string)
    requires ty != other && Rest(s, 1, TypeName(ty) + rest) && rest != "" && rest[0] == '$'
    ensures Expect(s, 1, TypeName(other)).None? || (1 + |TypeName(other)| < |s| && s[1 + |TypeName(other)|] == 'd')
  {
    var t := TypeName(ty) + rest;
    assert s[1..] == t;
    assert t[6] == TypeName(ty)[6] && t[7] == if ty == Argon2id then 'd' else '$';
    assert |s| >= 9 && s[7] == t[6] && s[8] == t[7];
    if Expect(s, 1, TypeName(other)).Some? {
      var q := 1 + |TypeName(other)|;
      assert s[1..q][6] == s[7] == TypeName(other)[6];
    }
  }

  lemma NotAt(s: string, q: nat, lit: string)
    requires q < |s| && lit != "" && s[q] != lit[0]
    ensures Expect(s, q, lit) == None
  {
    if q + |lit| <= |s| {
      assert s[q..q + |lit|][0] == s[q];
    }
  }

  /** A text written for one type is refused by every other type, argon2i and argon2id included. */
  lemma WrongTypeRejected(c: Context, ty: ArgonType, other: ArgonType, saltCap: nat, outCap: nat, pwd: Buffer)
    requires c.salt.Data? && c.out.Data? && ty != other
    ensures ParseHash(HashText(c, ty), other, saltCap, outCap, pwd) == Rejected(DecodingFail)
  {
    hide Encode, Print, Number32, Binary, ValidateInputs, TypeName, CostText;
    var s, name := HashText(c, ty), TypeName(ty);
    var rest := VersionText(c.version) + CostText(c);
    assert rest[0] == '$';
    assert Rest(s, 0, "$" + (name + rest));
    LiteralAt(s, 0, "$", name + rest);
    OtherName(s, ty, other, rest);
    var q := 1 + |TypeName(other)|;
    if Expect(s, 1, TypeName(other)).Some? {
      NotAt(s, q, "$v=");
      NotAt(s, q, "$m=");
    }
  }
}
