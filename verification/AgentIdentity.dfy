/** Agent identities in their two dialects: the alias tables and the translation of one identity. */
module AgentIdentity {
  import opened Wrappers

  datatype Dialect = Canonical | Legacy

  datatype Harness = Minimal | Standard | Ultimate | Creative

  function HarnessName(h: Harness): string {
    match h
    case Minimal => "Minimal"
    case Standard => "Standard"
    case Ultimate => "Ultimate"
    case Creative => "Creative"
  }

  function LegacyName(h: Harness): string {
    match h
    case Minimal => "minimal"
    case Standard => "agentic"
    case Ultimate => "Ultra"
    case Creative => "Creative"
  }

  /** The alias table. */
  function Alias(key: string): Option<Harness> {
    if key == "Minimal" || key == "minimal" then Some(Minimal)
    else if key == "Standard" || key == "standard" || key == "balanced" || key == "agentic" || key == "Agentic"
        then Some(Standard)
    else if key == "Ultimate" || key == "ultimate" || key == "Ultra" || key == "ultra" then Some(Ultimate)
    else if key == "Creative" || key == "creative" then Some(Creative)
    else None
  }

  /** White space and line terminators as trim removes them. */
  predicate IsSpace(c: char) {
    || '\t' <= c <= '\r' || c == ' ' || c == '\U{A0}' || c == '\U{1680}' || '\U{2000}' <= c <= '\U{200A}'
    || c == '\U{2028}' || c == '\U{2029}' || c == '\U{202F}' || c == '\U{205F}' || c == '\U{3000}' || c == '\U{FEFF}'
  }

  function TrimLeft(s: string): string {
    if s != "" && IsSpace(s[0]) then TrimLeft(s[1..]) else s
  }

  function TrimRight(s: string): string {
    if s != "" && IsSpace(s[|s| - 1]) then TrimRight(s[..|s| - 1]) else s
  }

  function Trim(s: string): string {
    TrimRight(TrimLeft(s))
  }

  /** toLowerCase on the letters the table has; no other character turns into one of those. */
  function Lower(c: char): char {
    if 'A' <= c <= 'Z' then c - 'A' + 'a' else c
  }

  function LowerCase(s: string): (r: string)
    ensures |r| == |s|
  {
    seq(|s|, i requires 0 <= i < |s| => Lower(s[i]))
  }

  /** canonicalHarnessId */
  function CanonicalHarness(id: string): Option<Harness> {
    var key := Trim(id);
    if key == "" then None
    else if Alias(key).Some? then Alias(key) else Alias(LowerCase(key))
  }

  /** canonicalAgentId and canonicalAgentConfigId */
  function CanonicalId(id: string, profile: bool): string {
    if profile && id == "coding_shared" then HarnessName(Standard)
    else match CanonicalHarness(id)
         case Some(h) => HarnessName(h)
         case None => id
  }

  function LegacyWireId(id: string): string {
    match CanonicalHarness(id)
    case Some(h) => LegacyName(h)
    case None => id
  }

  function Identity(id: string, dialect: Dialect, profile: bool): string {
    var canonical := CanonicalId(id, profile);
    if dialect.Canonical? then canonical
    else if profile && canonical == HarnessName(Standard) then "coding_shared" else LegacyWireId(canonical)
  }

  // ----- The harness an identity means

  /** What an identity stands for in a position: a harness, or itself. */
  function Meaning(id: string, profile: bool): Option<Harness> {
    if profile && id == "coding_shared" then Some(Standard) else CanonicalHarness(id)
  }

  function NameIn(h: Harness, dialect: Dialect, profile: bool): string {
    if dialect.Canonical? then HarnessName(h)
    else if profile && h.Standard? then "coding_shared" else LegacyName(h)
  }

  lemma NamesMean(h: Harness, dialect: Dialect, profile: bool)
    ensures Meaning(NameIn(h, dialect, profile), profile) == Some(h)
    ensures CanonicalHarness(HarnessName(h)) == Some(h) && CanonicalHarness(LegacyName(h)) == Some(h)
  {
    var a, b := HarnessName(h), LegacyName(h);
    assert Trim(a) == a && Trim(b) == b;
  }

  /** A translation writes the dialect's name of what the identity means, and leaves other identities
      alone. */
  lemma IdentityNames(id: string, dialect: Dialect, profile: bool)
    ensures Identity(id, dialect, profile)
            == match Meaning(id, profile) case Some(h) => NameIn(h, dialect, profile) case None => id
  {
    match Meaning(id, profile)
    case Some(h) =>
      assert CanonicalId(id, profile) == HarnessName(h);
      NamesMean(h, dialect, profile);
      NamesDiffer(h);
    case None =>
      if id == HarnessName(Standard) {
        NamesMean(Standard, Canonical, profile);
      }
  }

  lemma NamesDiffer(h: Harness)
    ensures HarnessName(h) == HarnessName(Standard) <==> h == Standard
  {
    assert HarnessName(Minimal)[0] == 'M' && HarnessName(Standard)[0] == 'S' && HarnessName(Ultimate)[0] == 'U'
        && HarnessName(Creative)[0] == 'C';
  }

  /** Translating again, into the same or the other dialect, depends only on the last dialect. */
  lemma LastDialectWins(id: string, first: Dialect, second: Dialect, profile: bool)
    ensures Identity(Identity(id, first, profile), second, profile) == Identity(id, second, profile)
  {
    hide Identity, CanonicalHarness;
    IdentityNames(id, first, profile);
    IdentityNames(id, second, profile);
    IdentityNames(Identity(id, first, profile), second, profile);
    if Meaning(id, profile).Some? {
      NamesMean(Meaning(id, profile).value, first, profile);
    }
  }

  /** Two identities collide in one dialect exactly when they collide in the other. */
  lemma SameCollisions(a: string, b: string, first: Dialect, second: Dialect, profile: bool)
    ensures Identity(a, first, profile) == Identity(b, first, profile) <==>
        Identity(a, second, profile) == Identity(b, second, profile)
  {
    LastDialectWins(a, first, second, profile);
    LastDialectWins(b, first, second, profile);
    LastDialectWins(a, second, first, profile);
    LastDialectWins(b, second, first, profile);
  }

  lemma AliasCapital()
    ensures LowerCase("Minimal") == "minimal" && LowerCase("Standard") == "standard"
    ensures LowerCase("Agentic") == "agentic"
    ensures LowerCase("Ultimate") == "ultimate" && LowerCase("Ultra") == "ultra" && LowerCase("Creative") == "creative"
  {
  }

  lemma AliasSmall(key: string)
    requires forall i :: 0 <= i < |key| ==> 'a' <= key[i] <= 'z'
    ensures LowerCase(key) == key
  {
  }

  /** The table treats a key and its lower-case form alike. */
  lemma AliasLower(key: string)
    requires Alias(key).Some?
    ensures Alias(LowerCase(key)) == Alias(key)
  {
    hide LowerCase;
    AliasCapital();
    if 'a' <= key[0] <= 'z' {
      AliasSmall(key);
    }
  }

  lemma AliasLetters(key: string)
    requires Alias(key).Some?
    ensures key != "" && 'a' <= Lower(key[0]) <= 'z' && 'a' <= Lower(key[|key| - 1]) <= 'z'
  {
  }

  /** Case and surrounding space do not matter: an identity that is in the table in lower case is known
      in any case and with any space around it. */
  lemma CaseAndSpace(id: string, before: string, after: string)
    requires Alias(LowerCase(id)).Some?
    requires forall i :: 0 <= i < |before| ==> IsSpace(before[i])
    requires forall i :: 0 <= i < |after| ==> IsSpace(after[i])
    ensures CanonicalHarness(before + id + after) == Alias(LowerCase(id))
  {
    hide Alias;
    AliasLetters(LowerCase(id));
    TrimStrips(before, id, after);
    if Alias(id).Some? {
      AliasLower(id);
    }
  }

  lemma {:induction false} TrimStrips(before: string, id: string, after: string)
    requires forall i :: 0 <= i < |before| ==> IsSpace(before[i])
    requires forall i :: 0 <= i < |after| ==> IsSpace(after[i])
    requires id != "" && !IsSpace(id[0]) && !IsSpace(id[|id| - 1])
    ensures Trim(before + id + after) == id
  {
    if before != "" {
      assert (before + id + after)[1..] == before[1..] + id + after;
      TrimStrips(before[1..], id, after);
    } else if after != "" {
      var s := before + id + after;
      assert s[0] == id[0] && TrimLeft(s) == s;
      assert s[..|s| - 1] == before + id + after[..|after| - 1];
      assert TrimLeft(s[..|s| - 1]) == s[..|s| - 1];
      TrimStrips(before, id, after[..|after| - 1]);
    } else {
      assert before + id + after == id;
    }
  }
}
