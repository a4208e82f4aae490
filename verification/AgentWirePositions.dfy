/** Which names and which places of a tree a translation changes, and when it refuses: spelled out. */
module AgentWirePositions {
  import opened Wrappers
  import opened AgentIdentity
  import opened AgentWire
  import opened AgentWireLaws

  // ----- Names

  /** The name in both dialects, in plain and in profile positions. */
  predicate Named(id: string, canonical: string, legacy: string, legacyProfile: string) {
    && Identity(id, Canonical, false) == canonical && Identity(id, Canonical, true) == canonical
    && Identity(id, Legacy, false) == legacy && Identity(id, Legacy, true) == legacyProfile
  }

  lemma AliasNamed(id: string)
    requires Alias(id).Some?
    ensures var h := Alias(id).value;
            Named(id, NameIn(h, Canonical, false), NameIn(h, Legacy, false), NameIn(h, Legacy, true))
  {
    hide Identity, Alias, NameIn;
    AliasIsAlias(id);
    IdentityNames(id, Canonical, false);
    IdentityNames(id, Canonical, true);
    IdentityNames(id, Legacy, false);
    IdentityNames(id, Legacy, true);
    CanonicalInBoth(Alias(id).value);
  }

  lemma CanonicalInBoth(h: Harness)
    ensures NameIn(h, Canonical, false) == NameIn(h, Canonical, true)
  {
  }

  lemma AliasIsAlias(id: string)
    requires Alias(id).Some?
    ensures Meaning(id, false) == Meaning(id, true) == Alias(id)
  {
    hide Alias;
    AliasLower(id);
    CaseAndSpace(id, "", "");
    assert "" + id + "" == id;
    NoCoding(id);
  }

  lemma NoCoding(id: string)
    requires Alias(id).Some?
    ensures id != "coding_shared"
  {
  }

  lemma StandardTable()
    ensures Named("Standard", "Standard", "agentic", "coding_shared")
    ensures Named("standard", "Standard", "agentic", "coding_shared")
    ensures Named("balanced", "Standard", "agentic", "coding_shared")
    ensures Named("agentic", "Standard", "agentic", "coding_shared")
    ensures Named("Agentic", "Standard", "agentic", "coding_shared")
    ensures Identity("coding_shared", Canonical, true) == "Standard"
    ensures Identity("coding_shared", Legacy, true) == "coding_shared"
  {
    hide Named, Identity;
    AliasNamed("Standard");
    AliasNamed("standard");
    AliasNamed("balanced");
    AliasNamed("agentic");
    AliasNamed("Agentic");
    IdentityNames("coding_shared", Canonical, true);
    IdentityNames("coding_shared", Legacy, true);
  }

  lemma OtherTable()
    ensures Named("Minimal", "Minimal", "minimal", "minimal") && Named("minimal", "Minimal", "minimal", "minimal")
    ensures Named("Creative", "Creative", "Creative", "Creative")
    ensures Named("creative", "Creative", "Creative", "Creative")
  {
    hide Named;
    AliasNamed("Minimal");
    AliasNamed("minimal");
    AliasNamed("Creative");
    AliasNamed("creative");
  }

  lemma UltimateTable()
    ensures Named("Ultimate", "Ultimate", "Ultra", "Ultra") && Named("ultimate", "Ultimate", "Ultra", "Ultra")
    ensures Named("Ultra", "Ultimate", "Ultra", "Ultra") && Named("ultra", "Ultimate", "Ultra", "Ultra")
  {
    hide Named;
    AliasNamed("Ultimate");
    AliasNamed("ultimate");
    AliasNamed("Ultra");
    AliasNamed("ultra");
  }

  /** Every alias with its names. */
  lemma AliasTable()
    ensures forall id :: id in ["Minimal", "minimal"] ==> Named(id, "Minimal", "minimal", "minimal")
    ensures forall id :: id in ["Standard", "standard", "balanced", "agentic", "Agentic"] ==>
              Named(id, "Standard", "agentic", "coding_shared")
    ensures forall id :: id in ["Ultimate", "ultimate", "Ultra", "ultra"] ==> Named(id, "Ultimate", "Ultra", "Ultra")
    ensures forall id :: id in ["Creative", "creative"] ==> Named(id, "Creative", "Creative", "Creative")
    ensures Identity("coding_shared", Canonical, true) == "Standard"
    ensures Identity("coding_shared", Legacy, true) == "coding_shared"
  {
    hide Named, Identity;
    StandardTable();
    UltimateTable();
    OtherTable();
  }

  /** No other text is an alias: with space removed and in lower case it would have to be one of seven. */
  lemma OtherNames(id: string, dialect: Dialect, profile: bool)
    requires LowerCase(Trim(id)) !in ["minimal", "standard", "balanced", "agentic", "ultimate", "ultra", "creative"]
    ensures Identity(id, dialect, profile)
            == if profile && id == "coding_shared" then NameIn(Standard, dialect, true) else id
  {
    hide Trim, LowerCase, Identity;
    IdentityNames(id, dialect, profile);
    var key := Trim(id);
    if Alias(LowerCase(key)).Some? {
      LowerAliases(LowerCase(key));
      LowerTwice(key);
    }
    if Alias(key).Some? {
      LowerAliases(key);
    }
  }

  lemma LowerTwice(s: string)
    ensures LowerCase(LowerCase(s)) == LowerCase(s)
  {
  }

  lemma LowerAliases(key: string)
    requires Alias(key).Some?
    ensures LowerCase(key) in ["minimal", "standard", "balanced", "agentic", "ultimate", "ultra", "creative"]
  {
    hide LowerCase;
    AliasCapital();
    if 'a' <= key[0] <= 'z' {
      AliasSmall(key);
    }
  }

  /** What trim removes, by character code, and what toLowerCase does to a letter. */
  lemma CharacterCodes(c: char)
    ensures IsSpace(c) <==>
              c as int in [0x09, 0x0A, 0x0B, 0x0C, 0x0D, 0x20, 0xA0, 0x1680, 0x2000, 0x2001, 0x2002, 0x2003, 0x2004,
                           0x2005, 0x2006, 0x2007, 0x2008, 0x2009, 0x200A, 0x2028, 0x2029, 0x202F, 0x205F, 0x3000,
                           0xFEFF]
    ensures Lower(c) as int == if 65 <= c as int <= 90 then c as int + 32 else c as int
  {
  }

  predicate AllSpace(s: string) {
    forall i :: 0 <= i < |s| ==> IsSpace(s[i])
  }

  lemma {:induction false} LeftTrimmed(s: string) returns (before: string)
    ensures s == before + TrimLeft(s) && AllSpace(before) && (TrimLeft(s) != "" ==> !IsSpace(TrimLeft(s)[0]))
  {
    hide IsSpace;
    if s != "" && IsSpace(s[0]) {
      before := LeftTrimmed(s[1..]);
      assert s == [s[0]] + before + TrimLeft(s);
      before := [s[0]] + before;
    } else {
      before := "";
    }
  }

  lemma {:induction false} RightTrimmed(s: string) returns (after: string)
    ensures s == TrimRight(s) + after && AllSpace(after)
    ensures TrimRight(s) != "" ==> !IsSpace(TrimRight(s)[|TrimRight(s)| - 1])
  {
    hide IsSpace;
    if s != "" && IsSpace(s[|s| - 1]) {
      var front, last := s[..|s| - 1], s[|s| - 1];
      after := RightTrimmed(front);
      assert s == TrimRight(front) + (after + [last]);
      after := after + [last];
    } else {
      after := "";
    }
  }

  /** Trim removes the space on both sides and nothing else. */
  lemma TrimExactly(id: string) returns (before: string, after: string)
    ensures id == before + Trim(id) + after && AllSpace(before) && AllSpace(after)
    ensures Trim(id) != "" ==> !IsSpace(Trim(id)[0]) && !IsSpace(Trim(id)[|Trim(id)| - 1])
  {
    hide IsSpace, TrimLeft, TrimRight;
    before := LeftTrimmed(id);
    after := RightTrimmed(TrimLeft(id));
    assert before + (Trim(id) + after) == before + Trim(id) + after;
  }

  // ----- Places

  const AGENT_NAMES: seq<string> :=
    ["agentType", "agent_type", "parentAgentType", "parent_agent_type", "modeId", "mode_id", "default_mode_id",
     "last_mode_id", "lastUserDialogAgentType", "last_user_dialog_agent_type", "lastSubmittedAgentType",
     "last_submitted_agent_type"]
  const PROFILE_NAMES: seq<string> := ["configProfileId", "profile_id"]
  const PROFILE_MAPS: seq<string> := ["agent_profiles", "ai.agent_profiles"]
  const NAME_LISTS: seq<string> := ["configProfileMemberModeIds", "allowedParentAgentIds", "deniedParentAgentIds"]
  const OPAQUE: seq<string> :=
    ["content", "prompt", "arguments", "args", "input", "output", "metadata", "userMessageMetadata",
     "user_message_metadata", "value"]

  /** Some entry names a source other than the built-in one. */
  predicate OtherSource(es: seq<Entry>) {
    exists i :: 0 <= i < |es| && es[i].key == "source" && es[i].value.String? && es[i].value.s != "builtin"
  }

  predicate InCatalog(es: seq<Entry>) {
    exists i :: 0 <= i < |es| && (es[i].key == "toolCount" || es[i].key == "defaultTools")
  }

  /** What becomes of the value of one entry of a record of the built-in source. */
  ghost predicate Becomes(es: seq<Entry>, key: string, a: Json, dialect: Dialect, b: Json) {
    if a.Record? && key in PROFILE_MAPS then ProfileMap(a, dialect) == Some(b)
    else if a.String? && key in PROFILE_NAMES then b == String(Identity(a.s, dialect, true))
    else if a.String? && (key in AGENT_NAMES || (key == "id" && InCatalog(es)))
    then b == String(Identity(a.s, dialect, false))
    else if a.Array? && key in NAME_LISTS then
      && b.Array? && |b.items| == |a.items|
      && forall k :: 0 <= k < |a.items| ==>
           b.items[k] == if a.items[k].String? then String(Identity(a.items[k].s, dialect, false)) else a.items[k]
    else if key in OPAQUE then b == a
    else Translate(a, dialect) == Some(b)
  }

  lemma SourceOf(es: seq<Entry>)
    requires Distinct(es)
    ensures Foreign(es) <==> OtherSource(es)
  {
    if OtherSource(es) {
      var i :| 0 <= i < |es| && es[i].key == "source" && es[i].value.String? && es[i].value.s != "builtin";
      IndexUnique(es, i);
    }
  }

  lemma CatalogOf(es: seq<Entry>)
    ensures IsCatalogEntry(es) <==> InCatalog(es)
  {
    hide IndexOf;
  }

  lemma EntryBecomes(v: Json, k: nat, dialect: Dialect, x: Json)
    requires v.Record? && k < |v.entries| && TranslateEntry(v, k, dialect) == Some(x)
    ensures Becomes(v.entries, v.entries[k].key, v.entries[k].value, dialect, x)
  {
    hide Identity, Translate, ProfileMap, IsCatalogEntry, InCatalog, IdentityItem;
    hide IsAgentField, IsOpaque, IsIdList, IsProfileKey, IsProfileMapKey;
    CatalogOf(v.entries);
    KeySets(v.entries[k].key);
    var a := v.entries[k].value;
    if a.Array? {
      forall j | 0 <= j < |a.items|
        ensures IdentityItem(a.items[j], dialect)
                == if a.items[j].String? then String(Identity(a.items[j].s, dialect, false)) else a.items[j]
      {
        ItemIs(a.items[j], dialect);
      }
    }
  }

  lemma ItemIs(v: Json, dialect: Dialect)
    ensures IdentityItem(v, dialect) == if v.String? then String(Identity(v.s, dialect, false)) else v
  {
  }

  lemma KeySets(key: string)
    ensures key in AGENT_NAMES <==> IsAgentField(key)
    ensures key in PROFILE_NAMES <==> IsProfileKey(key)
    ensures key in PROFILE_MAPS <==> IsProfileMapKey(key)
    ensures key in NAME_LISTS <==> IsIdList(key)
    ensures key in OPAQUE <==> IsOpaque(key)
  {
  }

  /** Place by place: names are translated where the lists say so, opaque values stay, everything else is
      translated in turn, in records of the built-in source and in arrays; nothing else changes. */
  lemma TranslatedByPlace(v: Json, dialect: Dialect)
    requires WellFormed(v) && Translate(v, dialect).Some?
    ensures var w := Translate(v, dialect).value;
            match v
            case Array(items) =>
              && w.Array? && |w.items| == |items|
              && forall i :: 0 <= i < |items| ==> Translate(items[i], dialect) == Some(w.items[i])
            case Record(es) =>
              if OtherSource(es) then w == v
              else
                && w.Record? && |w.entries| == |es|
                && forall i :: 0 <= i < |es| ==>
                     w.entries[i].key == es[i].key
                     && Becomes(es, es[i].key, es[i].value, dialect, w.entries[i].value)
            case _ => w == v
  {
    hide TranslateEntry, TranslateItems, TranslateEntries, Foreign, OtherSource, Becomes;
    match v
    case Array(items) => ItemsShape(v, |items|, dialect);
    case Record(es) =>
      SourceOf(es);
      if !OtherSource(es) {
        EntriesShape(v, |es|, dialect);
        forall i | 0 <= i < |es|
          ensures Becomes(es, es[i].key, es[i].value, dialect, Translate(v, dialect).value.entries[i].value)
        {
          EntryBecomes(v, i, dialect, Translate(v, dialect).value.entries[i].value);
        }
      }
    case _ =>
  }

  // ----- Refusals

  /** Somewhere both have a value, not both a record, and the two differ. */
  ghost predicate Clash(a: Json, b: Json)
    decreases b
  {
    && !a.Null? && !b.Null?
    && if a.Record? && b.Record? then
         exists i :: 0 <= i < |b.entries| && Has(a.entries, b.entries[i].key)
                     && Clash(Get(a.entries, b.entries[i].key), b.entries[i].value)
       else a != b
  }

  /** Before entry n of the incoming record, its key still has what the base had. */
  lemma {:induction false} NotYetMerged(base: seq<Entry>, b: Json, n: nat, key: string)
    requires b.Record? && n <= |b.entries| && MergeEntries(base, b, n).Some?
    requires forall i :: 0 <= i < n ==> b.entries[i].key != key
    ensures var es := MergeEntries(base, b, n).value;
            (Has(es, key) <==> Has(base, key)) && (Has(base, key) ==> Get(es, key) == Get(base, key))
    decreases n
  {
    hide Has, Get, Set, Merge;
    if n > 0 {
      NotYetMerged(base, b, n - 1, key);
      var es, other := MergeEntries(base, b, n - 1).value, b.entries[n - 1].key;
      var m := if Has(es, other) then Merge(Get(es, other), b.entries[n - 1].value).value else b.entries[n - 1].value;
      SetGet(es, other, m, key);
    }
  }

  lemma {:induction false} MergeEntriesExactly(base: seq<Entry>, b: Json, n: nat)
    requires b.Record? && WellFormed(b) && n <= |b.entries|
    ensures MergeEntries(base, b, n).None? <==>
              exists i :: 0 <= i < n && Has(base, b.entries[i].key)
                          && Clash(Get(base, b.entries[i].key), b.entries[i].value)
    decreases b, 0, n
  {
    hide Has, Get, Set, Merge, Clash;
    if n > 0 {
      MergeEntriesExactly(base, b, n - 1);
      if MergeEntries(base, b, n - 1).Some? {
        var key, value := b.entries[n - 1].key, b.entries[n - 1].value;
        NotYetMerged(base, b, n - 1, key);
        assert WellFormed(value);
        if Has(base, key) {
          MergeExactly(Get(base, key), value);
        }
      }
    }
  }

  /** Two profiles are refused exactly when they disagree on a value. */
  lemma {:induction false} MergeExactly(a: Json, b: Json)
    requires WellFormed(b)
    ensures Merge(a, b).None? <==> Clash(a, b)
    decreases b, 1, 0
  {
    if a.Record? && b.Record? {
      MergeEntriesExactly(a.entries, b, |b.entries|);
    }
  }

  /** What a merge has under a key after the first n entries: what only one side has, else the merge of the two. */
  ghost predicate MergedAt(base: seq<Entry>, b: Json, n: nat, es: seq<Entry>, key: string)
    requires b.Record? && n <= |b.entries|
  {
    var k := IndexOf(b.entries, key);
    && (Has(es, key) <==> Has(base, key) || k < n)
    && (Has(es, key) ==>
          if k >= n then Get(es, key) == Get(base, key)
          else if !Has(base, key) then Get(es, key) == b.entries[k].value
          else Merge(Get(base, key), b.entries[k].value) == Some(Get(es, key)))
  }

  lemma {:induction false} EntriesMerged(base: seq<Entry>, b: Json, n: nat, key: string)
    requires b.Record? && Distinct(b.entries) && n <= |b.entries| && MergeEntries(base, b, n).Some?
    ensures MergedAt(base, b, n, MergeEntries(base, b, n).value, key)
    decreases n
  {
    hide Has, Get, Set, Merge;
    if n > 0 {
      EntriesMerged(base, b, n - 1, key);
      var es, other := MergeEntries(base, b, n - 1).value, b.entries[n - 1].key;
      var m := if Has(es, other) then Merge(Get(es, other), b.entries[n - 1].value).value else b.entries[n - 1].value;
      SetGet(es, other, m, key);
      IndexUnique(b.entries, n - 1);
    }
  }

  /** Merged records have the keys of both sides; a key of one side keeps its value, and under a common key the
      values are merged. */
  lemma MergedByKey(a: Json, b: Json, key: string)
    requires a.Record? && b.Record? && WellFormed(b) && Merge(a, b).Some?
    ensures var m := Merge(a, b).value;
            && m.Record? && (Has(m.entries, key) <==> Has(a.entries, key) || Has(b.entries, key))
            && (Has(a.entries, key) && !Has(b.entries, key) ==> Get(m.entries, key) == Get(a.entries, key))
            && (Has(b.entries, key) && !Has(a.entries, key) ==> Get(m.entries, key) == Get(b.entries, key))
            && (Has(a.entries, key) && Has(b.entries, key) ==>
                  Merge(Get(a.entries, key), Get(b.entries, key)) == Some(Get(m.entries, key)))
  {
    hide MergeEntries;
    EntriesMerged(a.entries, b, |b.entries|, key);
  }

  /** Of two values that are not both records a null gives way, and equal ones stay. */
  lemma MergedValues(a: Json, b: Json)
    requires !(a.Record? && b.Record?)
    ensures a.Null? ==> Merge(a, b) == Some(b)
    ensures b.Null? || a == b ==> Merge(a, b) == Some(a)
  {
  }

  /** A profile map somewhere in the translated part is refused. */
  ghost predicate HasConflict(v: Json, dialect: Dialect)
    decreases v
  {
    match v
    case Array(items) => exists i :: 0 <= i < |items| && HasConflict(items[i], dialect)
    case Record(es) => !Foreign(es) && exists i {:trigger es[i]} :: 0 <= i < |es| && EntryConflicts(es[i], dialect)
    case _ => false
  }

  ghost predicate EntryConflicts(e: Entry, dialect: Dialect)
    decreases e
  {
    var key, a := e.key, e.value;
    if key in PROFILE_MAPS && a.Record? then ProfileMap(a, dialect).None?
    else key !in OPAQUE && !(a.Array? && key in NAME_LISTS) && HasConflict(a, dialect)
  }

  lemma {:induction false} ItemsRefused(v: Json, n: nat, dialect: Dialect)
    requires v.Array? && n <= |v.items|
    requires forall i :: 0 <= i < |v.items| ==>
               (Translate(v.items[i], dialect).None? <==> HasConflict(v.items[i], dialect))
    ensures TranslateItems(v, n, dialect).None? <==> exists i :: 0 <= i < n && HasConflict(v.items[i], dialect)
    decreases n
  {
    hide Translate, HasConflict;
    if n > 0 {
      ItemsRefused(v, n - 1, dialect);
    }
  }

  lemma {:induction false} RefusedEntry(v: Json, n: nat, dialect: Dialect) returns (i: nat)
    requires v.Record? && n <= |v.entries| && TranslateEntries(v, n, dialect).None?
    ensures i < n && TranslateEntry(v, i, dialect).None?
    decreases n
  {
    hide TranslateEntry;
    if TranslateEntries(v, n - 1, dialect).None? {
      i := RefusedEntry(v, n - 1, dialect);
    } else {
      i := n - 1;
    }
  }

  lemma EntryRefused(v: Json, i: nat, dialect: Dialect)
    requires v.Record? && i < |v.entries|
    requires Translate(v.entries[i].value, dialect).None? <==> HasConflict(v.entries[i].value, dialect)
    ensures TranslateEntry(v, i, dialect).None? <==> EntryConflicts(v.entries[i], dialect)
  {
    hide Translate, HasConflict, ProfileMap, Identity, IsCatalogEntry, IdentityItem;
    hide IsAgentField, IsOpaque, IsIdList, IsProfileKey, IsProfileMapKey;
    KeySets(v.entries[i].key);
    if v.entries[i].value.String? {
      StringsHaveNone(v.entries[i].value, dialect);
    }
  }

  lemma StringsHaveNone(v: Json, dialect: Dialect)
    requires v.String?
    ensures !HasConflict(v, dialect)
  {
  }

  /** A tree is refused exactly when one of its translated profile maps is. */
  lemma {:induction false} RefusedExactly(v: Json, dialect: Dialect)
    ensures Translate(v, dialect).None? <==> HasConflict(v, dialect)
    decreases v
  {
    hide TranslateItems, TranslateEntries, TranslateEntry, Foreign, ProfileMap;
    match v
    case Array(items) =>
      forall i | 0 <= i < |items| ensures Translate(items[i], dialect).None? <==> HasConflict(items[i], dialect) {
        RefusedExactly(items[i], dialect);
      }
      ItemsRefused(v, |items|, dialect);
    case Record(es) =>
      forall i | 0 <= i < |es| ensures TranslateEntry(v, i, dialect).None? <==> EntryConflicts(es[i], dialect) {
        RefusedExactly(es[i].value, dialect);
        EntryRefused(v, i, dialect);
      }
      EntriesShape(v, |es|, dialect);
      if TranslateEntries(v, |es|, dialect).None? {
        var i := RefusedEntry(v, |es|, dialect);
        assert EntryConflicts(es[i], dialect);
      }
    case _ =>
  }

  // ----- Profile maps

  /** The entry of its name has everything of this profile. */
  ghost predicate KeptIn(fs: seq<Entry>, e: Entry, dialect: Dialect) {
    var key := Identity(e.key, dialect, true);
    Has(fs, key) && Extends(Get(fs, key), Profile(e.value, dialect))
  }

  lemma AddKeeps(fs: seq<Entry>, e: Entry, dialect: Dialect)
    requires WellFormed(Record(fs)) && WellFormed(Profile(e.value, dialect))
    requires AddProfile(fs, Identity(e.key, dialect, true), Profile(e.value, dialect)).Some?
    ensures var gs := AddProfile(fs, Identity(e.key, dialect, true), Profile(e.value, dialect)).value;
            && WellFormed(Record(gs)) && Extends(Record(gs), Record(fs)) && KeptIn(gs, e, dialect)
            && forall key :: Has(gs, key) <==> Has(fs, key) || key == Identity(e.key, dialect, true)
  {
    hide Extends, Merge, Set, Has, Profile, Identity;
    var key, v := Identity(e.key, dialect, true), Profile(e.value, dialect);
    var m := v;
    if Has(fs, key) {
      ValueWellFormed(fs, key);
      m := Merge(Get(fs, key), v).value;
      MergeKeeps(Get(fs, key), v);
    } else {
      ExtendsSelf(v);
    }
    SetExtends(fs, key, m);
    SetWellFormed(fs, key, m);
    forall other ensures Has(Set(fs, key, m), other) <==> Has(fs, other) || other == key {
      SetGet(fs, key, m, other);
    }
    SetGet(fs, key, m, key);
  }

  lemma ValueWellFormed(fs: seq<Entry>, key: string)
    requires WellFormed(Record(fs)) && Has(fs, key)
    ensures WellFormed(Get(fs, key))
  {
  }

  lemma ProfileWellFormed(v: Json, dialect: Dialect)
    requires WellFormed(v)
    ensures WellFormed(Profile(v, dialect))
  {
    hide Identity;
    if v.Record? {
      SetWellFormed(v.entries, "profile_id",
                    if Has(v.entries, "profile_id") && Get(v.entries, "profile_id").String?
                    then String(Identity(Get(v.entries, "profile_id").s, dialect, true)) else Null);
    }
  }

  lemma {:induction false} ProfilesKept(es: seq<Entry>, n: nat, dialect: Dialect)
    requires n <= |es| && (forall i :: 0 <= i < |es| ==> WellFormed(es[i].value))
    requires ProfileEntries(es, n, dialect).Some?
    ensures var fs := ProfileEntries(es, n, dialect).value;
            && WellFormed(Record(fs)) && (forall i :: 0 <= i < n ==> KeptIn(fs, es[i], dialect))
            && forall key :: Has(fs, key) <==> exists i :: 0 <= i < n && key == Identity(es[i].key, dialect, true)
    decreases n
  {
    hide Identity, Profile, AddProfile, Extends, Has, Get;
    if n > 0 {
      ProfilesKept(es, n - 1, dialect);
      var fs, gs := ProfileEntries(es, n - 1, dialect).value, ProfileEntries(es, n, dialect).value;
      ProfileWellFormed(es[n - 1].value, dialect);
      AddKeeps(fs, es[n - 1], dialect);
      forall i | 0 <= i < n ensures KeptIn(gs, es[i], dialect) {
        if i < n - 1 {
          KeyExtends(gs, fs, Identity(es[i].key, dialect, true), Profile(es[i].value, dialect));
        }
      }
    } else {
      NothingIn();
    }
  }

  lemma NothingIn()
    ensures WellFormed(Record([])) && forall key :: !Has([], key)
  {
  }

  /** A translated profile map has an entry for each name that is meant, no other, and each holds everything
      of every profile it was made of. */
  lemma ProfileMapKeeps(v: Json, dialect: Dialect)
    requires v.Record? && WellFormed(v) && ProfileMap(v, dialect).Some?
    ensures var w := ProfileMap(v, dialect).value;
            && w.Record? && WellFormed(w)
            && (forall i :: 0 <= i < |v.entries| ==> KeptIn(w.entries, v.entries[i], dialect))
            && forall key :: Has(w.entries, key)
                             <==> exists i :: 0 <= i < |v.entries| && key == Identity(v.entries[i].key, dialect, true)
  {
    hide ProfileEntries, KeptIn, Has, Identity;
    ProfilesKept(v.entries, |v.entries|, dialect);
  }

  /** Of a profile only its own name is translated; what is no record is neither a profile nor a map. */
  lemma ProfileExactly(v: Json, dialect: Dialect)
    requires WellFormed(v)
    ensures !v.Record? ==> ProfileMap(v, dialect) == Some(v)
    ensures var w := Profile(v, dialect);
            if !v.Record? then w == v
            else
              && w.Record? && |w.entries| == |v.entries|
              && forall i :: 0 <= i < |v.entries| ==>
                   w.entries[i] == if v.entries[i].key == "profile_id" && v.entries[i].value.String?
                                   then Entry("profile_id", String(Identity(v.entries[i].value.s, dialect, true)))
                                   else v.entries[i]
  {
    hide Identity;
    ProfileOf(v, dialect);
  }

  lemma {:induction false} NotMapped(es: seq<Entry>, n: nat, dialect: Dialect)
    requires n < |es|
    requires forall i, j :: 0 <= i < j < |es| ==>
               Identity(es[i].key, dialect, true) != Identity(es[j].key, dialect, true)
    ensures !Has(MapIn(es[..n], dialect), Identity(es[n].key, dialect, true))
  {
    hide Identity, Profile;
    var fs := MapIn(es[..n], dialect);
    assert forall i :: 0 <= i < n ==> fs[i].key == Identity(es[i].key, dialect, true);
  }

  /** Profiles of different names are translated one by one, and stay in order. */
  lemma {:induction false} ApartProfiles(es: seq<Entry>, n: nat, dialect: Dialect)
    requires n <= |es|
    requires forall i, j :: 0 <= i < j < |es| ==>
               Identity(es[i].key, dialect, true) != Identity(es[j].key, dialect, true)
    ensures ProfileEntries(es, n, dialect) == Some(MapIn(es[..n], dialect))
    decreases n
  {
    hide Identity, Profile, MapIn, Has;
    if n == 0 {
      EmptyMap(dialect, dialect);
      assert es[..0] == [];
    } else {
      ApartProfiles(es, n - 1, dialect);
      NotMapped(es, n - 1, dialect);
      assert es[..n] == es[..n - 1] + [es[n - 1]];
      MapSnoc(es[..n - 1], es[n - 1], dialect);
    }
  }

  lemma ApartMap(v: Json, dialect: Dialect)
    requires v.Record?
    requires forall i, j :: 0 <= i < j < |v.entries| ==>
               Identity(v.entries[i].key, dialect, true) != Identity(v.entries[j].key, dialect, true)
    ensures var w := ProfileMap(v, dialect);
            && w.Some? && w.value.Record? && |w.value.entries| == |v.entries|
            && forall i :: 0 <= i < |v.entries| ==>
                 w.value.entries[i]
                 == Entry(Identity(v.entries[i].key, dialect, true), Profile(v.entries[i].value, dialect))
  {
    hide Identity, Profile;
    ApartProfiles(v.entries, |v.entries|, dialect);
    assert v.entries[..|v.entries|] == v.entries;
  }
}
