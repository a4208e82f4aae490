/** The translation of whole JSON trees between the two identity dialects. */
module AgentWire {
  import opened Wrappers
  import opened AgentIdentity

  /** A record is its entries in order, each key once. */
  datatype Json =
    | Null | Bool(b: bool) | Number(n: real) | String(s: string)
    | Array(items: seq<Json>) | Record(entries: seq<Entry>)
  datatype Entry = Entry(key: string, value: Json)

  predicate Distinct(es: seq<Entry>) {
    forall i, j :: 0 <= i < j < |es| ==> es[i].key != es[j].key
  }

  /** The values JSON.parse returns. */
  ghost predicate WellFormed(v: Json) {
    match v
    case Array(items) => forall i :: 0 <= i < |items| ==> WellFormed(items[i])
    case Record(es) => Distinct(es) && forall i :: 0 <= i < |es| ==> WellFormed(es[i].value)
    case _ => true
  }

  /** The position of a key, or the number of entries. */
  function IndexOf(es: seq<Entry>, key: string): (k: nat)
    ensures k <= |es| && (k < |es| ==> es[k].key == key)
    ensures forall i :: 0 <= i < k ==> es[i].key != key
  {
    if es == [] then 0
    else if es[0].key == key then 0
    else 1 + IndexOf(es[1..], key)
  }

  predicate Has(es: seq<Entry>, key: string) {
    IndexOf(es, key) < |es|
  }

  function Get(es: seq<Entry>, key: string): Json
    requires Has(es, key)
  {
    es[IndexOf(es, key)].value
  }

  /** Map.set: the entry keeps its place, or comes last. */
  function Set(es: seq<Entry>, key: string, value: Json): seq<Entry> {
    if Has(es, key) then es[IndexOf(es, key) := Entry(key, value)] else es + [Entry(key, value)]
  }

  // ----- Merging profiles

  /** mergeProfileRecords; None is the conflict it throws. */
  function Merge(previous: Json, incoming: Json): Option<Json>
    decreases incoming, 1, 0
  {
    if previous.Null? then Some(incoming)
    else if incoming.Null? then Some(previous)
    else if previous.Record? && incoming.Record? then
      match MergeEntries(previous.entries, incoming, |incoming.entries|)
      case None => None
      case Some(es) => Some(Record(es))
    else if previous == incoming then Some(previous) else None
  }

  /** The first n entries of a record merged into entries, one after the other. */
  function MergeEntries(base: seq<Entry>, incoming: Json, n: nat): Option<seq<Entry>>
    requires incoming.Record? && n <= |incoming.entries|
    decreases incoming, 0, n
  {
    if n == 0 then Some(base)
    else
      match MergeEntries(base, incoming, n - 1)
      case None => None
      case Some(es) => MergeEntry(es, incoming.entries[n - 1].key, incoming, n - 1)
  }

  function MergeEntry(es: seq<Entry>, key: string, incoming: Json, k: nat): Option<seq<Entry>>
    requires incoming.Record? && k < |incoming.entries|
    decreases incoming, 0, k
  {
    var value := incoming.entries[k].value;
    if !Has(es, key) then Some(Set(es, key, value))
    else
      match Merge(Get(es, key), value)
      case None => None
      case Some(m) => Some(Set(es, key, m))
  }

  // ----- Profile maps

  /** translateProfile */
  function Profile(v: Json, dialect: Dialect): Json {
    if v.Record? && Has(v.entries, "profile_id") && Get(v.entries, "profile_id").String?
    then Record(Set(v.entries, "profile_id", String(Identity(Get(v.entries, "profile_id").s, dialect, true))))
    else v
  }

  /** translateProfileMap over the first n entries. */
  function ProfileEntries(es: seq<Entry>, n: nat, dialect: Dialect): Option<seq<Entry>>
    requires n <= |es|
  {
    if n == 0 then Some([])
    else
      match ProfileEntries(es, n - 1, dialect)
      case None => None
      case Some(acc) => AddProfile(acc, Identity(es[n - 1].key, dialect, true), Profile(es[n - 1].value, dialect))
  }

  function AddProfile(acc: seq<Entry>, key: string, profile: Json): Option<seq<Entry>> {
    if !Has(acc, key) then Some(Set(acc, key, profile))
    else
      match Merge(Get(acc, key), profile)
      case None => None
      case Some(m) => Some(Set(acc, key, m))
  }

  function ProfileMap(v: Json, dialect: Dialect): Option<Json> {
    if !v.Record? then Some(v)
    else
      match ProfileEntries(v.entries, |v.entries|, dialect)
      case None => None
      case Some(es) => Some(Record(es))
  }

  lemma {:induction false} MergeStops(base: seq<Entry>, incoming: Json, n: nat, m: nat)
    requires incoming.Record? && n <= m <= |incoming.entries| && MergeEntries(base, incoming, n) == None
    ensures MergeEntries(base, incoming, m) == None
    decreases m
  {
    hide MergeEntry;
    if n < m {
      MergeStops(base, incoming, n, m - 1);
    }
  }

  lemma {:induction false} ProfilesStop(es: seq<Entry>, n: nat, m: nat, dialect: Dialect)
    requires n <= m <= |es| && ProfileEntries(es, n, dialect) == None
    ensures ProfileEntries(es, m, dialect) == None
    decreases m
  {
    hide AddProfile, Identity, Profile;
    if n < m {
      ProfilesStop(es, n, m - 1, dialect);
    }
  }

  /** The loop of mergeProfileRecords; it stops at the first conflict. */
  method MergeProfileRecords(previous: Json, incoming: Json) returns (r: Option<Json>)
    ensures r == Merge(previous, incoming)
    decreases incoming
  {
    hide Set, IndexOf;
    if previous.Null? {
      return Some(incoming);
    }
    if incoming.Null? {
      return Some(previous);
    }
    if previous.Record? && incoming.Record? {
      var merged := previous.entries;
      var k := 0;
      while k < |incoming.entries|
        invariant 0 <= k <= |incoming.entries| && MergeEntries(previous.entries, incoming, k) == Some(merged)
      {
        var key, value := incoming.entries[k].key, incoming.entries[k].value;
        if Has(merged, key) {
          var m := MergeProfileRecords(Get(merged, key), value);
          if m.None? {
            MergeStops(previous.entries, incoming, k + 1, |incoming.entries|);
            return None;
          }
          merged := Set(merged, key, m.value);
        } else {
          merged := Set(merged, key, value);
        }
        k := k + 1;
      }
      return Some(Record(merged));
    }
    return if previous == incoming then Some(previous) else None;
  }

  /** The loop of translateProfileMap. */
  method TranslateProfileMap(v: Json, dialect: Dialect) returns (r: Option<Json>)
    ensures r == ProfileMap(v, dialect)
  {
    hide Set, IndexOf, Identity, Profile, Merge;
    if !v.Record? {
      return Some(v);
    }
    var profiles: seq<Entry> := [];
    var k := 0;
    while k < |v.entries|
      invariant 0 <= k <= |v.entries| && ProfileEntries(v.entries, k, dialect) == Some(profiles)
    {
      var key, profile := Identity(v.entries[k].key, dialect, true), Profile(v.entries[k].value, dialect);
      if Has(profiles, key) {
        var m := MergeProfileRecords(Get(profiles, key), profile);
        if m.None? {
          ProfilesStop(v.entries, k + 1, |v.entries|, dialect);
          return None;
        }
        profiles := Set(profiles, key, m.value);
      } else {
        profiles := Set(profiles, key, profile);
      }
      k := k + 1;
    }
    return Some(Record(profiles));
  }

  // ----- The tree

  predicate IsAgentField(key: string) {
    || key == "agentType" || key == "agent_type" || key == "parentAgentType" || key == "parent_agent_type"
    || key == "modeId" || key == "mode_id" || key == "default_mode_id" || key == "last_mode_id"
    || key == "lastUserDialogAgentType" || key == "last_user_dialog_agent_type"
    || key == "lastSubmittedAgentType" || key == "last_submitted_agent_type"
  }

  predicate IsOpaque(key: string) {
    || key == "content" || key == "prompt" || key == "arguments" || key == "args" || key == "input" || key == "output"
    || key == "metadata" || key == "userMessageMetadata" || key == "user_message_metadata" || key == "value"
  }

  predicate IsIdList(key: string) {
    key == "configProfileMemberModeIds" || key == "allowedParentAgentIds" || key == "deniedParentAgentIds"
  }

  predicate IsProfileKey(key: string) {
    key == "configProfileId" || key == "profile_id"
  }

  predicate IsProfileMapKey(key: string) {
    key == "agent_profiles" || key == "ai.agent_profiles"
  }

  /** A record from a source other than the built-in one. */
  predicate Foreign(es: seq<Entry>) {
    Has(es, "source") && Get(es, "source").String? && Get(es, "source").s != "builtin"
  }

  predicate IsCatalogEntry(es: seq<Entry>) {
    Has(es, "toolCount") || Has(es, "defaultTools")
  }

  function IdentityItem(v: Json, dialect: Dialect): Json {
    if v.String? then String(Identity(v.s, dialect, false)) else v
  }

  function IdentityItems(items: seq<Json>, dialect: Dialect): (r: seq<Json>)
    ensures |r| == |items|
  {
    seq(|items|, i requires 0 <= i < |items| => IdentityItem(items[i], dialect))
  }

  /** translateAgentIdentityFields; None is a conflict in some profile map. */
  function Translate(v: Json, dialect: Dialect): Option<Json>
    decreases v, 2, 0
  {
    match v
    case Array(items) =>
      (match TranslateItems(v, |items|, dialect)
       case None => None
       case Some(r) => Some(Array(r)))
    case Record(es) =>
      if Foreign(es) then Some(v)
      else
        (match TranslateEntries(v, |es|, dialect)
         case None => None
         case Some(r) => Some(Record(r)))
    case _ => Some(v)
  }

  function TranslateItems(v: Json, n: nat, dialect: Dialect): Option<seq<Json>>
    requires v.Array? && n <= |v.items|
    decreases v, 1, n
  {
    if n == 0 then Some([])
    else
      match TranslateItems(v, n - 1, dialect)
      case None => None
      case Some(r) =>
        match Translate(v.items[n - 1], dialect)
        case None => None
        case Some(x) => Some(r + [x])
  }

  function TranslateEntries(v: Json, n: nat, dialect: Dialect): Option<seq<Entry>>
    requires v.Record? && n <= |v.entries|
    decreases v, 1, n
  {
    if n == 0 then Some([])
    else
      match TranslateEntries(v, n - 1, dialect)
      case None => None
      case Some(r) =>
        match TranslateEntry(v, n - 1, dialect)
        case None => None
        case Some(x) => Some(r + [Entry(v.entries[n - 1].key, x)])
  }

  function TranslateEntry(v: Json, k: nat, dialect: Dialect): Option<Json>
    requires v.Record? && k < |v.entries|
    decreases v, 0, k
  {
    var key, item := v.entries[k].key, v.entries[k].value;
    if IsProfileMapKey(key) && item.Record? then ProfileMap(item, dialect)
    else if item.String? && (IsProfileKey(key) || IsAgentField(key) || (IsCatalogEntry(v.entries) && key == "id"))
    then Some(String(Identity(item.s, dialect, IsProfileKey(key))))
    else if IsIdList(key) && item.Array? then Some(Array(IdentityItems(item.items, dialect)))
    else if IsOpaque(key) then Some(item)
    else Translate(item, dialect)
  }
}
