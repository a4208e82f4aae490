/** Laws of the dialect translation: only the last dialect counts, conflicts do not depend on the
    dialect, a merge loses nothing, and what is not an identity stays as it is. */
module AgentWireLaws {
  import opened Wrappers
  import opened AgentIdentity
  import opened AgentWire

  // ----- Entries

  predicate SameKeys(a: seq<Entry>, b: seq<Entry>) {
    |a| == |b| && forall i :: 0 <= i < |a| ==> a[i].key == b[i].key
  }

  lemma {:induction false} SameIndex(a: seq<Entry>, b: seq<Entry>, key: string)
    requires SameKeys(a, b)
    ensures IndexOf(a, key) == IndexOf(b, key) && (Has(a, key) <==> Has(b, key))
  {
    if a != [] && a[0].key != key {
      SameIndex(a[1..], b[1..], key);
    }
  }

  lemma IndexUnique(es: seq<Entry>, i: nat)
    requires Distinct(es) && i < |es|
    ensures IndexOf(es, es[i].key) == i && Has(es, es[i].key) && Get(es, es[i].key) == es[i].value
  {
  }

  lemma SetDistinct(es: seq<Entry>, key: string, value: Json)
    requires Distinct(es)
    ensures Distinct(Set(es, key, value))
  {
  }

  // ----- A profile in a dialect

  /** A profile_id written as a string is the one entry of a profile that changes. */
  function InDialect(key: string, v: Json, dialect: Dialect): Json {
    if key == "profile_id" && v.String? then String(Identity(v.s, dialect, true)) else v
  }

  function EntriesIn(es: seq<Entry>, dialect: Dialect): (r: seq<Entry>)
    ensures |r| == |es|
  {
    seq(|es|, i requires 0 <= i < |es| => Entry(es[i].key, InDialect(es[i].key, es[i].value, dialect)))
  }

  lemma ProfileIsPointwise(v: Json, dialect: Dialect)
    requires v.Record? && Distinct(v.entries)
    ensures Profile(v, dialect) == Record(EntriesIn(v.entries, dialect))
  {
    hide Identity;
    var es := v.entries;
    forall i | 0 <= i < |es| && es[i].key == "profile_id"
        ensures Has(es, "profile_id") && IndexOf(es, "profile_id") == i {
      IndexUnique(es, i);
    }
    if Has(es, "profile_id") {
      assert es[IndexOf(es, "profile_id")].key == "profile_id";
    }
    assert Profile(v, dialect).entries == EntriesIn(es, dialect);
  }

  /** Already written in this dialect. */
  predicate Fixed(v: Json, dialect: Dialect) {
    v.Record? ==> Distinct(v.entries) && EntriesIn(v.entries, dialect) == v.entries
  }

  lemma InDialectTwice(key: string, v: Json, first: Dialect, second: Dialect)
    ensures InDialect(key, InDialect(key, v, first), second) == InDialect(key, v, second)
  {
    hide Identity;
    if key == "profile_id" && v.String? {
      LastDialectWins(v.s, first, second, true);
    }
  }

  lemma ProfileTwice(v: Json, first: Dialect, second: Dialect)
    requires v.Record? ==> Distinct(v.entries)
    ensures Profile(Profile(v, first), second) == Profile(v, second) && Fixed(Profile(v, first), first)
  {
    hide InDialect;
    if v.Record? {
      var p := EntriesIn(v.entries, first);
      ProfileIsPointwise(v, first);
      ProfileIsPointwise(v, second);
      assert Distinct(p);
      ProfileIsPointwise(Record(p), second);
      forall i | 0 <= i < |p|
          ensures EntriesIn(p, second)[i] == EntriesIn(v.entries, second)[i] && EntriesIn(p, first)[i] == p[i] {
        InDialectTwice(v.entries[i].key, v.entries[i].value, first, second);
        InDialectTwice(v.entries[i].key, v.entries[i].value, first, first);
      }
      assert EntriesIn(p, second) == EntriesIn(v.entries, second);
      assert EntriesIn(p, first) == p;
    } else {
      hide Profile;
      NotARecord(v, first);
      NotARecord(v, second);
    }
  }

  lemma NotARecord(v: Json, dialect: Dialect)
    requires !v.Record?
    ensures Profile(v, dialect) == v
  {
  }

  // ----- Merging commutes with the translation

  /** Two values of the same key of two profiles. */
  lemma MergeValues(key: string, a: Json, b: Json, first: Dialect, second: Dialect)
    requires InDialect(key, a, first) == a && InDialect(key, b, first) == b
    ensures match Merge(a, b)
            case None => Merge(InDialect(key, a, second), InDialect(key, b, second)) == None
            case Some(m) =>
              && Merge(InDialect(key, a, second), InDialect(key, b, second)) == Some(InDialect(key, m, second))
              && InDialect(key, m, first) == m
  {
    hide Identity, MergeEntries;
    if key == "profile_id" && a.String? && b.String? {
      SameCollisions(a.s, b.s, first, second, true);
    }
  }

  lemma SetIn(es: seq<Entry>, key: string, v: Json, dialect: Dialect)
    ensures EntriesIn(Set(es, key, v), dialect) == Set(EntriesIn(es, dialect), key, InDialect(key, v, dialect))
    ensures Has(EntriesIn(es, dialect), key) <==> Has(es, key)
    ensures Has(es, key) ==> Get(EntriesIn(es, dialect), key) == InDialect(key, Get(es, key), dialect)
  {
    hide InDialect;
    SameIndex(EntriesIn(es, dialect), es, key);
  }

  lemma SetFixed(es: seq<Entry>, key: string, v: Json, dialect: Dialect)
    requires EntriesIn(es, dialect) == es && InDialect(key, v, dialect) == v
    ensures EntriesIn(Set(es, key, v), dialect) == Set(es, key, v)
  {
    hide InDialect;
    SetIn(es, key, v, dialect);
  }

  lemma GetFixed(es: seq<Entry>, key: string, dialect: Dialect)
    requires EntriesIn(es, dialect) == es && Has(es, key)
    ensures InDialect(key, Get(es, key), dialect) == Get(es, key)
  {
    hide InDialect;
    assert EntriesIn(es, dialect)[IndexOf(es, key)] == es[IndexOf(es, key)];
  }

  lemma MergeEntryCommutes(es: seq<Entry>, incoming: Json, k: nat, first: Dialect, second: Dialect)
    requires incoming.Record? && k < |incoming.entries| && Distinct(es)
    requires EntriesIn(es, first) == es && EntriesIn(incoming.entries, first) == incoming.entries
    ensures var key := incoming.entries[k].key;
            var other := MergeEntry(EntriesIn(es, second), key, Record(EntriesIn(incoming.entries, second)), k);
            match MergeEntry(es, key, incoming, k)
            case None => other == None
            case Some(fs) => other == Some(EntriesIn(fs, second)) && Distinct(fs) && EntriesIn(fs, first) == fs
  {
    hide InDialect, Set, Merge;
    var key, v := incoming.entries[k].key, incoming.entries[k].value;
    assert EntriesIn(incoming.entries, first)[k] == incoming.entries[k];
    SetIn(es, key, v, second);
    if Has(es, key) {
      GetFixed(es, key, first);
      MergeValues(key, Get(es, key), v, first, second);
      var m := Merge(Get(es, key), v);
      if m.Some? {
        SetIn(es, key, m.value, second);
        SetFixed(es, key, m.value, first);
        SetDistinct(es, key, m.value);
      }
    } else {
      SetFixed(es, key, v, first);
      SetDistinct(es, key, v);
    }
  }

  lemma {:induction false} MergeEntriesCommute(base: seq<Entry>, incoming: Json, n: nat, first: Dialect,
      second: Dialect)
    requires incoming.Record? && n <= |incoming.entries| && Distinct(base)
    requires EntriesIn(base, first) == base && EntriesIn(incoming.entries, first) == incoming.entries
    ensures var other := MergeEntries(EntriesIn(base, second), Record(EntriesIn(incoming.entries, second)), n);
            match MergeEntries(base, incoming, n)
            case None => other == None
            case Some(es) => other == Some(EntriesIn(es, second)) && Distinct(es) && EntriesIn(es, first) == es
    decreases n
  {
    hide EntriesIn, MergeEntry;
    if n > 0 {
      MergeEntriesCommute(base, incoming, n - 1, first, second);
      var es := MergeEntries(base, incoming, n - 1);
      KeysIn(incoming.entries, second);
      if es.Some? {
        MergeEntryCommutes(es.value, incoming, n - 1, first, second);
      }
    }
  }

  lemma KeysIn(es: seq<Entry>, dialect: Dialect)
    ensures SameKeys(EntriesIn(es, dialect), es)
  {
    hide InDialect;
  }

  /** Merging two profiles in one dialect and translating the result is merging them in the other
      dialect; a conflict in one is a conflict in the other. */
  lemma MergeCommutes(a: Json, b: Json, first: Dialect, second: Dialect)
    requires Fixed(a, first) && Fixed(b, first)
    ensures match Merge(a, b)
            case None => Merge(Profile(a, second), Profile(b, second)) == None
            case Some(m) => Merge(Profile(a, second), Profile(b, second)) == Some(Profile(m, second)) && Fixed(m, first)
  {
    hide EntriesIn, Profile, MergeEntries;
    ProfileOf(a, second);
    ProfileOf(b, second);
    if a.Record? && b.Record? {
      var n := |b.entries|;
      KeysIn(b.entries, second);
      MergeEntriesCommute(a.entries, b, n, first, second);
      var es := MergeEntries(a.entries, b, n);
      if es.Some? {
        ProfileOf(Record(es.value), second);
      }
    }
  }

  lemma ProfileOf(v: Json, dialect: Dialect)
    requires v.Record? ==> Distinct(v.entries)
    ensures Profile(v, dialect) == if v.Record? then Record(EntriesIn(v.entries, dialect)) else v
  {
    hide EntriesIn;
    if v.Record? {
      ProfileIsPointwise(v, dialect);
    }
  }

  // ----- Profile maps

  /** A profile map in a dialect, when nothing collides. */
  function MapIn(es: seq<Entry>, dialect: Dialect): (r: seq<Entry>)
    ensures |r| == |es|
  {
    seq(|es|, i requires 0 <= i < |es| => Entry(Identity(es[i].key, dialect, true), Profile(es[i].value, dialect)))
  }

  /** The profiles collected so far: keys and values in their dialect. */
  predicate Collected(es: seq<Entry>, dialect: Dialect) {
    Distinct(es) && forall i :: 0 <= i < |es| ==>
        Identity(es[i].key, dialect, true) == es[i].key && Fixed(es[i].value, dialect)
  }

  lemma {:induction false} MapIndex(es: seq<Entry>, key: string, first: Dialect, second: Dialect)
    requires forall i :: 0 <= i < |es| ==> Identity(es[i].key, first, true) == es[i].key
    requires Identity(key, first, true) == key
    ensures IndexOf(MapIn(es, second), Identity(key, second, true)) == IndexOf(es, key)
  {
    hide Identity, Profile;
    if es != [] {
      SameCollisions(es[0].key, key, first, second, true);
      assert MapIn(es, second)[1..] == MapIn(es[1..], second);
      if es[0].key != key {
        MapIndex(es[1..], key, first, second);
      }
    }
  }

  lemma AddCommutes(es: seq<Entry>, id: string, config: Json, first: Dialect, second: Dialect)
    requires Collected(es, first) && (config.Record? ==> Distinct(config.entries))
    ensures var other := AddProfile(MapIn(es, second), Identity(id, second, true), Profile(config, second));
            match AddProfile(es, Identity(id, first, true), Profile(config, first))
            case None => other == None
            case Some(fs) => other == Some(MapIn(fs, second)) && Collected(fs, first)
  {
    hide Identity, Profile, Merge, Fixed;
    var key, p := Identity(id, first, true), Profile(config, first);
    LastDialectWins(id, first, first, true);
    LastDialectWins(id, first, second, true);
    MapIndex(es, key, first, second);
    ProfileTwice(config, first, second);
    if Has(es, key) {
      var k := IndexOf(es, key);
      MergeCommutes(Get(es, key), p, first, second);
      var m := Merge(Get(es, key), p);
      if m.Some? {
        assert MapIn(es[k := Entry(key, m.value)], second)
            == MapIn(es, second)[k := Entry(Identity(key, second, true), Profile(m.value, second))];
        SetDistinct(es, key, m.value);
      }
    } else {
      SetDistinct(es, key, p);
      assert MapIn(es + [Entry(key, p)], second)
          == MapIn(es, second) + [Entry(Identity(key, second, true), Profile(p, second))];
    }
  }

  lemma {:induction false} ProfilesCommute(es: seq<Entry>, n: nat, first: Dialect, second: Dialect)
    requires n <= |es| && forall i :: 0 <= i < |es| && es[i].value.Record? ==> Distinct(es[i].value.entries)
    ensures var other := ProfileEntries(es, n, second);
            match ProfileEntries(es, n, first)
            case None => other == None
            case Some(fs) => other == Some(MapIn(fs, second)) && Collected(fs, first)
    decreases n
  {
    hide Identity, Profile, AddProfile, Collected, MapIn;
    if n == 0 {
      EmptyMap(first, second);
    } else {
      ProfilesCommute(es, n - 1, first, second);
      var fs := ProfileEntries(es, n - 1, first);
      if fs.Some? {
        AddCommutes(fs.value, es[n - 1].key, es[n - 1].value, first, second);
      }
    }
  }

  lemma EmptyMap(first: Dialect, second: Dialect)
    ensures MapIn([], second) == [] && Collected([], first)
  {
  }

  lemma NextIsNew(fs: seq<Entry>, n: nat, first: Dialect, second: Dialect)
    requires 0 < n <= |fs| && Collected(fs, first)
    ensures !Has(MapIn(fs[..n - 1], second), Identity(fs[n - 1].key, second, true))
  {
    hide Identity, Profile, Fixed, MapIn;
    var front, key := fs[..n - 1], fs[n - 1].key;
    MapIndex(front, key, first, second);
    assert forall i :: 0 <= i < n - 1 ==> front[i].key != key;
    MapLength(front, second);
  }

  lemma MapLength(es: seq<Entry>, dialect: Dialect)
    ensures |MapIn(es, dialect)| == |es|
  {
  }

  lemma MapSnoc(es: seq<Entry>, x: Entry, dialect: Dialect)
    ensures MapIn(es + [x], dialect)
        == MapIn(es, dialect) + [Entry(Identity(x.key, dialect, true), Profile(x.value, dialect))]
  {
    hide Identity, Profile;
  }

  /** Translating collected profiles again meets no collision. */
  lemma {:induction false} NoCollision(fs: seq<Entry>, n: nat, first: Dialect, second: Dialect)
    requires n <= |fs| && Collected(fs, first)
    ensures ProfileEntries(fs, n, second) == Some(MapIn(fs[..n], second))
    decreases n
  {
    hide Identity, Profile, Collected, Merge, MapIn, Has;
    if n == 0 {
      EmptyMap(first, second);
      assert fs[..0] == [];
    } else {
      NoCollision(fs, n - 1, first, second);
      NextIsNew(fs, n, first, second);
      assert fs[..n] == fs[..n - 1] + [fs[n - 1]];
      MapSnoc(fs[..n - 1], fs[n - 1], second);
    }
  }

  /** A profile map: only the last dialect counts, alias keys and conflicts included. */
  lemma ProfileMapLastDialectWins(v: Json, first: Dialect, second: Dialect)
    requires WellFormed(v)
    ensures match ProfileMap(v, first)
            case None => ProfileMap(v, second) == None
            case Some(w) =>
                && ProfileMap(v, second).Some? && ProfileMap(w, second) == ProfileMap(v, second)
                && (w.Record? <==> v.Record?)
  {
    hide Collected, MapIn, ProfileEntries;
    if v.Record? {
      forall i | 0 <= i < |v.entries| && v.entries[i].value.Record? ensures Distinct(v.entries[i].value.entries) {
        assert WellFormed(v.entries[i].value);
      }
      ProfilesCommute(v.entries, |v.entries|, first, second);
      var fs := ProfileEntries(v.entries, |v.entries|, first);
      if fs.Some? {
        assert fs.value[..|fs.value|] == fs.value;
        NoCollision(fs.value, |fs.value|, first, second);
      }
    }
  }

  // ----- Trees

  predicate SameKind(a: Json, b: Json) {
    && (a.String? <==> b.String?) && (a.Array? <==> b.Array?) && (a.Record? <==> b.Record?)
    && (!a.String? && !a.Array? && !a.Record? ==> a == b)
  }

  /** The translation of a record keeps its keys, in order, and its kind of source. */
  lemma {:induction false} EntriesShape(v: Json, n: nat, dialect: Dialect)
    requires v.Record? && n <= |v.entries|
    ensures var r := TranslateEntries(v, n, dialect);
            r.Some? ==> |r.value| == n
                        && forall i :: 0 <= i < n ==> && r.value[i].key == v.entries[i].key
                                                      && TranslateEntry(v, i, dialect) == Some(r.value[i].value)
    decreases n
  {
    hide TranslateEntry;
    if n > 0 {
      EntriesShape(v, n - 1, dialect);
    }
  }

  lemma {:induction false} ItemsShape(v: Json, n: nat, dialect: Dialect)
    requires v.Array? && n <= |v.items|
    ensures var r := TranslateItems(v, n, dialect);
            r.Some? ==> |r.value| == n && forall i :: 0 <= i < n ==> Translate(v.items[i], dialect) == Some(r.value[i])
    decreases n
  {
    hide Translate;
    if n > 0 {
      ItemsShape(v, n - 1, dialect);
    }
  }

  lemma KindKept(v: Json, dialect: Dialect)
    ensures Translate(v, dialect).Some? ==>
        SameKind(Translate(v, dialect).value, v) && (v.String? ==> Translate(v, dialect).value == v)
  {
    hide TranslateItems, TranslateEntries;
  }

  lemma EntryKindKept(v: Json, k: nat, dialect: Dialect)
    requires v.Record? && k < |v.entries|
    ensures var r := TranslateEntry(v, k, dialect);
            r.Some? ==>
                && SameKind(r.value, v.entries[k].value)
                && (v.entries[k].key == "source" && v.entries[k].value.String? ==> r.value == v.entries[k].value)
  {
    hide Translate, Identity, ProfileEntries, IdentityItems;
    KindKept(v.entries[k].value, dialect);
  }

  /** A translated record is looked at as the original was. */
  lemma SameView(v: Json, es: seq<Entry>, dialect: Dialect)
    requires v.Record? && TranslateEntries(v, |v.entries|, dialect) == Some(es)
    ensures SameKeys(es, v.entries) && (Foreign(es) <==> Foreign(v.entries))
    ensures IsCatalogEntry(es) <==> IsCatalogEntry(v.entries)
  {
    hide TranslateEntry, TranslateEntries;
    EntriesShape(v, |v.entries|, dialect);
    SameIndex(es, v.entries, "source");
    SameIndex(es, v.entries, "toolCount");
    SameIndex(es, v.entries, "defaultTools");
    if Has(es, "source") {
      EntryKindKept(v, IndexOf(es, "source"), dialect);
    }
  }

  lemma IdentityItemsTwice(items: seq<Json>, first: Dialect, second: Dialect)
    ensures IdentityItems(IdentityItems(items, first), second) == IdentityItems(items, second)
  {
    hide Identity;
    forall i | 0 <= i < |items| && items[i].String?
        ensures Identity(Identity(items[i].s, first, false), second, false) == Identity(items[i].s, second, false) {
      LastDialectWins(items[i].s, first, second, false);
    }
  }

  /** One entry: w is the whole record after the first translation. */
  lemma EntryLastDialectWins(v: Json, k: nat, w: Json, first: Dialect, second: Dialect)
    requires v.Record? && w.Record? && k < |v.entries| && SameKeys(w.entries, v.entries)
    requires WellFormed(v.entries[k].value)
    requires IsCatalogEntry(w.entries) <==> IsCatalogEntry(v.entries)
    requires var x, item := TranslateEntry(v, k, first), v.entries[k].value;
             && (x.Some? ==> w.entries[k].value == x.value)
             && TreeLaw(item, first, second)
    ensures match TranslateEntry(v, k, first)
            case None => TranslateEntry(v, k, second) == None
            case Some(x) =>
                TranslateEntry(v, k, second).Some? && TranslateEntry(w, k, second) == TranslateEntry(v, k, second)
  {
    hide Identity, Translate, IdentityItems, ProfileMap, IsCatalogEntry;
    var key, item := v.entries[k].key, v.entries[k].value;
    ProfileMapLastDialectWins(item, first, second);
    KindKept(item, first);
    if item.String? {
      LastDialectWins(item.s, first, second, IsProfileKey(key));
    }
    if item.Array? {
      IdentityItemsTwice(item.items, first, second);
    }
  }

  /** The law for one tree. */
  predicate TreeLaw(v: Json, first: Dialect, second: Dialect) {
    match Translate(v, first)
    case None => Translate(v, second) == None
    case Some(w) => Translate(v, second).Some? && Translate(w, second) == Translate(v, second)
  }

  /** If it raises no conflict, translating into one dialect and then into another is translating into
      the other alone, over all trees: translations are idempotent, and going through the legacy dialect
      loses nothing. A tree raises a conflict in both dialects or in none. */
  lemma {:induction false} TreeLastDialectWins(v: Json, first: Dialect, second: Dialect)
    requires WellFormed(v)
    ensures TreeLaw(v, first, second)
    decreases v
  {
    hide TranslateItems, TranslateEntries;
    match v
    case Array(items) =>
      forall i | 0 <= i < |items| ensures TreeLaw(items[i], first, second) {
        TreeLastDialectWins(items[i], first, second);
      }
      ItemsLaw(v, first, second);
    case Record(es) =>
      forall i | 0 <= i < |es| ensures TreeLaw(es[i].value, first, second) {
        TreeLastDialectWins(es[i].value, first, second);
      }
      EntriesLaw(v, first, second);
      var r := TranslateEntries(v, |es|, first);
      if r.Some? {
        SameView(v, r.value, first);
      }
    case _ =>
  }

  lemma {:induction false} ItemsAre(v: Json, n: nat, r: seq<Json>, dialect: Dialect)
    requires v.Array? && n <= |v.items| == |r|
    requires forall i :: 0 <= i < n ==> Translate(v.items[i], dialect) == Some(r[i])
    ensures TranslateItems(v, n, dialect) == Some(r[..n])
    decreases n
  {
    hide Translate;
    if n > 0 {
      ItemsAre(v, n - 1, r, dialect);
      assert r[..n] == r[..n - 1] + [r[n - 1]];
    } else {
      assert r[..0] == [];
    }
  }

  lemma {:induction false} ItemsSameConflict(v: Json, n: nat, first: Dialect, second: Dialect)
    requires v.Array? && n <= |v.items| && forall i :: 0 <= i < |v.items| ==> TreeLaw(v.items[i], first, second)
    ensures TranslateItems(v, n, first).None? <==> TranslateItems(v, n, second).None?
    decreases n
  {
    hide Translate;
    if n > 0 {
      ItemsSameConflict(v, n - 1, first, second);
      assert TreeLaw(v.items[n - 1], first, second);
    }
  }

  lemma ItemsLaw(v: Json, first: Dialect, second: Dialect)
    requires v.Array? && forall i :: 0 <= i < |v.items| ==> TreeLaw(v.items[i], first, second)
    ensures var other := TranslateItems(v, |v.items|, second);
            match TranslateItems(v, |v.items|, first)
            case None => other == None
            case Some(r) => other.Some? && TranslateItems(Array(r), |r|, second) == other
  {
    hide Translate, TranslateItems;
    var n := |v.items|;
    ItemsSameConflict(v, n, first, second);
    var r, other := TranslateItems(v, n, first), TranslateItems(v, n, second);
    if r.Some? {
      ItemsShape(v, n, first);
      ItemsShape(v, n, second);
      forall i | 0 <= i < n ensures Translate(r.value[i], second) == Some(other.value[i]) {
        assert TreeLaw(v.items[i], first, second);
      }
      ItemsAre(Array(r.value), n, other.value, second);
      assert other.value[..n] == other.value;
    }
  }

  lemma {:induction false} EntriesAre(v: Json, n: nat, r: seq<Entry>, dialect: Dialect)
    requires v.Record? && n <= |v.entries| && SameKeys(v.entries, r)
    requires forall i :: 0 <= i < n ==> TranslateEntry(v, i, dialect) == Some(r[i].value)
    ensures TranslateEntries(v, n, dialect) == Some(r[..n])
    decreases n
  {
    hide TranslateEntry;
    if n > 0 {
      EntriesAre(v, n - 1, r, dialect);
      assert r[..n] == r[..n - 1] + [r[n - 1]];
    } else {
      assert r[..0] == [];
    }
  }

  lemma EntrySameConflict(v: Json, k: nat, first: Dialect, second: Dialect)
    requires v.Record? && k < |v.entries| && WellFormed(v.entries[k].value)
    requires TreeLaw(v.entries[k].value, first, second)
    ensures TranslateEntry(v, k, first).None? <==> TranslateEntry(v, k, second).None?
  {
    hide Identity, Translate, IdentityItems, ProfileMap, IsCatalogEntry;
    ProfileMapLastDialectWins(v.entries[k].value, first, second);
  }

  lemma {:induction false} EntriesSameConflict(v: Json, n: nat, first: Dialect, second: Dialect)
    requires v.Record? && n <= |v.entries|
    requires forall i :: 0 <= i < |v.entries| ==>
        WellFormed(v.entries[i].value) && TreeLaw(v.entries[i].value, first, second)
    ensures TranslateEntries(v, n, first).None? <==> TranslateEntries(v, n, second).None?
    decreases n
  {
    hide TranslateEntry, TreeLaw, WellFormed;
    if n > 0 {
      EntriesSameConflict(v, n - 1, first, second);
      EntrySameConflict(v, n - 1, first, second);
    }
  }

  lemma EntriesLaw(v: Json, first: Dialect, second: Dialect)
    requires v.Record? && WellFormed(v)
    requires forall i :: 0 <= i < |v.entries| ==> TreeLaw(v.entries[i].value, first, second)
    ensures var other := TranslateEntries(v, |v.entries|, second);
            match TranslateEntries(v, |v.entries|, first)
            case None => other == None
            case Some(r) => other.Some? && TranslateEntries(Record(r), |r|, second) == other
  {
    hide TranslateEntry, TranslateEntries, TreeLaw, IsCatalogEntry, Foreign;
    var n := |v.entries|;
    EntriesSameConflict(v, n, first, second);
    var r, other := TranslateEntries(v, n, first), TranslateEntries(v, n, second);
    if r.Some? {
      var w := Record(r.value);
      EntriesShape(v, n, first);
      EntriesShape(v, n, second);
      SameView(v, r.value, first);
      forall i | 0 <= i < n ensures TranslateEntry(w, i, second) == Some(other.value[i].value) {
        EntryLastDialectWins(v, i, w, first, second);
      }
      EntriesAre(w, n, other.value, second);
      assert other.value[..n] == other.value;
    }
  }

  // ----- What a merge keeps

  /** Everything in a is in m: nulls aside, the same value, or a record with all of a's keys. */
  ghost predicate Extends(m: Json, a: Json)
    decreases a
  {
    if a.Null? then true
    else if a.Record? then
      m.Record? && forall i :: 0 <= i < |a.entries| ==>
          Has(m.entries, a.entries[i].key) && Extends(Get(m.entries, a.entries[i].key), a.entries[i].value)
    else m == a
  }

  lemma {:induction false} ExtendsSelf(a: Json)
    requires WellFormed(a)
    ensures Extends(a, a)
    decreases a
  {
    if a.Record? {
      forall i | 0 <= i < |a.entries|
          ensures Has(a.entries, a.entries[i].key) && Extends(Get(a.entries, a.entries[i].key), a.entries[i].value) {
        IndexUnique(a.entries, i);
        ExtendsSelf(a.entries[i].value);
      }
    }
  }

  lemma {:induction false} ExtendsThrough(x: Json, y: Json, z: Json)
    requires Extends(x, y) && Extends(y, z)
    ensures Extends(x, z)
    decreases z
  {
    if z.Record? {
      forall i | 0 <= i < |z.entries|
          ensures Has(x.entries, z.entries[i].key) && Extends(Get(x.entries, z.entries[i].key), z.entries[i].value) {
        var key := z.entries[i].key;
        var k := IndexOf(y.entries, key);
        assert y.entries[k].key == key;
        ExtendsThrough(Get(x.entries, key), y.entries[k].value, z.entries[i].value);
      }
    }
  }

  lemma SetGet(es: seq<Entry>, key: string, m: Json, other: string)
    ensures var fs := Set(es, key, m);
            && (Has(fs, other) <==> Has(es, other) || other == key)
            && (other == key ==> Get(fs, other) == m)
            && (other != key && Has(es, other) ==> Get(fs, other) == Get(es, other))
  {
    var fs := Set(es, key, m);
    if Has(es, key) {
      SameIndex(fs, es, other);
    } else {
      IndexAppend(es, Entry(key, m), other);
    }
  }

  lemma {:induction false} IndexAppend(es: seq<Entry>, x: Entry, key: string)
    ensures IndexOf(es + [x], key) == if Has(es, key) then IndexOf(es, key) else if x.key == key then |es| else |es| + 1
  {
    if es != [] {
      assert (es + [x])[1..] == es[1..] + [x];
      IndexAppend(es[1..], x, key);
    }
  }

  /** Setting a key to something that extends its old value extends the record. */
  lemma SetExtends(es: seq<Entry>, key: string, m: Json)
    requires WellFormed(Record(es)) && (Has(es, key) ==> Extends(m, Get(es, key)))
    ensures Extends(Record(Set(es, key, m)), Record(es))
  {
    hide Extends;
    var fs := Set(es, key, m);
    forall i | 0 <= i < |es| ensures Has(fs, es[i].key) && Extends(Get(fs, es[i].key), es[i].value) {
      IndexUnique(es, i);
      SetGet(es, key, m, es[i].key);
      ExtendsSelf(es[i].value);
    }
    ExtendsRecord(fs, es);
  }

  lemma ExtendsRecord(m: seq<Entry>, a: seq<Entry>)
    ensures Extends(Record(m), Record(a)) <==>
              forall i :: 0 <= i < |a| ==> Has(m, a[i].key) && Extends(Get(m, a[i].key), a[i].value)
  {
  }

  lemma SetWellFormed(es: seq<Entry>, key: string, m: Json)
    requires WellFormed(Record(es)) && WellFormed(m)
    ensures WellFormed(Record(Set(es, key, m)))
  {
    SetDistinct(es, key, m);
  }

  /** A merge loses nothing of either side. */
  lemma {:induction false} MergeKeeps(a: Json, b: Json)
    requires WellFormed(a) && WellFormed(b) && Merge(a, b).Some?
    ensures var m := Merge(a, b).value; WellFormed(m) && Extends(m, a) && Extends(m, b)
    decreases b, 1, 0
  {
    hide Extends, MergeEntries;
    if a.Null? || b.Null? || !(a.Record? && b.Record?) {
      ExtendsSelf(a);
      ExtendsSelf(b);
      ExtendsNull(a);
      ExtendsNull(b);
    } else {
      MergeEntriesKeep(a.entries, b, |b.entries|);
      ExtendsRecord(MergeEntries(a.entries, b, |b.entries|).value, b.entries);
    }
  }

  lemma ExtendsNull(m: Json)
    ensures Extends(m, Null)
  {
  }

  lemma {:induction false} MergeEntriesKeep(base: seq<Entry>, b: Json, n: nat)
    requires WellFormed(Record(base)) && b.Record? && WellFormed(b) && n <= |b.entries|
    requires MergeEntries(base, b, n).Some?
    ensures var es := MergeEntries(base, b, n).value;
            && WellFormed(Record(es)) && Extends(Record(es), Record(base))
            && forall i :: 0 <= i < n ==>
                 Has(es, b.entries[i].key) && Extends(Get(es, b.entries[i].key), b.entries[i].value)
    decreases b, 0, n
  {
    hide Extends, MergeEntry, Has;
    if n == 0 {
      ExtendsSelf(Record(base));
    } else {
      MergeEntriesKeep(base, b, n - 1);
      var es := MergeEntries(base, b, n - 1).value;
      var fs := MergeEntries(base, b, n).value;
      MergeEntryKeeps(es, b, n - 1);
      ExtendsThrough(Record(fs), Record(es), Record(base));
      ExtendsRecord(fs, es);
      forall i | 0 <= i < n
          ensures Has(fs, b.entries[i].key) && Extends(Get(fs, b.entries[i].key), b.entries[i].value) {
        if i < n - 1 {
          KeyExtends(fs, es, b.entries[i].key, b.entries[i].value);
        }
      }
    }
  }

  lemma KeyExtends(fs: seq<Entry>, es: seq<Entry>, key: string, v: Json)
    requires Extends(Record(fs), Record(es)) && Has(es, key) && Extends(Get(es, key), v)
    ensures Has(fs, key) && Extends(Get(fs, key), v)
  {
    hide Extends;
    ExtendsRecord(fs, es);
    var k := IndexOf(es, key);
    assert es[k].key == key;
    ExtendsThrough(Get(fs, key), es[k].value, v);
  }

  lemma {:induction false} MergeEntryKeeps(es: seq<Entry>, b: Json, k: nat)
    requires WellFormed(Record(es)) && b.Record? && WellFormed(b) && k < |b.entries|
    requires MergeEntry(es, b.entries[k].key, b, k).Some?
    ensures var fs, key := MergeEntry(es, b.entries[k].key, b, k).value, b.entries[k].key;
            && WellFormed(Record(fs)) && Extends(Record(fs), Record(es))
            && Has(fs, key) && Extends(Get(fs, key), b.entries[k].value)
    decreases b, 0, k
  {
    hide Extends, Merge, Set;
    var key, v := b.entries[k].key, b.entries[k].value;
    assert WellFormed(v);
    var m := v;
    if Has(es, key) {
      assert WellFormed(es[IndexOf(es, key)].value);
      m := Merge(Get(es, key), v).value;
      MergeKeeps(Get(es, key), v);
    } else {
      ExtendsSelf(v);
    }
    SetExtends(es, key, m);
    SetWellFormed(es, key, m);
    SetGet(es, key, m, key);
  }

  // ----- What is not an identity

  /** Records of another source, and opaque fields of the others, come out as they went in; keys and
      their order stay everywhere outside the profile maps. */
  lemma OpaqueUnchanged(v: Json, dialect: Dialect, i: nat)
    requires v.Record? && i < |v.entries| && Translate(v, dialect).Some?
    ensures var w := Translate(v, dialect).value;
            && w.Record? && SameKeys(w.entries, v.entries)
            && (Foreign(v.entries) ==> w == v)
            && (IsOpaque(v.entries[i].key) ==> w.entries[i] == v.entries[i])
  {
    hide TranslateEntries, Foreign, IsOpaque, IsProfileMapKey, IsProfileKey, IsAgentField, IsIdList, IsCatalogEntry;
    hide Identity, ProfileMap;
    if !Foreign(v.entries) {
      EntriesShape(v, |v.entries|, dialect);
      OpaqueIsNothingElse(v.entries[i].key);
    }
  }

  lemma OpaqueIsNothingElse(key: string)
    ensures IsOpaque(key) ==>
        !IsProfileMapKey(key) && !IsProfileKey(key) && !IsAgentField(key) && !IsIdList(key) && key != "id"
  {
    hide IsAgentField;
    OpaqueIsNoAgentField(key);
  }

  lemma OpaqueIsNoAgentField(key: string)
    ensures IsOpaque(key) ==> !IsAgentField(key)
  {
    if IsOpaque(key) && |key| == 9 {
      assert key[1] == 'r' && "agentType"[1] == 'g';
    }
  }

  /** An alias pair with different settings: neither dialect accepts the map, so the original stays. */
  lemma ConflictingAliases()
    ensures var v := Record([Entry("agentic", Record([Entry("model", String("a"))])),
                             Entry("Standard", Record([Entry("model", String("b"))]))]);
            ProfileMap(v, Canonical) == None && ProfileMap(v, Legacy) == None
  {
    hide Merge, Identity, Profile;
    var a, b := Record([Entry("model", String("a"))]), Record([Entry("model", String("b"))]);
    var v := Record([Entry("agentic", a), Entry("Standard", b)]);
    DifferentModels(a, b);
    SameHarness();
    assert "agentic"[0] != "Standard"[0];
    assert ProfileEntries(v.entries, 0, Canonical) == Some([]);
    assert !Has([], "Standard") && [] + [Entry("Standard", a)] == [Entry("Standard", a)];
    assert ProfileEntries(v.entries, 1, Canonical) == Some([Entry("Standard", a)]);
    ProfileMapLastDialectWins(v, Canonical, Legacy);
  }

  lemma DifferentModels(a: Json, b: Json)
    requires a == Record([Entry("model", String("a"))]) && b == Record([Entry("model", String("b"))])
    ensures Merge(a, b) == None && Profile(a, Canonical) == a && Profile(b, Canonical) == b
  {
    assert IndexOf(a.entries, "model") == 0;
    assert Merge(String("a"), String("b")) == None;
    assert MergeEntries(a.entries, b, 0) == Some(a.entries);
    assert "model" != "profile_id";
  }

  lemma SameHarness()
    ensures Identity("agentic", Canonical, true) == "Standard" && Identity("Standard", Canonical, true) == "Standard"
  {
    NamesMean(Standard, Canonical, true);
    IdentityNames("agentic", Canonical, true);
    IdentityNames("Standard", Canonical, true);
  }
}
