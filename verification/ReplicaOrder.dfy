/** Records without deletions: the same view for every order and repetition, up to ties in the order
    indices, and exactly the same view exactly when there are no ties. */
module ReplicaOrder {
  import opened Wrappers
  import opened SessionReplica
  import opened ReplicaViews
  import opened ReplicaConvergence

  // ----- Headers

  function TurnAt(s: Replica, t: string): Option<Versioned<TurnHeader>> {
    if t in s.turns.at then Some(s.turns.at[t].header) else None
  }

  function RoundAt(s: Replica, t: string, n: string): Option<Versioned<RoundHeader>> {
    if t in s.turns.at && n in s.turns.at[t].rounds.at then Some(s.turns.at[t].rounds.at[n].header) else None
  }

  /** Turn and round headers carry the newest record that reached them. */
  ghost predicate TurnsNewest(h: seq<Record>, s: Replica) {
    && (forall r :: r in h && r.Upsert? ==>
          TurnAt(s, r.turn.turnId).Some? && TurnAt(s, r.turn.turnId).value.revision >= r.revision)
    && forall t :: TurnAt(s, t).Some? ==> exists r :: IsTurnHeader(h, r, t, TurnAt(s, t).value)
  }

  ghost predicate RoundsNewest(h: seq<Record>, s: Replica) {
    && (forall r :: r in h && r.Upsert? && r.round.Some? ==>
          && RoundAt(s, r.turn.turnId, r.round.value.id).Some?
          && RoundAt(s, r.turn.turnId, r.round.value.id).value.revision >= r.revision)
    && forall t, n :: RoundAt(s, t, n).Some? ==> exists r :: IsRoundHeader(h, r, t, n, RoundAt(s, t, n).value)
  }

  predicate IsTurnHeader(h: seq<Record>, r: Record, t: string, v: Versioned<TurnHeader>) {
    r in h && r.Upsert? && r.turn.turnId == t && v == Versioned(r.revision, r.turn)
  }

  predicate IsRoundHeader(h: seq<Record>, r: Record, t: string, n: string, v: Versioned<RoundHeader>) {
    && r in h && r.Upsert? && r.round.Some?
    && r.turn.turnId == t && r.round.value.id == n && v == Versioned(r.revision, r.round.value)
  }

  /** A stale upsert follows a newer record of the same identity, hence of the same turn and round. */
  lemma StaleSibling(sessionId: string, p: Parents, g: seq<Record>, s: Replica, r: Record) returns (q: Record)
    requires ValidReplica(s) && Remembers(g, s) && Sound(sessionId, p, g + [r]) && r.Upsert?
    requires Known(s, r.id) >= r.revision && forall x :: Tomb(g, x) == 0
    ensures q in g && q.Upsert? && q.revision >= r.revision && q.turn.turnId == r.turn.turnId
    ensures r.round.Some? ==> q.round.Some? && q.round.value.id == r.round.value.id
  {
    hide Up, Tomb;
    assert r in g + [r];
    q := UpWitness(g, r.id);
    assert q in g + [r];
    assert Follows(p, q) && Follows(p, r) && ShapeError(q).None? && ShapeError(r).None?;
  }

  function NewestOf<T>(old_: Option<Versioned<T>>, revision: int, value: T): Versioned<T> {
    if old_.Some? then Newer(old_.value, revision, value) else Versioned(revision, value)
  }

  lemma TurnAfterUpsert(s: Replica, r: Record, t: string)
    requires ValidReplica(s) && r.Upsert?
    ensures TurnAt(UpsertStep(s, r).0, t)
            == if t == r.turn.turnId then Some(NewestOf(TurnAt(s, t), r.revision, r.turn)) else TurnAt(s, t)
  {
    hide Materialize, ValidMap, UpdateRound;
    UpdateTurnValid(s, r);
  }

  lemma RoundAfterUpsert(s: Replica, r: Record, t: string, n: string)
    requires ValidReplica(s) && r.Upsert?
    ensures RoundAt(UpsertStep(s, r).0, t, n)
            == if t == r.turn.turnId && r.round.Some? && n == r.round.value.id
               then Some(NewestOf(RoundAt(s, t, n), r.revision, r.round.value)) else RoundAt(s, t, n)
  {
    hide Materialize, ValidMap;
    UpdateTurnValid(s, r);
  }

  lemma TurnsGrow(g: seq<Record>, s: Replica, r: Record)
    requires ValidReplica(s) && r.Upsert? && TurnsNewest(g, s)
    ensures TurnsNewest(g + [r], UpsertStep(s, r).0)
  {
    hide UpsertStep, TurnAt;
    var s' := UpsertStep(s, r).0;
    forall q | q in g + [r] && q.Upsert?
      ensures TurnAt(s', q.turn.turnId).Some? && TurnAt(s', q.turn.turnId).value.revision >= q.revision
    {
      TurnAfterUpsert(s, r, q.turn.turnId);
    }
    forall t | TurnAt(s', t).Some? ensures exists q :: IsTurnHeader(g + [r], q, t, TurnAt(s', t).value) {
      TurnAfterUpsert(s, r, t);
      if TurnAt(s', t) == TurnAt(s, t) {
        var q :| IsTurnHeader(g, q, t, TurnAt(s, t).value);
        assert IsTurnHeader(g + [r], q, t, TurnAt(s', t).value);
      } else {
        assert IsTurnHeader(g + [r], r, t, TurnAt(s', t).value);
      }
    }
  }

  lemma RoundsGrow(g: seq<Record>, s: Replica, r: Record)
    requires ValidReplica(s) && r.Upsert? && RoundsNewest(g, s)
    ensures RoundsNewest(g + [r], UpsertStep(s, r).0)
  {
    hide UpsertStep, RoundAt;
    var s' := UpsertStep(s, r).0;
    forall q | q in g + [r] && q.Upsert? && q.round.Some?
      ensures var v := RoundAt(s', q.turn.turnId, q.round.value.id); v.Some? && v.value.revision >= q.revision
    {
      RoundAfterUpsert(s, r, q.turn.turnId, q.round.value.id);
    }
    forall t, n | RoundAt(s', t, n).Some? ensures exists q :: IsRoundHeader(g + [r], q, t, n, RoundAt(s', t, n).value) {
      RoundAfterUpsert(s, r, t, n);
      if RoundAt(s', t, n) == RoundAt(s, t, n) {
        var q :| IsRoundHeader(g, q, t, n, RoundAt(s, t, n).value);
        assert IsRoundHeader(g + [r], q, t, n, RoundAt(s', t, n).value);
      } else {
        assert IsRoundHeader(g + [r], r, t, n, RoundAt(s', t, n).value);
      }
    }
  }

  lemma HeadersStale(g: seq<Record>, s: Replica, r: Record, q: Record)
    requires ValidReplica(s) && r.Upsert? && TurnsNewest(g, s) && RoundsNewest(g, s)
    requires q in g && q.Upsert? && q.revision >= r.revision && q.turn.turnId == r.turn.turnId
    requires r.round.Some? ==> q.round.Some? && q.round.value.id == r.round.value.id
    ensures TurnsNewest(g + [r], s) && RoundsNewest(g + [r], s)
  {
    hide ValidReplica, TurnAt, RoundAt;
    assert forall x :: x in g + [r] <==> x in g || x == r;
    forall t | TurnAt(s, t).Some? ensures exists x :: IsTurnHeader(g + [r], x, t, TurnAt(s, t).value) {
      var x :| IsTurnHeader(g, x, t, TurnAt(s, t).value);
      assert IsTurnHeader(g + [r], x, t, TurnAt(s, t).value);
    }
    forall t, n | RoundAt(s, t, n).Some? ensures exists x :: IsRoundHeader(g + [r], x, t, n, RoundAt(s, t, n).value) {
      var x :| IsRoundHeader(g, x, t, n, RoundAt(s, t, n).value);
      assert IsRoundHeader(g + [r], x, t, n, RoundAt(s, t, n).value);
    }
  }

  ghost predicate NoDeletes(h: seq<Record>) {
    forall r :: r in h ==> r.Upsert?
  }

  lemma {:induction false} NoDeletesNoTomb(h: seq<Record>, x: Id)
    requires NoDeletes(h)
    ensures Tomb(h, x) == 0
  {
    NonNegative(h, x);
    if Tomb(h, x) > 0 {
      var r := TombWitness(h, x);
    }
  }

  lemma {:induction false} ReplayHeaders(sessionId: string, p: Parents, h: seq<Record>)
    requires Sound(sessionId, p, h) && NoDeletes(h)
    ensures TurnsNewest(h, Replay(sessionId, h)) && RoundsNewest(h, Replay(sessionId, h))
  {
    hide UpsertStep, Up, Tomb, Ranked, PlacedTurn, Holds, TurnsNewest, RoundsNewest, Sound, Follows, ValidTurn;
    if h == [] {
      NoHeaders();
    } else {
      var g, r := h[..|h| - 1], h[|h| - 1];
      var s := Replay(sessionId, g);
      assert h == g + [r] && r in h && forall q :: q in g ==> q in h;
      PrefixSound(sessionId, p, g, r);
      LastAccepted(sessionId, p, g, r);
      ReplayHeaders(sessionId, p, g);
      ReplayInvariant(sessionId, p, g);
      if Known(s, r.id) >= r.revision {
        forall x ensures Tomb(g, x) == 0 {
          NoDeletesNoTomb(g, x);
        }
        var q := StaleSibling(sessionId, p, g, s, r);
        HeadersStale(g, s, r, q);
      } else {
        TurnsGrow(g, s, r);
        RoundsGrow(g, s, r);
      }
    }
  }

  lemma LastAccepted(sessionId: string, p: Parents, g: seq<Record>, r: Record)
    requires Sound(sessionId, p, g + [r])
    ensures SessionError(sessionId, r).None? && ShapeError(r).None?
  {
    assert r in g + [r];
  }

  lemma NoHeaders()
    ensures var s := Replica(map[], Empty(), map[]); TurnsNewest([], s) && RoundsNewest([], s)
  {
  }

  /** Without tombstones and with one record per revision in the session, the headers of turns and
      rounds are the same for every order and repetition. */
  lemma HeadersConverge(sessionId: string, p: Parents, g: seq<Record>, h: seq<Record>, t: string, n: string)
    requires Sound(sessionId, p, g) && Sound(sessionId, p, h) && SameRecords(g, h) && NoDeletes(h)
    requires OnePerRevision(h)
    ensures TurnAt(Replay(sessionId, g), t) == TurnAt(Replay(sessionId, h), t)
    ensures RoundAt(Replay(sessionId, g), t, n) == RoundAt(Replay(sessionId, h), t, n)
  {
    hide Replay, Sound, TurnAt, RoundAt, TurnsNewest, RoundsNewest, OnePerRevision;
    ReplayHeaders(sessionId, p, g);
    ReplayHeaders(sessionId, p, h);
    TurnsAgree(g, h, Replay(sessionId, g), Replay(sessionId, h), t);
    RoundsAgree(g, h, Replay(sessionId, g), Replay(sessionId, h), t, n);
  }

  ghost predicate OnePerRevision(h: seq<Record>) {
    forall a, b :: a in h && b in h && a.revision == b.revision ==> a == b
  }

  lemma TurnsAgree(g: seq<Record>, h: seq<Record>, a: Replica, b: Replica, t: string)
    requires TurnsNewest(g, a) && TurnsNewest(h, b) && SameRecords(g, h) && OnePerRevision(h)
    ensures TurnAt(a, t) == TurnAt(b, t)
  {
    hide TurnAt;
    if TurnAt(a, t).Some? {
      var x :| IsTurnHeader(g, x, t, TurnAt(a, t).value);
      assert x in h;
    }
    if TurnAt(b, t).Some? {
      var y :| IsTurnHeader(h, y, t, TurnAt(b, t).value);
      assert y in g;
    }
  }

  lemma RoundsAgree(g: seq<Record>, h: seq<Record>, a: Replica, b: Replica, t: string, n: string)
    requires RoundsNewest(g, a) && RoundsNewest(h, b) && SameRecords(g, h) && OnePerRevision(h)
    ensures RoundAt(a, t, n) == RoundAt(b, t, n)
  {
    hide RoundAt;
    if RoundAt(a, t, n).Some? {
      var x :| IsRoundHeader(g, x, t, n, RoundAt(a, t, n).value);
      assert x in h;
    }
    if RoundAt(b, t, n).Some? {
      var y :| IsRoundHeader(h, y, t, n, RoundAt(b, t, n).value);
      assert y in g;
    }
  }

  /** So are the entries of items, whose newest record decides. */
  lemma EntrySame(sessionId: string, p: Parents, g: seq<Record>, h: seq<Record>, t: string, n: string, i: string)
    requires Sound(sessionId, p, g) && Sound(sessionId, p, h) && SameRecords(g, h) && NoDeletes(h)
    requires Entry(Replay(sessionId, g), t, n, i).Some?
    ensures Entry(Replay(sessionId, h), t, n, i).Some?
    ensures exists r ::
        Newest(h, r) && r.id == ItemId(i) && IsEntryOf(r, t, n, Entry(Replay(sessionId, h), t, n, i).value)
  {
    hide Replay, Entry, Up, Tomb, Ranked, PlacedTurn, Remembers;
    ReplayInvariant(sessionId, p, g);
    ReplayInvariant(sessionId, p, h);
    var r :| r in g && r.id == ItemId(i) && IsEntryOf(r, t, n, Entry(Replay(sessionId, g), t, n, i).value);
    var q := NewestOfItem(sessionId, p, h, r);
    NoDeletesNoTomb(h, q.id);
  }

  lemma NewestOfItem(sessionId: string, p: Parents, h: seq<Record>, r: Record) returns (q: Record)
    requires Sound(sessionId, p, h) && r in h && r.Upsert? && r.round.Some? && r.item.Some?
    ensures Newest(h, q) && q.id == r.id == ItemId(q.item.value.id) && q.item.value.id == r.item.value.id
    ensures q.turn.turnId == r.turn.turnId && q.round.value.id == r.round.value.id && q.revision >= 1
  {
    hide Up;
    Bounds(h, r);
    assert SessionError(sessionId, r).None? && ShapeError(r).None? && Follows(p, r);
    q := UpWitness(h, r.id);
    assert SessionError(sessionId, q).None? && ShapeError(q).None? && Follows(p, q);
  }

  lemma EntriesConverge(sessionId: string, p: Parents, g: seq<Record>, h: seq<Record>, t: string, n: string, i: string)
    requires Sound(sessionId, p, g) && Sound(sessionId, p, h) && SameRecords(g, h) && NoDeletes(h)
    ensures Entry(Replay(sessionId, g), t, n, i) == Entry(Replay(sessionId, h), t, n, i)
  {
    hide Replay, Entry, Up, Sound;
    if Entry(Replay(sessionId, g), t, n, i).Some? {
      EntrySame(sessionId, p, g, h, t, n, i);
      EntrySame(sessionId, p, h, g, t, n, i);
      var q :| Newest(h, q) && q.id == ItemId(i) && IsEntryOf(q, t, n, Entry(Replay(sessionId, h), t, n, i).value);
      var q' :| Newest(g, q') && q'.id == ItemId(i) && IsEntryOf(q', t, n, Entry(Replay(sessionId, g), t, n, i).value);
      SameSet(g, h, ItemId(i));
      OneRecord(sessionId, p, h, q, q');
    } else if Entry(Replay(sessionId, h), t, n, i).Some? {
      EntrySame(sessionId, p, h, g, t, n, i);
    }
  }

  // ----- Lists up to ties

  predicate Distinct<T(==)>(s: seq<T>) {
    forall j, k :: 0 <= j < k < |s| ==> s[j] != s[k]
  }

  /** Both lists are sorted and hold the same elements, each once: they differ in the order of ties only. */
  predicate Reordered<T(==)>(a: seq<T>, b: seq<T>, key: T -> int) {
    && SortedBy(a, key) && SortedBy(b, key) && Distinct(a) && Distinct(b)
    && Within(a, b) && Within(b, a)
  }

  predicate Within<T(==)>(a: seq<T>, b: seq<T>) {
    forall x :: x in a ==> x in b
  }

  predicate NoTies<T>(s: seq<T>, key: T -> int) {
    forall j, k :: 0 <= j < k < |s| ==> key(s[j]) != key(s[k])
  }

  lemma SameLast<T>(a: seq<T>, b: seq<T>, key: T -> int)
    requires Reordered(a, b, key) && NoTies(a, key) && a != [] && b != []
    ensures a[|a| - 1] == b[|b| - 1]
  {
    hide Distinct;
    var x, y := a[|a| - 1], b[|b| - 1];
    assert x in b && y in a;
    var j :| 0 <= j < |a| && a[j] == y;
    assert key(y) <= key(x);
    var k :| 0 <= k < |b| && b[k] == x;
    assert key(x) <= key(y);
  }

  lemma FrontWithin<T>(a: seq<T>, b: seq<T>, x: T)
    requires Distinct(a + [x]) && Within(a + [x], b + [x])
    ensures Within(a, b)
  {
    forall y | y in a ensures y in b {
      var j :| 0 <= j < |a| && a[j] == y;
      assert (a + [x])[j] == y && (a + [x])[|a|] == x;
      assert y in a + [x];
    }
  }

  lemma FrontReordered<T>(a: seq<T>, b: seq<T>, x: T, key: T -> int)
    requires Reordered(a + [x], b + [x], key) && NoTies(a + [x], key)
    ensures Reordered(a, b, key) && NoTies(a, key)
  {
    hide Within;
    FrontWithin(a, b, x);
    FrontWithin(b, a, x);
    FrontOrdered(a, x, key);
    FrontOrdered(b, x, key);
    assert forall j :: 0 <= j < |a| ==> (a + [x])[j] == a[j];
  }

  lemma FrontOrdered<T>(a: seq<T>, x: T, key: T -> int)
    requires Distinct(a + [x]) && SortedBy(a + [x], key)
    ensures Distinct(a) && SortedBy(a, key)
  {
    assert forall j :: 0 <= j < |a| ==> (a + [x])[j] == a[j];
  }

  lemma {:induction false} NoTiesSame<T>(a: seq<T>, b: seq<T>, key: T -> int)
    requires Reordered(a, b, key) && NoTies(a, key)
    ensures a == b
  {
    assert (a != [] ==> a[0] in b) && (b != [] ==> b[0] in a);
    if a != [] {
      hide Reordered, NoTies;
      SameLast(a, b, key);
      var x, a', b' := a[|a| - 1], a[..|a| - 1], b[..|b| - 1];
      assert a == a' + [x] && b == b' + [x];
      FrontReordered(a', b', x, key);
      NoTiesSame(a', b', key);
    }
  }

  lemma {:induction false} InsertDistinct<T>(s: seq<T>, x: T, key: T -> int)
    requires Distinct(s) && x !in s
    ensures Distinct(Insert(s, x, key))
  {
    if s != [] && key(s[|s| - 1]) > key(x) {
      var front, last := s[..|s| - 1], s[|s| - 1];
      InsertDistinct(front, x, key);
      InsertMembers(front, x, key, last);
    }
  }

  lemma {:induction false} SortDistinct<T>(s: seq<T>, key: T -> int)
    requires Distinct(s)
    ensures Distinct(StableSort(s, key))
  {
    if s != [] {
      var front, last := s[..|s| - 1], s[|s| - 1];
      SortDistinct(front, key);
      SortMembers(front, key, last);
      InsertDistinct(StableSort(front, key), last, key);
    }
  }

  /** Two sorts of lists with the same elements. */
  lemma SortsReorder<T>(a: seq<T>, b: seq<T>, key: T -> int)
    requires Distinct(a) && Distinct(b) && Within(a, b) && Within(b, a)
    ensures Reordered(StableSort(a, key), StableSort(b, key), key)
  {
    hide StableSort, SortedBy, Distinct, Within;
    SortSorted(a, key);
    SortSorted(b, key);
    SortDistinct(a, key);
    SortDistinct(b, key);
    SortIncludes(a, b, key);
    SortIncludes(b, a, key);
  }

  lemma SortIncludes<T>(a: seq<T>, b: seq<T>, key: T -> int)
    requires Within(a, b)
    ensures Within(StableSort(a, key), StableSort(b, key))
  {
    hide StableSort;
    forall x | x in StableSort(a, key) ensures x in StableSort(b, key) {
      SortMembers(a, key, x);
      SortMembers(b, key, x);
    }
  }

  // ----- Views up to ties

  function ListOf(v: RoundView, kind: Kind): seq<ItemData> {
    match kind
    case Text => v.text
    case Thinking => v.thinking
    case Tool => v.tool
  }

  predicate SameRound(v: RoundView, w: RoundView) {
    && v.header == w.header
    && (forall kind: Kind :: Reordered(ListOf(v, kind), ListOf(w, kind), OrderOf))
    && forall kind: Kind :: ByOrderIndex(ListOf(v, kind)) && ByOrderIndex(ListOf(w, kind))
  }

  predicate OneEach(s: seq<RoundView>) {
    forall j, k :: 0 <= j < k < |s| ==> s[j].header.id != s[k].header.id
  }

  predicate SameTurn(v: TurnView, w: TurnView) {
    && v.header == w.header
    && ByRoundIndex(v.rounds) && ByRoundIndex(w.rounds) && OneEach(v.rounds) && OneEach(w.rounds)
    && (forall x :: x in v.rounds ==> exists y :: y in w.rounds && SameRound(x, y))
    && (forall y :: y in w.rounds ==> exists x :: x in v.rounds && SameRound(x, y))
  }

  /** The same turns with the same headers, rounds and items, in the same order but for ties. */
  predicate SameViews(a: map<string, TurnView>, b: map<string, TurnView>) {
    a.Keys == b.Keys && forall t :: t in a ==> SameTurn(a[t], b[t])
  }

  predicate UntiedRound(v: RoundView) {
    forall kind: Kind :: NoTies(ListOf(v, kind), OrderOf)
  }

  /** No two rounds of a turn, and no two items of one kind in a round, share an order index. */
  predicate Untied(a: map<string, TurnView>) {
    forall t :: t in a ==> NoTies(a[t].rounds, RoundIndexOf) && forall v :: v in a[t].rounds ==> UntiedRound(v)
  }

  lemma RoundIndexSorts(s: seq<RoundView>)
    ensures ByRoundIndex(s) <==> SortedBy(s, RoundIndexOf)
  {
  }

  lemma OrderIndexSorts(s: seq<ItemData>)
    ensures ByOrderIndex(s) <==> SortedBy(s, OrderOf)
  {
  }

  lemma UntiedRoundsSame(v: RoundView, w: RoundView)
    requires SameRound(v, w) && UntiedRound(v)
    ensures v == w
  {
    hide Reordered, NoTies;
    forall kind: Kind ensures ListOf(v, kind) == ListOf(w, kind) {
      NoTiesSame(ListOf(v, kind), ListOf(w, kind), OrderOf);
    }
    assert ListOf(v, Text) == ListOf(w, Text) && ListOf(v, Thinking) == ListOf(w, Thinking);
    assert ListOf(v, Tool) == ListOf(w, Tool);
  }

  lemma OneEachDistinct(s: seq<RoundView>)
    requires OneEach(s)
    ensures Distinct(s)
  {
  }

  lemma MatchedWithin(a: seq<RoundView>, b: seq<RoundView>)
    requires forall x :: x in a ==> UntiedRound(x)
    requires forall x :: x in a ==> exists y :: y in b && SameRound(x, y)
    ensures Within(a, b)
  {
    hide SameRound, UntiedRound;
    forall x | x in a ensures x in b {
      var y :| y in b && SameRound(x, y);
      UntiedRoundsSame(x, y);
    }
  }

  lemma WithinMatched(a: seq<RoundView>, b: seq<RoundView>)
    requires forall x :: x in a ==> UntiedRound(x)
    requires forall y :: y in b ==> exists x :: x in a && SameRound(x, y)
    ensures Within(b, a)
  {
    hide SameRound, UntiedRound;
    forall y | y in b ensures y in a {
      var x :| x in a && SameRound(x, y);
      UntiedRoundsSame(x, y);
    }
  }

  lemma UntiedTurnsSame(v: TurnView, w: TurnView)
    requires SameTurn(v, w) && NoTies(v.rounds, RoundIndexOf) && forall x :: x in v.rounds ==> UntiedRound(x)
    ensures v == w
  {
    hide SameRound, UntiedRound, NoTies, SortedBy, OneEach, Distinct, Within, ByRoundIndex;
    RoundIndexSorts(v.rounds);
    RoundIndexSorts(w.rounds);
    OneEachDistinct(v.rounds);
    OneEachDistinct(w.rounds);
    MatchedWithin(v.rounds, w.rounds);
    WithinMatched(v.rounds, w.rounds);
    NoTiesSame(v.rounds, w.rounds, RoundIndexOf);
  }

  lemma UntiedSame(a: map<string, TurnView>, b: map<string, TurnView>)
    requires SameViews(a, b) && Untied(a)
    ensures a == b
  {
    hide SameTurn, NoTies, UntiedRound;
    forall t | t in a ensures a[t] == b[t] {
      UntiedTurnsSame(a[t], b[t]);
    }
  }

  // ----- Replicas with the same entries

  /** Nothing is fenced, and all three maps remember the same headers and items. */
  ghost predicate SameEntries(a: Replica, b: Replica) {
    && (forall x :: Fence(a.deleted, x) == Fence(b.deleted, x) == 0)
    && (forall t :: TurnAt(a, t) == TurnAt(b, t))
    && (forall t, n :: RoundAt(a, t, n) == RoundAt(b, t, n))
    && forall t, n, i :: Entry(a, t, n, i) == Entry(b, t, n, i)
  }

  ghost predicate Unfenced(s: Replica) {
    forall x :: Fence(s.deleted, x) == 0
  }

  /** The items of one kind that a round keeps. */
  function KeptOf(deleted: map<Id, int>, t: string, e: RoundEntry, kind: Kind): seq<ItemData>
    requires ValidMap(e.items)
  {
    Kept(deleted, RoundFence(deleted, t, e.header.value.id), e.items, kind, |e.items.order|)
  }

  lemma ListIsSorted(deleted: map<Id, int>, t: string, e: RoundEntry, kind: Kind)
    requires ValidMap(e.items)
    ensures ListOf(ViewRound(deleted, t, e), kind) == StableSort(KeptOf(deleted, t, e, kind), OrderOf)
  {
    hide Kept, StableSort, RoundFence;
  }

  lemma {:induction false} KeptDistinct(deleted: map<Id, int>, f: int, items: OrderedMap<Versioned<ItemData>>,
                                        kind: Kind, n: nat)
    requires ValidMap(items) && n <= |items.order|
    requires forall i :: i in items.at ==> items.at[i].value.id == i
    ensures Distinct(Kept(deleted, f, items, kind, n))
  {
    hide Fence, ValidMap;
    if n > 0 {
      NotBefore(items, n - 1);
      KeptDistinct(deleted, f, items, kind, n - 1);
      KeptMembers(deleted, f, items, kind, n - 1, items.at[items.order[n - 1]].value);
    }
  }

  lemma KeptEntries(s: Replica, t: string, n: string, kind: Kind, d: ItemData)
    requires Ranked(s) && Unfenced(s) && RoundAt(s, t, n).Some?
    ensures d in KeptOf(s.deleted, t, s.turns.at[t].rounds.at[n], kind)
            <==> d.kind == kind && Entry(s, t, n, d.id).Some? && Entry(s, t, n, d.id).value.value == d
  {
    hide Kept, Fence;
    var e := s.turns.at[t].rounds.at[n];
    assert RankedTurn(s.turns.at[t]) && RankedRound(e);
    assert e.items.order[..|e.items.order|] == e.items.order;
    KeptMembers(s.deleted, RoundFence(s.deleted, t, n), e.items, kind, |e.items.order|, d);
  }

  lemma ListsReorder(a: Replica, b: Replica, t: string, n: string, kind: Kind)
    requires Ranked(a) && Ranked(b) && SameEntries(a, b) && RoundAt(a, t, n).Some?
    ensures Reordered(ListOf(ViewRound(a.deleted, t, a.turns.at[t].rounds.at[n]), kind),
                      ListOf(ViewRound(b.deleted, t, b.turns.at[t].rounds.at[n]), kind), OrderOf)
    ensures ByOrderIndex(ListOf(ViewRound(a.deleted, t, a.turns.at[t].rounds.at[n]), kind))
    ensures ByOrderIndex(ListOf(ViewRound(b.deleted, t, b.turns.at[t].rounds.at[n]), kind))
  {
    hide ViewRound, KeptOf, StableSort, Reordered, ListOf, Within, Distinct, SameEntries, Ranked, ValidMap;
    hide ByOrderIndex;
    RoundThere(a, b, t, n);
    var e, e' := a.turns.at[t].rounds.at[n], b.turns.at[t].rounds.at[n];
    ListIsSorted(a.deleted, t, e, kind);
    ListIsSorted(b.deleted, t, e', kind);
    KeptOfDistinct(a.deleted, t, e, kind);
    KeptOfDistinct(b.deleted, t, e', kind);
    KeptWithin(a, b, t, n, kind);
    KeptWithin(b, a, t, n, kind);
    SortsReorder(KeptOf(a.deleted, t, e, kind), KeptOf(b.deleted, t, e', kind), OrderOf);
    ReorderedSorted(ListOf(ViewRound(a.deleted, t, e), kind), ListOf(ViewRound(b.deleted, t, e'), kind));
  }

  lemma ReorderedSorted(a: seq<ItemData>, b: seq<ItemData>)
    requires Reordered(a, b, OrderOf)
    ensures ByOrderIndex(a) && ByOrderIndex(b)
  {
    hide SortedBy;
    OrderIndexSorts(a);
    OrderIndexSorts(b);
  }

  lemma RoundThere(a: Replica, b: Replica, t: string, n: string)
    requires Ranked(a) && Ranked(b) && SameEntries(a, b) && RoundAt(a, t, n).Some?
    ensures RoundAt(b, t, n).Some? && SameEntries(b, a)
    ensures RankedRound(a.turns.at[t].rounds.at[n]) && RankedRound(b.turns.at[t].rounds.at[n])
  {
    hide Entry, RankedRound;
    assert RoundAt(a, t, n) == RoundAt(b, t, n);
    assert RankedTurn(a.turns.at[t]) && RankedTurn(b.turns.at[t]);
  }

  lemma KeptOfDistinct(deleted: map<Id, int>, t: string, e: RoundEntry, kind: Kind)
    requires RankedRound(e)
    ensures Distinct(KeptOf(deleted, t, e, kind))
  {
    hide Kept, Distinct;
    KeptDistinct(deleted, RoundFence(deleted, t, e.header.value.id), e.items, kind, |e.items.order|);
  }

  lemma KeptWithin(a: Replica, b: Replica, t: string, n: string, kind: Kind)
    requires Ranked(a) && Ranked(b) && SameEntries(a, b) && RoundAt(a, t, n).Some? && RoundAt(b, t, n).Some?
    ensures Within(KeptOf(a.deleted, t, a.turns.at[t].rounds.at[n], kind),
        KeptOf(b.deleted, t, b.turns.at[t].rounds.at[n], kind))
  {
    hide KeptOf, Entry, RankedTurn;
    var e, e' := a.turns.at[t].rounds.at[n], b.turns.at[t].rounds.at[n];
    forall d | d in KeptOf(a.deleted, t, e, kind) ensures d in KeptOf(b.deleted, t, e', kind) {
      KeptEntries(a, t, n, kind, d);
      KeptEntries(b, t, n, kind, d);
    }
  }

  lemma RoundsSame(a: Replica, b: Replica, t: string, n: string)
    requires Ranked(a) && Ranked(b) && SameEntries(a, b) && RoundAt(a, t, n).Some?
    ensures SameRound(ViewRound(a.deleted, t, a.turns.at[t].rounds.at[n]),
        ViewRound(b.deleted, t, b.turns.at[t].rounds.at[n]))
  {
    hide ViewRound, Entry, Reordered, ListOf, RankedRound, ByOrderIndex;
    assert RoundAt(a, t, n) == RoundAt(b, t, n);
    assert RankedTurn(a.turns.at[t]) && RankedTurn(b.turns.at[t]);
    ViewRoundHeader(a.deleted, t, a.turns.at[t].rounds.at[n]);
    ViewRoundHeader(b.deleted, t, b.turns.at[t].rounds.at[n]);
    forall kind: Kind
      ensures Reordered(ListOf(ViewRound(a.deleted, t, a.turns.at[t].rounds.at[n]), kind),
                        ListOf(ViewRound(b.deleted, t, b.turns.at[t].rounds.at[n]), kind), OrderOf)
              && ByOrderIndex(ListOf(ViewRound(a.deleted, t, a.turns.at[t].rounds.at[n]), kind))
              && ByOrderIndex(ListOf(ViewRound(b.deleted, t, b.turns.at[t].rounds.at[n]), kind))
    {
      ListsReorder(a, b, t, n, kind);
    }
  }

  // ----- The rounds of a turn

  lemma NotBefore<V>(m: OrderedMap<V>, k: nat)
    requires ValidMap(m) && k < |m.order|
    ensures m.order[k] in m.at && m.order[k] !in m.order[..k]
  {
  }

  lemma {:induction false} KeptRoundsDistinct(deleted: map<Id, int>, t: string, e: TurnEntry, n: nat)
    requires RankedTurn(e) && n <= |e.rounds.order|
    ensures Distinct(KeptRounds(deleted, t, e, n))
  {
    hide ViewRound, RankedRound, RoundFence, ValidMap;
    if n > 0 {
      NotBefore(e.rounds, n - 1);
      var n' := e.rounds.order[n - 1];
      var x := e.rounds.at[n'];
      KeptRoundsDistinct(deleted, t, e, n - 1);
      ViewRoundHeader(deleted, t, x);
      KeptRoundsMembers(deleted, t, e, n - 1, ViewRound(deleted, t, x));
      assert ViewRound(deleted, t, x) !in KeptRounds(deleted, t, e, n - 1);
    }
  }

  /** Without fences a turn shows each of its rounds once, by index. */
  lemma RoundsShown(s: Replica, t: string, v: RoundView)
    requires Ranked(s) && Unfenced(s) && t in s.turns.at
    ensures v in Materialize(s.deleted, t, s.turns.at[t]).rounds
            <==> RoundAt(s, t, v.header.id).Some? && v == ViewRound(s.deleted, t, s.turns.at[t].rounds.at[v.header.id])
  {
    hide ViewRound, RankedRound, KeptRounds, StableSort, Fence;
    var e := s.turns.at[t];
    assert RankedTurn(e);
    assert e.rounds.order[..|e.rounds.order|] == e.rounds.order;
    KeptRoundsMembers(s.deleted, t, e, |e.rounds.order|, v);
    SortMembers(KeptRounds(s.deleted, t, e, |e.rounds.order|), RoundIndexOf, v);
  }

  lemma RoundsSorted(s: Replica, t: string)
    requires Ranked(s) && Unfenced(s) && t in s.turns.at
    ensures var rounds := Materialize(s.deleted, t, s.turns.at[t]).rounds; ByRoundIndex(rounds) && OneEach(rounds)
  {
    hide ViewRound, RankedTurn, KeptRounds, StableSort, SortedBy, Materialize, RoundAt;
    var e := s.turns.at[t];
    var rounds := Materialize(s.deleted, t, e).rounds;
    RoundsAreSorted(s.deleted, t, e);
    RoundIndexSorts(rounds);
    forall j, k | 0 <= j < k < |rounds| ensures rounds[j].header.id != rounds[k].header.id {
      assert rounds[j] in rounds && rounds[k] in rounds;
      RoundsShown(s, t, rounds[j]);
      RoundsShown(s, t, rounds[k]);
    }
  }

  lemma RoundsAreSorted(deleted: map<Id, int>, t: string, e: TurnEntry)
    requires RankedTurn(e)
    ensures var rounds := Materialize(deleted, t, e).rounds; SortedBy(rounds, RoundIndexOf) && Distinct(rounds)
  {
    hide KeptRounds, StableSort, SortedBy, Distinct, RankedRound;
    var kept := KeptRounds(deleted, t, e, |e.rounds.order|);
    KeptRoundsDistinct(deleted, t, e, |e.rounds.order|);
    SortSorted(kept, RoundIndexOf);
    SortDistinct(kept, RoundIndexOf);
  }

  lemma RoundsMatch(a: Replica, b: Replica, t: string, x: RoundView) returns (y: RoundView)
    requires Ranked(a) && Ranked(b) && SameEntries(a, b) && t in a.turns.at && t in b.turns.at
    requires x in Materialize(a.deleted, t, a.turns.at[t]).rounds
    ensures y in Materialize(b.deleted, t, b.turns.at[t]).rounds && SameRound(x, y)
  {
    hide ViewRound, RankedTurn, Entry, SameRound, Materialize, KeptRounds;
    var n := x.header.id;
    RoundsShown(a, t, x);
    RoundsSame(a, b, t, n);
    assert RoundAt(a, t, n) == RoundAt(b, t, n);
    y := ViewRound(b.deleted, t, b.turns.at[t].rounds.at[n]);
    SameRoundHeader(x, y);
    RoundsShown(b, t, y);
  }

  lemma SameRoundHeader(x: RoundView, y: RoundView)
    requires SameRound(x, y)
    ensures x.header == y.header && SameRound(y, x)
  {
    forall kind: Kind ensures Reordered(ListOf(y, kind), ListOf(x, kind), OrderOf) {
      assert Reordered(ListOf(x, kind), ListOf(y, kind), OrderOf);
    }
  }

  lemma TurnsSame(a: Replica, b: Replica, t: string)
    requires Ranked(a) && Ranked(b) && SameEntries(a, b) && t in a.turns.at && t in b.turns.at
    ensures SameTurn(Materialize(a.deleted, t, a.turns.at[t]), Materialize(b.deleted, t, b.turns.at[t]))
  {
    hide RankedTurn, Materialize, ByRoundIndex, OneEach, SameRound, Entry;
    var v, w := Materialize(a.deleted, t, a.turns.at[t]), Materialize(b.deleted, t, b.turns.at[t]);
    RoundsSorted(a, t);
    RoundsSorted(b, t);
    forall x | x in v.rounds ensures exists y :: y in w.rounds && SameRound(x, y) {
      var y := RoundsMatch(a, b, t, x);
    }
    forall y | y in w.rounds ensures exists x :: x in v.rounds && SameRound(x, y) {
      var x := RoundsMatch(b, a, t, y);
      SameRoundHeader(y, x);
    }
    HeaderOf(a, t);
    HeaderOf(b, t);
    assert TurnAt(a, t) == TurnAt(b, t);
  }

  lemma HeaderOf(s: Replica, t: string)
    requires ValidReplica(s) && t in s.turns.at
    ensures TurnAt(s, t).Some? && Materialize(s.deleted, t, s.turns.at[t]).header == TurnAt(s, t).value.value
  {
    hide KeptRounds, StableSort;
  }

  lemma ViewsSame(a: Replica, b: Replica)
    requires Ranked(a) && Ranked(b) && SameEntries(a, b)
    ensures SameViews(FullView(a), FullView(b))
  {
    hide RankedRound, Materialize, SameTurn, ValidMap, Entry, RoundAt, Fence;
    assert forall t :: t in a.turns.at <==> t in b.turns.at by {
      forall t ensures t in a.turns.at <==> t in b.turns.at { assert TurnAt(a, t) == TurnAt(b, t); }
    }
    forall t | t in a.turns.at
      ensures SameTurn(Materialize(a.deleted, t, a.turns.at[t]), Materialize(b.deleted, t, b.turns.at[t]))
    {
      TurnsSame(a, b, t);
    }
  }

  /** Without deletions, and with one record per revision of the session, every order and repetition of
      the records gives the same view up to ties in the order indices. */
  lemma ViewsConverge(sessionId: string, p: Parents, g: seq<Record>, h: seq<Record>)
    requires Sound(sessionId, p, h) && SameRecords(g, h) && NoDeletes(h) && OnePerRevision(h)
    ensures SameViews(FullView(Replay(sessionId, g)), FullView(Replay(sessionId, h)))
  {
    hide Replay, Sound, TurnAt, RoundAt, Entry, OnePerRevision, RankedTurn, PlacedTurn, SameViews, FullView, Holds;
    hide Tomb, Up;
    SoundSame(sessionId, p, g, h);
    ReplayInvariant(sessionId, p, g);
    ReplayInvariant(sessionId, p, h);
    var a, b := Replay(sessionId, g), Replay(sessionId, h);
    forall x ensures Fence(a.deleted, x) == Fence(b.deleted, x) == 0 {
      NoDeletesNoTomb(g, x);
      NoDeletesNoTomb(h, x);
    }
    forall t ensures TurnAt(a, t) == TurnAt(b, t) {
      HeadersConverge(sessionId, p, g, h, t, "");
    }
    forall t, n ensures RoundAt(a, t, n) == RoundAt(b, t, n) {
      HeadersConverge(sessionId, p, g, h, t, n);
    }
    forall t, n, i ensures Entry(a, t, n, i) == Entry(b, t, n, i) {
      EntriesConverge(sessionId, p, g, h, t, n, i);
    }
    ViewsSame(a, b);
  }
}
