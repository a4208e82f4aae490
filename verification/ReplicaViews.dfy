/** The invariant of every reachable replica, and what a replica shows. */
module ReplicaViews {
  import opened Wrappers
  import opened SessionReplica

  // ----- Sorting loses and adds nothing

  lemma {:induction false} InsertMembers<T>(s: seq<T>, x: T, key: T -> int, y: T)
    ensures y in Insert(s, x, key) <==> y in s || y == x
  {
    if s != [] && key(s[|s| - 1]) > key(x) {
      InsertMembers(s[..|s| - 1], x, key, y);
      assert s == s[..|s| - 1] + [s[|s| - 1]];
    }
  }

  lemma {:induction false} SortMembers<T>(s: seq<T>, key: T -> int, y: T)
    ensures y in StableSort(s, key) <==> y in s
  {
    if s != [] {
      SortMembers(s[..|s| - 1], key, y);
      InsertMembers(StableSort(s[..|s| - 1], key), s[|s| - 1], key, y);
      assert s == s[..|s| - 1] + [s[|s| - 1]];
    }
  }

  predicate ByRoundIndex(s: seq<RoundView>) {
    forall j, k :: 0 <= j < k < |s| ==> s[j].header.roundIndex <= s[k].header.roundIndex
  }

  /** By the index, an absent one counting as 0. */
  predicate ByOrderIndex(s: seq<ItemData>) {
    forall j, k :: 0 <= j < k < |s| ==>
      var a := if s[j].orderIndex == None then 0 else s[j].orderIndex.value;
      var b := if s[k].orderIndex == None then 0 else s[k].orderIndex.value;
      a <= b
  }

  /** Some a stands before some b. */
  predicate Precedes<T(==)>(s: seq<T>, a: T, b: T) {
    exists j, k :: 0 <= j < k < |s| && s[j] == a && s[k] == b
  }

  /** By the key, and equal keys as they stand in the list that was sorted. */
  predicate Sorts<T(==)>(sorted: seq<T>, s: seq<T>, key: T -> int) {
    forall j, k :: 0 <= j < k < |sorted| ==>
      key(sorted[j]) < key(sorted[k]) || (key(sorted[j]) == key(sorted[k]) && Precedes(s, sorted[j], sorted[k]))
  }

  lemma PrecedesMore<T>(s: seq<T>, x: T, a: T, b: T)
    requires Precedes(s, a, b) || (a in s && b == x)
    ensures Precedes(s + [x], a, b)
  {
    if Precedes(s, a, b) {
      var j, k :| 0 <= j < k < |s| && s[j] == a && s[k] == b;
      assert (s + [x])[j] == a && (s + [x])[k] == b;
    } else {
      var j :| 0 <= j < |s| && s[j] == a;
      assert (s + [x])[j] == a && (s + [x])[|s|] == b;
    }
  }

  lemma {:induction false} InsertSorts<T>(sorted: seq<T>, s: seq<T>, x: T, key: T -> int)
    requires Sorts(sorted, s, key) && forall y :: y in sorted ==> y in s
    ensures Sorts(Insert(sorted, x, key), s + [x], key)
  {
    hide Precedes;
    forall a, b | Precedes(s, a, b) || (a in s && b == x) ensures Precedes(s + [x], a, b) {
      PrecedesMore(s, x, a, b);
    }
    if sorted != [] {
      var front, last := sorted[..|sorted| - 1], sorted[|sorted| - 1];
      if key(last) > key(x) {
        InsertSorts(front, s, x, key);
        forall j | 0 <= j < |Insert(front, x, key)|
          ensures key(Insert(front, x, key)[j]) < key(last)
                  || (key(Insert(front, x, key)[j]) == key(last) && Precedes(s + [x], Insert(front, x, key)[j], last))
        {
          InsertMembers(front, x, key, Insert(front, x, key)[j]);
        }
      }
    }
  }

  lemma {:induction false} SortSorts<T>(s: seq<T>, key: T -> int)
    ensures Sorts(StableSort(s, key), s, key)
  {
    if s != [] {
      var front, last := s[..|s| - 1], s[|s| - 1];
      SortSorts(front, key);
      forall y | y in StableSort(front, key) ensures y in front {
        SortMembers(front, key, y);
      }
      InsertSorts(StableSort(front, key), front, last, key);
      assert s == front + [last];
    }
  }

  // ----- The invariant of every reachable replica

  /** Entries are filed under their own identity, and an item is never newer than its round's header,
      nor that than the turn's. */
  predicate RankedRound(r: RoundEntry) {
    && ValidMap(r.items)
    && forall i :: i in r.items.at ==>
         r.items.at[i].value.id == i && 1 <= r.items.at[i].revision <= r.header.revision
  }

  predicate RankedTurn(t: TurnEntry) {
    && ValidTurn(t) && t.header.revision >= 1
    && forall r :: r in t.rounds.at ==>
         && RankedRound(t.rounds.at[r])
         && t.rounds.at[r].header.value.id == r
         && 1 <= t.rounds.at[r].header.revision <= t.header.revision
  }

  predicate Ranked(s: Replica) {
    && ValidReplica(s)
    && (forall t :: t in s.turns.at ==> RankedTurn(s.turns.at[t]) && s.turns.at[t].header.value.turnId == t)
    && (forall x :: x in s.records ==> s.records[x] >= 1)
    && forall x :: x in s.deleted ==> x in s.records && 1 <= s.deleted[x] <= s.records[x]
  }

  lemma RankedIsValid(s: Replica)
    requires Ranked(s)
    ensures ValidReplica(s)
  {
  }

  lemma RankedInit()
    ensures Ranked(Replica(map[], Empty(), map[]))
  {
  }

  lemma RankedRoundStep(t: TurnEntry, r: Record)
    requires RankedTurn(t) && r.Upsert? && r.round.Some? && r.revision >= 1 && r.revision <= t.header.revision
    ensures RankedRound(UpdateRound(t, r)) && ValidMap(UpdateRound(t, r).items)
    ensures UpdateRound(t, r).header.value.id == r.round.value.id
    ensures 1 <= UpdateRound(t, r).header.revision <= t.header.revision
  {
  }

  lemma RankedTurnStep(s: Replica, r: Record)
    requires Ranked(s) && r.Upsert? && r.revision >= 1
    ensures RankedTurn(UpdateTurn(s.turns, r)) && UpdateTurn(s.turns, r).header.value.turnId == r.turn.turnId
  {
    hide UpdateRound, RankedRound, ValidMap;
    var h := r.turn;
    var entry := if h.turnId in s.turns.at
                 then s.turns.at[h.turnId].(header := Newer(s.turns.at[h.turnId].header, r.revision, h))
                 else TurnEntry(Versioned(r.revision, h), Empty());
    assert RankedTurn(entry);
    if r.round.Some? {
      RankedRoundStep(entry, r);
    }
  }

  /** Every call keeps the ranks, and tombstones only grow. */
  lemma RankedStep(s: Replica, sessionId: string, r: Record)
    requires Ranked(s)
    ensures Ranked(ApplyStep(s, sessionId, r).0)
    ensures forall x :: Fence(s.deleted, x) <= Fence(ApplyStep(s, sessionId, r).0.deleted, x)
  {
    hide UpsertStep, DeleteStep;
    if ApplyStep(s, sessionId, r).0 != s {
      if r.Upsert? {
        RankedUpsert(s, r);
      } else {
        RankedDelete(s, r);
      }
    }
  }

  lemma RankedUpsert(s: Replica, r: Record)
    requires Ranked(s) && r.Upsert? && r.revision >= 1 && Known(s, r.id) < r.revision
    ensures Ranked(UpsertStep(s, r).0) && UpsertStep(s, r).0.deleted == s.deleted
  {
    hide UpdateTurn, Change, RankedTurn, ValidTurn, ValidMap;
    RankedTurnStep(s, r);
    UpdateTurnValid(s, r);
  }

  lemma RankedDelete(s: Replica, r: Record)
    requires Ranked(s) && r.Delete? && r.revision >= 1 && Known(s, r.id) < r.revision
    ensures Ranked(DeleteStep(s, r).0)
    ensures forall x :: Fence(s.deleted, x) <= Fence(DeleteStep(s, r).0.deleted, x)
  {
    hide Change, RankedTurn, FirstContaining, ValidMap, ValidTurn;
  }

  /** The replica after these calls. */
  function Replay(sessionId: string, h: seq<Record>): (s: Replica)
    ensures ValidReplica(s)
  {
    if h == [] then Replica(map[], Empty(), map[])
    else ApplyStep(Replay(sessionId, h[..|h| - 1]), sessionId, h[|h| - 1]).0
  }

  // ----- Stable parents

  /** The round of every item and the turn of every round. */
  datatype Parents = Parents(turnOf: string -> string, roundOf: string -> string)

  predicate Follows(p: Parents, r: Record) {
    r.Upsert? ==>
      && (r.round.Some? ==> p.turnOf(r.round.value.id) == r.turn.turnId)
      && (r.item.Some? && r.round.Some? ==> p.roundOf(r.item.value.id) == r.round.value.id)
  }

  predicate PlacedTurn(p: Parents, t: string, e: TurnEntry) {
    forall r :: r in e.rounds.at ==>
      && p.turnOf(r) == t
      && forall i :: i in e.rounds.at[r].items.at ==> p.roundOf(i) == r
  }

  predicate Placed(p: Parents, s: Replica) {
    forall t :: t in s.turns.at ==> PlacedTurn(p, t, s.turns.at[t])
  }

  lemma PlacedStep(p: Parents, s: Replica, sessionId: string, r: Record)
    requires ValidReplica(s) && Placed(p, s) && Follows(p, r)
    ensures Placed(p, ApplyStep(s, sessionId, r).0)
  {
    hide Change, UpdateTurn, FirstContaining, PlacedTurn, ValidMap, SessionError, ShapeError;
    if r.Upsert? {
      PlacedTurnStep(p, s, r);
    }
  }

  lemma PlacedTurnStep(p: Parents, s: Replica, r: Record)
    requires Placed(p, s) && Follows(p, r) && r.Upsert?
    ensures PlacedTurn(p, r.turn.turnId, UpdateTurn(s.turns, r))
  {
    hide ValidMap;
    if r.turn.turnId in s.turns.at {
      assert PlacedTurn(p, r.turn.turnId, s.turns.at[r.turn.turnId]);
    }
  }

  /** With stable parents an identity lies in one turn at most. */
  lemma ContainedOnce(p: Parents, s: Replica, id: Id, t: string, u: string)
    requires Placed(p, s) && t in s.turns.at && u in s.turns.at
    requires Contains(t, s.turns.at[t], id) && Contains(u, s.turns.at[u], id)
    ensures t == u
  {
    assert PlacedTurn(p, t, s.turns.at[t]) && PlacedTurn(p, u, s.turns.at[u]);
  }

  // ----- The full view

  predicate Visible(s: Replica, t: string) {
    t in s.turns.at && s.turns.at[t].header.revision > Fence(s.deleted, TurnId(t))
  }

  /** Every visible turn materialised from scratch. */
  function FullView(s: Replica): map<string, TurnView>
    requires ValidReplica(s)
  {
    map t | t in s.turns.at && Visible(s, t) :: Materialize(s.deleted, t, s.turns.at[t])
  }

  // ----- Which items a view shows

  predicate InRound(v: RoundView, d: ItemData) {
    d in v.text || d in v.thinking || d in v.tool
  }

  /** The full view has this item under this turn and round. */
  predicate Shows(s: Replica, t: string, r: string, d: ItemData)
    requires ValidReplica(s)
  {
    && t in FullView(s)
    && exists k :: 0 <= k < |FullView(s)[t].rounds| && FullView(s)[t].rounds[k].header.id == r
                   && InRound(FullView(s)[t].rounds[k], d)
  }

  function Entry(s: Replica, t: string, r: string, i: string): Option<Versioned<ItemData>> {
    if t in s.turns.at && r in s.turns.at[t].rounds.at && i in s.turns.at[t].rounds.at[r].items.at
    then Some(s.turns.at[t].rounds.at[r].items.at[i]) else None
  }

  /** An upsert changes the entry of its own item only, and only towards a newer revision. */
  lemma EntryAfterUpsert(s: Replica, r: Record, t: string, n: string, i: string)
    requires ValidReplica(s) && r.Upsert? && (r.item.Some? ==> r.round.Some?)
    ensures var e := Entry(s, t, n, i);
            Entry(UpsertStep(s, r).0, t, n, i)
            == if r.item.Some? && t == r.turn.turnId && n == r.round.value.id && i == r.item.value.id
                  && (e.None? || e.value.revision < r.revision)
               then Some(Versioned(r.revision, r.item.value)) else e
  {
    hide Materialize, ValidMap;
  }

  function ItemFence(s: Replica, t: string, r: string, i: string): int {
    Max(RoundFence(s.deleted, t, r), Fence(s.deleted, ItemId(i)))
  }

  lemma KeyAt<V>(m: OrderedMap<V>, k: nat)
    requires ValidMap(m) && k < |m.order|
    ensures m.order[k] in m.at
  {
  }

  lemma {:induction false} KeptMembers(deleted: map<Id, int>, f: int, items: OrderedMap<Versioned<ItemData>>,
      kind: Kind, n: nat, d: ItemData)
    requires ValidMap(items) && n <= |items.order|
    requires forall i :: i in items.at ==> items.at[i].value.id == i
    ensures d in Kept(deleted, f, items, kind, n) <==>
              && d.id in items.order[..n] && d.id in items.at && items.at[d.id].value == d && d.kind == kind
              && items.at[d.id].revision > Max(f, Fence(deleted, ItemId(d.id)))
  {
    hide ValidMap;
    if n > 0 {
      KeyAt(items, n - 1);
      KeptMembers(deleted, f, items, kind, n - 1, d);
      assert items.order[..n] == items.order[..n - 1] + [items.order[n - 1]];
    }
  }

  lemma RoundMembers(deleted: map<Id, int>, t: string, e: RoundEntry, d: ItemData)
    requires RankedRound(e)
    ensures InRound(ViewRound(deleted, t, e), d) <==>
              && d.id in e.items.at && e.items.at[d.id].value == d
              && e.items.at[d.id].revision > Max(RoundFence(deleted, t, e.header.value.id),
                 Fence(deleted, ItemId(d.id)))
  {
    hide Kept, StableSort;
    var f, n := RoundFence(deleted, t, e.header.value.id), |e.items.order|;
    assert e.items.order[..n] == e.items.order;
    KeptMembers(deleted, f, e.items, Text, n, d);
    KeptMembers(deleted, f, e.items, Thinking, n, d);
    KeptMembers(deleted, f, e.items, Tool, n, d);
    SortMembers(Kept(deleted, f, e.items, Text, n), OrderOf, d);
    SortMembers(Kept(deleted, f, e.items, Thinking, n), OrderOf, d);
    SortMembers(Kept(deleted, f, e.items, Tool, n), OrderOf, d);
  }

  lemma ViewRoundHeader(deleted: map<Id, int>, t: string, e: RoundEntry)
    requires ValidMap(e.items)
    ensures ViewRound(deleted, t, e).header == e.header.value
  {
  }

  lemma {:induction false} KeptRoundsMembers(deleted: map<Id, int>, t: string, e: TurnEntry, n: nat, v: RoundView)
    requires RankedTurn(e) && n <= |e.rounds.order|
    ensures v in KeptRounds(deleted, t, e, n) <==>
              && v.header.id in e.rounds.order[..n] && v.header.id in e.rounds.at
              && v == ViewRound(deleted, t, e.rounds.at[v.header.id])
              && e.rounds.at[v.header.id].header.revision > RoundFence(deleted, t, v.header.id)
  {
    hide ViewRound, RoundFence, RankedRound, ValidMap;
    if n > 0 {
      KeyAt(e.rounds, n - 1);
      var x := e.rounds.order[n - 1];
      assert e.rounds.at[x].header.value.id == x;
      ViewRoundHeader(deleted, t, e.rounds.at[x]);
      KeptRoundsMembers(deleted, t, e, n - 1, v);
      assert e.rounds.order[..n] == e.rounds.order[..n - 1] + [x];
    }
  }

  /** An item is shown exactly when its entry is newer than the fences of item, round and turn: the
      checks on the headers never decide, because headers are at least as new. */
  lemma ShowsExactly(s: Replica, t: string, r: string, d: ItemData)
    requires Ranked(s)
    ensures Shows(s, t, r, d) <==>
              && Entry(s, t, r, d.id).Some? && Entry(s, t, r, d.id).value.value == d
              && Entry(s, t, r, d.id).value.revision > ItemFence(s, t, r, d.id)
  {
    hide KeptRounds, StableSort, Kept, InRound, ViewRound;
    if t in s.turns.at {
      var e := s.turns.at[t];
      var n := |e.rounds.order|;
      var kept := KeptRounds(s.deleted, t, e, n);
      assert e.rounds.order[..n] == e.rounds.order;
      if Shows(s, t, r, d) {
        var sorted := StableSort(kept, RoundIndexOf);
        var k :| 0 <= k < |sorted| && sorted[k].header.id == r && InRound(sorted[k], d);
        assert sorted[k] in sorted;
        SortMembers(kept, RoundIndexOf, sorted[k]);
        KeptRoundsMembers(s.deleted, t, e, n, sorted[k]);
        RoundMembers(s.deleted, t, e.rounds.at[r], d);
      }
      if Entry(s, t, r, d.id).Some? && Entry(s, t, r, d.id).value.value == d
         && Entry(s, t, r, d.id).value.revision > ItemFence(s, t, r, d.id) {
        RoundMembers(s.deleted, t, e.rounds.at[r], d);
        var v := ViewRound(s.deleted, t, e.rounds.at[r]);
        ViewRoundHeader(s.deleted, t, e.rounds.at[r]);
        KeptRoundsMembers(s.deleted, t, e, n, v);
        SortMembers(kept, RoundIndexOf, v);
      }
    }
  }
}
