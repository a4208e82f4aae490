/** What the view of one turn holds and in which order, and what a call takes in and changes, told on the
    fields alone. */
module ReplicaListing {
  import opened Wrappers
  import opened SessionReplica
  import opened ReplicaViews

  /** No tombstone of this identity is as new. */
  predicate Outlives(deleted: map<Id, int>, revision: int, x: Id) {
    x in deleted ==> revision > deleted[x]
  }

  /** By the index, an absent one counting as 0, and equal ones as the replica first saw them. */
  predicate ItemsInOrder(seen: seq<string>, s: seq<ItemData>) {
    forall j, k :: 0 <= j < k < |s| ==>
      var a := if s[j].orderIndex == None then 0 else s[j].orderIndex.value;
      var b := if s[k].orderIndex == None then 0 else s[k].orderIndex.value;
      a < b || (a == b && Precedes(seen, s[j].id, s[k].id))
  }

  predicate RoundsInOrder(seen: seq<string>, s: seq<RoundView>) {
    forall j, k :: 0 <= j < k < |s| ==>
      || s[j].header.roundIndex < s[k].header.roundIndex
      || (s[j].header.roundIndex == s[k].header.roundIndex && Precedes(seen, s[j].header.id, s[k].header.id))
  }

  /** The list holds the items of one kind that outlive the tombstones of item, round and turn. */
  ghost predicate ListsItems(deleted: map<Id, int>, t: string, e: RoundEntry, kind: Kind, s: seq<ItemData>) {
    && ItemsInOrder(e.items.order, s)
    && forall d :: d in s <==>
         && d.kind == kind && d.id in e.items.at && e.items.at[d.id].value == d
         && Outlives(deleted, e.items.at[d.id].revision, ItemId(d.id))
         && Outlives(deleted, e.items.at[d.id].revision, RoundId(e.header.value.id))
         && Outlives(deleted, e.items.at[d.id].revision, TurnId(t))
  }

  ghost predicate ListsRound(deleted: map<Id, int>, t: string, e: RoundEntry, v: RoundView) {
    && v.header == e.header.value
    && ListsItems(deleted, t, e, Text, v.text)
    && ListsItems(deleted, t, e, Thinking, v.thinking)
    && ListsItems(deleted, t, e, Tool, v.tool)
  }

  predicate RoundShown(deleted: map<Id, int>, t: string, e: TurnEntry, n: string) {
    && n in e.rounds.at
    && Outlives(deleted, e.rounds.at[n].header.revision, RoundId(n))
    && Outlives(deleted, e.rounds.at[n].header.revision, TurnId(t))
  }

  /** The rounds that outlive their tombstones, each with its own items. */
  ghost predicate ListsTurn(deleted: map<Id, int>, t: string, e: TurnEntry, v: TurnView) {
    && v.header == e.header.value
    && RoundsInOrder(e.rounds.order, v.rounds)
    && (forall k :: 0 <= k < |v.rounds| ==>
          var n := v.rounds[k].header.id;
          RoundShown(deleted, t, e, n) && ListsRound(deleted, t, e.rounds.at[n], v.rounds[k]))
    && forall n :: RoundShown(deleted, t, e, n) ==> exists k :: 0 <= k < |v.rounds| && v.rounds[k].header.id == n
  }

  // ----- Items

  lemma {:induction false} KeptInOrder(deleted: map<Id, int>, f: int, items: OrderedMap<Versioned<ItemData>>,
                                       kind: Kind, n: nat, a: ItemData, b: ItemData)
    requires ValidMap(items) && n <= |items.order|
    requires forall i :: i in items.at ==> items.at[i].value.id == i
    requires Precedes(Kept(deleted, f, items, kind, n), a, b)
    ensures Precedes(items.order[..n], a.id, b.id)
  {
    hide ValidMap, Fence;
    KeyAt(items, n - 1);
    var kept, last := Kept(deleted, f, items, kind, n - 1), items.order[n - 1];
    var now := Kept(deleted, f, items, kind, n);
    assert items.order[..n] == items.order[..n - 1] + [last];
    var j, k :| 0 <= j < k < |now| && now[j] == a && now[k] == b;
    assert a == kept[j];
    KeptMembers(deleted, f, items, kind, n - 1, a);
    if k < |kept| {
      assert kept[k] == b;
      KeptInOrder(deleted, f, items, kind, n - 1, a, b);
    }
    PrecedesMore(items.order[..n - 1], last, a.id, b.id);
  }

  lemma SortedItems(seen: seq<string>, kept: seq<ItemData>)
    requires forall a, b :: Precedes(kept, a, b) ==> Precedes(seen, a.id, b.id)
    ensures ItemsInOrder(seen, StableSort(kept, OrderOf))
  {
    hide StableSort, Precedes;
    SortSorts(kept, OrderOf);
  }

  lemma FencesOutlived(deleted: map<Id, int>, t: string, n: string, i: string, revision: int)
    requires revision >= 1
    ensures revision > RoundFence(deleted, t, n)
            <==> Outlives(deleted, revision, RoundId(n)) && Outlives(deleted, revision, TurnId(t))
    ensures revision > Max(RoundFence(deleted, t, n), Fence(deleted, ItemId(i)))
            <==> revision > RoundFence(deleted, t, n) && Outlives(deleted, revision, ItemId(i))
  {
  }

  lemma KindListed(deleted: map<Id, int>, t: string, e: RoundEntry, kind: Kind)
    requires RankedRound(e)
    ensures var f := RoundFence(deleted, t, e.header.value.id);
            ListsItems(deleted, t, e, kind, StableSort(Kept(deleted, f, e.items, kind, |e.items.order|), OrderOf))
  {
    hide Kept, StableSort, Precedes, RoundFence, Fence, ItemsInOrder, Outlives;
    var f, n := RoundFence(deleted, t, e.header.value.id), |e.items.order|;
    var kept := Kept(deleted, f, e.items, kind, n);
    assert e.items.order[..n] == e.items.order;
    forall a, b | Precedes(kept, a, b) ensures Precedes(e.items.order, a.id, b.id) {
      KeptInOrder(deleted, f, e.items, kind, n, a, b);
    }
    SortedItems(e.items.order, kept);
    forall d: ItemData ensures d in StableSort(kept, OrderOf) <==> d in kept {
      SortMembers(kept, OrderOf, d);
    }
    forall d: ItemData
      ensures d in kept <==>
                && d.kind == kind && d.id in e.items.at && e.items.at[d.id].value == d
                && Outlives(deleted, e.items.at[d.id].revision, ItemId(d.id))
                && Outlives(deleted, e.items.at[d.id].revision, RoundId(e.header.value.id))
                && Outlives(deleted, e.items.at[d.id].revision, TurnId(t))
    {
      KeptMembers(deleted, f, e.items, kind, n, d);
      if d.id in e.items.at {
        FencesOutlived(deleted, t, e.header.value.id, d.id, e.items.at[d.id].revision);
      }
    }
  }

  lemma RoundListed(deleted: map<Id, int>, t: string, e: RoundEntry)
    requires RankedRound(e)
    ensures ListsRound(deleted, t, e, ViewRound(deleted, t, e))
  {
    hide Kept, StableSort, RoundFence, ListsItems;
    KindListed(deleted, t, e, Text);
    KindListed(deleted, t, e, Thinking);
    KindListed(deleted, t, e, Tool);
  }

  // ----- Rounds

  lemma {:induction false} KeptRoundsInOrder(deleted: map<Id, int>, t: string, e: TurnEntry, n: nat,
                                             a: RoundView, b: RoundView)
    requires RankedTurn(e) && n <= |e.rounds.order| && Precedes(KeptRounds(deleted, t, e, n), a, b)
    ensures Precedes(e.rounds.order[..n], a.header.id, b.header.id)
  {
    hide ViewRound, RoundFence, RankedRound, ValidMap;
    KeyAt(e.rounds, n - 1);
    var kept, last := KeptRounds(deleted, t, e, n - 1), e.rounds.order[n - 1];
    var now := KeptRounds(deleted, t, e, n);
    ViewRoundHeader(deleted, t, e.rounds.at[last]);
    assert e.rounds.order[..n] == e.rounds.order[..n - 1] + [last];
    var j, k :| 0 <= j < k < |now| && now[j] == a && now[k] == b;
    assert a == kept[j];
    KeptRoundsMembers(deleted, t, e, n - 1, a);
    if k < |kept| {
      assert kept[k] == b;
      KeptRoundsInOrder(deleted, t, e, n - 1, a, b);
    }
    PrecedesMore(e.rounds.order[..n - 1], last, a.header.id, b.header.id);
  }

  lemma SortedRounds(seen: seq<string>, kept: seq<RoundView>)
    requires forall a, b :: Precedes(kept, a, b) ==> Precedes(seen, a.header.id, b.header.id)
    ensures RoundsInOrder(seen, StableSort(kept, RoundIndexOf))
  {
    hide StableSort, Precedes;
    SortSorts(kept, RoundIndexOf);
  }

  lemma RoundKept(deleted: map<Id, int>, t: string, e: TurnEntry, v: RoundView)
    requires RankedTurn(e)
    ensures v in StableSort(KeptRounds(deleted, t, e, |e.rounds.order|), RoundIndexOf) <==>
              RoundShown(deleted, t, e, v.header.id) && v == ViewRound(deleted, t, e.rounds.at[v.header.id])
  {
    hide ViewRound, KeptRounds, StableSort, RankedRound, RoundFence, Fence, Outlives;
    var n := |e.rounds.order|;
    assert e.rounds.order[..n] == e.rounds.order;
    SortMembers(KeptRounds(deleted, t, e, n), RoundIndexOf, v);
    KeptRoundsMembers(deleted, t, e, n, v);
    if v.header.id in e.rounds.at {
      FencesOutlived(deleted, t, v.header.id, "", e.rounds.at[v.header.id].header.revision);
    }
  }

  /** A materialised turn is exactly that. */
  lemma TurnListed(deleted: map<Id, int>, t: string, e: TurnEntry)
    requires RankedTurn(e)
    ensures ListsTurn(deleted, t, e, Materialize(deleted, t, e))
  {
    hide ViewRound, KeptRounds, StableSort, RankedRound, Precedes, RoundsInOrder, RoundShown, ListsRound, ValidMap;
    var n := |e.rounds.order|;
    var kept := KeptRounds(deleted, t, e, n);
    var shown := StableSort(kept, RoundIndexOf);
    assert e.rounds.order[..n] == e.rounds.order;
    forall a, b | Precedes(kept, a, b) ensures Precedes(e.rounds.order, a.header.id, b.header.id) {
      KeptRoundsInOrder(deleted, t, e, n, a, b);
    }
    SortedRounds(e.rounds.order, kept);
    forall k | 0 <= k < |shown|
      ensures shown[k].header.id in e.rounds.at && RoundShown(deleted, t, e, shown[k].header.id)
              && ListsRound(deleted, t, e.rounds.at[shown[k].header.id], shown[k])
    {
      assert shown[k] in shown;
      RoundKept(deleted, t, e, shown[k]);
      RoundFound(deleted, t, e, shown[k].header.id);
      RoundListed(deleted, t, e.rounds.at[shown[k].header.id]);
    }
    forall x | RoundShown(deleted, t, e, x) ensures exists k :: 0 <= k < |shown| && shown[k].header.id == x {
      RoundFound(deleted, t, e, x);
      ViewRoundHeader(deleted, t, e.rounds.at[x]);
      RoundKept(deleted, t, e, ViewRound(deleted, t, e.rounds.at[x]));
    }
  }

  lemma RoundFound(deleted: map<Id, int>, t: string, e: TurnEntry, n: string)
    requires RankedTurn(e) && RoundShown(deleted, t, e, n)
    ensures n in e.rounds.at && RankedRound(e.rounds.at[n]) && ValidMap(e.rounds.at[n].items)
    ensures e.rounds.at[n].header.value.id == n
  {
  }

  // ----- Which records a call takes in

  /** What a record has to look like, and what the replica may not know yet. */
  predicate Acceptable(s: Replica, sessionId: string, r: Record) {
    && r.sessionId == sessionId && 1 <= r.revision <= 9007199254740991
    && (r.id in s.records ==> s.records[r.id] < r.revision)
    && if r.Delete? then
         (r.id.TurnId? || r.id.RoundId? || r.id.ItemId?) && r.id.name != ""
         && r.id.name[0] as int !in [0x0A, 0x0D, 0x2028, 0x2029]
       else
         && r.turn.sessionId == sessionId && r.turn.turnId != ""
         && (r.round.Some? ==> r.round.value.turnId == r.turn.turnId)
         && match (r.item, r.round)
            case (Some(i), Some(_)) => r.id == ItemId(i.id)
            case (Some(_), None) => false
            case (None, Some(n)) => r.id == RoundId(n.id)
            case (None, None) => r.id == TurnId(r.turn.turnId)
  }

  /** Such a record is taken in and its revision remembered; any other changes nothing and reports no change,
      and a foreign session or a revision out of range is always an error. */
  lemma AcceptedExactly(s: Replica, sessionId: string, r: Record)
    requires ValidReplica(s)
    ensures var (v, o) := ApplyStep(s, sessionId, r);
            && (if Acceptable(s, sessionId, r) then v.records == s.records[r.id := r.revision] && !o.Threw?
                else v == s && !o.Changed?)
            && (o == Threw(AnotherSession)
                <==> r.sessionId != sessionId || (r.Upsert? && r.turn.sessionId != sessionId))
            && (o == Threw(InvalidRevision)
                <==> o != Threw(AnotherSession) && !(1 <= r.revision <= 9007199254740991))
            && (r.id in s.records && s.records[r.id] >= r.revision ==>
                  o == Unchanged || o == Threw(AnotherSession) || o == Threw(InvalidRevision))
  {
    hide UpdateTurn, Materialize, FirstContaining, ValidTurn, ValidMap, Put;
    if r.Delete? {
      CodeOfTerminators(r.id);
    }
  }

  lemma CodeOfTerminators(id: Id)
    ensures Deletable(id) <==> !id.OtherId? && id.name != "" && id.name[0] as int !in [0x0A, 0x0D, 0x2028, 0x2029]
  {
  }

  /** A deletion leaves a tombstone and every entry; it reports the first turn that contains the identity, and
      if there is none, the deleted turn as gone. */
  lemma DeletedExactly(s: Replica, r: Record)
    requires ValidReplica(s) && r.Delete?
    ensures var (v, o) := DeleteStep(s, r);
            && v.turns == s.turns
            && v.deleted == s.deleted[r.id := r.revision] && v.records == s.records[r.id := r.revision]
            && match FirstContaining(s.turns, r.id, 0)
               case Some(t) => o.Changed? && o.turnId == t && IsFirst(s.turns, r.id, t)
               case None =>
                 && (forall t :: t in s.turns.at ==> !Contains(t, s.turns.at[t], r.id))
                 && o == match r.id case TurnId(name) => Changed(name, None) case _ => Unchanged
  {
    hide Contains, ValidTurn, Materialize;
    FoundFirst(s.turns, r.id, 0);
    FirstIsTurn(s.turns, r.id, 0);
  }

  /** Of the turns that contain the identity this one was seen first. */
  predicate IsFirst(turns: OrderedMap<TurnEntry>, id: Id, t: string)
    requires ValidMap(turns)
  {
    exists k :: 0 <= k < |turns.order| && turns.order[k] == t && Contains(t, turns.at[t], id)
                && forall j :: 0 <= j < k ==> !Contains(turns.order[j], turns.at[turns.order[j]], id)
  }

  lemma {:induction false} FoundFirst(turns: OrderedMap<TurnEntry>, id: Id, k: nat)
    requires ValidMap(turns) && k <= |turns.order|
    requires forall j :: 0 <= j < k ==> !Contains(turns.order[j], turns.at[turns.order[j]], id)
    ensures FirstContaining(turns, id, k).Some? ==> IsFirst(turns, id, FirstContaining(turns, id, k).value)
    decreases |turns.order| - k
  {
    hide Contains;
    if k < |turns.order| && !Contains(turns.order[k], turns.at[turns.order[k]], id) {
      FoundFirst(turns, id, k + 1);
    }
  }

  // ----- What an upsert changes

  /** A newer revision replaces what was there, an equal one does not. */
  predicate Took<T(==)>(was: Option<Versioned<T>>, revision: int, value: T, now: Versioned<T>) {
    if was.Some? && was.value.revision >= revision then now == was.value else now == Versioned(revision, value)
  }

  /** One entry is as told, a new one stands last, and all others are as they were. */
  predicate OnlyAt<V(==)>(was: OrderedMap<V>, x: string, now: OrderedMap<V>) {
    && now.order == (if x in was.at then was.order else was.order + [x])
    && now.at.Keys == was.at.Keys + {x} && forall y :: y in was.at && y != x ==> now.at[y] == was.at[y]
  }

  predicate ItemsTook(was: OrderedMap<Versioned<ItemData>>, r: Record, now: OrderedMap<Versioned<ItemData>>)
    requires r.Upsert?
  {
    match r.item
    case None => now == was
    case Some(i) =>
      OnlyAt(was, i.id, now) && Took(if i.id in was.at then Some(was.at[i.id]) else None, r.revision, i, now.at[i.id])
  }

  predicate RoundsTook(was: OrderedMap<RoundEntry>, r: Record, now: OrderedMap<RoundEntry>)
    requires r.Upsert?
  {
    match r.round
    case None => now == was
    case Some(n) =>
      && OnlyAt(was, n.id, now)
      && Took(if n.id in was.at then Some(was.at[n.id].header) else None, r.revision, n, now.at[n.id].header)
      && ItemsTook(if n.id in was.at then was.at[n.id].items else OrderedMap([], map[]), r, now.at[n.id].items)
  }

  predicate TurnsTook(was: OrderedMap<TurnEntry>, r: Record, now: OrderedMap<TurnEntry>)
    requires r.Upsert?
  {
    var t := r.turn.turnId;
    && OnlyAt(was, t, now)
    && Took(if t in was.at then Some(was.at[t].header) else None, r.revision, r.turn, now.at[t].header)
    && RoundsTook(if t in was.at then was.at[t].rounds else OrderedMap([], map[]), r, now.at[t].rounds)
  }

  lemma RoundTakes(t: TurnEntry, r: Record)
    requires r.Upsert? && r.round.Some?
    ensures var n, e := r.round.value, UpdateRound(t, r);
            && Took(if n.id in t.rounds.at then Some(t.rounds.at[n.id].header) else None, r.revision, n, e.header)
            && ItemsTook(if n.id in t.rounds.at then t.rounds.at[n.id].items else OrderedMap([], map[]), r, e.items)
  {
  }

  lemma TurnTakes(s: Replica, r: Record)
    requires r.Upsert?
    ensures var t, e, was := r.turn.turnId, UpdateTurn(s.turns, r), s.turns;
            && Took(if t in was.at then Some(was.at[t].header) else None, r.revision, r.turn, e.header)
            && RoundsTook(if t in was.at then was.at[t].rounds else OrderedMap([], map[]), r, e.rounds)
  {
    hide UpdateRound, ItemsTook;
    var h := r.turn;
    var entry := if h.turnId in s.turns.at
                 then s.turns.at[h.turnId].(header := Newer(s.turns.at[h.turnId].header, r.revision, h))
                 else TurnEntry(Versioned(r.revision, h), Empty());
    if r.round.Some? {
      RoundTakes(entry, r);
    }
  }

  /** An upsert touches its own turn, round and item only, and each header on the way only to make it newer. */
  lemma UpsertExactly(s: Replica, r: Record)
    requires ValidReplica(s) && r.Upsert?
    ensures var v := UpsertStep(s, r).0; v.deleted == s.deleted && TurnsTook(s.turns, r, v.turns)
  {
    hide UpdateTurn, RoundsTook, Materialize, ValidMap, ValidTurn;
    TurnTakes(s, r);
  }
}
