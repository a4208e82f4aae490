/** A consumer that folds the returned changes into its own view: exactly when it has the full view. */
module ReplicaFold {
  import opened Wrappers
  import opened SessionReplica
  import opened ReplicaViews

  /** A consumer's view with one more change. */
  function FoldChange(view: map<string, TurnView>, o: Outcome): map<string, TurnView> {
    match o
    case Changed(t, Some(v)) => view[t := v]
    case Changed(t, None) => view - {t}
    case _ => view
  }

  /** A consumer's view after the changes of all these calls. */
  function FoldAll(sessionId: string, h: seq<Record>): map<string, TurnView> {
    if h == [] then map[]
    else FoldChange(FoldAll(sessionId, h[..|h| - 1]),
        ApplyStep(Replay(sessionId, h[..|h| - 1]), sessionId, h[|h| - 1]).1)
  }

  function Lookup<V>(m: map<string, V>, t: string): Option<V> {
    if t in m then Some(m[t]) else None
  }

  /** What the full view holds for one turn. */
  function ViewOf(s: Replica, t: string): Option<TurnView>
    requires ValidReplica(s)
  {
    if Visible(s, t) then Some(Materialize(s.deleted, t, s.turns.at[t])) else None
  }

  lemma SameLookups<V>(a: map<string, V>, b: map<string, V>)
    requires forall t :: Lookup(a, t) == Lookup(b, t)
    ensures a == b
  {
    forall t ensures t in a <==> t in b {
      assert Lookup(a, t) == Lookup(b, t);
    }
    forall t | t in a ensures a[t] == b[t] {
      assert Lookup(a, t) == Lookup(b, t);
    }
  }

  lemma FullViewLookup(s: Replica, t: string)
    requires ValidReplica(s)
    ensures Lookup(FullView(s), t) == ViewOf(s, t)
  {
  }

  // ----- What a tombstone takes from a turn

  /** The round shows, and a tombstone of this identity and revision hides it. */
  predicate TakesRound(s: Replica, t: string, n: string, id: Id, rev: int) {
    id == RoundId(n) && RoundAbove(s, t, n) && s.turns.at[t].rounds.at[n].header.revision <= rev
  }

  predicate RoundAbove(s: Replica, t: string, n: string) {
    && t in s.turns.at && n in s.turns.at[t].rounds.at
    && s.turns.at[t].rounds.at[n].header.revision > RoundFence(s.deleted, t, n)
  }

  /** The item shows, and a tombstone of this identity and revision hides it. */
  predicate TakesItem(s: Replica, t: string, n: string, i: string, id: Id, rev: int) {
    var e := Entry(s, t, n, i);
    (id == RoundId(n) || id == ItemId(i)) && e.Some? && ItemFence(s, t, n, i) < e.value.revision <= rev
  }

  /** The tombstone of this identity and revision hides something that the turn shows now. */
  ghost predicate Takes(s: Replica, t: string, id: Id, rev: int) {
    (exists n :: TakesRound(s, t, n, id, rev)) || exists n, i :: TakesItem(s, t, n, i, id, rev)
  }

  /** The same items of a round are newer than their fences. */
  predicate SameItems(a: map<Id, int>, f: int, b: map<Id, int>, g: int, items: OrderedMap<Versioned<ItemData>>) {
    forall i :: i in items.at ==>
      (items.at[i].revision > Max(f, Fence(a, ItemId(i))) <==> items.at[i].revision > Max(g, Fence(b, ItemId(i))))
  }

  lemma {:induction false} KeptSame(a: map<Id, int>, f: int, b: map<Id, int>, g: int,
                                    items: OrderedMap<Versioned<ItemData>>, kind: Kind, n: nat)
    requires ValidMap(items) && n <= |items.order| && SameItems(a, f, b, g, items)
    requires forall i :: i in items.at ==> items.at[i].value.id == i
    ensures Kept(a, f, items, kind, n) == Kept(b, g, items, kind, n)
  {
    if n > 0 {
      KeptSame(a, f, b, g, items, kind, n - 1);
    }
  }

  predicate SameAbove(a: map<Id, int>, b: map<Id, int>, t: string, e: RoundEntry) {
    var n := e.header.value.id;
    && (e.header.revision > RoundFence(a, t, n) <==> e.header.revision > RoundFence(b, t, n))
    && SameItems(a, RoundFence(a, t, n), b, RoundFence(b, t, n), e.items)
  }

  lemma ViewRoundSame(a: map<Id, int>, b: map<Id, int>, t: string, e: RoundEntry)
    requires RankedRound(e) && SameAbove(a, b, t, e)
    ensures ViewRound(a, t, e) == ViewRound(b, t, e)
  {
    hide Kept, StableSort, SameItems, RoundFence;
    var f, g := RoundFence(a, t, e.header.value.id), RoundFence(b, t, e.header.value.id);
    KeptSame(a, f, b, g, e.items, Text, |e.items.order|);
    KeptSame(a, f, b, g, e.items, Thinking, |e.items.order|);
    KeptSame(a, f, b, g, e.items, Tool, |e.items.order|);
  }

  lemma {:induction false} KeptRoundsSame(a: map<Id, int>, b: map<Id, int>, t: string, e: TurnEntry, n: nat)
    requires RankedTurn(e) && n <= |e.rounds.order|
    requires forall r :: r in e.rounds.at ==> SameAbove(a, b, t, e.rounds.at[r])
    ensures KeptRounds(a, t, e, n) == KeptRounds(b, t, e, n)
  {
    hide ViewRound, RoundFence, SameItems;
    if n > 0 {
      KeptRoundsSame(a, b, t, e, n - 1);
      ViewRoundSame(a, b, t, e.rounds.at[e.rounds.order[n - 1]]);
    }
  }

  // ----- Deletions

  /** The call accepts this deletion. */
  predicate Deletes(s: Replica, sessionId: string, r: Record) {
    r.Delete? && SessionError(sessionId, r).None? && ShapeError(r).None? && Known(s, r.id) < r.revision
  }

  lemma DeleteSameAbove(s: Replica, sessionId: string, r: Record, t: string, n: string)
    requires Ranked(s) && Deletes(s, sessionId, r) && t in s.turns.at && n in s.turns.at[t].rounds.at
    requires r.id != TurnId(t) && !Takes(s, t, r.id, r.revision)
    ensures SameAbove(s.deleted, s.deleted[r.id := r.revision], t, s.turns.at[t].rounds.at[n])
  {
    hide ValidMap, Takes;
    var e := s.turns.at[t].rounds.at[n];
    assert RankedTurn(s.turns.at[t]) && RankedRound(e);
    assert !TakesRound(s, t, n, r.id, r.revision) by {
      NotTaken(s, t, r.id, r.revision, n, "");
    }
    forall i | i in e.items.at ensures !TakesItem(s, t, n, i, r.id, r.revision) {
      NotTaken(s, t, r.id, r.revision, n, i);
    }
    forall i | i in e.items.at
      ensures var d := s.deleted[r.id := r.revision];
              e.items.at[i].revision > Max(RoundFence(s.deleted, t, n), Fence(s.deleted, ItemId(i)))
              <==> e.items.at[i].revision > Max(RoundFence(d, t, n), Fence(d, ItemId(i)))
    {
      assert !TakesItem(s, t, n, i, r.id, r.revision);
    }
  }

  lemma NotTaken(s: Replica, t: string, id: Id, rev: int, n: string, i: string)
    requires !Takes(s, t, id, rev)
    ensures !TakesRound(s, t, n, id, rev) && !TakesItem(s, t, n, i, id, rev)
  {
    hide TakesRound, TakesItem;
  }

  lemma DeleteKeeps(s: Replica, sessionId: string, r: Record, t: string)
    requires Ranked(s) && Deletes(s, sessionId, r) && r.id != TurnId(t) && !Takes(s, t, r.id, r.revision)
    ensures ViewOf(DeleteStep(s, r).0, t) == ViewOf(s, t)
  {
    hide KeptRounds, StableSort, SameAbove, Deletes, RankedTurn, Takes;
    if t in s.turns.at {
      var e := s.turns.at[t];
      assert RankedTurn(e);
      forall n | n in e.rounds.at ensures SameAbove(s.deleted, s.deleted[r.id := r.revision], t, e.rounds.at[n]) {
        DeleteSameAbove(s, sessionId, r, t, n);
      }
      KeptRoundsSame(s.deleted, s.deleted[r.id := r.revision], t, e, |e.rounds.order|);
    }
  }

  lemma ShowsInView(a: Replica, b: Replica, t: string, n: string, d: ItemData)
    requires ValidReplica(a) && ValidReplica(b) && ViewOf(a, t) == ViewOf(b, t)
    ensures Shows(a, t, n, d) == Shows(b, t, n, d)
  {
    hide Materialize, InRound;
  }

  lemma TakenItemGoes(s: Replica, sessionId: string, r: Record, t: string, n: string, i: string)
    requires Ranked(s) && Deletes(s, sessionId, r) && TakesItem(s, t, n, i, r.id, r.revision)
    ensures ViewOf(DeleteStep(s, r).0, t) != ViewOf(s, t)
  {
    hide ViewOf, Shows, ValidMap;
    RankedDelete(s, r);
    var s', d := DeleteStep(s, r).0, Entry(s, t, n, i).value.value;
    assert RankedTurn(s.turns.at[t]) && RankedRound(s.turns.at[t].rounds.at[n]);
    ShowsExactly(s, t, n, d);
    ShowsExactly(s', t, n, d);
    if ViewOf(s', t) == ViewOf(s, t) {
      ShowsInView(s, s', t, n, d);
    }
  }

  /** A round is in the view exactly when its header is newer than the fences over it. */
  lemma RoundInView(s: Replica, t: string, n: string)
    requires Ranked(s)
    ensures RoundAbove(s, t, n) <==>
              ViewOf(s, t).Some? && exists v :: v in ViewOf(s, t).value.rounds && v.header.id == n
  {
    hide KeptRounds, StableSort, ViewRound, RankedRound;
    if t in s.turns.at {
      var e := s.turns.at[t];
      assert RankedTurn(e);
      var kept := KeptRounds(s.deleted, t, e, |e.rounds.order|);
      assert e.rounds.order[..|e.rounds.order|] == e.rounds.order;
      if RoundAbove(s, t, n) {
        assert RankedRound(e.rounds.at[n]);
        var v := ViewRound(s.deleted, t, e.rounds.at[n]);
        ViewRoundHeader(s.deleted, t, e.rounds.at[n]);
        KeptRoundsMembers(s.deleted, t, e, |e.rounds.order|, v);
        SortMembers(kept, RoundIndexOf, v);
        assert v in ViewOf(s, t).value.rounds;
      }
      if ViewOf(s, t).Some? {
        if v :| v in ViewOf(s, t).value.rounds && v.header.id == n {
          SortMembers(kept, RoundIndexOf, v);
          KeptRoundsMembers(s.deleted, t, e, |e.rounds.order|, v);
        }
      }
    }
  }

  lemma TakenRoundGoes(s: Replica, sessionId: string, r: Record, t: string, n: string)
    requires Ranked(s) && Deletes(s, sessionId, r) && TakesRound(s, t, n, r.id, r.revision)
    ensures ViewOf(DeleteStep(s, r).0, t) != ViewOf(s, t)
  {
    hide ViewOf, ValidMap;
    RankedDelete(s, r);
    RoundInView(s, t, n);
    RoundInView(DeleteStep(s, r).0, t, n);
  }

  /** An accepted deletion leaves the view of a turn as it is exactly when it takes nothing from it. */
  lemma DeleteKeepsExactly(s: Replica, sessionId: string, r: Record, t: string)
    requires Ranked(s) && Deletes(s, sessionId, r) && r.id != TurnId(t)
    ensures ViewOf(DeleteStep(s, r).0, t) == ViewOf(s, t) <==> !Takes(s, t, r.id, r.revision)
  {
    hide ViewOf, TakesRound, TakesItem, Deletes, Ranked, DeleteStep;
    if !Takes(s, t, r.id, r.revision) {
      DeleteKeeps(s, sessionId, r, t);
    } else if n :| TakesRound(s, t, n, r.id, r.revision) {
      TakenRoundGoes(s, sessionId, r, t, n);
    } else {
      var n, i :| TakesItem(s, t, n, i, r.id, r.revision);
      TakenItemGoes(s, sessionId, r, t, n, i);
    }
  }

  // ----- One call

  lemma ContainsItself(s: Replica, id: Id)
    requires id.TurnId? && id.name in s.turns.at
    ensures Contains(id.name, s.turns.at[id.name], id)
  {
  }

  /** A deletion of a turn reports that turn. */
  lemma TurnIsFirst(s: Replica, t: string)
    requires ValidReplica(s) && t in s.turns.at
    ensures FirstContaining(s.turns, TurnId(t), 0) == Some(t)
  {
    hide FirstContaining;
    FirstIsTurn(s.turns, TurnId(t), 0);
    ContainsItself(s, TurnId(t));
  }

  /** The change reported by a deletion is right for every turn but those it does not report. */
  lemma DeleteLookup(s: Replica, sessionId: string, r: Record, t: string)
    requires Ranked(s) && Deletes(s, sessionId, r)
    ensures Lookup(FoldChange(FullView(s), DeleteStep(s, r).1), t) == ViewOf(DeleteStep(s, r).0, t)
            <==> FirstContaining(s.turns, r.id, 0) == Some(t) || !Takes(s, t, r.id, r.revision)
  {
    hide Materialize, Contains, RankedTurn, ValidTurn, FirstContaining, FullView, Takes, Deletes;
    FirstIsTurn(s.turns, r.id, 0);
    FullViewLookup(s, t);
    if r.id == TurnId(t) {
      if t in s.turns.at {
        TurnIsFirst(s, t);
      } else {
        NothingThere(s, t, r.id, r.revision);
      }
    } else {
      DeleteKeepsExactly(s, sessionId, r, t);
    }
  }

  lemma NothingThere(s: Replica, t: string, id: Id, rev: int)
    requires t !in s.turns.at
    ensures !Takes(s, t, id, rev)
  {
  }

  lemma UpsertLookup(s: Replica, r: Record, t: string)
    requires Ranked(s) && r.Upsert?
    ensures Lookup(FoldChange(FullView(s), UpsertStep(s, r).1), t) == ViewOf(UpsertStep(s, r).0, t)
  {
    hide Materialize, UpdateTurn, RankedTurn, ValidTurn, FullView;
    UpdateTurnValid(s, r);
    FullViewLookup(s, t);
  }

  /** No turn but the one a deletion reports loses anything by it. */
  ghost predicate ReportsAll(s: Replica, r: Record)
    requires ValidReplica(s)
  {
    forall t :: t in s.turns.at && FirstContaining(s.turns, r.id, 0) != Some(t) ==> !Takes(s, t, r.id, r.revision)
  }

  lemma DeleteFolds(s: Replica, sessionId: string, r: Record)
    requires Ranked(s) && Deletes(s, sessionId, r)
    ensures FoldChange(FullView(s), DeleteStep(s, r).1) == FullView(DeleteStep(s, r).0) <==> ReportsAll(s, r)
  {
    hide DeleteStep, FullView, ViewOf, Takes, FirstContaining, RankedTurn, FoldChange;
    var s', view := DeleteStep(s, r).0, FoldChange(FullView(s), DeleteStep(s, r).1);
    forall t ensures Lookup(view, t) == Lookup(FullView(s'), t)
                     <==> FirstContaining(s.turns, r.id, 0) == Some(t) || !Takes(s, t, r.id, r.revision) {
      DeleteLookup(s, sessionId, r, t);
      FullViewLookup(s', t);
    }
    if ReportsAll(s, r) {
      forall t ensures Lookup(view, t) == Lookup(FullView(s'), t) {
        if t !in s.turns.at {
          NothingThere(s, t, r.id, r.revision);
        }
      }
      SameLookups(view, FullView(s'));
    }
  }

  lemma UpsertFolds(s: Replica, r: Record)
    requires Ranked(s) && r.Upsert?
    ensures FoldChange(FullView(s), UpsertStep(s, r).1) == FullView(UpsertStep(s, r).0)
  {
    hide UpsertStep, FullView, ViewOf, RankedTurn, FoldChange;
    var s', view := UpsertStep(s, r).0, FoldChange(FullView(s), UpsertStep(s, r).1);
    forall t ensures Lookup(view, t) == Lookup(FullView(s'), t) {
      UpsertLookup(s, r, t);
      FullViewLookup(s', t);
    }
    SameLookups(view, FullView(s'));
  }

  /** After a call, folding the returned change into the view of all visible turns gives the view of
      all visible turns exactly when the call is no deletion that takes from a turn it does not report. */
  lemma IncrementalExactly(s: Replica, sessionId: string, r: Record)
    requires Ranked(s)
    ensures FoldChange(FullView(s), ApplyStep(s, sessionId, r).1) == FullView(ApplyStep(s, sessionId, r).0)
            <==> (Deletes(s, sessionId, r) ==> ReportsAll(s, r))
  {
    hide DeleteStep, UpsertStep, FullView, ReportsAll, Ranked;
    if Deletes(s, sessionId, r) {
      DeleteFolds(s, sessionId, r);
    } else if r.Upsert? {
      UpsertFolds(s, r);
    }
  }

  // ----- Whole histories

  /** With stable parents no turn but the reported one contains the identity at all. */
  lemma PlacedReportsAll(p: Parents, s: Replica, r: Record)
    requires Ranked(s) && Placed(p, s)
    ensures ReportsAll(s, r)
  {
    hide RankedTurn, Placed, FirstContaining, TakesRound, TakesItem;
    FirstIsTurn(s.turns, r.id, 0);
    forall t | t in s.turns.at && FirstContaining(s.turns, r.id, 0) != Some(t)
      ensures !Takes(s, t, r.id, r.revision)
    {
      assert t in s.turns.order;
      if Takes(s, t, r.id, r.revision) {
        TakesContains(s, t, r.id, r.revision);
        ContainedOnce(p, s, r.id, FirstContaining(s.turns, r.id, 0).value, t);
      }
    }
  }

  lemma TakesContains(s: Replica, t: string, id: Id, rev: int)
    requires t in s.turns.at && Takes(s, t, id, rev)
    ensures Contains(t, s.turns.at[t], id)
  {
  }

  /** With stable parents every change is enough. */
  lemma IncrementalIsFull(p: Parents, s: Replica, sessionId: string, r: Record)
    requires Ranked(s) && Placed(p, s)
    ensures FoldChange(FullView(s), ApplyStep(s, sessionId, r).1) == FullView(ApplyStep(s, sessionId, r).0)
  {
    hide ApplyStep, RankedTurn, Placed, FullView, FoldChange, ReportsAll, Deletes;
    PlacedReportsAll(p, s, r);
    IncrementalExactly(s, sessionId, r);
  }

  /** When every round keeps its turn and every item its round, a consumer that folds every change
      from the start has the full view after any history, refused and stale records included. */
  lemma {:induction false} FoldIsFullView(sessionId: string, p: Parents, h: seq<Record>)
    requires forall r :: r in h ==> Follows(p, r)
    ensures var s := Replay(sessionId, h); Ranked(s) && Placed(p, s) && FoldAll(sessionId, h) == FullView(s)
  {
    hide ApplyStep, Ranked, PlacedTurn, FullView, FoldChange, ReportsAll;
    if h == [] {
      EmptyView();
    } else {
      var g, r := h[..|h| - 1], h[|h| - 1];
      assert r in h && forall q :: q in g ==> q in h;
      FoldIsFullView(sessionId, p, g);
      var s := Replay(sessionId, g);
      RankedStep(s, sessionId, r);
      PlacedStep(p, s, sessionId, r);
      IncrementalIsFull(p, s, sessionId, r);
    }
  }

  lemma EmptyView()
    ensures var s := Replica(map[], Empty(), map[]); Ranked(s) && FullView(s) == map[]
  {
  }

  /** An item upserted into two turns and then deleted: the change names the first turn only, and a
      consumer keeps showing the item in the second. */
  lemma MovedItemStays()
    ensures var d := ItemData(Text, "i", None, "");
            var first := Upsert("s", ItemId("i"), 1, TurnHeader("a", "s", ""), Some(RoundHeader("m", "a", 0, "")),
                Some(d));
            var moved := Upsert("s", ItemId("i"), 2, TurnHeader("b", "s", ""), Some(RoundHeader("n", "b", 0, "")),
                Some(d));
            var h := [first, moved, Delete("s", ItemId("i"), 3)];
            FoldAll("s", h) != FullView(Replay("s", h))
  {
    hide Replay, FoldAll, FullView, ReportsAll, Ranked, Entry;
    var d := ItemData(Text, "i", None, "");
    var first := Upsert("s", ItemId("i"), 1, TurnHeader("a", "s", ""), Some(RoundHeader("m", "a", 0, "")), Some(d));
    var moved := Upsert("s", ItemId("i"), 2, TurnHeader("b", "s", ""), Some(RoundHeader("n", "b", 0, "")), Some(d));
    var gone := Delete("s", ItemId("i"), 3);
    assert "a" != "b";
    TwoTurns(first, moved, "a", "m", "b", "n", "i");
    var s := Replay("s", [first, moved]);
    FoldOne("s", [first, moved], gone);
    assert [first, moved] + [gone] == [first, moved, gone];
    SecondTurnKeeps(s, gone, "a", "b", "m", "n", "i");
  }

  /** The replica and the consumer after an item was upserted into two turns. */
  lemma TwoTurns(a: Record, b: Record, t: string, n: string, t': string, n': string, i: string)
    requires IsItemOf(a, t, n, i) && IsItemOf(b, t', n', i) && t != t'
    requires 1 == a.revision < b.revision <= MAX_SAFE_INTEGER
    ensures var s := Replay("s", [a, b]);
            && Ranked(s) && FoldAll("s", [a, b]) == FullView(s)
            && s.turns.order == [t, t'] && s.deleted == map[] && Known(s, ItemId(i)) == b.revision
            && Entry(s, t, n, i) == Some(Versioned(a.revision, a.item.value))
            && Entry(s, t', n', i) == Some(Versioned(b.revision, b.item.value))
  {
    hide Replay, FoldAll, FullView, Ranked, Entry, IsItemOf;
    OneTurn(a, t, n, i);
    assert [a] + [b] == [a, b];
    NextItem([a], b, t', n', i);
    OtherEntry([a], b, t', n', i, t, n);
  }

  lemma OneTurn(a: Record, t: string, n: string, i: string)
    requires IsItemOf(a, t, n, i) && a.revision == 1
    ensures var s := Replay("s", [a]);
            && Ranked(s) && FoldAll("s", [a]) == FullView(s)
            && s.turns.order == [t] && s.turns.at.Keys == {t} && s.deleted == map[] && Known(s, ItemId(i)) == 1
            && Entry(s, t, n, i) == Some(Versioned(1, a.item.value))
  {
    hide Replay, FoldAll, FullView, Ranked, Entry, IsItemOf;
    EmptyHistory();
    assert [] + [a] == [a];
    NextItem([], a, t, n, i);
  }

  lemma EmptyHistory()
    ensures var s := Replay("s", []);
            Ranked(s) && FoldAll("s", []) == FullView(s) && s == Replica(map[], Empty(), map[])
  {
    EmptyView();
  }

  /** One more item in a turn the replica has not seen. */
  lemma NextItem(h: seq<Record>, r: Record, t: string, n: string, i: string)
    requires var s := Replay("s", h);
             && Ranked(s) && FoldAll("s", h) == FullView(s)
             && Known(s, ItemId(i)) < r.revision && t !in s.turns.at
    requires IsItemOf(r, t, n, i)
    ensures var s, s' := Replay("s", h), Replay("s", h + [r]);
            && Ranked(s') && FoldAll("s", h + [r]) == FullView(s')
            && s'.turns.order == s.turns.order + [t] && s'.turns.at.Keys == s.turns.at.Keys + {t}
            && s'.deleted == s.deleted && Known(s', ItemId(i)) == r.revision
            && Entry(s', t, n, i) == Some(Versioned(r.revision, r.item.value))
  {
    hide Replay, FoldAll, FullView, Ranked, Entry, ApplyStep, ReportsAll;
    FoldOne("s", h, r);
    RankedIsValid(Replay("s", h));
    NewTurn(Replay("s", h), r);
  }

  lemma OtherEntry(h: seq<Record>, r: Record, t: string, n: string, i: string, t': string, n': string)
    requires IsItemOf(r, t, n, i) && t' != t
    ensures Entry(Replay("s", h + [r]), t', n', i) == Entry(Replay("s", h), t', n', i)
  {
    hide Entry, UpsertStep;
    assert (h + [r])[..|h|] == h;
    EntryAfterUpsert(Replay("s", h), r, t', n', i);
  }

  predicate IsItemOf(r: Record, t: string, n: string, i: string) {
    && r.Upsert? && r.id == ItemId(i) && r.round.Some? && r.item.Some?
    && r.turn.turnId == t && r.round.value.id == n && r.item.value.id == i
    && SessionError("s", r).None? && ShapeError(r).None?
  }

  /** An accepted upsert of an item into a turn the replica has not seen. */
  lemma NewTurn(s: Replica, r: Record)
    requires ValidReplica(s) && r.Upsert? && r.round.Some? && r.item.Some? && ShapeError(r).None?
    requires SessionError("s", r).None? && Known(s, r.id) < r.revision && r.turn.turnId !in s.turns.at
    ensures var s' := ApplyStep(s, "s", r).0;
            && s'.turns.order == s.turns.order + [r.turn.turnId]
            && s'.turns.at.Keys == s.turns.at.Keys + {r.turn.turnId}
            && s'.deleted == s.deleted && s'.records == s.records[r.id := r.revision]
            && s' == UpsertStep(s, r).0
            && Entry(s', r.turn.turnId, r.round.value.id, r.item.value.id) == Some(Versioned(r.revision, r.item.value))
  {
    hide Materialize, ValidMap;
    EntryAfterUpsert(s, r, r.turn.turnId, r.round.value.id, r.item.value.id);
  }

  /** A deletion that reports one of two turns with the item hides it in the other, too. */
  lemma SecondTurnKeeps(s: Replica, r: Record, a: string, b: string, m: string, n: string, i: string)
    requires Ranked(s) && r.Delete? && r.id == ItemId(i) && s.turns.order == [a, b] && a != b && s.deleted == map[]
    requires Entry(s, a, m, i).Some? && Entry(s, b, n, i).Some? && 1 <= Entry(s, b, n, i).value.revision <= r.revision
    ensures !ReportsAll(s, r)
  {
    hide RankedTurn, FirstContaining, Takes, TakesItem, Entry;
    ItemContained(s, a, m, i);
    ItemContained(s, b, n, i);
    FirstOfAll(s.turns, r.id);
    ItemTaken(s, b, n, i, r.revision);
    assert s.turns.order[0] == a;
  }

  lemma ItemContained(s: Replica, t: string, n: string, i: string)
    requires Entry(s, t, n, i).Some?
    ensures t in s.turns.at && Contains(t, s.turns.at[t], ItemId(i))
  {
  }

  lemma FirstOfAll(turns: OrderedMap<TurnEntry>, id: Id)
    requires ValidMap(turns) && turns.order != [] && Contains(turns.order[0], turns.at[turns.order[0]], id)
    ensures FirstContaining(turns, id, 0) == Some(turns.order[0])
  {
  }

  lemma ItemTaken(s: Replica, t: string, n: string, i: string, rev: int)
    requires Entry(s, t, n, i).Some? && s.deleted == map[] && 1 <= Entry(s, t, n, i).value.revision <= rev
    ensures Takes(s, t, ItemId(i), rev)
  {
    hide Entry;
    assert TakesItem(s, t, n, i, ItemId(i), rev);
  }

  /** Appending one record to a history whose fold is the full view. */
  lemma FoldOne(sessionId: string, h: seq<Record>, r: Record)
    requires var s := Replay(sessionId, h); Ranked(s) && FoldAll(sessionId, h) == FullView(s)
    ensures var s := Replay(sessionId, h);
            && Replay(sessionId, h + [r]) == ApplyStep(s, sessionId, r).0
            && Ranked(Replay(sessionId, h + [r]))
            && (FoldAll(sessionId, h + [r]) == FullView(Replay(sessionId, h + [r]))
                <==> (Deletes(s, sessionId, r) ==> ReportsAll(s, r)))
  {
    hide ApplyStep, FullView, FoldChange, Ranked, ReportsAll, Deletes, ValidReplica;
    assert (h + [r])[..|h|] == h;
    RankedStep(Replay(sessionId, h), sessionId, r);
    IncrementalExactly(Replay(sessionId, h), sessionId, r);
  }
}
