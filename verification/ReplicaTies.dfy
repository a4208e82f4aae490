/** Records without deletions give one view in every order exactly when no order indices tie. */
module ReplicaTies {
  import opened Wrappers
  import opened SessionReplica
  import opened ReplicaViews
  import opened ReplicaConvergence
  import opened ReplicaOrder

  // ----- A stable sort puts the first of its input before everything that ties with it

  predicate LeadsAt<T(==)>(s: seq<T>, j: int, x: T, key: T -> int) {
    0 <= j < |s| && s[j] == x && forall k :: 0 <= k < j ==> key(s[k]) < key(x)
  }

  ghost predicate Leads<T>(s: seq<T>, x: T, key: T -> int) {
    exists j :: LeadsAt(s, j, x, key)
  }

  lemma {:induction false} InsertLeads<T>(s: seq<T>, y: T, key: T -> int, x: T)
    requires Leads(s, x, key)
    ensures Leads(Insert(s, y, key), x, key)
  {
    var j :| LeadsAt(s, j, x, key);
    var front, last := s[..|s| - 1], s[|s| - 1];
    if key(last) <= key(y) {
      assert LeadsAt(s + [y], j, x, key);
    } else if j < |front| {
      assert LeadsAt(front, j, x, key);
      InsertLeads(front, y, key, x);
      var k :| LeadsAt(Insert(front, y, key), k, x, key);
      assert LeadsAt(Insert(front, y, key) + [last], k, x, key);
    } else {
      var u := Insert(front, y, key);
      forall k | 0 <= k < |u| ensures key(u[k]) < key(x) {
        assert u[k] in u;
        InsertMembers(front, y, key, u[k]);
      }
      assert LeadsAt(u + [last], |u|, x, key);
    }
  }

  lemma {:induction false} SortLeads<T>(s: seq<T>, key: T -> int)
    requires s != []
    ensures Leads(StableSort(s, key), s[0], key)
  {
    if |s| == 1 {
      assert StableSort(s[..0], key) == [];
      assert LeadsAt(StableSort(s, key), 0, s[0], key);
    } else {
      SortLeads(s[..|s| - 1], key);
      InsertLeads(StableSort(s[..|s| - 1], key), s[|s| - 1], key, s[0]);
    }
  }

  lemma OneLeads<T>(s: seq<T>, x: T, y: T, key: T -> int)
    requires Leads(s, x, key) && Leads(s, y, key) && key(x) == key(y)
    ensures x == y
  {
    var j :| LeadsAt(s, j, x, key);
    var k :| LeadsAt(s, k, y, key);
  }

  // ----- The first record decides what comes first

  predicate FirstRound(s: Replica, t: string, n: string) {
    t in s.turns.at && |s.turns.at[t].rounds.order| > 0 && s.turns.at[t].rounds.order[0] == n
  }

  predicate FirstItem(s: Replica, t: string, n: string, i: string) {
    && t in s.turns.at && n in s.turns.at[t].rounds.at
    && |s.turns.at[t].rounds.at[n].items.order| > 0 && s.turns.at[t].rounds.at[n].items.order[0] == i
  }

  lemma FirstRoundStays(sessionId: string, s: Replica, r: Record, t: string, n: string)
    requires ValidReplica(s) && FirstRound(s, t, n)
    ensures FirstRound(ApplyStep(s, sessionId, r).0, t, n)
  {
    hide FirstContaining, Change, ValidReplica, UpdateRound;
  }

  lemma FirstItemStays(sessionId: string, s: Replica, r: Record, t: string, n: string, i: string)
    requires ValidReplica(s) && FirstItem(s, t, n, i)
    ensures FirstItem(ApplyStep(s, sessionId, r).0, t, n, i)
  {
    hide FirstContaining, Change, ValidReplica, ShapeError, SessionError;
  }

  /** The record comes first in the order of its turn and round when the history starts with it. */
  lemma {:induction false} StartsWith(sessionId: string, r: Record, h: seq<Record>)
    requires r.Upsert? && r.round.Some? && SessionError(sessionId, r).None? && ShapeError(r).None?
    ensures var s := Replay(sessionId, [r] + h);
            && FirstRound(s, r.turn.turnId, r.round.value.id)
            && (r.item.Some? ==> FirstItem(s, r.turn.turnId, r.round.value.id, r.item.value.id))
  {
    hide ApplyStep, FirstRound, FirstItem;
    if h == [] {
      assert [r] + h == [r];
      StartsAlone(sessionId, r);
    } else {
      var g, q := h[..|h| - 1], h[|h| - 1];
      StartsWith(sessionId, r, g);
      assert ([r] + h)[..|[r] + h| - 1] == [r] + g;
      FirstRoundStays(sessionId, Replay(sessionId, [r] + g), q, r.turn.turnId, r.round.value.id);
      if r.item.Some? {
        FirstItemStays(sessionId, Replay(sessionId, [r] + g), q, r.turn.turnId, r.round.value.id, r.item.value.id);
      }
    }
  }

  lemma StartsAlone(sessionId: string, r: Record)
    requires r.Upsert? && r.round.Some? && SessionError(sessionId, r).None? && ShapeError(r).None?
    ensures var s := Replay(sessionId, [r]);
            && FirstRound(s, r.turn.turnId, r.round.value.id)
            && (r.item.Some? ==> FirstItem(s, r.turn.turnId, r.round.value.id, r.item.value.id))
  {
    hide ShapeError, Change, ValidMap;
    assert [r][..0] == [];
    assert Replay(sessionId, []) == Replica(map[], Empty(), map[]);
    assert ApplyStep(Replay(sessionId, []), sessionId, r) == UpsertStep(Replay(sessionId, []), r);
  }

  // ----- What comes first leads

  lemma {:induction false} KeptFirst(deleted: map<Id, int>, f: int, items: OrderedMap<Versioned<ItemData>>,
                                     kind: Kind, n: nat)
    requires ValidMap(items) && 1 <= n <= |items.order|
    requires var x := items.at[items.order[0]];
             x.value.kind == kind && x.revision > Max(f, Fence(deleted, ItemId(x.value.id)))
    ensures Kept(deleted, f, items, kind, n) != []
    ensures Kept(deleted, f, items, kind, n)[0] == items.at[items.order[0]].value
  {
    if n == 1 {
      assert Kept(deleted, f, items, kind, 0) == [];
    } else {
      KeptFirst(deleted, f, items, kind, n - 1);
    }
  }

  lemma {:induction false} KeptRoundsFirst(deleted: map<Id, int>, t: string, e: TurnEntry, n: nat)
    requires ValidTurn(e) && 1 <= n <= |e.rounds.order|
    requires var x := e.rounds.at[e.rounds.order[0]]; x.header.revision > RoundFence(deleted, t, x.header.value.id)
    ensures KeptRounds(deleted, t, e, n) != []
    ensures KeptRounds(deleted, t, e, n)[0] == ViewRound(deleted, t, e.rounds.at[e.rounds.order[0]])
  {
    hide ViewRound, RoundFence;
    if n == 1 {
      assert KeptRounds(deleted, t, e, 0) == [];
    } else {
      KeptRoundsFirst(deleted, t, e, n - 1);
    }
  }

  lemma ItemLeads(s: Replica, t: string, n: string, d: ItemData)
    requires Ranked(s) && Unfenced(s) && FirstItem(s, t, n, d.id) && Entry(s, t, n, d.id).value.value == d
    ensures Leads(ListOf(ViewRound(s.deleted, t, s.turns.at[t].rounds.at[n]), d.kind), d, OrderOf)
  {
    hide ViewRound, Kept, StableSort, Fence, Leads, ListOf;
    var e := s.turns.at[t].rounds.at[n];
    assert RankedTurn(s.turns.at[t]) && RankedRound(e);
    KeptFirst(s.deleted, RoundFence(s.deleted, t, n), e.items, d.kind, |e.items.order|);
    SortLeads(KeptOf(s.deleted, t, e, d.kind), OrderOf);
    ListIsSorted(s.deleted, t, e, d.kind);
  }

  lemma RoundLeads(s: Replica, t: string, n: string)
    requires Ranked(s) && Unfenced(s) && FirstRound(s, t, n)
    ensures n in s.turns.at[t].rounds.at
    ensures Leads(Materialize(s.deleted, t, s.turns.at[t]).rounds, ViewRound(s.deleted, t, s.turns.at[t].rounds.at[n]),
                  RoundIndexOf)
  {
    hide ViewRound, KeptRounds, StableSort, Fence, Leads, RankedRound;
    var e := s.turns.at[t];
    assert RankedTurn(e);
    KeptRoundsFirst(s.deleted, t, e, |e.rounds.order|);
    SortLeads(KeptRounds(s.deleted, t, e, |e.rounds.order|), RoundIndexOf);
  }

  // ----- Any of several ties can lead

  lemma ReplayUnfenced(sessionId: string, p: Parents, h: seq<Record>)
    requires Sound(sessionId, p, h) && NoDeletes(h)
    ensures var s := Replay(sessionId, h); Ranked(s) && Unfenced(s) && Holds(h, s)
  {
    hide Replay, Sound, Ranked, Placed, Holds, Up, Tomb;
    ReplayInvariant(sessionId, p, h);
    forall x ensures Fence(Replay(sessionId, h).deleted, x) == 0 {
      NoDeletesNoTomb(h, x);
    }
  }

  /** Without fences the view of a turn is its materialisation. */
  lemma TurnInView(s: Replica, t: string)
    requires Ranked(s) && Unfenced(s)
    ensures t in FullView(s) <==> t in s.turns.at
    ensures t in s.turns.at ==> FullView(s)[t] == Materialize(s.deleted, t, s.turns.at[t])
  {
    hide Materialize, Fence, RankedRound, ValidMap;
  }

  /** The view holds this round of this turn. */
  predicate HasRound(view: map<string, TurnView>, t: string, v: RoundView) {
    t in view && v in view[t].rounds
  }

  lemma RoundOfView(s: Replica, t: string, v: RoundView)
    requires Ranked(s) && Unfenced(s)
    ensures HasRound(FullView(s), t, v)
            <==> RoundAt(s, t, v.header.id).Some? && v == ViewRound(s.deleted, t, s.turns.at[t].rounds.at[v.header.id])
  {
    hide Materialize, Ranked, ViewRound, FullView;
    RankedIsValid(s);
    TurnInView(s, t);
    if t in s.turns.at {
      RoundsShown(s, t, v);
    }
  }

  lemma MovedToFront(sessionId: string, p: Parents, h: seq<Record>, r: Record)
    requires Sound(sessionId, p, h) && NoDeletes(h) && r in h
    ensures SameRecords([r] + h, h) && Sound(sessionId, p, [r] + h) && NoDeletes([r] + h)
    ensures r.Upsert? && SessionError(sessionId, r).None? && ShapeError(r).None?
  {
    hide SessionError, ShapeError, Follows;
    assert forall q :: q in [r] + h <==> q == r || q in h;
    SoundSame(sessionId, p, [r] + h, h);
  }

  /** Some order has this item before all items of its list that tie with it. */
  lemma ItemCanLead(sessionId: string, p: Parents, h: seq<Record>, t: string, v: RoundView, kind: Kind, d: ItemData)
    returns (g: seq<Record>)
    requires Sound(sessionId, p, h) && NoDeletes(h)
    requires HasRound(FullView(Replay(sessionId, h)), t, v) && d in ListOf(v, kind)
    ensures SameRecords(g, h)
    ensures FullView(Replay(sessionId, g)) == FullView(Replay(sessionId, h)) ==> Leads(ListOf(v, kind), d, OrderOf)
  {
    hide Replay, Sound, Ranked, Placed, HasRound, FullView, ListOf, Leads, FirstItem, ViewRound, SameRecords;
    hide NoDeletes, Entry;
    ReplayUnfenced(sessionId, p, h);
    var s, n := Replay(sessionId, h), v.header.id;
    RoundOfView(s, t, v);
    ItemOfList(s, t, n, kind, d);
    var r :| r in h && r.id == ItemId(d.id) && IsEntryOf(r, t, n, Entry(s, t, n, d.id).value);
    g := [r] + h;
    MovedToFront(sessionId, p, h, r);
    StartsWith(sessionId, r, h);
    ReplayUnfenced(sessionId, p, g);
    EntriesConverge(sessionId, p, g, h, t, n, d.id);
    var s' := Replay(sessionId, g);
    ItemLeads(s', t, n, d);
    if FullView(s') == FullView(s) {
      RoundOfView(s', t, v);
    }
  }

  lemma ItemOfList(s: Replica, t: string, n: string, kind: Kind, d: ItemData)
    requires Ranked(s) && Unfenced(s) && RoundAt(s, t, n).Some?
    requires d in ListOf(ViewRound(s.deleted, t, s.turns.at[t].rounds.at[n]), kind)
    ensures d.kind == kind && Entry(s, t, n, d.id).Some? && Entry(s, t, n, d.id).value.value == d
  {
    hide ViewRound, ListOf, StableSort, KeptOf, Entry, Fence, RankedRound;
    assert RankedTurn(s.turns.at[t]);
    var e := s.turns.at[t].rounds.at[n];
    ListIsSorted(s.deleted, t, e, kind);
    SortMembers(KeptOf(s.deleted, t, e, kind), OrderOf, d);
    KeptEntries(s, t, n, kind, d);
  }

  /** Some order has this round before all rounds of its turn that tie with it. */
  lemma RoundCanLead(sessionId: string, p: Parents, h: seq<Record>, t: string, v: RoundView) returns (g: seq<Record>)
    requires Sound(sessionId, p, h) && NoDeletes(h) && HasRound(FullView(Replay(sessionId, h)), t, v)
    ensures SameRecords(g, h)
    ensures var view := FullView(Replay(sessionId, h));
            FullView(Replay(sessionId, g)) == view ==> Leads(view[t].rounds, v, RoundIndexOf)
  {
    hide Replay, Sound, Ranked, Placed, HasRound, FullView, Leads, FirstRound, ViewRound, SameRecords, NoDeletes;
    hide Materialize;
    ReplayUnfenced(sessionId, p, h);
    var s, n := Replay(sessionId, h), v.header.id;
    RoundOfView(s, t, v);
    ReplayHeaders(sessionId, p, h);
    var r :| IsRoundHeader(h, r, t, n, RoundAt(s, t, n).value);
    g := [r] + h;
    MovedToFront(sessionId, p, h, r);
    StartsWith(sessionId, r, h);
    ReplayUnfenced(sessionId, p, g);
    var s' := Replay(sessionId, g);
    RoundLeads(s', t, n);
    TurnInView(s', t);
    if FullView(s') == FullView(s) {
      RoundOfView(s', t, v);
    }
  }

  lemma OtherOrder(sessionId: string, p: Parents, g: seq<Record>, h: seq<Record>)
    requires Sound(sessionId, p, h) && SameRecords(g, h) && NoDeletes(h) && OnePerRevision(h)
    ensures Sound(sessionId, p, g) && SameRecords(h, g) && NoDeletes(g) && OnePerRevision(g)
  {
    hide Sound;
    SoundSame(sessionId, p, g, h);
  }

  /** Every order of the records gives the same view. */
  ghost predicate OneView(sessionId: string, h: seq<Record>) {
    forall g :: SameRecords(g, h) ==> FullView(Replay(sessionId, g)) == FullView(Replay(sessionId, h))
  }

  lemma RoundsUntied(sessionId: string, p: Parents, h: seq<Record>, t: string)
    requires Sound(sessionId, p, h) && NoDeletes(h) && OneView(sessionId, h) && t in FullView(Replay(sessionId, h))
    ensures NoTies(FullView(Replay(sessionId, h))[t].rounds, RoundIndexOf)
  {
    hide Replay, Sound, FullView, SameRecords, NoDeletes, Leads, Ranked, Holds;
    ReplayUnfenced(sessionId, p, h);
    var s := Replay(sessionId, h);
    var rounds := FullView(s)[t].rounds;
    TurnInView(s, t);
    RoundsSorted(s, t);
    forall j, k | 0 <= j < k < |rounds| ensures RoundIndexOf(rounds[j]) != RoundIndexOf(rounds[k]) {
      var g := RoundCanLead(sessionId, p, h, t, rounds[j]);
      var g' := RoundCanLead(sessionId, p, h, t, rounds[k]);
      if RoundIndexOf(rounds[j]) == RoundIndexOf(rounds[k]) {
        OneLeads(rounds, rounds[j], rounds[k], RoundIndexOf);
      }
    }
  }

  lemma ListDistinct(s: Replica, t: string, v: RoundView, kind: Kind)
    requires Ranked(s) && Unfenced(s) && HasRound(FullView(s), t, v)
    ensures Distinct(ListOf(v, kind))
  {
    hide ViewRound, ListOf, StableSort, KeptOf, Distinct, Fence, RankedRound, FullView, HasRound;
    RoundOfView(s, t, v);
    assert RankedTurn(s.turns.at[t]);
    var e := s.turns.at[t].rounds.at[v.header.id];
    assert RankedRound(e);
    ListIsSorted(s.deleted, t, e, kind);
    KeptOfDistinct(s.deleted, t, e, kind);
    SortDistinct(KeptOf(s.deleted, t, e, kind), OrderOf);
  }

  lemma ItemsUntied(sessionId: string, p: Parents, h: seq<Record>, t: string, v: RoundView)
    requires Sound(sessionId, p, h) && NoDeletes(h) && OneView(sessionId, h)
    requires HasRound(FullView(Replay(sessionId, h)), t, v)
    ensures UntiedRound(v)
  {
    hide Replay, Sound, FullView, SameRecords, NoDeletes, Leads, Ranked, Holds, HasRound, ListOf;
    ReplayUnfenced(sessionId, p, h);
    forall kind: Kind ensures NoTies(ListOf(v, kind), OrderOf) {
      var items := ListOf(v, kind);
      ListDistinct(Replay(sessionId, h), t, v, kind);
      forall j, k | 0 <= j < k < |items| ensures OrderOf(items[j]) != OrderOf(items[k]) {
        var g := ItemCanLead(sessionId, p, h, t, v, kind, items[j]);
        var g' := ItemCanLead(sessionId, p, h, t, v, kind, items[k]);
        if OrderOf(items[j]) == OrderOf(items[k]) {
          OneLeads(items, items[j], items[k], OrderOf);
        }
      }
    }
  }

  /** Without deletions, and with one record per revision of the session, every order and repetition of
      the records gives the same view exactly when the view of one order has no ties. */
  lemma ViewsConvergeExactly(sessionId: string, p: Parents, h: seq<Record>)
    requires Sound(sessionId, p, h) && NoDeletes(h) && OnePerRevision(h)
    ensures OneView(sessionId, h) <==> Untied(FullView(Replay(sessionId, h)))
  {
    hide Replay, Sound, FullView, SameRecords, NoDeletes, OnePerRevision, UntiedRound;
    var view := FullView(Replay(sessionId, h));
    if Untied(view) {
      forall g | SameRecords(g, h) ensures FullView(Replay(sessionId, g)) == view {
        OtherOrder(sessionId, p, g, h);
        ViewsConverge(sessionId, p, h, g);
        UntiedSame(view, FullView(Replay(sessionId, g)));
      }
    }
    if OneView(sessionId, h) {
      forall t | t in view ensures NoTies(view[t].rounds, RoundIndexOf)
          && forall v :: v in view[t].rounds ==> UntiedRound(v) {
        RoundsUntied(sessionId, p, h, t);
        forall v | v in view[t].rounds ensures UntiedRound(v) {
          ItemsUntied(sessionId, p, h, t, v);
        }
      }
    }
  }
}
