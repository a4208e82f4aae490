/** Any order and any repetition of the same records: when they show the same items, and when not. */
module ReplicaConvergence {
  import opened Wrappers
  import opened SessionReplica
  import opened ReplicaViews

  /** Records a host may send: accepted, with stable parents, and one record per identity and revision. */
  ghost predicate Sound(sessionId: string, p: Parents, h: seq<Record>) {
    && (forall r :: r in h ==> SessionError(sessionId, r).None? && ShapeError(r).None? && Follows(p, r))
    && forall a, b :: a in h && b in h && a.id == b.id && a.revision == b.revision ==> a == b
  }

  /** The highest upsert and the highest tombstone of an identity, 0 without one. */
  function Up(h: seq<Record>, x: Id): int {
    if h == [] then 0
    else
      var r := h[|h| - 1];
      Max(Up(h[..|h| - 1], x), if r.Upsert? && r.id == x then r.revision else 0)
  }

  function Tomb(h: seq<Record>, x: Id): int {
    if h == [] then 0
    else
      var r := h[|h| - 1];
      Max(Tomb(h[..|h| - 1], x), if r.Delete? && r.id == x then r.revision else 0)
  }

  lemma {:induction false} Bounds(h: seq<Record>, r: Record)
    requires r in h
    ensures r.Upsert? ==> r.revision <= Up(h, r.id)
    ensures r.Delete? ==> r.revision <= Tomb(h, r.id)
  {
    var last := h[|h| - 1];
    if r != last {
      assert h == h[..|h| - 1] + [last];
      Bounds(h[..|h| - 1], r);
    }
  }

  lemma {:induction false} UpWitness(h: seq<Record>, x: Id) returns (r: Record)
    requires Up(h, x) > 0
    ensures r in h && r.Upsert? && r.id == x && r.revision == Up(h, x)
  {
    r := h[|h| - 1];
    if !(r.Upsert? && r.id == x && r.revision == Up(h, x)) {
      r := UpWitness(h[..|h| - 1], x);
    }
  }

  lemma {:induction false} TombWitness(h: seq<Record>, x: Id) returns (r: Record)
    requires Tomb(h, x) > 0
    ensures r in h && r.Delete? && r.id == x && r.revision == Tomb(h, x)
  {
    r := h[|h| - 1];
    if !(r.Delete? && r.id == x && r.revision == Tomb(h, x)) {
      r := TombWitness(h[..|h| - 1], x);
    }
  }

  lemma {:induction false} NonNegative(h: seq<Record>, x: Id)
    ensures Up(h, x) >= 0 && Tomb(h, x) >= 0
  {
    if h != [] {
      NonNegative(h[..|h| - 1], x);
    }
  }

  /** Up and Tomb depend on the set of records only. */
  lemma SameSet(g: seq<Record>, h: seq<Record>, x: Id)
    requires forall r :: r in g <==> r in h
    ensures Up(g, x) == Up(h, x) && Tomb(g, x) == Tomb(h, x)
  {
    AtMost(g, h, x);
    AtMost(h, g, x);
  }

  lemma AtMost(g: seq<Record>, h: seq<Record>, x: Id)
    requires forall r :: r in g ==> r in h
    ensures Up(g, x) <= Up(h, x) && Tomb(g, x) <= Tomb(h, x)
  {
    NonNegative(h, x);
    if Up(g, x) > 0 {
      var r := UpWitness(g, x);
      Bounds(h, r);
    }
    if Tomb(g, x) > 0 {
      var r := TombWitness(g, x);
      Bounds(h, r);
    }
  }

  // ----- What a replica remembers of its records

  /** Whatever the order: every identity's highest revision is known; a tombstone fence is one of its
      tombstones, and the highest if that is newer than every upsert. */
  ghost predicate Remembers(h: seq<Record>, s: Replica) {
    && (forall x :: Known(s, x) == Max(Up(h, x), Tomb(h, x)))
    && (forall x :: 0 <= Fence(s.deleted, x) <= Tomb(h, x))
    && forall x :: Tomb(h, x) > Up(h, x) ==> Fence(s.deleted, x) == Tomb(h, x)
  }

  predicate IsEntryOf(r: Record, t: string, n: string, e: Versioned<ItemData>) {
    && r.Upsert? && r.round.Some? && r.item.Some?
    && r.turn.turnId == t && r.round.value.id == n && r.revision == e.revision && r.item.value == e.value
  }

  /** Every entry comes from a record, and the newest upsert of an item is its entry unless a newer
      tombstone of the item exists. */
  ghost predicate Holds(h: seq<Record>, s: Replica) {
    && (forall t, n, i :: Entry(s, t, n, i).Some? ==>
          exists r :: r in h && r.id == ItemId(i) && IsEntryOf(r, t, n, Entry(s, t, n, i).value))
    && forall r :: r in h && r.Upsert? && r.round.Some? && r.item.Some?
                   && r.revision == Up(h, r.id) && r.revision > Tomb(h, r.id) ==>
         Entry(s, r.turn.turnId, r.round.value.id, r.item.value.id) == Some(Versioned(r.revision, r.item.value))
  }

  lemma RemembersStep(sessionId: string, h: seq<Record>, s: Replica, r: Record)
    requires ValidReplica(s) && Remembers(h, s)
    requires SessionError(sessionId, r).None? && ShapeError(r).None?
    ensures Remembers(h + [r], ApplyStep(s, sessionId, r).0)
  {
    hide UpdateTurn, Change, FirstContaining, Up, Tomb;
    var s' := ApplyStep(s, sessionId, r).0;
    forall x
      ensures Known(s', x) == Max(Up(h + [r], x), Tomb(h + [r], x))
      ensures 0 <= Fence(s'.deleted, x) <= Tomb(h + [r], x)
      ensures Tomb(h + [r], x) > Up(h + [r], x) ==> Fence(s'.deleted, x) == Tomb(h + [r], x)
    {
      LastRecord(h, r, x);
      NonNegative(h, x);
    }
  }

  lemma LastRecord(h: seq<Record>, r: Record, x: Id)
    ensures Up(h + [r], x) == Max(Up(h, x), if r.Upsert? && r.id == x then r.revision else 0)
    ensures Tomb(h + [r], x) == Max(Tomb(h, x), if r.Delete? && r.id == x then r.revision else 0)
  {
    assert (h + [r])[..|h|] == h;
  }

  lemma EntryAfterStep(sessionId: string, s: Replica, r: Record, t: string, n: string, i: string)
    requires ValidReplica(s) && SessionError(sessionId, r).None? && ShapeError(r).None?
    ensures var s', e := ApplyStep(s, sessionId, r).0, Entry(s, t, n, i);
            Entry(s', t, n, i)
            == if r.Upsert? && r.item.Some? && Known(s, r.id) < r.revision
                  && t == r.turn.turnId && n == r.round.value.id && i == r.item.value.id
                  && (e.None? || e.value.revision < r.revision)
               then Some(Versioned(r.revision, r.item.value)) else e
  {
    hide UpsertStep, FirstContaining, Change, Deletable, ValidReplica;
    if r.Upsert? {
      EntryAfterUpsert(s, r, t, n, i);
    }
  }

  lemma HoldsSources(sessionId: string, p: Parents, h: seq<Record>, s: Replica, r: Record, t: string, n: string,
      i: string)
    requires ValidReplica(s) && Holds(h, s) && Sound(sessionId, p, h + [r])
    requires Entry(ApplyStep(s, sessionId, r).0, t, n, i).Some?
    ensures exists q :: q in h + [r] && q.id == ItemId(i)
              && IsEntryOf(q, t, n, Entry(ApplyStep(s, sessionId, r).0, t, n, i).value)
  {
    hide ApplyStep, Entry;
    assert r in h + [r];
    EntryAfterStep(sessionId, s, r, t, n, i);
    var e := Entry(ApplyStep(s, sessionId, r).0, t, n, i);
    if e == Entry(s, t, n, i) {
      var q :| q in h && q.id == ItemId(i) && IsEntryOf(q, t, n, e.value);
      assert q in h + [r];
    } else {
      assert IsEntryOf(r, t, n, e.value);
    }
  }

  lemma OneRecord(sessionId: string, p: Parents, h: seq<Record>, a: Record, b: Record)
    requires Sound(sessionId, p, h) && a in h && b in h && a.id == b.id
    ensures a.revision == b.revision ==> a == b
  {
  }

  lemma HoldsNewest(sessionId: string, p: Parents, h: seq<Record>, s: Replica, r: Record, q: Record)
    requires ValidReplica(s) && Remembers(h, s) && Holds(h, s) && Sound(sessionId, p, h + [r])
    requires q in h + [r] && q.Upsert? && q.round.Some? && q.item.Some?
    requires q.revision == Up(h + [r], q.id) && q.revision > Tomb(h + [r], q.id)
    ensures Entry(ApplyStep(s, sessionId, r).0, q.turn.turnId, q.round.value.id, q.item.value.id)
            == Some(Versioned(q.revision, q.item.value))
  {
    hide ApplyStep, Entry, Up, Tomb;
    assert r in h + [r];
    var t, n, i := q.turn.turnId, q.round.value.id, q.item.value.id;
    EntryAfterStep(sessionId, s, r, t, n, i);
    LastRecord(h, r, q.id);
    NonNegative(h, q.id);
    var e := Entry(s, t, n, i);
    if q in h {
      Bounds(h, q);
      assert e == Some(Versioned(q.revision, q.item.value));
    } else if Up(h, q.id) == q.revision {
      var q' := UpWitness(h, q.id);
      OneRecord(sessionId, p, h + [r], q, q');
    } else if e.Some? {
      var q' :| q' in h && q'.id == ItemId(i) && IsEntryOf(q', t, n, e.value);
      Bounds(h, q');
    }
  }

  lemma HoldsStep(sessionId: string, p: Parents, h: seq<Record>, s: Replica, r: Record)
    requires ValidReplica(s) && Remembers(h, s) && Holds(h, s) && Sound(sessionId, p, h + [r])
    ensures Holds(h + [r], ApplyStep(s, sessionId, r).0)
  {
    hide ApplyStep, Entry, Up, Tomb, Remembers, Sound, IsEntryOf;
    var s' := ApplyStep(s, sessionId, r).0;
    forall t, n, i | Entry(s', t, n, i).Some?
      ensures exists q :: q in h + [r] && q.id == ItemId(i) && IsEntryOf(q, t, n, Entry(s', t, n, i).value)
    {
      HoldsSources(sessionId, p, h, s, r, t, n, i);
    }
    forall q | q in h + [r] && q.Upsert? && q.round.Some? && q.item.Some?
               && q.revision == Up(h + [r], q.id) && q.revision > Tomb(h + [r], q.id)
      ensures Entry(s', q.turn.turnId, q.round.value.id, q.item.value.id) == Some(Versioned(q.revision, q.item.value))
    {
      HoldsNewest(sessionId, p, h, s, r, q);
    }
  }

  lemma {:induction false} ReplayInvariant(sessionId: string, p: Parents, h: seq<Record>)
    requires Sound(sessionId, p, h)
    ensures var s := Replay(sessionId, h);
            Ranked(s) && Placed(p, s) && Remembers(h, s) && Holds(h, s)
  {
    hide ApplyStep, Ranked, PlacedTurn;
    if h == [] {
      RankedInit();
    } else {
      var g, r := h[..|h| - 1], h[|h| - 1];
      assert h == g + [r];
      assert forall q :: q in g ==> q in h;
      ReplayInvariant(sessionId, p, g);
      var s := Replay(sessionId, g);
      assert r in h;
      RankedStep(s, sessionId, r);
      PlacedStep(p, s, sessionId, r);
      RemembersStep(sessionId, g, s, r);
      HoldsStep(sessionId, p, g, s, r);
    }
  }

  // ----- When an item shows

  /** The newest upsert of an item, the record that decides about it. */
  predicate Newest(h: seq<Record>, r: Record) {
    r in h && r.Upsert? && r.round.Some? && r.item.Some? && r.revision == Up(h, r.id)
  }

  /** Newer than every tombstone of the item, of its round and of its turn. */
  predicate AboveAll(h: seq<Record>, r: Record)
    requires r.Upsert? && r.round.Some?
  {
    && r.revision > Tomb(h, r.id) && r.revision > Tomb(h, RoundId(r.round.value.id))
    && r.revision > Tomb(h, TurnId(r.turn.turnId))
  }

  /** The fence an identity raises in every order: its tombstone, unless a newer upsert of the same
      identity can arrive first and make the tombstone stale. */
  function SureFence(h: seq<Record>, x: Id): int {
    if Tomb(h, x) > Up(h, x) then Tomb(h, x) else 0
  }

  predicate AboveSure(h: seq<Record>, r: Record)
    requires r.Upsert? && r.round.Some?
  {
    && r.revision > Tomb(h, r.id) && r.revision > SureFence(h, RoundId(r.round.value.id))
    && r.revision > SureFence(h, TurnId(r.turn.turnId))
  }

  lemma NeverEqual(sessionId: string, p: Parents, h: seq<Record>, x: Id)
    requires Sound(sessionId, p, h)
    ensures Up(h, x) == Tomb(h, x) ==> Up(h, x) == 0
  {
    NonNegative(h, x);
    if Up(h, x) == Tomb(h, x) && Up(h, x) > 0 {
      var a := UpWitness(h, x);
      var b := TombWitness(h, x);
      OneRecord(sessionId, p, h, a, b);
    }
  }

  /** Whatever the order, what shows is the newest upsert of its item, above every fence that is sure. */
  lemma ShownIsNewest(sessionId: string, p: Parents, h: seq<Record>, t: string, n: string, d: ItemData)
      returns (r: Record)
    requires Sound(sessionId, p, h) && Shows(Replay(sessionId, h), t, n, d)
    ensures Newest(h, r) && AboveSure(h, r)
    ensures r.turn.turnId == t && r.round.value.id == n && r.item.value == d
  {
    hide Entry, Replay, Up, Tomb, Shows, Ranked, PlacedTurn;
    var s := Replay(sessionId, h);
    ReplayInvariant(sessionId, p, h);
    ShowsExactly(s, t, n, d);
    var e := Entry(s, t, n, d.id).value;
    r :| r in h && r.id == ItemId(d.id) && IsEntryOf(r, t, n, e);
    Bounds(h, r);
    NeverEqual(sessionId, p, h, r.id);
    assert Tomb(h, r.id) < Up(h, r.id);
    var q := UpWitness(h, r.id);
    assert Follows(p, q) && Follows(p, r) && ShapeError(q).None? && ShapeError(r).None?;
    assert Entry(s, q.turn.turnId, q.round.value.id, q.item.value.id) == Some(Versioned(q.revision, q.item.value));
  }

  /** Whatever the order, the newest upsert above all tombstones shows. */
  lemma NewestShows(sessionId: string, p: Parents, h: seq<Record>, r: Record)
    requires Sound(sessionId, p, h) && Newest(h, r)
    requires var s := Replay(sessionId, h);
             && r.revision > Tomb(h, r.id)
             && r.revision > RoundFence(s.deleted, r.turn.turnId, r.round.value.id)
    ensures Shows(Replay(sessionId, h), r.turn.turnId, r.round.value.id, r.item.value)
  {
    hide Entry, Replay, Up, Tomb, Shows, Ranked, PlacedTurn;
    var s := Replay(sessionId, h);
    ReplayInvariant(sessionId, p, h);
    assert r.id == ItemId(r.item.value.id);
    ShowsExactly(s, r.turn.turnId, r.round.value.id, r.item.value);
  }

  lemma AboveAllShows(sessionId: string, p: Parents, h: seq<Record>, r: Record)
    requires Sound(sessionId, p, h) && Newest(h, r) && AboveAll(h, r)
    ensures Shows(Replay(sessionId, h), r.turn.turnId, r.round.value.id, r.item.value)
  {
    hide Replay, Up, Tomb, Shows, Ranked, PlacedTurn;
    ReplayInvariant(sessionId, p, h);
    NewestShows(sessionId, p, h, r);
  }

  // ----- The two extreme orders

  predicate OldestFirst(h: seq<Record>) {
    forall i, j :: 0 <= i < j < |h| ==> h[i].revision <= h[j].revision
  }

  predicate NewestFirst(h: seq<Record>) {
    forall i, j :: 0 <= i < j < |h| ==> h[i].revision >= h[j].revision
  }

  lemma FenceAfterStep(sessionId: string, s: Replica, r: Record, x: Id)
    requires ValidReplica(s) && SessionError(sessionId, r).None? && ShapeError(r).None?
    ensures Fence(ApplyStep(s, sessionId, r).0.deleted, x)
            == if r.Delete? && r.id == x && Known(s, x) < r.revision then r.revision else Fence(s.deleted, x)
  {
    hide UpdateTurn, Change, FirstContaining;
  }

  lemma OldestFenceStep(sessionId: string, p: Parents, g: seq<Record>, s: Replica, r: Record, x: Id)
    requires ValidReplica(s) && Remembers(g, s) && Sound(sessionId, p, g + [r])
    requires forall q :: q in g ==> q.revision <= r.revision
    requires Fence(s.deleted, x) == Tomb(g, x)
    ensures Fence(ApplyStep(s, sessionId, r).0.deleted, x) == Tomb(g + [r], x)
  {
    hide ApplyStep, Up, Tomb, ShapeError, Follows;
    assert r in g + [r];
    FenceAfterStep(sessionId, s, r, x);
    LastRecord(g, r, x);
    NonNegative(g, x);
    if r.Delete? && r.id == x && Up(g, x) >= r.revision {
      var q := UpWitness(g, x);
      OneRecord(sessionId, p, g + [r], q, r);
    }
    if r.Delete? && r.id == x && Tomb(g, x) > 0 {
      var q := TombWitness(g, x);
      assert q.revision <= r.revision;
    }
  }

  /** Oldest first, every tombstone takes effect. */
  lemma {:induction false} OldestFirstFence(sessionId: string, p: Parents, h: seq<Record>, x: Id)
    requires Sound(sessionId, p, h) && OldestFirst(h)
    ensures Fence(Replay(sessionId, h).deleted, x) == Tomb(h, x)
  {
    hide ApplyStep, Up, Tomb, Ranked, PlacedTurn, SessionError, ShapeError, Follows, Holds, Remembers;
    if h == [] {
      NoTombstone(x);
    } else {
      var g, r := h[..|h| - 1], h[|h| - 1];
      assert h == g + [r];
      PrefixSound(sessionId, p, g, r);
      OldestFirstFence(sessionId, p, g, x);
      ReplayInvariant(sessionId, p, g);
      OldestFenceStep(sessionId, p, g, Replay(sessionId, g), r, x);
    }
  }

  lemma PrefixSound(sessionId: string, p: Parents, g: seq<Record>, r: Record)
    requires Sound(sessionId, p, g + [r])
    ensures Sound(sessionId, p, g)
  {
    hide SessionError, ShapeError, Follows;
    assert forall q :: q in g ==> q in g + [r];
  }

  lemma NoTombstone(x: Id)
    ensures Tomb([], x) == 0 && Up([], x) == 0
  {
  }

  lemma NewestFenceStep(sessionId: string, p: Parents, g: seq<Record>, s: Replica, r: Record, x: Id)
    requires ValidReplica(s) && Remembers(g, s) && Sound(sessionId, p, g + [r])
    requires forall q :: q in g ==> q.revision >= r.revision
    requires Fence(s.deleted, x) == SureFence(g, x)
    ensures Fence(ApplyStep(s, sessionId, r).0.deleted, x) == SureFence(g + [r], x)
  {
    hide ApplyStep, Up, Tomb, SessionError, ShapeError, Follows;
    assert r in g + [r];
    FenceAfterStep(sessionId, s, r, x);
    LastRecord(g, r, x);
    NonNegative(g, x);
    if r.id == x && Up(g, x) > 0 {
      var q := UpWitness(g, x);
      assert q.revision >= r.revision;
    }
    if r.id == x && Tomb(g, x) > 0 {
      var q := TombWitness(g, x);
      assert q.revision >= r.revision;
      OneRecord(sessionId, p, g + [r], q, r);
    }
  }

  /** Newest first, a tombstone takes effect only above every upsert of its identity. */
  lemma {:induction false} NewestFirstFence(sessionId: string, p: Parents, h: seq<Record>, x: Id)
    requires Sound(sessionId, p, h) && NewestFirst(h)
    ensures Fence(Replay(sessionId, h).deleted, x) == SureFence(h, x)
  {
    hide ApplyStep, Up, Tomb, Ranked, PlacedTurn, SessionError, ShapeError, Follows, Holds, Remembers;
    if h == [] {
      NoTombstone(x);
    } else {
      var g, r := h[..|h| - 1], h[|h| - 1];
      assert h == g + [r];
      PrefixSound(sessionId, p, g, r);
      NewestFirstFence(sessionId, p, g, x);
      ReplayInvariant(sessionId, p, g);
      NewestFenceStep(sessionId, p, g, Replay(sessionId, g), r, x);
    }
  }

  // ----- Convergence

  /** No item whose newest upsert lies between the fences raised for sure and all tombstones: such an
      item shows or not depending on the order. */
  ghost predicate NoGap(h: seq<Record>) {
    forall r :: Newest(h, r) && AboveSure(h, r) ==> AboveAll(h, r)
  }

  ghost predicate SameRecords(g: seq<Record>, h: seq<Record>) {
    forall r :: r in g <==> r in h
  }

  /** Every order and every repetition of the records shows the same items with the same data. */
  ghost predicate Convergent(sessionId: string, h: seq<Record>) {
    forall g :: SameRecords(g, h) ==>
      forall t, n, d :: Shows(Replay(sessionId, g), t, n, d) <==> Shows(Replay(sessionId, h), t, n, d)
  }

  lemma SameDecision(g: seq<Record>, h: seq<Record>, r: Record)
    requires SameRecords(g, h)
    ensures Newest(g, r) <==> Newest(h, r)
    ensures r.Upsert? && r.round.Some? ==>
        (AboveSure(g, r) <==> AboveSure(h, r)) && (AboveAll(g, r) <==> AboveAll(h, r))
  {
    hide Up, Tomb;
    SameSet(g, h, r.id);
    if r.Upsert? && r.round.Some? {
      SameSet(g, h, RoundId(r.round.value.id));
      SameSet(g, h, TurnId(r.turn.turnId));
    }
  }

  lemma SoundSame(sessionId: string, p: Parents, g: seq<Record>, h: seq<Record>)
    requires Sound(sessionId, p, h) && SameRecords(g, h)
    ensures Sound(sessionId, p, g)
  {
    hide SessionError, ShapeError, Follows;
  }

  lemma ShowsInOther(sessionId: string, p: Parents, g: seq<Record>, h: seq<Record>, t: string, n: string, d: ItemData)
    requires Sound(sessionId, p, g) && Sound(sessionId, p, h) && SameRecords(g, h) && NoGap(h)
    requires Shows(Replay(sessionId, g), t, n, d)
    ensures Shows(Replay(sessionId, h), t, n, d)
  {
    hide Replay, Shows, AboveSure, AboveAll, Sound, Up;
    var r := ShownIsNewest(sessionId, p, g, t, n, d);
    SameDecision(g, h, r);
    AboveAllShows(sessionId, p, h, r);
  }

  /** Under NoGap an item shows exactly when its newest upsert is above all tombstones over it. */
  lemma ShowsUnderNoGap(sessionId: string, p: Parents, h: seq<Record>, t: string, n: string, d: ItemData)
    requires Sound(sessionId, p, h) && NoGap(h)
    ensures Shows(Replay(sessionId, h), t, n, d) <==>
              exists r :: Newest(h, r) && AboveAll(h, r) && r.turn.turnId == t && r.round.value.id == n
                  && r.item.value == d
  {
    hide Replay, Shows, AboveSure, AboveAll;
    if Shows(Replay(sessionId, h), t, n, d) {
      var r := ShownIsNewest(sessionId, p, h, t, n, d);
    }
    if r :| Newest(h, r) && AboveAll(h, r) && r.turn.turnId == t && r.round.value.id == n && r.item.value == d {
      AboveAllShows(sessionId, p, h, r);
    }
  }

  /** In the gap, the newest-first order shows the item and the oldest-first order does not. */
  lemma GapDiverges(sessionId: string, p: Parents, old_: seq<Record>, new_: seq<Record>, r: Record)
    requires Sound(sessionId, p, old_) && Sound(sessionId, p, new_) && SameRecords(old_, new_)
    requires OldestFirst(old_) && NewestFirst(new_)
    requires Newest(old_, r) && AboveSure(old_, r) && !AboveAll(old_, r)
    ensures Shows(Replay(sessionId, new_), r.turn.turnId, r.round.value.id, r.item.value)
    ensures !Shows(Replay(sessionId, old_), r.turn.turnId, r.round.value.id, r.item.value)
  {
    hide Replay, Shows, Up, Tomb, Ranked, PlacedTurn;
    var t, n, d := r.turn.turnId, r.round.value.id, r.item.value;
    SameDecision(old_, new_, r);
    NewestFirstFence(sessionId, p, new_, RoundId(n));
    NewestFirstFence(sessionId, p, new_, TurnId(t));
    NewestShows(sessionId, p, new_, r);
    var s := Replay(sessionId, old_);
    OldestFirstFence(sessionId, p, old_, RoundId(n));
    OldestFirstFence(sessionId, p, old_, TurnId(t));
    ReplayInvariant(sessionId, p, old_);
    ShowsExactly(s, t, n, d);
    assert r.id == ItemId(d.id);
    assert Entry(s, t, n, d.id) == Some(Versioned(r.revision, d));
  }

  predicate SortedBy<T>(s: seq<T>, key: T -> int) {
    forall i, j :: 0 <= i < j < |s| ==> key(s[i]) <= key(s[j])
  }

  lemma {:induction false} InsertSorted<T>(s: seq<T>, x: T, key: T -> int)
    requires SortedBy(s, key)
    ensures SortedBy(Insert(s, x, key), key)
  {
    if s != [] && key(s[|s| - 1]) > key(x) {
      var front, last := s[..|s| - 1], s[|s| - 1];
      InsertSorted(front, x, key);
      var u := Insert(front, x, key);
      forall i | 0 <= i < |u| ensures key(u[i]) <= key(last) {
        assert u[i] in u;
        InsertMembers(front, x, key, u[i]);
      }
    }
  }

  lemma {:induction false} SortSorted<T>(s: seq<T>, key: T -> int)
    ensures SortedBy(StableSort(s, key), key)
  {
    if s != [] {
      SortSorted(s[..|s| - 1], key);
      InsertSorted(StableSort(s[..|s| - 1], key), s[|s| - 1], key);
    }
  }

  lemma ByRevision(s: seq<Record>)
    ensures SortedBy(s, (r: Record) => r.revision) ==> OldestFirst(s)
    ensures SortedBy(s, (r: Record) => -r.revision) ==> NewestFirst(s)
  {
  }

  lemma SortedOrders(h: seq<Record>) returns (old_: seq<Record>, new_: seq<Record>)
    ensures OldestFirst(old_) && NewestFirst(new_) && SameRecords(old_, h) && SameRecords(new_, h)
  {
    var up, down := (r: Record) => r.revision, (r: Record) => -r.revision;
    old_, new_ := StableSort(h, up), StableSort(h, down);
    SortSorted(h, up);
    SortSorted(h, down);
    ByRevision(old_);
    ByRevision(new_);
    forall r ensures (r in old_ <==> r in h) && (r in new_ <==> r in h) {
      SortMembers(h, up, r);
      SortMembers(h, down, r);
    }
  }

  /** A set of records converges exactly when it has no gap. */
  lemma ConvergentExactly(sessionId: string, p: Parents, h: seq<Record>)
    requires Sound(sessionId, p, h)
    ensures Convergent(sessionId, h) <==> NoGap(h)
  {
    hide Replay, Shows, AboveSure, AboveAll, Sound, OldestFirst, NewestFirst, Up;
    if NoGap(h) {
      forall g, t, n, d | SameRecords(g, h)
        ensures Shows(Replay(sessionId, g), t, n, d) <==> Shows(Replay(sessionId, h), t, n, d)
      {
        SoundSame(sessionId, p, g, h);
        if Shows(Replay(sessionId, g), t, n, d) {
          ShowsInOther(sessionId, p, g, h, t, n, d);
        }
        if Shows(Replay(sessionId, h), t, n, d) {
          NoGapSame(g, h);
          ShowsInOther(sessionId, p, h, g, t, n, d);
        }
      }
    } else {
      var r :| Newest(h, r) && AboveSure(h, r) && !AboveAll(h, r);
      var old_, new_ := SortedOrders(h);
      SoundSame(sessionId, p, old_, h);
      SoundSame(sessionId, p, new_, h);
      SameDecision(old_, h, r);
      NewestIsItem(h, r);
      GapDiverges(sessionId, p, old_, new_, r);
    }
  }

  lemma NewestIsItem(h: seq<Record>, r: Record)
    requires Newest(h, r)
    ensures r.Upsert? && r.round.Some? && r.item.Some?
  {
  }

  lemma NoGapSame(g: seq<Record>, h: seq<Record>)
    requires SameRecords(g, h) && NoGap(h)
    ensures NoGap(g)
  {
    hide AboveSure, AboveAll, Up;
    forall r | Newest(g, r) && AboveSure(g, r) ensures AboveAll(g, r) {
      NewestIsItem(g, r);
      SameDecision(g, h, r);
    }
  }

  /** A deleted turn or round that is not upserted again above its tombstone leaves no gap. */
  lemma NoRevivalNoGap(h: seq<Record>)
    requires forall x: Id :: (x.TurnId? || x.RoundId?) && Tomb(h, x) > 0 ==> Tomb(h, x) > Up(h, x)
    ensures NoGap(h)
  {
    hide Up, Tomb;
    forall r | Newest(h, r) && AboveSure(h, r) ensures AboveAll(h, r) {
      var n, t := RoundId(r.round.value.id), TurnId(r.turn.turnId);
      NonNegative(h, r.id);
      NonNegative(h, n);
      NonNegative(h, t);
    }
  }

  /** One item, its turn deleted at 10 and upserted again at 11: newest first the tombstone is stale
      and the item of revision 5 shows, oldest first it does not. */
  lemma RevivedTurnDiverges()
    ensures var turn := TurnHeader("t", "s", "");
            var item := Upsert("s", ItemId("i"), 5, turn, Some(RoundHeader("n", "t", 0, "")),
                               Some(ItemData(Text, "i", None, "")));
            var tomb, again := Delete("s", TurnId("t"), 10), Upsert("s", TurnId("t"), 11, turn, None, None);
            && Shows(Replay("s", [again, tomb, item]), "t", "n", item.item.value)
            && !Shows(Replay("s", [item, tomb, again]), "t", "n", item.item.value)
  {
    hide Replay, Shows, Up, Tomb, Kept, StableSort, ValidReplica;
    var turn := TurnHeader("t", "s", "");
    var item := Upsert("s", ItemId("i"), 5, turn, Some(RoundHeader("n", "t", 0, "")),
                       Some(ItemData(Text, "i", None, "")));
    var tomb, again := Delete("s", TurnId("t"), 10), Upsert("s", TurnId("t"), 11, turn, None, None);
    var p := Parents(_ => "t", _ => "n");
    var old_, new_ := [item, tomb, again], [again, tomb, item];
    RevivedHeights(item, tomb, again);
    assert Sound("s", p, old_) && Sound("s", p, new_) && SameRecords(old_, new_);
    assert Newest(old_, item) && AboveSure(old_, item) && !AboveAll(old_, item);
    GapDiverges("s", p, old_, new_, item);
  }

  lemma RevivedHeights(item: Record, tomb: Record, again: Record)
    requires item.Upsert? && tomb.Delete? && again.Upsert?
    requires item.id == ItemId("i") && tomb.id == again.id == TurnId("t")
    requires item.revision == 5 && tomb.revision == 10 && again.revision == 11
    ensures var h := [item, tomb, again];
            && Up(h, ItemId("i")) == 5 && Tomb(h, ItemId("i")) == 0
            && Up(h, TurnId("t")) == 11 && Tomb(h, TurnId("t")) == 10
            && Up(h, RoundId("n")) == 0 && Tomb(h, RoundId("n")) == 0
  {
    HeightsOfThree(item, tomb, again, ItemId("i"));
    HeightsOfThree(item, tomb, again, TurnId("t"));
    HeightsOfThree(item, tomb, again, RoundId("n"));
  }

  lemma HeightsOfThree(a: Record, b: Record, c: Record, x: Id)
    ensures Up([a, b, c], x) == Max(Max(Max(0, UpIn(a, x)), UpIn(b, x)), UpIn(c, x))
    ensures Tomb([a, b, c], x) == Max(Max(Max(0, TombIn(a, x)), TombIn(b, x)), TombIn(c, x))
  {
    NoTombstone(x);
    LastRecord([], a, x);
    LastRecord([a], b, x);
    LastRecord([a, b], c, x);
    assert [] + [a] == [a] && [a] + [b] == [a, b] && [a, b] + [c] == [a, b, c];
  }

  function UpIn(r: Record, x: Id): int {
    if r.Upsert? && r.id == x then r.revision else 0
  }

  function TombIn(r: Record, x: Id): int {
    if r.Delete? && r.id == x then r.revision else 0
  }
}
