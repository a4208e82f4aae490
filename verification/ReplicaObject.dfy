/** The replica object of SessionRecordReplica.ts, with its three maps. */
module ReplicaObject {
  import opened Wrappers
  import opened SessionReplica
  import opened ReplicaViews
  import opened ReplicaListing

  lemma RankedAt(s: Replica, t: string)
    requires Ranked(s) && t in s.turns.at
    ensures RankedTurn(s.turns.at[t])
  {
  }

  lemma NotFound(turns: OrderedMap<TurnEntry>, id: Id)
    requires ValidMap(turns) && FirstContaining(turns, id, 0).None?
    ensures id.TurnId? ==> id.name !in turns.at
  {
    hide FirstContaining;
    FirstIsTurn(turns, id, 0);
  }

  /** The object: its three maps change in place, everything a call returns is fresh. */
  class SessionRecordReplica {
    const sessionId: string
    var records: map<Id, int>
    var turns: OrderedMap<TurnEntry>
    var deleted: map<Id, int>

    function Model(): Replica
      reads this
    {
      Replica(records, turns, deleted)
    }

    ghost predicate Valid()
      reads this
    {
      Ranked(Model())
    }

    constructor (sessionId: string)
      ensures Valid() && this.sessionId == sessionId
      ensures Model() == Replica(map[], Empty(), map[])
    {
      this.sessionId := sessionId;
      records, turns, deleted := map[], Empty(), map[];
    }

    method ViewRoundOf(turnId: string, round: RoundEntry) returns (v: RoundView)
      requires ValidMap(round.items)
      ensures v == ViewRound(deleted, turnId, round)
    {
      hide StableSort, Fence;
      var fence := Max(Fence(deleted, TurnId(turnId)), Fence(deleted, RoundId(round.header.value.id)));
      var text, thinking, tool := [], [], [];
      var i := 0;
      while i < |round.items.order|
        invariant 0 <= i <= |round.items.order|
        invariant text == Kept(deleted, fence, round.items, Text, i)
        invariant thinking == Kept(deleted, fence, round.items, Thinking, i)
        invariant tool == Kept(deleted, fence, round.items, Tool, i)
      {
        var x := round.items.at[round.items.order[i]];
        if x.revision > Max(fence, Fence(deleted, ItemId(x.value.id))) {
          match x.value.kind {
            case Text => text := text + [x.value];
            case Thinking => thinking := thinking + [x.value];
            case Tool => tool := tool + [x.value];
          }
        }
        i := i + 1;
      }
      v := RoundView(round.header.value, StableSort(text, OrderOf), StableSort(thinking, OrderOf),
          StableSort(tool, OrderOf));
    }

    method MaterializeTurn(turnId: string, turn: TurnEntry) returns (v: TurnView)
      requires RankedTurn(turn)
      ensures v == Materialize(deleted, turnId, turn) && ListsTurn(deleted, turnId, turn, v)
    {
      hide ViewRound, StableSort, ListsTurn, RankedRound;
      var turnFence := Fence(deleted, TurnId(turnId));
      var rounds := [];
      var i := 0;
      while i < |turn.rounds.order|
        invariant 0 <= i <= |turn.rounds.order|
        invariant rounds == KeptRounds(deleted, turnId, turn, i)
      {
        var round := turn.rounds.at[turn.rounds.order[i]];
        if round.header.revision > Max(turnFence, Fence(deleted, RoundId(round.header.value.id))) {
          var view := ViewRoundOf(turnId, round);
          rounds := rounds + [view];
        }
        i := i + 1;
      }
      v := TurnView(turn.header.value, StableSort(rounds, RoundIndexOf));
      TurnListed(deleted, turnId, turn);
    }

    /** The outcome tells of this turn: that a tombstone has it, or how it now reads. */
    ghost predicate Tells(turnId: string, turn: TurnEntry, o: Outcome)
      reads this
    {
      && o.Changed? && o.turnId == turnId
      && (o.turn.None? <==> !Outlives(deleted, turn.header.revision, TurnId(turnId)))
      && (o.turn.Some? ==> ListsTurn(deleted, turnId, turn, o.turn.value))
    }

    method ChangeOf(turnId: string, turn: TurnEntry) returns (o: Outcome)
      requires RankedTurn(turn)
      ensures o == Change(deleted, turnId, turn) && o.Changed? && o.turnId == turnId && Tells(turnId, turn, o)
    {
      hide ListsTurn, Materialize, ValidTurn, RankedRound;
      if turn.header.revision <= Fence(deleted, TurnId(turnId)) {
        return Changed(turnId, None);
      }
      var v := MaterializeTurn(turnId, turn);
      return Changed(turnId, Some(v));
    }

    /** The deletion branch: record the tombstone, then report the first turn it touches. */
    method ApplyDelete(r: Record) returns (o: Outcome)
      requires Valid() && r.Delete? && 1 <= r.revision && Known(Model(), r.id) < r.revision
      modifies this
      ensures Valid() && (Model(), o) == DeleteStep(old(Model()), r)
      ensures !o.Threw? && (o.Changed? && o.turnId in turns.at ==> Tells(o.turnId, turns.at[o.turnId], o))
    {
      hide Materialize, Contains, RankedTurn, Ranked, Tells, Change;
      RankedIsValid(Model());
      RankedDelete(Model(), r);
      records := records[r.id := r.revision];
      deleted := deleted[r.id := r.revision];
      FirstIsTurn(turns, r.id, 0);
      var k := 0;
      while k < |turns.order|
        invariant 0 <= k <= |turns.order|
        invariant FirstContaining(turns, r.id, 0) == FirstContaining(turns, r.id, k)
      {
        var t := turns.order[k];
        if Contains(t, turns.at[t], r.id) {
          RankedAt(Model(), t);
          o := ChangeOf(t, turns.at[t]);
          return;
        }
        k := k + 1;
      }
      NotFound(turns, r.id);
      o := if r.id.TurnId? then Changed(r.id.name, None) else Unchanged;
    }

    /** The round an upsert reaches: created, or its header and item replaced by newer ones. */
    method ReachRound(turn: TurnEntry, r: Record) returns (round: RoundEntry)
      requires r.Upsert? && r.round.Some?
      ensures round == UpdateRound(turn, r)
    {
      hide Put;
      var h := r.round.value;
      if h.id !in turn.rounds.at {
        round := RoundEntry(Versioned(r.revision, h), Empty());
      } else {
        round := turn.rounds.at[h.id];
        if r.revision > round.header.revision {
          round := round.(header := Versioned(r.revision, h));
        }
      }
      if r.item.Some? {
        var i := r.item.value;
        if i.id !in round.items.at || round.items.at[i.id].revision < r.revision {
          round := round.(items := Put(round.items, i.id, Versioned(r.revision, i)));
        }
      }
    }

    method ReachTurn(r: Record) returns (turn: TurnEntry)
      requires r.Upsert?
      ensures turn == UpdateTurn(turns, r)
    {
      hide Put, UpdateRound;
      if r.turn.turnId !in turns.at {
        turn := TurnEntry(Versioned(r.revision, r.turn), Empty());
      } else {
        turn := turns.at[r.turn.turnId];
        if r.revision > turn.header.revision {
          turn := turn.(header := Versioned(r.revision, r.turn));
        }
      }
      if r.round.Some? {
        var round := ReachRound(turn, r);
        turn := turn.(rounds := Put(turn.rounds, r.round.value.id, round));
      }
    }

    method ApplyUpsert(r: Record) returns (o: Outcome)
      requires Valid() && r.Upsert? && 1 <= r.revision && Known(Model(), r.id) < r.revision
      modifies this
      ensures Valid() && (Model(), o) == UpsertStep(old(Model()), r)
      ensures r.turn.turnId in turns.at && Tells(r.turn.turnId, turns.at[r.turn.turnId], o)
    {
      hide UpdateTurn, Materialize, Put, RankedTurn, Ranked, ListsTurn;
      RankedIsValid(Model());
      RankedUpsert(Model(), r);
      RankedTurnStep(Model(), r);
      UpdateTurnValid(Model(), r);
      var turn := ReachTurn(r);
      turns := Put(turns, r.turn.turnId, turn);
      records := records[r.id := r.revision];
      o := ChangeOf(r.turn.turnId, turn);
    }

    method Apply(r: Record) returns (o: Outcome)
      requires Valid()
      modifies this
      ensures Valid() && (Model(), o) == ApplyStep(old(Model()), sessionId, r)
      ensures o.Threw? ==> Model() == old(Model())
      ensures o.Changed? && o.turnId in turns.at ==> Tells(o.turnId, turns.at[o.turnId], o)
    {
      hide UpsertStep, DeleteStep, ListsTurn, Ranked;
      if r.sessionId != sessionId || (r.Upsert? && r.turn.sessionId != sessionId) {
        return Threw(AnotherSession);
      }
      if !(1 <= r.revision <= MAX_SAFE_INTEGER) {
        return Threw(InvalidRevision);
      }
      if (if r.id in records then records[r.id] else 0) >= r.revision {
        return Unchanged;
      }
      if r.Delete? {
        if !Deletable(r.id) {
          return Threw(InvalidIdentity);
        }
        o := ApplyDelete(r);
        return;
      }
      var turnId := r.turn.turnId;
      if turnId == "" || (r.round.Some? && r.round.value.turnId != turnId) || (r.item.Some? && r.round.None?) {
        return Threw(InvalidAncestry);
      }
      if r.id != ExpectedId(r) {
        return Threw(InvalidIdentity);
      }
      o := ApplyUpsert(r);
    }
  }
}
