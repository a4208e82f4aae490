/** The session record replica (SessionRecordReplica.ts): last writer wins by revision, with
    tombstones that fence a turn, a round or an item. */
module SessionReplica {
  import opened Wrappers

  /** "turn/<name>", "round/<name>", "item/<name>" or any other identity. */
  datatype Id = TurnId(name: string) | RoundId(name: string) | ItemId(name: string) | OtherId(text: string)

  datatype Kind = Text | Thinking | Tool

  /** Headers carry their further runtime fields in data. */
  datatype TurnHeader = TurnHeader(turnId: string, sessionId: string, data: string)
  datatype RoundHeader = RoundHeader(id: string, turnId: string, roundIndex: int, data: string)
  datatype ItemData = ItemData(kind: Kind, id: string, orderIndex: Option<int>, data: string)

  datatype Record =
    | Upsert(sessionId: string, id: Id, revision: int, turn: TurnHeader,
             round: Option<RoundHeader>, item: Option<ItemData>)
    | Delete(sessionId: string, id: Id, revision: int)

  datatype Versioned<T> = Versioned(revision: int, value: T)

  /** A Map of the source: entries in order of first insertion. */
  datatype OrderedMap<V> = OrderedMap(order: seq<string>, at: map<string, V>)

  predicate ValidMap<V>(m: OrderedMap<V>) {
    && (forall k :: 0 <= k < |m.order| ==> m.order[k] in m.at)
    && (forall x :: x in m.at ==> x in m.order)
    && forall j, k :: 0 <= j < k < |m.order| ==> m.order[j] != m.order[k]
  }

  function Empty<V>(): (m: OrderedMap<V>)
    ensures ValidMap(m)
  {
    OrderedMap([], map[])
  }

  function Put<V>(m: OrderedMap<V>, x: string, v: V): (m': OrderedMap<V>)
    ensures ValidMap(m) ==> ValidMap(m')
    ensures m'.at == m.at[x := v]
  {
    OrderedMap(if x in m.at then m.order else m.order + [x], m.at[x := v])
  }

  datatype RoundEntry = RoundEntry(header: Versioned<RoundHeader>, items: OrderedMap<Versioned<ItemData>>)
  datatype TurnEntry = TurnEntry(header: Versioned<TurnHeader>, rounds: OrderedMap<RoundEntry>)

  datatype Replica = Replica(records: map<Id, int>, turns: OrderedMap<TurnEntry>, deleted: map<Id, int>)

  // ----- Materialising

  datatype RoundView = RoundView(header: RoundHeader, text: seq<ItemData>, thinking: seq<ItemData>, tool: seq<ItemData>)
  datatype TurnView = TurnView(header: TurnHeader, rounds: seq<RoundView>)

  function Max(a: int, b: int): int {
    if a > b then a else b
  }

  /** deleted.get(id) ?? 0 */
  function Fence(deleted: map<Id, int>, id: Id): int {
    if id in deleted then deleted[id] else 0
  }

  /** Array.prototype.sort, which is stable: each element goes behind its equals. */
  function Insert<T>(s: seq<T>, x: T, key: T -> int): seq<T> {
    if s == [] || key(s[|s| - 1]) <= key(x) then s + [x]
    else Insert(s[..|s| - 1], x, key) + [s[|s| - 1]]
  }

  function StableSort<T>(s: seq<T>, key: T -> int): seq<T> {
    if s == [] then [] else Insert(StableSort(s[..|s| - 1], key), s[|s| - 1], key)
  }

  function OrderOf(i: ItemData): int {
    if i.orderIndex.Some? then i.orderIndex.value else 0
  }

  /** The items of one kind that are newer than every fence above them, in insertion order. */
  function Kept(deleted: map<Id, int>, roundFence: int, items: OrderedMap<Versioned<ItemData>>, kind: Kind,
      n: nat): seq<ItemData>
    requires ValidMap(items) && n <= |items.order|
  {
    if n == 0 then [] else
      var x := items.at[items.order[n - 1]];
      Kept(deleted, roundFence, items, kind, n - 1)
      + if x.revision > Max(roundFence, Fence(deleted, ItemId(x.value.id))) && x.value.kind == kind
        then [x.value] else []
  }

  function RoundFence(deleted: map<Id, int>, turnId: string, roundId: string): int {
    Max(Fence(deleted, TurnId(turnId)), Fence(deleted, RoundId(roundId)))
  }

  function ViewRound(deleted: map<Id, int>, turnId: string, r: RoundEntry): RoundView
    requires ValidMap(r.items)
  {
    var f, n := RoundFence(deleted, turnId, r.header.value.id), |r.items.order|;
    RoundView(r.header.value, StableSort(Kept(deleted, f, r.items, Text, n), OrderOf),
              StableSort(Kept(deleted, f, r.items, Thinking, n), OrderOf),
              StableSort(Kept(deleted, f, r.items, Tool, n), OrderOf))
  }

  predicate ValidTurn(t: TurnEntry) {
    ValidMap(t.rounds) && forall r :: r in t.rounds.at ==> ValidMap(t.rounds.at[r].items)
  }

  /** The rounds newer than their fences. */
  function KeptRounds(deleted: map<Id, int>, turnId: string, t: TurnEntry, n: nat): seq<RoundView>
    requires ValidTurn(t) && n <= |t.rounds.order|
  {
    if n == 0 then [] else
      var r := t.rounds.at[t.rounds.order[n - 1]];
      KeptRounds(deleted, turnId, t, n - 1)
      + if r.header.revision > RoundFence(deleted, turnId, r.header.value.id)
        then [ViewRound(deleted, turnId, r)] else []
  }

  function RoundIndexOf(v: RoundView): int {
    v.header.roundIndex
  }

  function Materialize(deleted: map<Id, int>, turnId: string, t: TurnEntry): TurnView
    requires ValidTurn(t)
  {
    TurnView(t.header.value, StableSort(KeptRounds(deleted, turnId, t, |t.rounds.order|), RoundIndexOf))
  }

  // ----- Applying

  datatype Error = AnotherSession | InvalidRevision | InvalidIdentity | InvalidAncestry

  /** A change carries the turn as it now reads, or None when it is gone. */
  datatype Outcome = Threw(error: Error) | Unchanged | Changed(turnId: string, turn: Option<TurnView>)

  const MAX_SAFE_INTEGER: int := 9007199254740991

  predicate IsLineTerminator(c: char) {
    c == '\n' || c == '\r' || c == '\U{2028}' || c == '\U{2029}'
  }

  /** /^(turn|round|item)\/.+/ */
  predicate Deletable(id: Id) {
    !id.OtherId? && |id.name| > 0 && !IsLineTerminator(id.name[0])
  }

  function ExpectedId(r: Record): Id
    requires r.Upsert?
  {
    if r.item.Some? then ItemId(r.item.value.id)
    else if r.round.Some? then RoundId(r.round.value.id) else TurnId(r.turn.turnId)
  }

  /** The exceptions of apply, in order; a stale record is dropped between the second and the rest. */
  function SessionError(sessionId: string, r: Record): Option<Error> {
    if r.sessionId != sessionId || (r.Upsert? && r.turn.sessionId != sessionId) then Some(AnotherSession)
    else if !(1 <= r.revision <= MAX_SAFE_INTEGER) then Some(InvalidRevision)
    else None
  }

  function ShapeError(r: Record): Option<Error> {
    if r.Delete? then (if Deletable(r.id) then None else Some(InvalidIdentity))
    else if r.turn.turnId == "" || (r.round.Some? && r.round.value.turnId != r.turn.turnId)
            || (r.item.Some? && r.round.None?) then Some(InvalidAncestry)
    else if r.id != ExpectedId(r) then Some(InvalidIdentity)
    else None
  }

  function Newer<T>(old_: Versioned<T>, revision: int, value: T): Versioned<T> {
    if revision > old_.revision then Versioned(revision, value) else old_
  }

  function UpdateRound(t: TurnEntry, r: Record): RoundEntry
    requires r.Upsert? && r.round.Some?
  {
    var h := r.round.value;
    var entry := if h.id in t.rounds.at
                 then t.rounds.at[h.id].(header := Newer(t.rounds.at[h.id].header, r.revision, h))
                 else RoundEntry(Versioned(r.revision, h), Empty());
    if r.item.None? then entry
    else
      var i := r.item.value;
      if i.id in entry.items.at && entry.items.at[i.id].revision >= r.revision then entry
      else entry.(items := Put(entry.items, i.id, Versioned(r.revision, i)))
  }

  function UpdateTurn(turns: OrderedMap<TurnEntry>, r: Record): TurnEntry
    requires r.Upsert?
  {
    var h := r.turn;
    var entry := if h.turnId in turns.at
                 then turns.at[h.turnId].(header := Newer(turns.at[h.turnId].header, r.revision, h))
                 else TurnEntry(Versioned(r.revision, h), Empty());
    if r.round.None? then entry
    else entry.(rounds := Put(entry.rounds, r.round.value.id, UpdateRound(entry, r)))
  }

  /** The turn itself, one of its rounds, or an item of one of its rounds has this identity. */
  predicate Contains(turnId: string, t: TurnEntry, id: Id) {
    match id
    case TurnId(name) => name == turnId
    case RoundId(name) => name in t.rounds.at
    case ItemId(name) => exists r :: r in t.rounds.at && name in t.rounds.at[r].items.at
    case OtherId(_) => false
  }

  /** The first turn in insertion order that contains the identity, from position k on. */
  function FirstContaining(turns: OrderedMap<TurnEntry>, id: Id, k: nat): Option<string>
    requires ValidMap(turns) && k <= |turns.order|
    decreases |turns.order| - k
  {
    if k == |turns.order| then None
    else if Contains(turns.order[k], turns.at[turns.order[k]], id) then Some(turns.order[k])
    else FirstContaining(turns, id, k + 1)
  }

  function Change(deleted: map<Id, int>, turnId: string, t: TurnEntry): Outcome
    requires ValidTurn(t)
  {
    Changed(turnId, if t.header.revision <= Fence(deleted, TurnId(turnId)) then None
                    else Some(Materialize(deleted, turnId, t)))
  }

  predicate ValidReplica(s: Replica) {
    && ValidMap(s.turns)
    && forall t :: t in s.turns.at ==> ValidTurn(s.turns.at[t])
  }

  function Known(s: Replica, id: Id): int {
    if id in s.records then s.records[id] else 0
  }

  function DeleteStep(s: Replica, r: Record): (p: (Replica, Outcome))
    requires ValidReplica(s) && r.Delete?
    ensures ValidReplica(p.0)
  {
    var s' := s.(records := s.records[r.id := r.revision], deleted := s.deleted[r.id := r.revision]);
    match FirstContaining(s.turns, r.id, 0)
    case Some(t) => FirstIsTurn(s.turns, r.id, 0); (s', Change(s'.deleted, t, s.turns.at[t]))
    case None => (s', if r.id.TurnId? then Changed(r.id.name, None) else Unchanged)
  }

  lemma FirstIsTurn(turns: OrderedMap<TurnEntry>, id: Id, k: nat)
    requires ValidMap(turns) && k <= |turns.order|
    ensures match FirstContaining(turns, id, k)
            case Some(t) => t in turns.at && Contains(t, turns.at[t], id)
            case None => forall j :: k <= j < |turns.order| ==> !Contains(turns.order[j], turns.at[turns.order[j]], id)
    decreases |turns.order| - k
  {
    if k < |turns.order| && !Contains(turns.order[k], turns.at[turns.order[k]], id) {
      FirstIsTurn(turns, id, k + 1);
    }
  }

  function UpsertStep(s: Replica, r: Record): (p: (Replica, Outcome))
    requires ValidReplica(s) && r.Upsert?
    ensures ValidReplica(p.0)
  {
    var t := UpdateTurn(s.turns, r);
    UpdateTurnValid(s, r);
    (s.(records := s.records[r.id := r.revision], turns := Put(s.turns, r.turn.turnId, t)),
     Change(s.deleted, r.turn.turnId, t))
  }

  lemma UpdateTurnValid(s: Replica, r: Record)
    requires ValidReplica(s) && r.Upsert?
    ensures ValidTurn(UpdateTurn(s.turns, r))
  {
  }

  /** One call of apply. */
  function ApplyStep(s: Replica, sessionId: string, r: Record): (p: (Replica, Outcome))
    requires ValidReplica(s)
    ensures ValidReplica(p.0)
  {
    if SessionError(sessionId, r).Some? then (s, Threw(SessionError(sessionId, r).value))
    else if Known(s, r.id) >= r.revision then (s, Unchanged)
    else if ShapeError(r).Some? then (s, Threw(ShapeError(r).value))
    else if r.Delete? then DeleteStep(s, r)
    else
      UpdateTurnValid(s, r);
      UpsertStep(s, r)
  }
}
