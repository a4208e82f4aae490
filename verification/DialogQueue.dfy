/** The write-ahead outbox of one queue object: its steps between awaits, interleaved with the host,
    the network and crashes of the client. */
module DialogQueue {
  import opened Wrappers

  // ----- Data

  /** What messageIdentity reads of a message, and the attachment ids it leaves out. */
  datatype Payload = Payload(identity: string, attachmentIds: seq<string>)

  /** Epochs are numbered in the order the host owners lived; the client only compares them for equality. */
  datatype Request =
    | Submit(epoch: nat, turnId: string, payload: Payload)
    | Act(epoch: nat, operationId: string, target: string, cancel: bool)

  function KeyOf(r: Request): string {
    if r.Submit? then r.turnId else r.operationId
  }

  datatype Record = Record(request: Request, accepted: bool, restoreIntent: bool)

  datatype Stamp = Stamp(epoch: nat, revision: nat)

  predicate Le(a: Stamp, b: Stamp) {
    a.epoch < b.epoch || (a.epoch == b.epoch && a.revision <= b.revision)
  }

  datatype Snapshot = Snapshot(stamp: Stamp, items: set<string>)

  /** The host: the request admitted under each turn id, and the ones still listed. */
  datatype Host = Host(stamp: Stamp, entries: map<string, Request>, listed: set<string>)

  function SnapOf(h: Host): Snapshot {
    Snapshot(h.stamp, h.listed)
  }

  datatype Write = Put(record: Record) | Remove(record: Record)

  /** Where the single running refresh stands. since is the age of the host when it was asked. */
  datatype RefreshAt =
    | NoRefresh
    | Asked(since: nat)
    | Replied
    | Scanning(todo: seq<Record>, current: Snapshot)
    | Writing(write: Write, todo: seq<Record>, current: Snapshot)

  /** Where the single running mutation stands. */
  datatype MutationAt =
    | NoMutation
    | SubmitWaits(payload: Payload, requested: string)
    | RetryWaits(record: Record)
    | AskingReceipt(record: Record, since: nat)
    | StoringReceipt(record: Record)
    | Committing(record: Record)
    | Invoked(record: Record, since: nat)
    | Acknowledged(record: Record)
    | Rejected(record: Record)

  datatype Client = Client(view: Option<Snapshot>, pending: map<string, Record>, inFlight: set<string>,
                           refresh: RefreshAt, mutation: MutationAt)

  const NEW_CLIENT: Client := Client(None, map[], {}, NoRefresh, NoMutation)

  /** The world, with what the proofs remember of the past: the host at every age, the requests sent,
      the requests ever begun, every record ever stored, the age of the first acknowledgement of a
      request and the newest stamp ever shown. */
  datatype World = World(client: Client, outbox: map<string, Record>, hosts: seq<Host>, sent: set<Request>,
                         used: set<Request>, known: set<Record>, acks: map<Request, nat>,
                         shown: Option<Stamp>)

  // ----- The pieces of code between two awaits

  /** accept: the view after a snapshot. */
  function Accept(view: Option<Snapshot>, s: Snapshot, authoritative: bool): Option<Snapshot> {
    if view.Some? && s.stamp.epoch != view.value.stamp.epoch && !authoritative then view
    else if view.Some? && s.stamp.epoch == view.value.stamp.epoch && s.stamp.revision < view.value.stamp.revision
        then view
    else Some(s)
  }

  predicate Unresolved(r: Record, inFlight: set<string>) {
    KeyOf(r.request) !in inFlight && (!r.accepted || r.restoreIntent)
  }

  /** publishPending as one step. */
  function Pending(outbox: map<string, Record>, inFlight: set<string>): map<string, Record> {
    map k | k in outbox && Unresolved(outbox[k], inFlight) :: outbox[k]
  }

  predicate SamePayload(r: Record, p: Payload) {
    !r.restoreIntent && r.request.Submit? && r.request.payload.identity == p.identity
  }

  /** What the collection loop of refresh does about one record. */
  function Collect(r: Record, inFlight: set<string>, current: Snapshot): Option<Write> {
    if KeyOf(r.request) in inFlight || !r.accepted || r.restoreIntent || !r.request.Submit? then None
    else if r.request.epoch != current.stamp.epoch then Some(Put(r.(accepted := false)))
    else if r.request.turnId !in current.items then Some(Remove(r))
    else None
  }

  function Begin(c: Client, r: Record): Client {
    c.(inFlight := c.inFlight + {KeyOf(r.request)}, mutation := Committing(r))
  }

  /** The finally of transmit, with its publishPending. */
  function Finish(c: Client, outbox: map<string, Record>, r: Record): Client {
    var f := c.inFlight - {KeyOf(r.request)};
    c.(inFlight := f, pending := Pending(outbox, f), mutation := NoMutation)
  }

  /** retryRecord up to its first await. */
  function RetryFrom(c: Client, r: Record, epoch: nat, now: nat): Client {
    if r.request.epoch != epoch then c.(mutation := NoMutation)
    else if r.request.Submit? then c.(mutation := AskingReceipt(r, now))
    else Begin(c, r)
  }

  function NewSubmit(epoch: nat, payload: Payload, requested: string, freshId: string): Record {
    Record(Submit(epoch, if requested != "" then requested else freshId, payload), false, false)
  }

  /** What the mutation that waits for a refresh does when it completes with this snapshot: previous is
      the unresolved record find returned, freshId what newId would return. */
  function Continue(c: Client, current: Snapshot, previous: Option<Record>, freshId: string, now: nat): Client {
    match c.mutation
    case SubmitWaits(payload, requested) =>
      if previous.Some? then RetryFrom(c, previous.value, current.stamp.epoch, now)
      else Begin(c, NewSubmit(current.stamp.epoch, payload, requested, freshId))
    case RetryWaits(r) => RetryFrom(c, r, current.stamp.epoch, now)
    case _ => c
  }

  // ----- Steps

  datatype Action =
    | HostAdmits(request: Request)
    | HostChanges(revision: nat, listed: set<string>)
    | HostRestarts(epoch: nat, revision: nat, kept: set<string>)
    | Crash
    | RefreshStarts
    | RefreshReply(age: nat)
    | RefreshFails
    | RefreshLists(records: seq<Record>)
    | RefreshVisits
    | RefreshWrites(ok: bool)
    | RefreshDone(previous: Option<Record>, freshId: string)
    | SubmitCalled(payload: Payload, requested: string)
    | RetryCalled(record: Record)
    | ActCalled(record: Record, epoch: nat)
    | ReceiptReply(age: nat)
    | ReceiptStored(ok: bool)
    | RequestCommitted(ok: bool)
    | RequestReply(age: nat)
    | RequestRejected
    | MutationFails
    | OutcomeStored(ok: bool)
    | Publish
    | Observed(age: nat)
    | RestorePrepared(record: Record)
    | Dismissed(key: string)

  function Now(w: World): nat {
    |w.hosts| - (if |w.hosts| > 0 then 1 else 0)
  }

  function Store(w: World, r: Record): World {
    w.(outbox := w.outbox[KeyOf(r.request) := r], known := w.known + {r})
  }

  function Drop(w: World, key: string): World {
    w.(outbox := map k | k in w.outbox && k != key :: w.outbox[k])
  }

  function Show(w: World, s: Snapshot, authoritative: bool): World {
    var v := Accept(w.client.view, s, authoritative);
    w.(client := w.client.(view := v), shown := if v.Some? then Some(v.value.stamp) else w.shown)
  }

  /** The first acknowledgement of a request. */
  function Ack(w: World, r: Record, age: nat): World {
    if r.request in w.acks then w else w.(acks := w.acks[r.request := age])
  }

  /** A request about to be committed and sent. */
  function Remember(w: World): World {
    if w.client.mutation.Committing? then w.(used := w.used + {w.client.mutation.record.request}) else w
  }

  function HostStep(w: World, a: Action): World
    requires w.hosts != []
  {
    var h := w.hosts[|w.hosts| - 1];
    match a
    case HostAdmits(r) =>
      if r.Submit? && r.epoch == h.stamp.epoch && r.turnId !in h.entries
      then w.(hosts := w.hosts + [Host(Stamp(h.stamp.epoch, h.stamp.revision + 1),
                                       h.entries[r.turnId := r], h.listed + {r.turnId})])
      else w
    case HostChanges(revision, listed) =>
        w.(hosts := w.hosts + [Host(Stamp(h.stamp.epoch, revision), h.entries, listed)])
    case HostRestarts(epoch, revision, kept) =>
      w.(hosts := w.hosts + [Host(Stamp(epoch, revision), map t | t in h.entries && t in kept :: h.entries[t], {})])
    case _ => w
  }

  /** The catch of refresh: a mutation waiting for it fails too. */
  function RefreshFailed(w: World): World {
    var m := w.client.mutation;
    w.(client := w.client.(refresh := NoRefresh, mutation := if m.SubmitWaits? || m.RetryWaits? then NoMutation else m))
  }

  function RefreshStep(w: World, a: Action): World {
    var c := w.client;
    match a
    case RefreshStarts => w.(client := c.(refresh := Asked(Now(w))))
    case RefreshReply(age) =>
      if age < |w.hosts|
      then var w' := Show(w, SnapOf(w.hosts[age]), true); w'.(client := w'.client.(refresh := Replied))
      else w
    case RefreshFails => RefreshFailed(w)
    case RefreshLists(records) =>
      if c.view.Some? then w.(client := c.(refresh := Scanning(records, c.view.value))) else w
    case RefreshVisits =>
      if c.refresh.Scanning? && c.refresh.todo != []
      then var op := Collect(c.refresh.todo[0], c.inFlight, c.refresh.current);
           w.(client := c.(refresh := if op.None? then Scanning(c.refresh.todo[1..], c.refresh.current)
                                      else Writing(op.value, c.refresh.todo[1..], c.refresh.current)))
      else w
    case RefreshWrites(ok) =>
      if !c.refresh.Writing? then w
      else if !ok then RefreshFailed(w)
      else
        var w' := w.(client := c.(refresh := Scanning(c.refresh.todo, c.refresh.current)));
        if c.refresh.write.Put?
            then Store(w', c.refresh.write.record) else Drop(w', KeyOf(c.refresh.write.record.request))
    case RefreshDone(previous, freshId) =>
      if c.refresh.Scanning?
      then var c' := c.(refresh := NoRefresh, pending := Pending(w.outbox, c.inFlight));
           Remember(w.(client := Continue(c', c.refresh.current, previous, freshId, Now(w))))
      else w
    case _ => w
  }

  /** The finally of transmit, after its storage operation. */
  function Ended(w: World, r: Record): World {
    w.(client := Finish(w.client, w.outbox, r))
  }

  function CallStep(w: World, a: Action): World {
    var c := w.client;
    var c' := if c.refresh.NoRefresh? then c.(refresh := Asked(Now(w))) else c;
    match a
    case SubmitCalled(payload, requested) => w.(client := c'.(mutation := SubmitWaits(payload, requested)))
    case RetryCalled(r) => w.(client := c'.(mutation := RetryWaits(r)))
    case ActCalled(r, epoch) => Remember(w.(client := RetryFrom(c, r, epoch, Now(w))))
    case _ => w
  }

  function MutationStep(w: World, a: Action): World {
    var c := w.client;
    var m := c.mutation;
    match a
    case ReceiptReply(age) =>
      if m.AskingReceipt? && age < |w.hosts| then
        if KeyOf(m.record.request) in w.hosts[age].entries
        then var w' := Ack(Show(w, SnapOf(w.hosts[age]), false), m.record, age);
             w'.(client := w'.client.(mutation := StoringReceipt(m.record)))
        else Remember(w.(client := Begin(c, m.record)))
      else w
    case ReceiptStored(ok) =>
      if m.StoringReceipt? then
        var w' := if ok then Store(w, m.record.(accepted := true)) else w;
        w'.(client := c.(mutation := NoMutation, pending := if ok then Pending(w'.outbox, c.inFlight) else c.pending))
      else w
    case RequestCommitted(ok) =>
      if m.Committing? then
        if ok
        then var w' := Store(w, m.record);
             w'.(client := c.(mutation := Invoked(m.record, Now(w)), pending := Pending(w'.outbox, c.inFlight)),
                 sent := w.sent + {m.record.request})
        else Ended(w, m.record)
      else w
    case RequestReply(age) =>
      if m.Invoked? && age < |w.hosts| then
        var h := w.hosts[age];
        if h.stamp.epoch != m.record.request.epoch
            || (m.record.request.Submit? && m.record.request.turnId !in h.entries)
        then Ended(w, m.record)
        else
          var v := Show(w, SnapOf(h), false);
          var w' := if m.record.request.Submit? then Ack(v, m.record, age) else v;
          w'.(client := w'.client.(mutation := Acknowledged(m.record)))
      else w
    case RequestRejected => if m.Invoked? then w.(client := c.(mutation := Rejected(m.record))) else w
    case MutationFails =>
      if m.AskingReceipt? then w.(client := c.(mutation := NoMutation))
      else if m.Invoked? then Ended(w, m.record)
      else w
    case OutcomeStored(ok) =>
      if m.Acknowledged? then
        Ended(if !ok then w else if m.record.request.Submit? then Store(w, m.record.(accepted := true))
              else Drop(w, KeyOf(m.record.request)), m.record)
      else if m.Rejected? then Ended(if ok then Drop(w, KeyOf(m.record.request)) else w, m.record)
      else w
    case _ => w
  }

  function UserStep(w: World, a: Action): World {
    match a
    case Crash => w.(client := NEW_CLIENT)
    case Publish => w.(client := w.client.(pending := Pending(w.outbox, w.client.inFlight)))
    case Observed(age) => if age < |w.hosts| then Show(w, SnapOf(w.hosts[age]), false) else w
    case RestorePrepared(r) => Store(w, r.(restoreIntent := true))
    case Dismissed(key) => Drop(w, key)
    case _ => w
  }

  predicate OfHost(a: Action) {
    a.HostAdmits? || a.HostChanges? || a.HostRestarts?
  }

  predicate OfRefresh(a: Action) {
    || a.RefreshStarts? || a.RefreshReply? || a.RefreshFails? || a.RefreshLists? || a.RefreshVisits?
    || a.RefreshWrites? || a.RefreshDone?
  }

  predicate OfCall(a: Action) {
    a.SubmitCalled? || a.RetryCalled? || a.ActCalled?
  }

  predicate OfMutation(a: Action) {
    || a.ReceiptReply? || a.ReceiptStored? || a.RequestCommitted? || a.RequestReply? || a.RequestRejected?
    || a.MutationFails? || a.OutcomeStored?
  }

  function Step(w: World, a: Action): World
    requires w.hosts != []
  {
    if OfHost(a) then HostStep(w, a)
    else if OfRefresh(a) then RefreshStep(w, a)
    else if OfCall(a) then CallStep(w, a)
    else if OfMutation(a) then MutationStep(w, a)
    else UserStep(w, a)
  }

  // ----- When a step may happen: the code's control flow and the contract of the host

  /** find: an unresolved record with the same payload, if there is one. */
  predicate Finds(pending: map<string, Record>, p: Payload, previous: Option<Record>) {
    if previous.Some?
    then (exists k :: k in pending && pending[k] == previous.value) && SamePayload(previous.value, p)
    else forall k :: k in pending ==> !SamePayload(pending[k], p)
  }

  /** A key not used before, or used for this very request. */
  predicate Unclaimed(used: set<Request>, r: Request) {
    forall q :: q in used && KeyOf(q) == KeyOf(r) ==> q == r
  }

  /** newId returns an id no request has used. */
  predicate DoneEnabled(w: World, previous: Option<Record>, freshId: string) {
    var c := w.client;
    && c.refresh.Scanning? && c.refresh.todo == []
    && (c.mutation.SubmitWaits? ==>
          && Finds(Pending(w.outbox, c.inFlight), c.mutation.payload, previous)
          && forall q :: q in w.used ==> KeyOf(q) != freshId)
  }

  /** The host answers with a state it was in after it was asked. Its revision grows with every change,
      epochs are not reused, and a new owner may keep what the old one had admitted. */
  predicate Enabled(w: World, a: Action)
    requires w.hosts != []
  {
    var h, c := w.hosts[|w.hosts| - 1], w.client;
    match a
    case HostAdmits(r) => r in w.sent
    case HostChanges(revision, listed) => revision > h.stamp.revision && forall t :: t in listed ==> t in h.entries
    case HostRestarts(epoch, _, _) => epoch > h.stamp.epoch
    case Crash => true
    case RefreshStarts => c.refresh.NoRefresh?
    case RefreshReply(age) => c.refresh.Asked? && c.refresh.since <= age < |w.hosts|
    case RefreshFails => !c.refresh.NoRefresh?
    case RefreshLists(records) =>
      && c.refresh.Replied?
         && (forall r :: r in records ==> KeyOf(r.request) in w.outbox && w.outbox[KeyOf(r.request)] == r)
      && forall k :: k in w.outbox ==> w.outbox[k] in records
    case RefreshVisits => c.refresh.Scanning? && c.refresh.todo != []
    case RefreshWrites(_) => c.refresh.Writing?
    case RefreshDone(previous, freshId) => DoneEnabled(w, previous, freshId)
    case SubmitCalled(_, _) => c.mutation.NoMutation?
    case RetryCalled(r) => c.mutation.NoMutation? && r in w.known
    case ActCalled(r, _) => c.mutation.NoMutation? && c.view.Some? && r.request.Act? && Unclaimed(w.used, r.request)
    case ReceiptReply(age) =>
      c.mutation.AskingReceipt? && c.mutation.since <= age < |w.hosts|
    case ReceiptStored(_) => c.mutation.StoringReceipt?
    case RequestCommitted(_) => c.mutation.Committing?
    case RequestReply(age) => c.mutation.Invoked? && c.mutation.since <= age < |w.hosts|
    case RequestRejected => c.mutation.Invoked?
    case MutationFails => c.mutation.AskingReceipt? || c.mutation.Invoked?
    case OutcomeStored(_) => c.mutation.Acknowledged? || c.mutation.Rejected?
    case Publish => true
    case Observed(age) => c.view.Some? && age < |w.hosts|
    case RestorePrepared(r) => r in w.known
    case Dismissed(_) => true
  }

  predicate Initial(w: World) {
    && w.client == NEW_CLIENT && w.outbox == map[] && |w.hosts| == 1 && w.hosts[0].entries == map[]
    && w.sent == {} && w.used == {} && w.known == {} && w.acks == map[] && w.shown.None?
  }

  // ----- What the callers and the host add to the contract

  /** submit takes a requested id as it is: a careful caller requests one that is unused, or that names
      the very same request. */
  predicate FreshIds(w: World, a: Action) {
    a.RefreshDone? && w.client.refresh.Scanning? && w.client.mutation.SubmitWaits? && a.previous.None? ==>
      Unclaimed(w.used, NewSubmit(w.client.refresh.current.stamp.epoch, w.client.mutation.payload,
                                  w.client.mutation.requested, a.freshId).request)
  }

  /** The first acknowledgement of a request is a receipt given in another epoch than the request's. A host
      that tests the epoch of a get and answers it under one lock gives none. */
  predicate ForeignAnswer(w: World, a: Action) {
    && a.ReceiptReply? && w.client.mutation.AskingReceipt? && a.age < |w.hosts|
    && var q, h := w.client.mutation.record.request, w.hosts[a.age];
       KeyOf(q) in h.entries && q !in w.acks && h.stamp.epoch != q.epoch
  }
}
