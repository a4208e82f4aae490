/** The queue object: fields that change in place at every stretch of code between two awaits. Each
    stretch is one step of the protocol. */
module DialogQueueObject {
  import opened Wrappers
  import opened DialogQueue
  import opened DialogQueueSafety

  class HostDialogQueue {
    var view: Option<Snapshot>
    var pending: map<string, Record>
    var inFlight: set<string>
    var refreshing: RefreshAt
    var mutation: MutationAt
    /** The durable store. */
    var outbox: map<string, Record>
    ghost var world: World

    ghost predicate Valid()
      reads this
    {
      && Inv(world) && world.outbox == outbox
      && world.client == Client(view, pending, inFlight, refreshing, mutation)
    }

    constructor (ghost w: World)
      requires Initial(w)
      ensures Valid() && world == w
    {
      view, pending, inFlight, refreshing, mutation, outbox := None, map[], {}, NoRefresh, NoMutation, map[];
      world := w;
      new;
      InitialInv(w);
    }

    method AcceptSnapshot(s: Snapshot, authoritative: bool)
      modifies this`view
      ensures view == Accept(old(view), s, authoritative)
    {
      if view.Some? && s.stamp.epoch != view.value.stamp.epoch && !authoritative {
        return;
      }
      if view.Some? && view.value.stamp.epoch == s.stamp.epoch && s.stamp.revision < view.value.stamp.revision {
        return;
      }
      view := Some(s);
    }

    method ShowPending()
      modifies this`pending
      ensures pending == Pending(outbox, inFlight)
    {
      pending := map k | k in outbox && KeyOf(outbox[k].request) !in inFlight
                         && (!outbox[k].accepted || outbox[k].restoreIntent) :: outbox[k];
    }

    method PublishPending()
      requires Valid()
      modifies this
      ensures Valid() && world == Step(old(world), Publish)
    {
      hide HostsKept, StoreKept, ViewKept, RefreshKept, MutationKept;
      StepKeeps(world, Publish);
      world := Step(world, Publish);
      ShowPending();
    }

    // ----- refresh

    method StartRefresh(now: nat)
      requires Valid() && Enabled(world, RefreshStarts) && now == Now(world)
      modifies this
      ensures Valid() && world == Step(old(world), RefreshStarts)
    {
      hide HostsKept, StoreKept, ViewKept, RefreshKept, MutationKept;
      StepKeeps(world, RefreshStarts);
      world := Step(world, RefreshStarts);
      refreshing := Asked(now);
    }

    /** The list reply, up to the read of the store. */
    method OnListReply(s: Snapshot, ghost age: nat)
      requires Valid() && Enabled(world, RefreshReply(age)) && s == SnapOf(world.hosts[age])
      modifies this
      ensures Valid() && world == Step(old(world), RefreshReply(age))
    {
      hide HostsKept, StoreKept, ViewKept, RefreshKept, MutationKept;
      StepKeeps(world, RefreshReply(age));
      world := Step(world, RefreshReply(age));
      AcceptSnapshot(s, true);
      refreshing := Replied;
    }

    method OnRecordsListed(records: seq<Record>)
      requires Valid() && Enabled(world, RefreshLists(records)) && view.Some?
      modifies this
      ensures Valid() && world == Step(old(world), RefreshLists(records))
    {
      hide HostsKept, StoreKept, ViewKept, RefreshKept, MutationKept;
      StepKeeps(world, RefreshLists(records));
      world := Step(world, RefreshLists(records));
      refreshing := Scanning(records, view.value);
    }

    /** One turn of the collection loop, up to its storage operation. */
    method VisitRecord()
      requires Valid() && Enabled(world, RefreshVisits)
      modifies this
      ensures Valid() && world == Step(old(world), RefreshVisits)
    {
      hide HostsKept, StoreKept, ViewKept, RefreshKept, MutationKept;
      StepKeeps(world, RefreshVisits);
      world := Step(world, RefreshVisits);
      var record, rest, current := refreshing.todo[0], refreshing.todo[1..], refreshing.current;
      if KeyOf(record.request) in inFlight || !record.accepted || record.restoreIntent || !record.request.Submit? {
        refreshing := Scanning(rest, current);
        return;
      }
      if record.request.epoch != current.stamp.epoch {
        refreshing := Writing(Put(record.(accepted := false)), rest, current);
      } else if record.request.turnId !in current.items {
        refreshing := Writing(Remove(record), rest, current);
      } else {
        refreshing := Scanning(rest, current);
      }
    }

    method FailRefresh()
      modifies this`refreshing, this`mutation
      ensures refreshing == NoRefresh
      ensures mutation == if old(mutation).SubmitWaits? || old(mutation).RetryWaits? then NoMutation else old(mutation)
    {
      refreshing := NoRefresh;
      if mutation.SubmitWaits? || mutation.RetryWaits? {
        mutation := NoMutation;
      }
    }

    method OnRecordWritten(ok: bool)
      requires Valid() && Enabled(world, RefreshWrites(ok))
      modifies this
      ensures Valid() && world == Step(old(world), RefreshWrites(ok))
    {
      hide HostsKept, StoreKept, ViewKept, RefreshKept, MutationKept;
      StepKeeps(world, RefreshWrites(ok));
      world := Step(world, RefreshWrites(ok));
      if !ok {
        FailRefresh();
        return;
      }
      match refreshing.write {
        case Put(record) => outbox := outbox[KeyOf(record.request) := record];
        case Remove(record) => outbox := map k | k in outbox && k != KeyOf(record.request) :: outbox[k];
      }
      refreshing := Scanning(refreshing.todo, refreshing.current);
    }

    /** find over the pending records: one that submit may go on with, if there is one. */
    method FindPending(payload: Payload) returns (previous: Option<Record>)
      ensures Finds(pending, payload, previous)
    {
      var keys := pending.Keys;
      while keys != {}
        invariant keys <= pending.Keys
        invariant forall k :: k in pending && k !in keys ==> !SamePayload(pending[k], payload)
        decreases keys
      {
        var k :| k in keys;
        var record := pending[k];
        if !record.restoreIntent && record.request.Submit? && record.request.payload.identity == payload.identity {
          return Some(record);
        }
        keys := keys - {k};
      }
      return None;
    }

    /** The loop is over: publish, return the snapshot, and let a waiting submit or retry go on. A
        submit looks for an unresolved record of equal payload before it takes an id. */
    method FinishRefresh(freshId: string, now: nat) returns (ghost previous: Option<Record>)
      requires Valid() && refreshing.Scanning? && refreshing.todo == [] && now == Now(world)
      requires forall q :: q in world.used ==> KeyOf(q) != freshId
      modifies this
      ensures old(Enabled(world, RefreshDone(previous, freshId)))
      ensures Valid() && world == Step(old(world), RefreshDone(previous, freshId))
    {
      hide HostsKept, StoreKept, ViewKept, RefreshKept, MutationKept, Step, Finds, Enabled, Pending, RetryFrom;
      hide NewSubmit;
      ghost var w := world;
      var current := refreshing.current;
      ShowPending();
      refreshing := NoRefresh;
      previous := None;
      match mutation {
        case SubmitWaits(payload, requested) =>
          var found := FindPending(payload);
          previous := found;
          if found.Some? {
            RetryRecord(found.value, current.stamp.epoch, now);
          } else {
            BeginTransmit(NewSubmit(current.stamp.epoch, payload, requested, freshId));
          }
        case RetryWaits(record) => RetryRecord(record, current.stamp.epoch, now);
        case _ =>
      }
      DoneIsStep(w, previous, freshId);
      StepKeeps(w, RefreshDone(previous, freshId));
      world := Step(w, RefreshDone(previous, freshId));
    }

    // ----- transmit and retryRecord

    method BeginTransmit(record: Record)
      modifies this`inFlight, this`mutation
      ensures inFlight == old(inFlight) + {KeyOf(record.request)} && mutation == Committing(record)
    {
      inFlight := inFlight + {KeyOf(record.request)};
      mutation := Committing(record);
    }

    method RetryRecord(record: Record, epoch: nat, now: nat)
      modifies this`inFlight, this`mutation
      ensures Client(view, pending, inFlight, refreshing, mutation)
              == RetryFrom(old(Client(view, pending, inFlight, refreshing, mutation)), record, epoch, now)
    {
      if record.request.epoch != epoch {
        mutation := NoMutation;
      } else if record.request.Submit? {
        mutation := AskingReceipt(record, now);
      } else {
        BeginTransmit(record);
      }
    }

    /** The reply to get: an acknowledgement is stored, otherwise the record is sent again. */
    method OnReceipt(s: Snapshot, found: bool, ghost age: nat)
      requires Valid() && Enabled(world, ReceiptReply(age)) && s == SnapOf(world.hosts[age])
      requires found == (KeyOf(mutation.record.request) in world.hosts[age].entries)
      modifies this
      ensures Valid() && world == Step(old(world), ReceiptReply(age))
    {
      hide HostsKept, StoreKept, ViewKept, RefreshKept, MutationKept;
      StepKeeps(world, ReceiptReply(age));
      world := Step(world, ReceiptReply(age));
      var record := mutation.record;
      if found {
        AcceptSnapshot(s, false);
        mutation := StoringReceipt(record);
      } else {
        BeginTransmit(record);
      }
    }

    method OnReceiptStored(ok: bool)
      requires Valid() && Enabled(world, ReceiptStored(ok))
      modifies this
      ensures Valid() && world == Step(old(world), ReceiptStored(ok))
    {
      hide HostsKept, StoreKept, ViewKept, RefreshKept, MutationKept;
      StepKeeps(world, ReceiptStored(ok));
      world := Step(world, ReceiptStored(ok));
      if ok {
        outbox := outbox[KeyOf(mutation.record.request) := mutation.record.(accepted := true)];
        ShowPending();
      }
      mutation := NoMutation;
    }

    /** The finally of transmit. */
    method EndTransmit(record: Record)
      modifies this`inFlight, this`mutation, this`pending
      ensures Client(view, pending, inFlight, refreshing, mutation)
              == Finish(old(Client(view, pending, inFlight, refreshing, mutation)), outbox, record)
    {
      inFlight := inFlight - {KeyOf(record.request)};
      ShowPending();
      mutation := NoMutation;
    }

    /** The record is durable before the request leaves. */
    method OnCommitted(ok: bool, now: nat)
      requires Valid() && Enabled(world, RequestCommitted(ok)) && now == Now(world)
      modifies this
      ensures Valid() && world == Step(old(world), RequestCommitted(ok))
    {
      hide HostsKept, StoreKept, ViewKept, RefreshKept, MutationKept;
      StepKeeps(world, RequestCommitted(ok));
      world := Step(world, RequestCommitted(ok));
      var record := mutation.record;
      if !ok {
        EndTransmit(record);
        return;
      }
      outbox := outbox[KeyOf(record.request) := record];
      ShowPending();
      mutation := Invoked(record, now);
    }

    method OnReply(s: Snapshot, found: bool, ghost age: nat)
      requires Valid() && Enabled(world, RequestReply(age)) && s == SnapOf(world.hosts[age])
      requires found == (KeyOf(mutation.record.request) in world.hosts[age].entries)
      modifies this
      ensures Valid() && world == Step(old(world), RequestReply(age))
    {
      hide HostsKept, StoreKept, ViewKept, RefreshKept, MutationKept;
      StepKeeps(world, RequestReply(age));
      world := Step(world, RequestReply(age));
      var record := mutation.record;
      if s.stamp.epoch != record.request.epoch || (record.request.Submit? && !found) {
        EndTransmit(record);
        return;
      }
      AcceptSnapshot(s, false);
      mutation := Acknowledged(record);
    }

    /** The storage operation after the reply: accepted submits stay, finished actions and rejected
        requests go. */
    method OnOutcomeStored(ok: bool)
      requires Valid() && Enabled(world, OutcomeStored(ok))
      modifies this
      ensures Valid() && world == Step(old(world), OutcomeStored(ok))
    {
      hide HostsKept, StoreKept, ViewKept, RefreshKept, MutationKept;
      StepKeeps(world, OutcomeStored(ok));
      world := Step(world, OutcomeStored(ok));
      var record := mutation.record;
      if ok {
        if mutation.Acknowledged? && record.request.Submit? {
          outbox := outbox[KeyOf(record.request) := record.(accepted := true)];
        } else {
          outbox := map k | k in outbox && k != KeyOf(record.request) :: outbox[k];
        }
      }
      EndTransmit(record);
    }

    // ----- submit, prepareRestore and dismiss

    method SubmitMessage(payload: Payload, requested: string, now: nat)
      requires Valid() && Enabled(world, SubmitCalled(payload, requested)) && now == Now(world)
      modifies this
      ensures Valid() && world == Step(old(world), SubmitCalled(payload, requested))
    {
      hide HostsKept, StoreKept, ViewKept, RefreshKept, MutationKept;
      StepKeeps(world, SubmitCalled(payload, requested));
      world := Step(world, SubmitCalled(payload, requested));
      if refreshing.NoRefresh? {
        refreshing := Asked(now);
      }
      mutation := SubmitWaits(payload, requested);
    }

    method PrepareRestore(record: Record)
      requires Valid() && Enabled(world, RestorePrepared(record))
      modifies this
      ensures Valid() && world == Step(old(world), RestorePrepared(record))
    {
      hide HostsKept, StoreKept, ViewKept, RefreshKept, MutationKept;
      StepKeeps(world, RestorePrepared(record));
      world := Step(world, RestorePrepared(record));
      outbox := outbox[KeyOf(record.request) := record.(restoreIntent := true)];
    }

    method Dismiss(key: string)
      requires Valid()
      modifies this
      ensures Valid() && world == Step(old(world), Dismissed(key))
    {
      hide HostsKept, StoreKept, ViewKept, RefreshKept, MutationKept;
      StepKeeps(world, Dismissed(key));
      world := Step(world, Dismissed(key));
      outbox := map k | k in outbox && k != key :: outbox[k];
    }
  }

  /** The step a finished refresh takes, by its parts. */
  lemma DoneIsStep(w: World, previous: Option<Record>, freshId: string)
    requires w.hosts != [] && w.client.refresh.Scanning? && w.client.refresh.todo == []
    requires forall q :: q in w.used ==> KeyOf(q) != freshId
    requires w.client.mutation.SubmitWaits? ==>
        Finds(Pending(w.outbox, w.client.inFlight), w.client.mutation.payload, previous)
    ensures Enabled(w, RefreshDone(previous, freshId))
    ensures var c := w.client.(refresh := NoRefresh, pending := Pending(w.outbox, w.client.inFlight));
            var v := Step(w, RefreshDone(previous, freshId));
            && v.outbox == w.outbox
            && v.client == Continue(c, w.client.refresh.current, previous, freshId, Now(w))
  {
    hide Finds, Pending, RetryFrom, NewSubmit;
  }
}
