/** What the runs of the outbox guarantee, and where the guarantees end. */
module DialogQueueTheorems {
  import opened Wrappers
  import opened DialogQueue
  import opened DialogQueueSafety

  predicate Stored(w: World, k: string) {
    k in w.outbox && w.outbox[k].request.Submit?
  }

  // ----- The ways out of the outbox

  /** The request whose record a step stores or removes, other than by dismissing a key. */
  function Touches(w: World, a: Action): Option<Request> {
    var c := w.client;
    match a
    case RefreshWrites(ok) => if ok && c.refresh.Writing? then Some(c.refresh.write.record.request) else None
    case RequestCommitted(ok) => if ok && c.mutation.Committing? then Some(c.mutation.record.request) else None
    case ReceiptStored(ok) => if ok && c.mutation.StoringReceipt? then Some(c.mutation.record.request) else None
    case OutcomeStored(ok) =>
      if ok && (c.mutation.Acknowledged? || c.mutation.Rejected?) then Some(c.mutation.record.request) else None
    case RestorePrepared(r) => Some(r.request)
    case _ => None
  }

  predicate Removes(w: World, a: Action, q: Request) {
    a == RefreshWrites(true) && w.client.refresh.Writing? && w.client.refresh.write.Remove?
    && w.client.refresh.write.record.request == q
  }

  /** The three ways a stored submit is meant to leave: dismissed, rejected by the host, or collected
      after the host acknowledged it and stopped listing it. */
  ghost predicate LeavesOpenly(w: World, a: Action, k: string)
    requires Stored(w, k)
  {
    var q := w.outbox[k].request;
    || a == Dismissed(k)
    || (a == OutcomeStored(true) && w.client.mutation.Rejected? && w.client.mutation.record.request == q)
    || (Removes(w, a, q) && Justified(w, q, w.client.refresh.current))
  }

  /** Collected although the acknowledgement is of another epoch than the request. */
  predicate ForeignReceipt(w: World, a: Action, k: string)
    requires Stored(w, k)
  {
    var q := w.outbox[k].request;
    Removes(w, a, q) && q in w.acks && w.acks[q] < |w.hosts| && w.hosts[w.acks[q]].stamp.epoch != q.epoch
  }

  /** Replaced or removed by a step that works for another request of the same id. */
  predicate ReusedId(w: World, a: Action, k: string)
    requires Stored(w, k)
  {
    Touches(w, a).Some? && KeyOf(Touches(w, a).value) == k && Touches(w, a).value != w.outbox[k].request
  }

  lemma OnlyTouchedByMutation(w: World, a: Action, k: string)
    requires Inv(w) && Enabled(w, a) && k in w.outbox && a != Dismissed(k)
    requires Touches(w, a).None? || KeyOf(Touches(w, a).value) != k
    requires OfMutation(a)
    ensures k in MutationStep(w, a).outbox && MutationStep(w, a).outbox[k] == w.outbox[k]
  {
    hide HostsKept, ViewKept, StoreKept, RefreshKept, MutationKept, Accept, Finish, Continue, Collect, Pending;
    hide RetryFrom;
  }

  lemma OnlyTouchedByRefresh(w: World, a: Action, k: string)
    requires Inv(w) && Enabled(w, a) && k in w.outbox && a != Dismissed(k)
    requires Touches(w, a).None? || KeyOf(Touches(w, a).value) != k
    requires OfRefresh(a)
    ensures k in RefreshStep(w, a).outbox && RefreshStep(w, a).outbox[k] == w.outbox[k]
  {
    hide HostsKept, ViewKept, StoreKept, RefreshKept, MutationKept, Accept, Finish, Continue, Collect, Pending;
    hide RetryFrom;
  }

  /** A step changes the record of a key only by dismissing the key or touching a request of it. */
  lemma OnlyTouched(w: World, a: Action, k: string)
    requires Inv(w) && Enabled(w, a) && k in w.outbox && a != Dismissed(k)
    requires Touches(w, a).None? || KeyOf(Touches(w, a).value) != k
    ensures k in Step(w, a).outbox && Step(w, a).outbox[k] == w.outbox[k]
  {
    hide MutationStep, RefreshStep, HostsKept, ViewKept, StoreKept, RefreshKept, MutationKept, Accept, Finish;
    hide Continue, Collect, Pending, RetryFrom;
    if OfMutation(a) {
      OnlyTouchedByMutation(w, a, k);
    } else if OfRefresh(a) {
      OnlyTouchedByRefresh(w, a, k);
    }
  }

  lemma TouchedRefresh(w: World, a: Action, k: string)
    requires Inv(w) && Enabled(w, a) && Stored(w, k) && a.RefreshWrites?
    requires Touches(w, a) == Some(w.outbox[k].request)
    ensures || LeavesOpenly(w, a, k) || ForeignReceipt(w, a, k)
            || (Stored(Step(w, a), k) && Step(w, a).outbox[k].request == w.outbox[k].request)
  {
    hide HostsKept, ViewKept, StoreKept, MutationKept, Accept, FromHost, Covered;
  }

  lemma TouchedOther(w: World, a: Action, k: string)
    requires Inv(w) && Enabled(w, a) && Stored(w, k) && !a.RefreshWrites?
    requires Touches(w, a) == Some(w.outbox[k].request)
    ensures LeavesOpenly(w, a, k) || (Stored(Step(w, a), k) && Step(w, a).outbox[k].request == w.outbox[k].request)
  {
    hide HostsKept, ViewKept, StoreKept, RefreshKept, Accept, Finish, Pending, Justified;
  }

  /** One step, with no assumption on requested ids or on the epoch of an answer. */
  lemma LossIsNamed(w: World, a: Action, k: string)
    requires Inv(w) && Enabled(w, a) && Stored(w, k)
    ensures || LeavesOpenly(w, a, k) || ForeignReceipt(w, a, k) || ReusedId(w, a, k)
            || (Stored(Step(w, a), k) && Step(w, a).outbox[k].request == w.outbox[k].request)
  {
    hide Inv, Enabled, Step, LeavesOpenly, ForeignReceipt;
    KeyOfStored(w, k);
    if a == Dismissed(k) {
      DismissedLeaves(w, k);
    } else if Touches(w, a).None? || KeyOf(Touches(w, a).value) != k {
      OnlyTouched(w, a, k);
    } else if Touches(w, a).value == w.outbox[k].request {
      if a.RefreshWrites? {
        TouchedRefresh(w, a, k);
      } else {
        TouchedOther(w, a, k);
      }
    }
  }

  lemma KeyOfStored(w: World, k: string)
    requires Inv(w) && k in w.outbox
    ensures KeyOf(w.outbox[k].request) == k && w.hosts != []
  {
    hide HostsKept, ViewKept, RefreshKept, MutationKept;
  }

  lemma DismissedLeaves(w: World, k: string)
    requires Stored(w, k)
    ensures LeavesOpenly(w, Dismissed(k), k)
  {
    hide Justified;
  }

  // ----- No silent loss

  /** On every run, a submit stored at one time and gone or changed later left at a step in between that
      has a name: it was dismissed, rejected or collected as intended, collected on the acknowledgement
      of a foreign epoch, or displaced by a request that reused its id. Until then its turn id, payload
      and epoch are the stored ones. */
  lemma {:induction false} NoSilentLoss(ws: seq<World>, actions: seq<Action>, i: nat, j: nat, k: string)
      returns (n: nat)
    requires IsRun(ws, actions) && i <= j < |ws| && Stored(ws[i], k)
    requires !(Stored(ws[j], k) && ws[j].outbox[k].request == ws[i].outbox[k].request)
    ensures i <= n < j && Inv(ws[n]) && Stored(ws[n], k) && ws[n].outbox[k].request == ws[i].outbox[k].request
    ensures LeavesOpenly(ws[n], actions[n], k) || ForeignReceipt(ws[n], actions[n], k) || ReusedId(ws[n], actions[n], k)
    decreases j - i
  {
    hide Inv, Enabled, Step, Initial, LeavesOpenly, ForeignReceipt, ReusedId;
    RunKeeps(ws, actions, i);
    LossIsNamed(ws[i], actions[i], k);
    if LeavesOpenly(ws[i], actions[i], k) || ForeignReceipt(ws[i], actions[i], k) || ReusedId(ws[i], actions[i], k) {
      n := i;
    } else {
      n := NoSilentLoss(ws, actions, i + 1, j, k);
    }
  }

  // ----- Careful callers

  /** Every id names one request. */
  ghost predicate OneRequestEach(w: World) {
    forall a, b :: a in w.used && b in w.used && KeyOf(a) == KeyOf(b) ==> a == b
  }

  predicate BeginsNew(w: World, a: Action) {
    a.RefreshDone? && w.client.refresh.Scanning? && w.client.mutation.SubmitWaits? && a.previous.None?
  }

  lemma RetryBeginsNothing(w: World, c: Client, r: Record, epoch: nat, now: nat, q: Request)
    requires r.request in w.used && !c.mutation.Committing?
    requires q in Remember(w.(client := RetryFrom(c, r, epoch, now))).used
    ensures q in w.used
  {
  }

  lemma MutationBeginsNothing(w: World, a: Action, q: Request)
    requires Inv(w) && Enabled(w, a) && OfMutation(a) && q in MutationStep(w, a).used
    ensures q in w.used
  {
    hide HostsKept, ViewKept, StoreKept, RefreshKept, Accept, Finish, Pending;
  }

  /** Only a submit that found no record, or a new action, begins a request. */
  lemma OthersBeginNothing(w: World, a: Action, q: Request)
    requires Inv(w) && Enabled(w, a) && !BeginsNew(w, a) && q in Step(w, a).used
    ensures q in w.used || (a.ActCalled? && q == a.record.request)
  {
    hide HostsKept, ViewKept, StoreKept, RefreshKept, MutationKept, MutationStep, Accept, Collect, RetryFrom;
    hide DoneEnabled;
    if OfMutation(a) {
      MutationBeginsNothing(w, a, q);
    } else if a.RefreshDone? {
      DoneBeginsNothing(w, a, q);
    } else if a.ActCalled? {
      ActBegins(w, a, q);
    }
  }

  lemma DoneBeginsNothing(w: World, a: Action, q: Request)
    requires Inv(w) && Enabled(w, a) && a.RefreshDone? && !BeginsNew(w, a) && q in Step(w, a).used
    ensures q in w.used
  {
    hide HostsKept, ViewKept, RefreshKept, FromHost, RetryFrom, Pending;
    var c := w.client.(refresh := NoRefresh, pending := Pending(w.outbox, w.client.inFlight));
    PendingKnown(w);
    if w.client.mutation.SubmitWaits? {
      assert Good(w, a.previous.value);
      RetryBeginsNothing(w, c, a.previous.value, w.client.refresh.current.stamp.epoch, Now(w), q);
    } else if w.client.mutation.RetryWaits? {
      assert Good(w, w.client.mutation.record);
      RetryBeginsNothing(w, c, w.client.mutation.record, w.client.refresh.current.stamp.epoch, Now(w), q);
    }
  }

  lemma ActBegins(w: World, a: Action, q: Request)
    requires Inv(w) && Enabled(w, a) && a.ActCalled? && q in Step(w, a).used
    ensures q in w.used || q == a.record.request
  {
    hide HostsKept, StoreKept, ViewKept, RefreshKept;
  }

  lemma BegunIs(w: World, a: Action)
    requires Inv(w) && Enabled(w, a) && BeginsNew(w, a)
    ensures var c := w.client;
            var q := NewSubmit(c.refresh.current.stamp.epoch, c.mutation.payload, c.mutation.requested,
                a.freshId).request;
            Step(w, a).used == w.used + {q} && (FreshIds(w, a) <==> Unclaimed(w.used, q))
  {
    hide HostsKept, ViewKept, RefreshKept, StoreKept, MutationKept, Pending, NewSubmit, Unclaimed;
  }

  /** Ids stay unambiguous over a step exactly when a requested id is fresh or names the same request. */
  lemma FreshExactly(w: World, a: Action)
    requires Inv(w) && Enabled(w, a) && OneRequestEach(w)
    ensures OneRequestEach(Step(w, a)) <==> FreshIds(w, a)
  {
    hide HostsKept, StoreKept, ViewKept, RefreshKept, MutationKept, DoneEnabled, Step, NewSubmit;
    StepKeeps(w, a);
    if BeginsNew(w, a) {
      BegunIs(w, a);
    } else {
      forall q | q in Step(w, a).used ensures q in w.used || (a.ActCalled? && q == a.record.request) {
        OthersBeginNothing(w, a, q);
      }
    }
  }

  /** Every acknowledgement is of the epoch of its request. */
  predicate OwnAcks(w: World) {
    forall q :: q in w.acks ==> w.acks[q] < |w.hosts| && w.hosts[w.acks[q]].stamp.epoch == q.epoch
  }

  lemma AcksInMutation(w: World, a: Action, q: Request)
    requires Inv(w) && Enabled(w, a) && OfMutation(a) && q in MutationStep(w, a).acks && q !in w.acks
    ensures MutationStep(w, a).acks[q] < |w.hosts|
    ensures w.hosts[MutationStep(w, a).acks[q]].stamp.epoch == q.epoch <==> !ForeignAnswer(w, a)
  {
    hide HostsKept, ViewKept, StoreKept, RefreshKept, MutationKept, Accept, Collect, Pending, Finish, Continue;
    hide RetryFrom;
  }

  lemma ForeignAcks(w: World, a: Action)
    requires Inv(w) && Enabled(w, a) && ForeignAnswer(w, a)
    ensures w.client.mutation.record.request in MutationStep(w, a).acks && OfMutation(a)
  {
    hide HostsKept, ViewKept, StoreKept, RefreshKept, MutationKept, Accept, Collect, Pending, Finish, Continue;
    hide RetryFrom;
  }

  lemma OthersAckNothing(w: World, a: Action)
    requires Inv(w) && Enabled(w, a) && !OfMutation(a)
    ensures Step(w, a).acks == w.acks
  {
    hide HostsKept, ViewKept, StoreKept, RefreshKept, MutationKept, MutationStep, Accept, Collect, Pending, Continue;
    hide RetryFrom;
  }

  lemma NewAck(w: World, a: Action, q: Request)
    requires Inv(w) && Enabled(w, a) && q in Step(w, a).acks && q !in w.acks
    ensures Step(w, a).acks[q] < |w.hosts|
    ensures w.hosts[Step(w, a).acks[q]].stamp.epoch == q.epoch <==> !ForeignAnswer(w, a)
  {
    hide MutationStep, HostsKept, ViewKept, StoreKept, RefreshKept, MutationKept, Enabled, ForeignAnswer;
    if OfMutation(a) {
      AcksInMutation(w, a, q);
    } else {
      OthersAckNothing(w, a);
    }
  }

  /** Acknowledgements stay of the epoch of their request over a step exactly when the step is no first
      receipt given in another epoch. */
  lemma OwnAcksExactly(w: World, a: Action)
    requires Inv(w) && Enabled(w, a) && OwnAcks(w)
    ensures OwnAcks(Step(w, a)) <==> !ForeignAnswer(w, a)
  {
    hide HostsKept, StoreKept, ViewKept, RefreshKept, MutationKept, Enabled, Step, MutationStep, ForeignAnswer;
    StepKeeps(w, a);
    var v := Step(w, a);
    if ForeignAnswer(w, a) {
      ForeignIsNew(w, a);
      NewAck(w, a, w.client.mutation.record.request);
    } else {
      forall q | q in v.acks ensures v.acks[q] < |v.hosts| && v.hosts[v.acks[q]].stamp.epoch == q.epoch {
        if q !in w.acks {
          NewAck(w, a, q);
        }
      }
    }
  }

  lemma ForeignIsNew(w: World, a: Action)
    requires Inv(w) && Enabled(w, a) && ForeignAnswer(w, a)
    ensures w.client.mutation.AskingReceipt?
    ensures var q := w.client.mutation.record.request; q in Step(w, a).acks && q !in w.acks
  {
    hide HostsKept, StoreKept, ViewKept, RefreshKept, MutationKept, Enabled, MutationStep;
    ForeignAcks(w, a);
  }

  /** Runs whose callers request unused ids and whose host gives no first receipt in another epoch than
      the request's. */
  ghost predicate IsCleanRun(ws: seq<World>, actions: seq<Action>) {
    && IsRun(ws, actions)
    && forall i :: 0 <= i < |actions| ==> FreshIds(ws[i], actions[i]) && !ForeignAnswer(ws[i], actions[i])
  }

  lemma {:induction false} CleanRunKeeps(ws: seq<World>, actions: seq<Action>, n: nat)
    requires IsCleanRun(ws, actions) && n < |ws|
    ensures Inv(ws[n]) && OneRequestEach(ws[n]) && OwnAcks(ws[n])
  {
    hide Inv, Enabled, Step, FreshIds, ForeignAnswer, OneRequestEach, OwnAcks;
    RunKeeps(ws, actions, n);
    if n == 0 {
      InitialClean(ws[0]);
    } else {
      CleanRunKeeps(ws, actions, n - 1);
      FreshExactly(ws[n - 1], actions[n - 1]);
      OwnAcksExactly(ws[n - 1], actions[n - 1]);
    }
  }

  /** These are exactly the runs on which ids stay unambiguous and acknowledgements of their request's
      epoch. */
  lemma CleanRunExactly(ws: seq<World>, actions: seq<Action>)
    requires IsRun(ws, actions)
    ensures IsCleanRun(ws, actions) <==> forall n :: 0 <= n < |ws| ==> OneRequestEach(ws[n]) && OwnAcks(ws[n])
  {
    hide Inv, Enabled, Step, Initial, FreshIds, ForeignAnswer, OneRequestEach, OwnAcks;
    if IsCleanRun(ws, actions) {
      forall n | 0 <= n < |ws| ensures OneRequestEach(ws[n]) && OwnAcks(ws[n]) {
        CleanRunKeeps(ws, actions, n);
      }
    }
    if forall n :: 0 <= n < |ws| ==> OneRequestEach(ws[n]) && OwnAcks(ws[n]) {
      forall i | 0 <= i < |actions| ensures FreshIds(ws[i], actions[i]) && !ForeignAnswer(ws[i], actions[i]) {
        RunKeeps(ws, actions, i);
        assert OneRequestEach(ws[i + 1]) && OwnAcks(ws[i + 1]) && OneRequestEach(ws[i]) && OwnAcks(ws[i]);
        FreshExactly(ws[i], actions[i]);
        OwnAcksExactly(ws[i], actions[i]);
      }
    }
  }

  lemma InitialClean(w: World)
    requires Initial(w)
    ensures OneRequestEach(w) && OwnAcks(w)
  {
  }

  lemma TouchedUsed(w: World, a: Action)
    requires Inv(w) && Enabled(w, a) && Touches(w, a).Some?
    ensures Touches(w, a).value in w.used
  {
    hide HostsKept, ViewKept, FromHost, Accept;
    if a.RestorePrepared? {
      assert Good(w, a.record);
    }
  }

  lemma NoReuse(w: World, a: Action, k: string)
    requires Inv(w) && Enabled(w, a) && OneRequestEach(w) && OwnAcks(w) && Stored(w, k)
    ensures !ReusedId(w, a, k) && !ForeignReceipt(w, a, k)
  {
    hide HostsKept, ViewKept, RefreshKept, MutationKept;
    if Touches(w, a).Some? {
      TouchedUsed(w, a);
      assert Good(w, w.outbox[k]) && KeyOf(w.outbox[k].request) == k;
    }
  }

  /** On clean runs a stored submit leaves only as intended. */
  lemma NoSilentLossClean(ws: seq<World>, actions: seq<Action>, i: nat, j: nat, k: string) returns (n: nat)
    requires IsCleanRun(ws, actions) && i <= j < |ws| && Stored(ws[i], k)
    requires !(Stored(ws[j], k) && ws[j].outbox[k].request == ws[i].outbox[k].request)
    ensures i <= n < j && Inv(ws[n]) && Stored(ws[n], k) && ws[n].outbox[k].request == ws[i].outbox[k].request
    ensures LeavesOpenly(ws[n], actions[n], k)
  {
    hide Inv, Enabled, Step, LeavesOpenly, ForeignReceipt, ReusedId, OneRequestEach, OwnAcks, FreshIds;
    hide ForeignAnswer;
    n := NoSilentLoss(ws, actions, i, j, k);
    CleanRunKeeps(ws, actions, n);
    NoReuse(ws[n], actions[n], k);
  }

  /** What a collection on a clean run stands for: a host of the stored epoch held the stored message,
      and a snapshot of that epoch no older than that does not list it. */
  lemma AckMeansHeld(w: World, k: string, current: Snapshot)
    requires Inv(w) && OneRequestEach(w) && Stored(w, k) && Justified(w, w.outbox[k].request, current)
    ensures var r := w.outbox[k].request;
            var h := w.hosts[w.acks[r]];
            && h.stamp.epoch == r.epoch == current.stamp.epoch && h.stamp.revision <= current.stamp.revision
            && k in h.entries && h.entries[k] == r && k !in current.items
  {
    hide ViewKept, RefreshKept, MutationKept, FromHost;
    var r := w.outbox[k].request;
    assert Good(w, w.outbox[k]) && KeyOf(r) == k;
    assert Holds(w, w.hosts[w.acks[r]], k);
  }

  // ----- Write-ahead and at most once

  /** A request leaves only in the step that made its record durable, so whatever a host receives was
      stored first. */
  lemma WriteAhead(w: World, a: Action, r: Request)
    requires Inv(w) && Enabled(w, a) && r !in w.sent && r in Step(w, a).sent
    ensures a == RequestCommitted(true)
    ensures KeyOf(r) in Step(w, a).outbox && Step(w, a).outbox[KeyOf(r)].request == r
  {
    hide HostsKept, StoreKept, ViewKept, RefreshKept, MutationKept, Accept, Collect, Continue, Pending, RetryFrom;
    hide HostStep, RefreshStep, CallStep, UserStep;
    if !OfMutation(a) {
      OthersSendNothing(w, a);
    }
  }

  lemma OthersSendNothing(w: World, a: Action)
    requires w.hosts != [] && Enabled(w, a) && !OfMutation(a)
    ensures Step(w, a).sent == w.sent
  {
    hide MutationStep, Accept, Collect, Pending, RetryFrom;
  }

  /** On clean runs every request ever sent for a key is the same one. */
  lemma OneRequestPerKey(ws: seq<World>, actions: seq<Action>, i: nat, j: nat, a: Request, b: Request)
    requires IsCleanRun(ws, actions) && i <= j < |ws| && a in ws[i].sent && b in ws[j].sent && KeyOf(a) == KeyOf(b)
    ensures a == b
  {
    hide Enabled, Step, Initial, StoreKept, ViewKept, RefreshKept, MutationKept, FreshIds;
    hide ForeignAnswer;
    RunGrows(ws, actions, i, j);
    CleanRunKeeps(ws, actions, j);
  }

  /** Whatever a host holds, in any run, was sent from here for that host's epoch or an earlier one, and
      is held under its own turn id. */
  lemma HeldAsSent(ws: seq<World>, actions: seq<Action>, n: nat, age: nat, t: string)
    requires IsRun(ws, actions) && n < |ws| && age < |ws[n].hosts| && t in ws[n].hosts[age].entries
    ensures var q := ws[n].hosts[age].entries[t];
            q in ws[n].sent && q.Submit? && q.turnId == t && q.epoch <= ws[n].hosts[age].stamp.epoch
  {
    hide Enabled, Step, Initial, StoreKept, ViewKept, RefreshKept, MutationKept;
    RunKeeps(ws, actions, n);
    assert Holds(ws[n], ws[n].hosts[age], t);
  }

  /** Whatever was ever sent was stored by the very step that sent it. */
  lemma {:induction false} SentWasStored(ws: seq<World>, actions: seq<Action>, n: nat, r: Request) returns (m: nat)
    requires IsRun(ws, actions) && n < |ws| && r in ws[n].sent
    ensures m < n && actions[m] == RequestCommitted(true) && r in ws[m + 1].sent
    ensures KeyOf(r) in ws[m + 1].outbox && ws[m + 1].outbox[KeyOf(r)].request == r
  {
    hide Enabled, Step, StoreKept, ViewKept, RefreshKept, MutationKept;
    RunKeeps(ws, actions, n - 1);
    if r in ws[n - 1].sent {
      m := SentWasStored(ws, actions, n - 1, r);
    } else {
      m := n - 1;
      WriteAhead(ws[m], actions[m], r);
    }
  }

  /** Whatever a host takes in, in any run, it takes in under the epoch the request was stored with, under
      a turn id it has no entry for, and after the step that stored it. */
  lemma AdmittedWasStored(ws: seq<World>, actions: seq<Action>, n: nat, r: Request) returns (m: nat)
    requires IsRun(ws, actions) && n < |actions| && actions[n] == HostAdmits(r) && ws[n + 1] != ws[n]
    ensures var h, h' := ws[n].hosts[|ws[n].hosts| - 1], ws[n + 1].hosts[|ws[n + 1].hosts| - 1];
            && r.Submit? && r.epoch == h.stamp.epoch == h'.stamp.epoch
            && r.turnId !in h.entries && h'.entries == h.entries[r.turnId := r]
    ensures m < n && actions[m] == RequestCommitted(true)
    ensures KeyOf(r) in ws[m + 1].outbox && ws[m + 1].outbox[KeyOf(r)].request == r
  {
    hide Inv, RefreshStep, CallStep, MutationStep, UserStep;
    m := SentWasStored(ws, actions, n, r);
  }

  /** A submit of a message with this identity that is not to be edited. */
  predicate AsksFor(r: Record, identity: string) {
    r.request.Submit? && r.request.payload.identity == identity && !r.restoreIntent
  }

  /** A submit that meets no such record, accepted or not, begins a request of its own: for the epoch of the
      snapshot, under the requested id or a new one, with the payload it was called with. */
  lemma OtherPayloadBegins(w: World, freshId: string)
    requires Inv(w) && Enabled(w, RefreshDone(None, freshId)) && w.client.mutation.SubmitWaits?
    ensures var m, v := w.client.mutation, RefreshStep(w, RefreshDone(None, freshId));
            var id := if m.requested == "" then freshId else m.requested;
            && v.client.mutation
               == Committing(Record(Submit(w.client.refresh.current.stamp.epoch, id, m.payload), false, false))
            && v.client.inFlight == {id} && v.outbox == w.outbox && v.sent == w.sent
    ensures forall k :: k in w.outbox && !w.outbox[k].accepted ==>
              !AsksFor(w.outbox[k], w.client.mutation.payload.identity)
  {
    hide HostsKept, ViewKept, RefreshKept;
    forall k | k in w.outbox && !w.outbox[k].accepted
      ensures !AsksFor(w.outbox[k], w.client.mutation.payload.identity)
    {
      assert Pending(w.outbox, w.client.inFlight)[k] == w.outbox[k];
    }
  }

  /** A submit that meets an unresolved record of equal payload never takes a new id: it goes on with
      such a record, and gives up when the record is of another epoch. */
  lemma EqualPayloadReuses(w: World, previous: Option<Record>, freshId: string, k: string)
    requires Inv(w) && Enabled(w, RefreshDone(previous, freshId)) && w.client.mutation.SubmitWaits?
    requires k in w.outbox && !w.outbox[k].accepted && AsksFor(w.outbox[k], w.client.mutation.payload.identity)
    ensures var m, v := w.client.mutation, RefreshStep(w, RefreshDone(previous, freshId));
            && previous.Some? && previous.value in w.known && AsksFor(previous.value, m.payload.identity)
            && v.used == w.used
            && (if previous.value.request.epoch != w.client.refresh.current.stamp.epoch
               then v.client.mutation == NoMutation
                else v.client.mutation == AskingReceipt(previous.value, Now(w)))
  {
    hide HostsKept, ViewKept, RefreshKept;
    assert Pending(w.outbox, w.client.inFlight)[k] == w.outbox[k];
  }

  // ----- The visible snapshot

  /** The view becomes the snapshot if there was none; in the same epoch if its revision is not lower; in another
      epoch only on the word of a list. Otherwise it stays. */
  lemma ViewTakes(view: Option<Snapshot>, s: Snapshot, authoritative: bool)
    ensures var was := if view.Some? then view.value else s;
            Accept(view, s, authoritative)
            == if (if was.stamp.epoch == s.stamp.epoch then was.stamp.revision <= s.stamp.revision else authoritative)
               then Some(s) else Some(was)
  {
  }

  lemma ShownIsView(w: World)
    requires Inv(w) && w.client.view.Some?
    ensures w.shown == Some(w.client.view.value.stamp)
  {
  }

  /** Over a whole run, crashes included, a later view is never older; within an epoch its revision
      never goes back. */
  lemma ViewNeverGoesBack(ws: seq<World>, actions: seq<Action>, i: nat, j: nat)
    requires IsRun(ws, actions) && i <= j < |ws| && ws[i].client.view.Some? && ws[j].client.view.Some?
    ensures Le(ws[i].client.view.value.stamp, ws[j].client.view.value.stamp)
  {
    hide Inv, Enabled, Step, Initial;
    RunKeeps(ws, actions, i);
    RunKeeps(ws, actions, j);
    RunGrows(ws, actions, i, j);
    ShownIsView(ws[i]);
    ShownIsView(ws[j]);
  }

  // ----- A requested id that is in use

  /** A submit that requests the id of a stored message and meets no record of equal payload: once its
      own record is committed, the stored request is still there exactly when it is the same one. */
  lemma RequestedIdOverwrites(w: World, p: Payload, k: string, freshId: string)
    requires Inv(w) && Enabled(w, RefreshDone(None, freshId)) && w.client.mutation == SubmitWaits(p, k) && k != ""
    requires Stored(w, k)
    ensures var done := Step(w, RefreshDone(None, freshId));
            && done.hosts != [] && Enabled(done, RequestCommitted(true))
            && var v := Step(done, RequestCommitted(true));
               Stored(v, k) && (v.outbox[k].request == w.outbox[k].request
                                <==> w.outbox[k].request == Submit(w.client.refresh.current.stamp.epoch, k, p))
  {
    hide HostsKept, StoreKept, ViewKept, Pending, FromHost;
  }

  // ----- An edit intent and the collection

  /** The record of the key is kept back: it is to be edited, or not accepted. */
  predicate HeldBack(w: World, k: string) {
    k in w.outbox && (w.outbox[k].restoreIntent || !w.outbox[k].accepted)
  }

  function TodoOf(at: RefreshAt): seq<Record> {
    match at
    case Scanning(todo, _) => todo
    case Writing(_, todo, _) => todo
    case _ => []
  }

  predicate CollectsFrom(at: RefreshAt, q: Record, k: string, inFlight: set<string>) {
    && (at.Scanning? || at.Writing?) && KeyOf(q.request) == k
    && Collect(q, inFlight, at.current) == Some(Remove(q))
  }

  /** The running refresh is removing a record of the key, or will when it comes to one it listed. */
  predicate WillCollect(at: RefreshAt, k: string, inFlight: set<string>) {
    || (at.Writing? && at.write.Remove? && KeyOf(at.write.record.request) == k)
    || exists q :: q in TodoOf(at) && CollectsFrom(at, q, k, inFlight)
  }

  /** A collection of the key starts from nothing only by listing a record that is not kept back. */
  lemma ListingSpares(w: World, records: seq<Record>, k: string, inFlight: set<string>)
    requires Inv(w) && Enabled(w, RefreshLists(records)) && HeldBack(w, k)
    ensures !WillCollect(Step(w, RefreshLists(records)).client.refresh, k, inFlight)
  {
    hide HostsKept, StoreKept, ViewKept, MutationKept, FromHost;
  }

  /** An edit intent, once no running refresh is about to collect the record, keeps it over every step
      of anyone that does not itself store or drop the key. */
  lemma IntentKept(w: World, a: Action, k: string)
    requires Inv(w) && Enabled(w, a) && HeldBack(w, k) && !WillCollect(w.client.refresh, k, {})
    requires a != Dismissed(k) && (Touches(w, a).None? || KeyOf(Touches(w, a).value) != k)
    ensures var v := Step(w, a);
            k in v.outbox && v.outbox[k] == w.outbox[k] && HeldBack(v, k) && !WillCollect(v.client.refresh, k, {})
  {
    hide Inv, Enabled, Step, WillCollect;
    OnlyTouched(w, a, k);
    if a.RefreshLists? {
      ListingSpares(w, a.records, k, {});
    } else {
      NoNewThreat(w, a, k);
    }
  }

  lemma RefreshPlaceInMutation(w: World, a: Action)
    requires Inv(w) && Enabled(w, a) && !a.RefreshLists? && !a.RefreshVisits? && !a.RefreshWrites?
    requires OfMutation(a)
    ensures var at := MutationStep(w, a).client.refresh;
            at == w.client.refresh || at.NoRefresh? || at.Asked? || at.Replied?
  {
    hide HostsKept, StoreKept, ViewKept, RefreshKept, MutationKept, Accept, Pending, Collect;
  }

  lemma RefreshPlaceInRefresh(w: World, a: Action)
    requires Inv(w) && Enabled(w, a) && !a.RefreshLists? && !a.RefreshVisits? && !a.RefreshWrites?
    requires OfRefresh(a)
    ensures var at := RefreshStep(w, a).client.refresh;
            at == w.client.refresh || at.NoRefresh? || at.Asked? || at.Replied?
  {
    hide HostsKept, StoreKept, ViewKept, RefreshKept, MutationKept, Accept, Pending, Collect;
  }

  /** Apart from listing, visiting and writing, a step leaves the refresh in place or off its list. */
  lemma RefreshPlace(w: World, a: Action)
    requires Inv(w) && Enabled(w, a) && !a.RefreshLists? && !a.RefreshVisits? && !a.RefreshWrites?
    ensures var at := Step(w, a).client.refresh;
            at == w.client.refresh || at.NoRefresh? || at.Asked? || at.Replied?
  {
    hide MutationStep, RefreshStep, HostsKept, StoreKept, ViewKept, RefreshKept, MutationKept, Accept, Pending, Collect;
    if OfMutation(a) {
      RefreshPlaceInMutation(w, a);
    } else if OfRefresh(a) {
      RefreshPlaceInRefresh(w, a);
    }
  }

  lemma VisitNoThreat(w: World, k: string, inFlight: set<string>)
    requires Inv(w) && Enabled(w, RefreshVisits) && !WillCollect(w.client.refresh, k, inFlight)
    requires inFlight == {} || inFlight == w.client.inFlight
    ensures !WillCollect(RefreshStep(w, RefreshVisits).client.refresh, k, inFlight)
  {
    hide HostsKept, StoreKept, ViewKept, MutationKept, FromHost, Collectable, Covered;
    var at := w.client.refresh;
    var head := at.todo[0];
    CollectAllowed(w, head, w.client.inFlight, at.current);
    assert head in TodoOf(at) && !CollectsFrom(at, head, k, inFlight);
    var next := RefreshStep(w, RefreshVisits).client.refresh;
    forall q | q in TodoOf(next) ensures !CollectsFrom(next, q, k, inFlight) {
      assert q in TodoOf(at) && !CollectsFrom(at, q, k, inFlight);
    }
  }

  lemma WriteNoThreat(w: World, ok: bool, k: string, inFlight: set<string>)
    requires Inv(w) && Enabled(w, RefreshWrites(ok)) && !WillCollect(w.client.refresh, k, inFlight)
    ensures !WillCollect(RefreshStep(w, RefreshWrites(ok)).client.refresh, k, inFlight)
  {
    hide HostsKept, StoreKept, ViewKept, MutationKept, RefreshKept;
    var at, next := w.client.refresh, RefreshStep(w, RefreshWrites(ok)).client.refresh;
    forall q | q in TodoOf(next) ensures !CollectsFrom(next, q, k, inFlight) {
      assert q in TodoOf(at) && !CollectsFrom(at, q, k, inFlight);
    }
  }

  lemma NoNewThreat(w: World, a: Action, k: string)
    requires Inv(w) && Enabled(w, a) && !a.RefreshLists? && !WillCollect(w.client.refresh, k, {})
    ensures !WillCollect(Step(w, a).client.refresh, k, {})
  {
    hide Inv, RefreshStep, HostStep, CallStep, MutationStep, UserStep;
    if a.RefreshVisits? {
      VisitNoThreat(w, k, {});
    } else if a.RefreshWrites? {
      WriteNoThreat(w, a.ok, k, {});
    } else {
      RefreshPlace(w, a);
    }
  }

  // ----- Exactly when an edit intent is collected

  /** Steps of the refresh only: the running one to its end, and any number of further ones. */
  ghost predicate IsRefreshRun(ws: seq<World>, actions: seq<Action>) {
    && |ws| == |actions| + 1
    && forall i :: 0 <= i < |actions| ==>
         && ws[i].hosts != [] && OfRefresh(actions[i]) && Enabled(ws[i], actions[i])
         && ws[i + 1] == Step(ws[i], actions[i])
  }

  lemma RefreshSpares(w: World, a: Action, k: string)
    requires Inv(w) && Enabled(w, a) && OfRefresh(a) && HeldBack(w, k)
    requires !WillCollect(w.client.refresh, k, w.client.inFlight)
    ensures var v := Step(w, a);
            HeldBack(v, k) && !WillCollect(v.client.refresh, k, v.client.inFlight)
  {
    hide Inv, RefreshStep, WillCollect, HeldBack;
    match a
    case RefreshLists(records) =>
      ListingSpares(w, records, k, w.client.inFlight);
      SameOutbox(w, a, k);
    case RefreshVisits =>
      VisitNoThreat(w, k, w.client.inFlight);
      SameOutbox(w, a, k);
    case RefreshWrites(ok) =>
      WriteNoThreat(w, ok, k, w.client.inFlight);
      WriteHoldsBack(w, ok, k);
    case _ =>
      OffTheList(w, a, k);
      SameOutbox(w, a, k);
  }

  lemma SameOutbox(w: World, a: Action, k: string)
    requires Inv(w) && Enabled(w, a) && OfRefresh(a) && !a.RefreshWrites? && HeldBack(w, k)
    ensures HeldBack(Step(w, a), k)
    ensures a.RefreshLists? || a.RefreshVisits? ==> Step(w, a).client.inFlight == w.client.inFlight
  {
    hide HostsKept, StoreKept, ViewKept, RefreshKept, MutationKept, Accept, Collect, Continue, Pending;
  }

  lemma WriteHoldsBack(w: World, ok: bool, k: string)
    requires Inv(w) && Enabled(w, RefreshWrites(ok)) && HeldBack(w, k)
    requires !WillCollect(w.client.refresh, k, w.client.inFlight)
    ensures HeldBack(Step(w, RefreshWrites(ok)), k) && Step(w, RefreshWrites(ok)).client.inFlight == w.client.inFlight
  {
    hide HostsKept, StoreKept, ViewKept, MutationKept, FromHost, Covered, Collectable;
  }

  lemma OffTheList(w: World, a: Action, k: string)
    requires Inv(w) && Enabled(w, a) && (a.RefreshStarts? || a.RefreshReply? || a.RefreshFails? || a.RefreshDone?)
    ensures !WillCollect(Step(w, a).client.refresh, k, Step(w, a).client.inFlight)
  {
    hide HostsKept, StoreKept, ViewKept, RefreshKept, MutationKept, Accept, Collect, Pending;
  }

  lemma {:induction false} RefreshRunSpares(ws: seq<World>, actions: seq<Action>, n: nat, k: string)
    requires IsRefreshRun(ws, actions) && n < |ws| && Inv(ws[0])
    requires HeldBack(ws[0], k) && !WillCollect(ws[0].client.refresh, k, ws[0].client.inFlight)
    ensures Inv(ws[n]) && HeldBack(ws[n], k) && !WillCollect(ws[n].client.refresh, k, ws[n].client.inFlight)
  {
    hide Inv, Enabled, Step, OfRefresh, HeldBack, WillCollect;
    if n > 0 {
      RefreshRunSpares(ws, actions, n - 1, k);
      StepKeeps(ws[n - 1], actions[n - 1]);
      RefreshSpares(ws[n - 1], actions[n - 1], k);
    }
  }

  lemma RunFrom(w: World, a: Action, ws: seq<World>, actions: seq<Action>)
    requires w.hosts != [] && OfRefresh(a) && Enabled(w, a) && IsRefreshRun(ws, actions) && ws[0] == Step(w, a)
    ensures IsRefreshRun([w] + ws, [a] + actions) && ([w] + ws)[|actions| + 1] == ws[|actions|]
  {
    hide Step, Enabled, OfRefresh;
  }

  function ScanLeft(at: RefreshAt): nat {
    2 * |TodoOf(at)| + if at.Writing? then 1 else 0
  }

  /** What is to be collected will be: the refresh only has to run on. */
  lemma {:induction false} CollectionRuns(w: World, k: string) returns (ws: seq<World>, actions: seq<Action>)
    requires Inv(w) && WillCollect(w.client.refresh, k, w.client.inFlight)
    ensures IsRefreshRun(ws, actions) && ws[0] == w && k !in ws[|actions|].outbox
    decreases ScanLeft(w.client.refresh)
  {
    hide Inv, Step, Enabled, WillCollect, OfRefresh;
    var a := if w.client.refresh.Writing? then RefreshWrites(true) else RefreshVisits;
    CollectionGoesOn(w, a, k);
    var v := Step(w, a);
    if k !in v.outbox {
      ws, actions := [v], [];
    } else {
      StepKeeps(w, a);
      ws, actions := CollectionRuns(v, k);
    }
    RunFrom(w, a, ws, actions);
    ws, actions := [w] + ws, [a] + actions;
  }

  lemma CollectionGoesOn(w: World, a: Action, k: string)
    requires Inv(w) && WillCollect(w.client.refresh, k, w.client.inFlight)
    requires a == if w.client.refresh.Writing? then RefreshWrites(true) else RefreshVisits
    ensures w.hosts != [] && Enabled(w, a) && OfRefresh(a)
    ensures var v := Step(w, a);
            k !in v.outbox || (WillCollect(v.client.refresh, k, v.client.inFlight)
                && ScanLeft(v.client.refresh) < ScanLeft(w.client.refresh))
  {
    hide HostsKept, StoreKept, ViewKept, MutationKept, RefreshKept, Collect;
    var at, v := w.client.refresh, Step(w, a);
    if !(at.Writing? && at.write.Remove? && KeyOf(at.write.record.request) == k) {
      var q :| q in TodoOf(at) && CollectsFrom(at, q, k, w.client.inFlight);
      if at.Scanning? && q == at.todo[0] {
        assert v.client.refresh.write == Remove(q);
      } else {
        assert q in TodoOf(v.client.refresh) && CollectsFrom(v.client.refresh, q, k, v.client.inFlight);
      }
    }
  }

  ghost predicate CollectionRun(w: World, k: string, ws: seq<World>, actions: seq<Action>) {
    IsRefreshRun(ws, actions) && ws[0] == w && k !in ws[|actions|].outbox
  }

  ghost predicate CanBeCollected(w: World, k: string) {
    exists ws: seq<World>, actions: seq<Action> :: CollectionRun(w, k, ws, actions)
  }

  lemma SparedRun(w: World, k: string, ws: seq<World>, actions: seq<Action>)
    requires Inv(w) && HeldBack(w, k) && !WillCollect(w.client.refresh, k, w.client.inFlight)
    ensures !CollectionRun(w, k, ws, actions)
  {
    hide Inv, WillCollect;
    if CollectionRun(w, k, ws, actions) {
      RefreshRunSpares(ws, actions, |actions|, k);
    }
  }

  /** After prepareRestore, the refresh can still take the record away exactly when, at that moment, it
      is already removing it or has listed a record of the key that it will collect. */
  lemma IntentLostExactly(w: World, r: Record)
    requires Inv(w) && r in w.known
    ensures var k := KeyOf(r.request);
            CanBeCollected(Step(w, RestorePrepared(r)), k) <==> WillCollect(w.client.refresh, k, w.client.inFlight)
  {
    hide HostsKept, StoreKept, ViewKept, RefreshKept, MutationKept, WillCollect, IsRefreshRun, HeldBack, CollectionRun;
    var k, v := KeyOf(r.request), Step(w, RestorePrepared(r));
    StepKeeps(w, RestorePrepared(r));
    Prepared(w, r);
    if WillCollect(w.client.refresh, k, w.client.inFlight) {
      var ws, actions := CollectionRuns(v, k);
      IsCollection(v, k, ws, actions);
    } else {
      forall ws: seq<World>, actions: seq<Action> ensures !CollectionRun(v, k, ws, actions) {
        SparedRun(v, k, ws, actions);
      }
    }
  }

  lemma IsCollection(w: World, k: string, ws: seq<World>, actions: seq<Action>)
    requires IsRefreshRun(ws, actions) && ws[0] == w && k !in ws[|actions|].outbox
    ensures CollectionRun(w, k, ws, actions)
  {
  }

  lemma Prepared(w: World, r: Record)
    requires Inv(w)
    ensures var k, v := KeyOf(r.request), UserStep(w, RestorePrepared(r));
            HeldBack(v, k) && v.client == w.client && v.outbox[k].restoreIntent
  {
    hide HostsKept, StoreKept, ViewKept, RefreshKept, MutationKept;
  }
}
