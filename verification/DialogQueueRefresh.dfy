/** What a completed refresh shows: no stored message is left hidden on the word of another owner. */
module DialogQueueRefresh {
  import opened Wrappers
  import opened DialogQueue
  import opened DialogQueueSafety
  import opened DialogQueueTheorems

  /** A record the user can leave to the host: it is offered to the user as pending, or no message, or the
      snapshot, of its own epoch, lists it. */
  predicate Settled(r: Record, s: Snapshot) {
    || !r.accepted || r.restoreIntent || !r.request.Submit?
    || (r.request.epoch == s.stamp.epoch && r.request.turnId in s.items)
  }

  predicate Passing(at: RefreshAt) {
    at.Scanning? || at.Writing?
  }

  /** The pass has the record of the key before it, or is about to write it back or to remove it. */
  predicate Ahead(at: RefreshAt, r: Record) {
    r in TodoOf(at) || (at.Writing? && (at.write == Put(r.(accepted := false)) || at.write == Remove(r)))
  }

  /** During a pass with this snapshot that listed this record, or none, under the key. */
  ghost predicate OnCourse(w: World, s: Snapshot, listed: Option<Record>, k: string) {
    var at := w.client.refresh;
    && Passing(at) && at.current == s
    && (forall r :: r in TodoOf(at) && KeyOf(r.request) == k ==> listed == Some(r))
    && (k in w.outbox ==> Settled(w.outbox[k], s) || (listed == Some(w.outbox[k]) && Ahead(at, w.outbox[k])))
  }

  /** A receipt of this very record is noted. */
  predicate NotesReceipt(w: World, a: Action, k: string) {
    a == ReceiptStored(true) && w.client.mutation.StoringReceipt? && KeyOf(w.client.mutation.record.request) == k
  }

  function Listed(w: World, k: string): Option<Record> {
    if k in w.outbox then Some(w.outbox[k]) else None
  }

  lemma ListingIsOnCourse(w: World, records: seq<Record>, k: string)
    requires Inv(w) && Enabled(w, RefreshLists(records))
    ensures var v := Step(w, RefreshLists(records));
            w.client.view.Some? && OnCourse(v, w.client.view.value, Listed(w, k), k)
  {
    hide HostsKept, StoreKept, ViewKept, MutationKept;
    KeysKept(w);
  }

  lemma KeysKept(w: World)
    requires Inv(w)
    ensures forall k :: k in w.outbox ==> KeyOf(w.outbox[k].request) == k
  {
    hide HostsKept, ViewKept, RefreshKept, MutationKept;
  }

  lemma VisitStaysOnCourse(w: World, s: Snapshot, listed: Option<Record>, k: string)
    requires Inv(w) && Enabled(w, RefreshVisits) && OnCourse(w, s, listed, k) && k !in w.client.inFlight
    ensures OnCourse(Step(w, RefreshVisits), s, listed, k)
  {
    hide HostsKept, StoreKept, ViewKept, MutationKept, RefreshKept;
    KeysKept(w);
    var at, next := w.client.refresh, Step(w, RefreshVisits).client.refresh;
    assert forall r :: r in TodoOf(at) ==> r == at.todo[0] || r in TodoOf(next);
  }

  lemma WriteStaysOnCourse(w: World, ok: bool, s: Snapshot, listed: Option<Record>, k: string)
    requires Inv(w) && Enabled(w, RefreshWrites(ok)) && OnCourse(w, s, listed, k)
    requires Passing(Step(w, RefreshWrites(ok)).client.refresh)
    ensures OnCourse(Step(w, RefreshWrites(ok)), s, listed, k)
  {
    hide HostsKept, StoreKept, ViewKept, MutationKept;
    KeysKept(w);
  }

  lemma MutationSettles(w: World, a: Action, k: string)
    requires Inv(w) && Enabled(w, a) && OfMutation(a) && k !in w.client.inFlight && !NotesReceipt(w, a, k)
    ensures k in MutationStep(w, a).outbox ==> k in w.outbox && MutationStep(w, a).outbox[k] == w.outbox[k]
  {
    hide HostsKept, StoreKept, ViewKept, RefreshKept, Accept, Finish, Pending, RetryFrom, Begin;
  }

  lemma RefreshSettles(w: World, a: Action, k: string)
    requires w.hosts != [] && Enabled(w, a) && OfRefresh(a) && !a.RefreshWrites?
    ensures RefreshStep(w, a).outbox == w.outbox
  {
    hide Accept, Continue, Pending, Collect;
  }

  /** Another step leaves the record of a key that is not in flight alone, drops it, or marks it for
      editing. */
  lemma OtherStepsSettle(w: World, a: Action, k: string)
    requires Inv(w) && Enabled(w, a) && !a.RefreshWrites? && k !in w.client.inFlight && !NotesReceipt(w, a, k)
    ensures var v := Step(w, a);
            k in v.outbox ==> v.outbox[k].restoreIntent || (k in w.outbox && v.outbox[k] == w.outbox[k])
  {
    hide MutationStep, RefreshStep, HostsKept, StoreKept, ViewKept, RefreshKept, MutationKept;
    hide Accept, Pending, RetryFrom;
    if OfMutation(a) {
      MutationSettles(w, a, k);
    } else if OfRefresh(a) {
      RefreshSettles(w, a, k);
    }
  }

  lemma StaysOnCourse(w: World, a: Action, s: Snapshot, listed: Option<Record>, k: string)
    requires Inv(w) && Enabled(w, a) && OnCourse(w, s, listed, k)
    requires k !in w.client.inFlight && !NotesReceipt(w, a, k) && Passing(Step(w, a).client.refresh)
    ensures OnCourse(Step(w, a), s, listed, k)
  {
    hide Inv, Step;
    if a.RefreshVisits? {
      VisitStaysOnCourse(w, s, listed, k);
    } else if a.RefreshWrites? {
      WriteStaysOnCourse(w, a.ok, s, listed, k);
    } else {
      NotListing(w, a);
      RefreshPlace(w, a);
      OtherStepsSettle(w, a, k);
    }
  }

  lemma NotListing(w: World, a: Action)
    requires Inv(w) && Enabled(w, a) && Passing(w.client.refresh)
    ensures !a.RefreshLists?
  {
    hide HostsKept, StoreKept, ViewKept, MutationKept, RefreshKept;
  }

  // ----- Over a whole pass

  /** From the listing at step i to the end at step j: one pass without a failed write or a crash. */
  ghost predicate IsPass(ws: seq<World>, actions: seq<Action>, i: nat, j: nat) {
    && IsRun(ws, actions) && i < j < |actions| && actions[i].RefreshLists? && actions[j].RefreshDone?
    && forall n :: i < n <= j ==> Passing(ws[n].client.refresh)
  }

  /** Meanwhile the record of the key is neither transmitted nor acknowledged by a receipt. */
  ghost predicate Undisturbed(ws: seq<World>, actions: seq<Action>, i: nat, j: nat, k: string)
    requires |ws| == |actions| + 1 && j < |actions|
  {
    forall n :: i <= n <= j ==> k !in ws[n].client.inFlight && !NotesReceipt(ws[n], actions[n], k)
  }

  lemma {:induction false} PassOnCourse(ws: seq<World>, actions: seq<Action>, i: nat, j: nat, n: nat, k: string)
    requires IsPass(ws, actions, i, j) && Undisturbed(ws, actions, i, j, k) && i < n <= j
    ensures ws[i].client.view.Some? && OnCourse(ws[n], ws[i].client.view.value, Listed(ws[i], k), k)
  {
    hide Inv, Enabled, Step, OnCourse, Passing, NotesReceipt;
    RunKeeps(ws, actions, n - 1);
    var w, a := ws[n - 1], actions[n - 1];
    assert w.hosts != [] && Enabled(w, a) && ws[n] == Step(w, a);
    if n == i + 1 {
      ListingIsOnCourse(w, a.records, k);
    } else {
      PassOnCourse(ws, actions, i, j, n - 1, k);
      StaysOnCourse(w, a, ws[i].client.view.value, Listed(ws[i], k), k);
    }
  }

  /** Where a refresh that is passing over its records has listed them. */
  lemma {:induction false} PassBegins(ws: seq<World>, actions: seq<Action>, j: nat) returns (i: nat)
    requires IsRun(ws, actions) && j < |ws| && Passing(ws[j].client.refresh)
    ensures i < j && actions[i].RefreshLists? && forall n :: i < n <= j ==> Passing(ws[n].client.refresh)
  {
    hide Inv, Enabled, Step, Passing;
    NotFromStart(ws[0]);
    var w, a := ws[j - 1], actions[j - 1];
    assert w.hosts != [] && Enabled(w, a) && ws[j] == Step(w, a);
    if a.RefreshLists? {
      i := j - 1;
    } else {
      RunKeeps(ws, actions, j - 1);
      PassGoesOn(w, a);
      i := PassBegins(ws, actions, j - 1);
    }
  }

  lemma NotFromStart(w: World)
    requires Initial(w)
    ensures !Passing(w.client.refresh)
  {
  }

  lemma PassGoesOn(w: World, a: Action)
    requires Inv(w) && Enabled(w, a) && !a.RefreshLists? && Passing(Step(w, a).client.refresh)
    ensures Passing(w.client.refresh)
  {
    hide Inv, Step;
    if !a.RefreshVisits? && !a.RefreshWrites? {
      RefreshPlace(w, a);
    }
  }

  lemma DoneShows(w: World, a: Action, k: string)
    requires Inv(w) && Enabled(w, a) && a.RefreshDone? && k !in w.client.inFlight && k in w.outbox
    ensures w.client.refresh.Scanning? && w.client.refresh.todo == []
    ensures var shown := Step(w, a).client.pending;
            && (k in shown <==> !w.outbox[k].accepted || w.outbox[k].restoreIntent)
            && (k in shown ==> shown[k] == w.outbox[k])
  {
    hide Finds, HostsKept, StoreKept, ViewKept, MutationKept, RefreshKept;
    KeysKept(w);
  }

  /** When a refresh ends, every stored submit is shown to the user as pending, or it is accepted and the
      snapshot the records were compared with is of its epoch and lists it. */
  lemma RefreshShows(ws: seq<World>, actions: seq<Action>, i: nat, j: nat, k: string)
    requires IsPass(ws, actions, i, j) && Undisturbed(ws, actions, i, j, k) && Stored(ws[j], k)
    ensures ws[i].client.view.Some?
    ensures var s, r, shown := ws[i].client.view.value, ws[j].outbox[k], ws[j + 1].client.pending;
            && (k in shown ==> shown[k] == r)
            && (k !in shown ==> r.accepted && !r.restoreIntent && r.request.epoch == s.stamp.epoch && k in s.items)
  {
    hide Inv, Enabled, Step, Passing, NotesReceipt;
    PassOnCourse(ws, actions, i, j, j, k);
    RunKeeps(ws, actions, j);
    KeyOfStored(ws[j], k);
    assert ws[j + 1] == Step(ws[j], actions[j]) && Enabled(ws[j], actions[j]);
    DoneShows(ws[j], actions[j], k);
  }

  /** So a message whose owner is gone is offered again: every refresh that ends, in any run, shows each stored
      submit of another epoch than the view's, unless it is just being transmitted or was acknowledged by a
      receipt after the records were listed. */
  lemma OtherEpochShownAgain(ws: seq<World>, actions: seq<Action>, j: nat, k: string) returns (i: nat)
    requires IsRun(ws, actions) && j < |actions| && actions[j].RefreshDone? && Stored(ws[j], k)
    ensures i < j && IsPass(ws, actions, i, j) && ws[j].client.view.Some?
    ensures Undisturbed(ws, actions, i, j, k)
            && ws[j].outbox[k].request.epoch != ws[j].client.view.value.stamp.epoch ==>
              k in ws[j + 1].client.pending && ws[j + 1].client.pending[k] == ws[j].outbox[k]
  {
    hide Inv, Enabled, Step, NotesReceipt, Stored;
    RunKeeps(ws, actions, j);
    assert ws[j].hosts != [] && Enabled(ws[j], actions[j]);
    DoneIsScanning(ws[j], actions[j]);
    i := PassBegins(ws, actions, j);
    if Undisturbed(ws, actions, i, j, k) {
      RefreshShows(ws, actions, i, j, k);
      PassOnCourse(ws, actions, i, j, j, k);
    }
  }

  lemma DoneIsScanning(w: World, a: Action)
    requires Inv(w) && Enabled(w, a) && a.RefreshDone?
    ensures w.client.refresh.Scanning? && w.client.view.Some?
    ensures w.client.view.value.stamp.epoch == w.client.refresh.current.stamp.epoch
  {
    hide HostsKept, StoreKept, ViewKept, MutationKept;
  }
}
