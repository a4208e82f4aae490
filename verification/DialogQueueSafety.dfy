/** What every run of the outbox keeps: nothing stored is lost silently, nothing is sent twice as two
    different things, and the visible snapshot never goes back. */
module DialogQueueSafety {
  import opened Wrappers
  import opened DialogQueue

  // ----- The invariant

  /** Host stamps only grow, and what a host holds was sent, for its epoch or an earlier one. */
  ghost predicate HostsKept(w: World) {
    && (forall i, j :: 0 <= i <= j < |w.hosts| ==> Le(w.hosts[i].stamp, w.hosts[j].stamp))
    && (forall r :: r in w.sent ==> r in w.used)
    && forall i, t :: 0 <= i < |w.hosts| && t in w.hosts[i].entries ==> Holds(w, w.hosts[i], t)
  }

  predicate Holds(w: World, h: Host, t: string) {
    && t in h.entries && h.entries[t] in w.sent && h.entries[t].Submit? && h.entries[t].turnId == t
    && h.entries[t].epoch <= h.stamp.epoch
  }

  /** The host state of a first acknowledgement held the turn id, and if it was of the request's epoch,
      the client has shown a snapshot at least that new. */
  predicate AckKept(w: World, q: Request)
    requires q in w.acks
  {
    && q in w.used && q.Submit? && w.acks[q] < |w.hosts| && q.turnId in w.hosts[w.acks[q]].entries
    && w.shown.Some? && (w.hosts[w.acks[q]].stamp.epoch == q.epoch ==> Le(w.hosts[w.acks[q]].stamp, w.shown.value))
  }

  /** A record carries a request begun before, and is accepted only when the host acknowledged it. */
  predicate Good(w: World, r: Record) {
    r.request in w.used && (r.request.Submit? && r.accepted ==> r.request in w.acks)
  }

  ghost predicate StoreKept(w: World) {
    && (forall r :: r in w.known ==> Good(w, r))
    && (forall k :: k in w.outbox ==> KeyOf(w.outbox[k].request) == k && w.outbox[k] in w.known)
    && (forall k :: k in w.client.pending ==> w.client.pending[k] in w.known)
    && (forall q :: q in w.acks ==> AckKept(w, q))
    && forall q :: q in w.used && q.Submit? ==> w.shown.Some? && q.epoch <= w.shown.value.epoch
  }

  ghost predicate ViewKept(w: World) {
    && (w.shown.Some? ==> w.hosts != [] && Le(w.shown.value, w.hosts[|w.hosts| - 1].stamp))
    && (w.client.view.Some? ==> w.shown == Some(w.client.view.value.stamp) && FromHost(w, w.client.view.value))
  }

  ghost predicate FromHost(w: World, s: Snapshot) {
    exists i :: 0 <= i < |w.hosts| && s == SnapOf(w.hosts[i])
  }

  /** A record the collection may remove: the snapshot is no older than an acknowledgement of its epoch. */
  predicate Covered(w: World, r: Record, current: Snapshot) {
    && r in w.known
    && (r.request.Submit? && r.accepted && r.request.epoch == current.stamp.epoch ==>
          && r.request in w.acks && w.acks[r.request] < |w.hosts|
          && (w.hosts[w.acks[r.request]].stamp.epoch == current.stamp.epoch ==>
                Le(w.hosts[w.acks[r.request]].stamp, current.stamp)))
  }

  /** What holds of every request the collection removes: it was acknowledged, a snapshot of its epoch
      does not list it, and if the acknowledgement was of that epoch too, the snapshot is no older. */
  ghost predicate Collectable(w: World, q: Request, current: Snapshot) {
    && q in w.acks && AckKept(w, q) && FromHost(w, current)
    && q.epoch == current.stamp.epoch && q.turnId !in current.items
    && (w.hosts[w.acks[q]].stamp.epoch == q.epoch ==> w.hosts[w.acks[q]].stamp.revision <= current.stamp.revision)
  }

  /** Why a collected record may go: the host acknowledged it in its epoch, and a snapshot of the same
      epoch no older than that no longer lists it. */
  ghost predicate Justified(w: World, q: Request, current: Snapshot) {
    Collectable(w, q, current) && w.hosts[w.acks[q]].stamp.epoch == q.epoch
  }

  ghost predicate RefreshKept(w: World) {
    match w.client.refresh
    case NoRefresh => true
    case Asked(since) =>
      && since < |w.hosts|
      && (w.shown.Some? ==>
            && w.shown.value.epoch <= w.hosts[since].stamp.epoch
            && (w.client.view.None? ==> Le(w.shown.value, w.hosts[since].stamp)))
    case Replied => w.client.view.Some?
    case Scanning(todo, current) =>
      && w.client.view.Some? && Le(current.stamp, w.client.view.value.stamp)
      && w.client.view.value.stamp.epoch == current.stamp.epoch
      && FromHost(w, current) && forall r :: r in todo ==> Covered(w, r, current)
    case Writing(write, todo, current) =>
      && w.client.view.Some? && Le(current.stamp, w.client.view.value.stamp)
      && w.client.view.value.stamp.epoch == current.stamp.epoch
      && FromHost(w, current) && (forall r :: r in todo ==> Covered(w, r, current))
      && match write
         case Put(r) => Good(w, r) && !r.accepted
         case Remove(r) => Collectable(w, r.request, current)
  }

  /** Mutations are serialized: at most the record being transmitted is in flight. */
  ghost predicate MutationKept(w: World) {
    var c := w.client;
    match c.mutation
    case NoMutation => c.inFlight == {}
    case SubmitWaits(_, _) => c.inFlight == {} && !c.refresh.NoRefresh?
    case RetryWaits(r) => c.inFlight == {} && r in w.known && !c.refresh.NoRefresh?
    case AskingReceipt(r, since) => c.inFlight == {} && Good(w, r) && c.view.Some? && r.request.Submit?
    case StoringReceipt(r) => c.inFlight == {} && Good(w, r) && c.view.Some? && r.request.Submit? && r.request in w.acks
    case Committing(r) => c.inFlight == {KeyOf(r.request)} && Good(w, r) && c.view.Some?
    case Invoked(r, since) => c.inFlight == {KeyOf(r.request)} && Good(w, r) && c.view.Some?
    case Acknowledged(r) =>
      && c.inFlight == {KeyOf(r.request)} && Good(w, r) && c.view.Some?
      && (r.request.Submit? ==> r.request in w.acks)
    case Rejected(r) => c.inFlight == {KeyOf(r.request)} && Good(w, r) && c.view.Some?
  }

  ghost predicate Inv(w: World) {
    w.hosts != [] && HostsKept(w) && StoreKept(w) && ViewKept(w) && RefreshKept(w) && MutationKept(w)
  }

  // ----- What only grows

  /** The history is never rewritten. */
  ghost predicate Grows(w: World, v: World) {
    && |w.hosts| <= |v.hosts| && (forall i :: 0 <= i < |w.hosts| ==> v.hosts[i] == w.hosts[i])
    && (forall q :: q in w.used ==> q in v.used) && (forall q :: q in w.sent ==> q in v.sent)
    && (forall r :: r in w.known ==> r in v.known)
    && (forall k :: k in w.acks ==> k in v.acks && v.acks[k] == w.acks[k])
    && (w.shown.Some? ==> v.shown.Some? && Le(w.shown.value, v.shown.value))
  }

  lemma GoodGrows(w: World, v: World, r: Record)
    requires Good(w, r) && Grows(w, v)
    ensures Good(v, r)
  {
  }

  lemma GrowsTwice(a: World, b: World, c: World)
    requires Grows(a, b) && Grows(b, c)
    ensures Grows(a, c)
  {
  }

  lemma FromHostGrows(w: World, v: World, s: Snapshot)
    requires Grows(w, v) && FromHost(w, s)
    ensures FromHost(v, s)
  {
    var i :| 0 <= i < |w.hosts| && s == SnapOf(w.hosts[i]);
    assert v.hosts[i] == w.hosts[i];
  }

  lemma CollectableGrows(w: World, v: World, q: Request, current: Snapshot)
    requires Grows(w, v) && Collectable(w, q, current)
    ensures Collectable(v, q, current)
  {
    FromHostGrows(w, v, current);
  }

  /** The refresh stays sound while others act: they leave its place alone and move the view forward
      within its epoch. */
  lemma RefreshStays(w: World, v: World)
    requires RefreshKept(w) && Grows(w, v) && v.client.refresh == w.client.refresh
    requires w.client.view.Some? ==>
               && v.client.view.Some? && v.client.view.value.stamp.epoch == w.client.view.value.stamp.epoch
               && Le(w.client.view.value.stamp, v.client.view.value.stamp)
    requires v.shown.Some? ==> w.shown.Some? && v.shown.value.epoch == w.shown.value.epoch
    requires v.client.view.None? ==> v.shown == w.shown
    ensures RefreshKept(v)
  {
    hide Collectable, FromHost;
    match w.client.refresh
    case Scanning(todo, current) => FromHostGrows(w, v, current);
    case Writing(write, todo, current) =>
      FromHostGrows(w, v, current);
      if write.Remove? {
        CollectableGrows(w, v, write.record.request, current);
      }
    case _ =>
  }

  lemma MutationStays(w: World, v: World)
    requires MutationKept(w) && Grows(w, v) && v.client.mutation == w.client.mutation
    requires w.client.view.Some? ==> v.client.view.Some?
    requires w.client.inFlight == v.client.inFlight
    requires !w.client.refresh.NoRefresh? ==> !v.client.refresh.NoRefresh?
    ensures MutationKept(v)
  {
  }

  ghost predicate HistoryKept(w: World) {
    w.hosts != [] && HostsKept(w) && StoreKept(w) && ViewKept(w)
  }

  lemma HostsStay(w: World, v: World)
    requires HostsKept(w) && Grows(w, v) && v.hosts == w.hosts && v.sent == w.sent
    ensures HostsKept(v)
  {
    forall i, t | 0 <= i < |v.hosts| && t in v.hosts[i].entries ensures Holds(v, v.hosts[i], t) {
      assert Holds(w, w.hosts[i], t);
    }
  }

  lemma ViewStays(w: World, v: World)
    requires ViewKept(w) && Grows(w, v) && v.shown == w.shown && (v.client.view == w.client.view || v.client.view.None?)
    requires w.hosts != [] && Le(w.hosts[|w.hosts| - 1].stamp, v.hosts[|v.hosts| - 1].stamp)
    ensures ViewKept(v)
  {
    hide FromHost;
    if v.client.view.Some? {
      FromHostGrows(w, v, v.client.view.value);
    }
  }

  // ----- The pieces keep the history

  lemma ClientChange(w: World, c: Client)
    requires HistoryKept(w) && (c.view == w.client.view || c.view.None?)
    requires forall k :: k in c.pending ==> c.pending[k] in w.known
    ensures HistoryKept(w.(client := c)) && Grows(w, w.(client := c))
  {
    hide ViewKept, HostsKept;
    KeepsRest(w, w.(client := c));
  }

  lemma StoreKeeps(w: World, r: Record)
    requires HistoryKept(w) && Good(w, r)
    ensures HistoryKept(Store(w, r)) && Grows(w, Store(w, r))
  {
    hide ViewKept, HostsKept;
    KeepsRest(w, Store(w, r));
  }

  lemma KeepsRest(w: World, v: World)
    requires w.hosts != [] && HostsKept(w) && ViewKept(w) && Grows(w, v) && v.hosts == w.hosts && v.sent == w.sent
    requires v.shown == w.shown && (v.client.view == w.client.view || v.client.view.None?)
    ensures HostsKept(v) && ViewKept(v)
  {
    ViewStays(w, v);
    HostsStay(w, v);
  }

  lemma DropKeeps(w: World, k: string)
    requires HistoryKept(w)
    ensures HistoryKept(Drop(w, k)) && Grows(w, Drop(w, k))
  {
    hide ViewKept, HostsKept;
    KeepsRest(w, Drop(w, k));
  }

  lemma ShowLeaves(w: World, s: Snapshot, authoritative: bool)
    ensures var v := Show(w, s, authoritative);
            v == w.(client := w.client.(view := v.client.view), shown := v.shown)
  {
  }

  /** The stamps of a shown snapshot. */
  lemma ShowOrder(w: World, age: nat, authoritative: bool)
    requires age < |w.hosts| && ViewKept(w)
    requires w.client.view.None? && w.shown.Some? ==> Le(w.shown.value, w.hosts[age].stamp)
    requires w.client.view.Some? && authoritative ==> w.client.view.value.stamp.epoch <= w.hosts[age].stamp.epoch
    ensures var v := Show(w, SnapOf(w.hosts[age]), authoritative);
            && v.client.view.Some? && v.shown == Some(v.client.view.value.stamp)
            && (v.client.view.value == SnapOf(w.hosts[age]) || v.client.view == w.client.view)
            && (w.shown.Some? ==> Le(w.shown.value, v.shown.value))
            && (w.client.view.Some? && !authoritative ==>
                 v.client.view.value.stamp.epoch == w.client.view.value.stamp.epoch)
            && (w.hosts[age].stamp.epoch <= v.shown.value.epoch ==> Le(w.hosts[age].stamp, v.shown.value))
  {
    hide FromHost;
  }

  lemma ShowStore(w: World, view: Option<Snapshot>, shown: Stamp)
    requires StoreKept(w) && (w.shown.Some? ==> Le(w.shown.value, shown))
    ensures var v := w.(client := w.client.(view := view), shown := Some(shown)); StoreKept(v) && Grows(w, v)
  {
  }

  /** Showing a host snapshot: the stamp moves forward, across epochs only for a list reply. */
  lemma ShowKeeps(w: World, age: nat, authoritative: bool)
    requires HistoryKept(w) && age < |w.hosts|
    requires w.client.view.None? && w.shown.Some? ==> Le(w.shown.value, w.hosts[age].stamp)
    requires w.client.view.Some? && authoritative ==> w.client.view.value.stamp.epoch <= w.hosts[age].stamp.epoch
    ensures var v := Show(w, SnapOf(w.hosts[age]), authoritative);
            && HistoryKept(v) && Grows(w, v) && v.client.view.Some?
            && (w.client.view.Some? ==> Le(w.client.view.value.stamp, v.client.view.value.stamp))
            && (w.client.view.Some? && !authoritative ==>
                 v.client.view.value.stamp.epoch == w.client.view.value.stamp.epoch)
            && (w.hosts[age].stamp.epoch <= v.shown.value.epoch ==> Le(w.hosts[age].stamp, v.shown.value))
  {
    hide FromHost, HostsKept, StoreKept, Le, Accept, Show, Grows;
    var v := Show(w, SnapOf(w.hosts[age]), authoritative);
    ShowOrder(w, age, authoritative);
    ShowLeaves(w, SnapOf(w.hosts[age]), authoritative);
    ShowStore(w, v.client.view, v.shown.value);
    ShownFromHost(w, age, v.client.view.value);
    FromHostGrows(w, v, v.client.view.value);
    HostsStay(w, v);
  }

  lemma ShownFromHost(w: World, age: nat, s: Snapshot)
    requires HostsKept(w) && age < |w.hosts| && (s == SnapOf(w.hosts[age]) || FromHost(w, s))
    ensures FromHost(w, s) && Le(w.hosts[age].stamp, w.hosts[|w.hosts| - 1].stamp)
  {
  }

  lemma AcksKept(w: World, q: Request, age: nat)
    requires StoreKept(w) && (q !in w.acks ==> AckKept(w.(acks := w.acks[q := age]), q))
    ensures var v := w.(acks := if q in w.acks then w.acks else w.acks[q := age]);
            forall p :: p in v.acks ==> AckKept(v, p)
  {
    hide Le, Good;
  }

  lemma AckKeeps(w: World, r: Record, age: nat)
    requires HistoryKept(w) && Good(w, r) && r.request.Submit? && age < |w.hosts| && w.shown.Some?
    requires r.request.turnId in w.hosts[age].entries
    requires w.hosts[age].stamp.epoch == r.request.epoch ==> Le(w.hosts[age].stamp, w.shown.value)
    ensures HistoryKept(Ack(w, r, age)) && Grows(w, Ack(w, r, age)) && r.request in Ack(w, r, age).acks
  {
    hide ViewKept, HostsKept;
    var v := Ack(w, r, age);
    AcksKept(w, r.request, age);
    assert Grows(w, v);
    KeepsRest(w, v);
  }

  lemma RememberKeeps(w: World)
    requires HistoryKept(w)
    requires w.client.mutation.Committing? ==>
               var q := w.client.mutation.record.request;
               q.Submit? ==> w.shown.Some? && q.epoch <= w.shown.value.epoch
    ensures HistoryKept(Remember(w)) && Grows(w, Remember(w))
  {
    hide ViewKept, HostsKept;
    KeepsRest(w, Remember(w));
  }

  // ----- Every step keeps it

  lemma InitialInv(w: World)
    requires Initial(w)
    ensures Inv(w)
  {
  }

  lemma HostAppended(w: World, h: Host)
    requires HistoryKept(w) && Le(w.hosts[|w.hosts| - 1].stamp, h.stamp)
    requires forall t :: t in h.entries ==> Holds(w, h, t)
    ensures var v := w.(hosts := w.hosts + [h]); HistoryKept(v) && Grows(w, v)
  {
    hide FromHost, Holds;
    var v := w.(hosts := w.hosts + [h]);
    assert Grows(w, v);
    forall i, t | 0 <= i < |v.hosts| && t in v.hosts[i].entries ensures Holds(v, v.hosts[i], t) {
      HoldsGrows(w, v, v.hosts[i], t);
    }
    ViewStays(w, v);
  }

  lemma HoldsGrows(w: World, v: World, h: Host, t: string)
    requires Holds(w, h, t) && Grows(w, v)
    ensures Holds(v, h, t)
  {
  }

  lemma HostStepKeeps(w: World, a: Action)
    requires Inv(w) && Enabled(w, a) && OfHost(a)
    ensures Inv(HostStep(w, a)) && Grows(w, HostStep(w, a))
  {
    hide StoreKept, RefreshKept, ViewKept, MutationKept, Grows;
    var v, h := HostStep(w, a), w.hosts[|w.hosts| - 1];
    if v != w {
      var n := v.hosts[|w.hosts|];
      forall t | t in n.entries ensures Holds(w, n, t) {
        if t in h.entries {
          assert Holds(w, h, t);
        }
      }
      HostAppended(w, n);
      RefreshStays(w, v);
      MutationStays(w, v);
    } else {
      GrowsSelf(w);
    }
  }

  lemma GrowsSelf(w: World)
    ensures Grows(w, w)
  {
  }

  // ----- The refresh

  /** Only the place of the refresh changes; a waiting mutation goes on waiting. */
  lemma RefreshMoves(w: World, at: RefreshAt)
    requires Inv(w) && (at.NoRefresh? ==> !w.client.mutation.SubmitWaits? && !w.client.mutation.RetryWaits?)
    requires RefreshKept(w.(client := w.client.(refresh := at)))
    ensures var v := w.(client := w.client.(refresh := at)); Inv(v) && Grows(w, v)
  {
    hide RefreshKept, ViewKept, HostsKept;
    ClientChange(w, w.client.(refresh := at));
  }

  lemma RefreshStartsKeeps(w: World)
    requires Inv(w) && w.client.refresh.NoRefresh?
    ensures Inv(RefreshStep(w, RefreshStarts)) && Grows(w, RefreshStep(w, RefreshStarts))
  {
    hide MutationKept, StoreKept, Grows;
    RefreshMoves(w, Asked(Now(w)));
  }

  lemma RefreshReplyKeeps(w: World, age: nat)
    requires Inv(w) && Enabled(w, RefreshReply(age))
    ensures Inv(RefreshStep(w, RefreshReply(age))) && Grows(w, RefreshStep(w, RefreshReply(age)))
  {
    hide StoreKept, Show, MutationKept, FromHost;
    var v := Show(w, SnapOf(w.hosts[age]), true);
    assert Le(w.hosts[w.client.refresh.since].stamp, w.hosts[age].stamp);
    ShowKeeps(w, age, true);
    ShowLeaves(w, SnapOf(w.hosts[age]), true);
    PendingKnown(v);
    ClientChange(v, v.client.(refresh := Replied));
    MutationStays(w, v.(client := v.client.(refresh := Replied)));
  }

  lemma RefreshFailedKeeps(w: World)
    requires Inv(w)
    ensures Inv(RefreshFailed(w)) && Grows(w, RefreshFailed(w))
  {
    hide StoreKept, HostsKept, ViewKept;
    var m := w.client.mutation;
    PendingKnown(w);
    var left := if m.SubmitWaits? || m.RetryWaits? then NoMutation else m;
    ClientChange(w, w.client.(refresh := NoRefresh, mutation := left));
  }

  lemma PendingKnown(w: World)
    requires StoreKept(w)
    ensures forall k :: k in w.client.pending ==> w.client.pending[k] in w.known
    ensures forall f: set<string>, k :: k in Pending(w.outbox, f) ==> Pending(w.outbox, f)[k] in w.known
  {
  }

  lemma StoredCovered(w: World, r: Record)
    requires HistoryKept(w) && w.client.view.Some?
    requires KeyOf(r.request) in w.outbox && w.outbox[KeyOf(r.request)] == r
    ensures Covered(w, r, w.client.view.value)
  {
    assert r in w.known && Good(w, r);
    if r.request.Submit? && r.accepted {
      assert AckKept(w, r.request);
    }
  }

  lemma RefreshListsKeeps(w: World, records: seq<Record>)
    requires Inv(w) && Enabled(w, RefreshLists(records))
    ensures Inv(RefreshStep(w, RefreshLists(records))) && Grows(w, RefreshStep(w, RefreshLists(records)))
  {
    hide MutationKept, StoreKept, Covered, FromHost, HostsKept, Grows;
    var v := w.(client := w.client.(refresh := Scanning(records, w.client.view.value)));
    FromHostSame(w, v, w.client.view.value);
    forall r | r in records ensures Covered(v, r, w.client.view.value) {
      StoredCovered(w, r);
      CoveredSame(w, v, r, w.client.view.value);
    }
    RefreshMoves(w, Scanning(records, w.client.view.value));
  }

  lemma FromHostSame(w: World, v: World, s: Snapshot)
    requires FromHost(w, s) && v.hosts == w.hosts
    ensures FromHost(v, s)
  {
  }

  lemma CoveredSame(w: World, v: World, r: Record, s: Snapshot)
    requires Covered(w, r, s) && v.hosts == w.hosts && v.known == w.known && v.acks == w.acks
    ensures Covered(v, r, s)
  {
  }

  /** The collection loop removes only what an acknowledgement and a snapshot allow. */
  lemma CollectAllowed(w: World, r: Record, inFlight: set<string>, current: Snapshot)
    requires HistoryKept(w) && Covered(w, r, current) && FromHost(w, current)
    ensures match Collect(r, inFlight, current)
            case Some(Put(q)) => Good(w, q) && !q.accepted
            case Some(Remove(q)) => q == r && r.request.Submit? && Collectable(w, r.request, current)
            case None => true
  {
    hide FromHost;
    assert Good(w, r);
    if r.request in w.acks {
      assert AckKept(w, r.request);
    }
  }

  lemma RefreshVisitsKeeps(w: World)
    requires Inv(w) && Enabled(w, RefreshVisits)
    ensures Inv(RefreshStep(w, RefreshVisits)) && Grows(w, RefreshStep(w, RefreshVisits))
  {
    hide MutationKept, HostsKept, StoreKept, ViewKept, Covered, FromHost, Collectable, Collect, Grows;
    var at := w.client.refresh;
    CollectAllowed(w, at.todo[0], w.client.inFlight, at.current);
    var op := Collect(at.todo[0], w.client.inFlight, at.current);
    var next := if op.None? then Scanning(at.todo[1..], at.current) else Writing(op.value, at.todo[1..], at.current);
    var v := w.(client := w.client.(refresh := next));
    FromHostSame(w, v, at.current);
    forall r | r in at.todo[1..] ensures Covered(v, r, at.current) {
      CoveredSame(w, v, r, at.current);
    }
    if op.Some? && op.value.Remove? {
      CollectableSame(w, v, op.value.record.request, at.current);
    }
    RefreshMoves(w, next);
  }

  lemma CollectableSame(w: World, v: World, q: Request, current: Snapshot)
    requires Collectable(w, q, current)
    requires v.hosts == w.hosts && v.acks == w.acks && v.used == w.used && v.shown == w.shown
    ensures Collectable(v, q, current)
  {
  }

  lemma RefreshWritesKeeps(w: World, ok: bool)
    requires Inv(w) && Enabled(w, RefreshWrites(ok))
    ensures Inv(RefreshStep(w, RefreshWrites(ok))) && Grows(w, RefreshStep(w, RefreshWrites(ok)))
  {
    hide MutationKept, StoreKept, ViewKept, HostsKept, Covered, FromHost, Collectable, Grows, Store, Drop;
    if !ok {
      RefreshFailedKeeps(w);
    } else {
      var at := w.client.refresh;
      var v := w.(client := w.client.(refresh := Scanning(at.todo, at.current)));
      FromHostSame(w, v, at.current);
      forall r | r in at.todo ensures Covered(v, r, at.current) {
        CoveredSame(w, v, r, at.current);
      }
      RefreshMoves(w, Scanning(at.todo, at.current));
      WriteKeeps(v, at.write);
      GrowsTwice(w, v, RefreshStep(w, RefreshWrites(ok)));
    }
  }

  function Written(w: World, op: Write): World {
    if op.Put? then Store(w, op.record) else Drop(w, KeyOf(op.record.request))
  }

  lemma DismissKeeps(w: World, k: string)
    requires Inv(w)
    ensures Inv(Drop(w, k)) && Grows(w, Drop(w, k))
  {
    hide RefreshKept, MutationKept, HostsKept, StoreKept, ViewKept, Grows;
    DropKeeps(w, k);
    Stays(w, Drop(w, k));
  }

  /** A storage operation that is not part of a mutation. */
  lemma WriteKeeps(w: World, op: Write)
    requires Inv(w) && (op.Put? ==> Good(w, op.record))
    ensures var v := Written(w, op); Inv(v) && Grows(w, v)
  {
    hide RefreshKept, MutationKept, HostsKept, StoreKept, ViewKept, Grows;
    var v := Written(w, op);
    if op.Put? {
      StoreKeeps(w, op.record);
    } else {
      DropKeeps(w, KeyOf(op.record.request));
    }
    Stays(w, v);
  }

  /** A step that leaves the client alone, and the newest stamp shown. */
  lemma Stays(w: World, v: World)
    requires Inv(w) && HistoryKept(v) && Grows(w, v) && v.client == w.client && v.shown == w.shown
    ensures Inv(v)
  {
    hide RefreshKept, MutationKept, HostsKept, StoreKept, ViewKept;
    RefreshStays(w, v);
    MutationStays(w, v);
  }

  /** The stored epoch of a submit is one the client has seen. */
  lemma SeenEpoch(w: World, r: Record)
    requires StoreKept(w) && Good(w, r)
    ensures r.request.Submit? ==> w.shown.Some? && r.request.epoch <= w.shown.value.epoch
  {
  }

  lemma RetryFromKeeps(w: World, r: Record, epoch: nat)
    requires HistoryKept(w) && RefreshKept(w) && r in w.known && w.client.view.Some? && w.client.inFlight == {}
    ensures var v := w.(client := RetryFrom(w.client, r, epoch, Now(w)));
            Inv(Remember(v)) && Grows(w, Remember(v)) && Remember(v).shown == w.shown
  {
    hide HostsKept, ViewKept, RefreshKept;
    var c := RetryFrom(w.client, r, epoch, Now(w));
    var v := w.(client := c);
    ClientChange(w, c);
    assert Good(w, r) && Good(v, r);
    SeenEpoch(w, r);
    RememberKeeps(v);
    GrowsTwice(w, v, Remember(v));
    RefreshStays(w, Remember(v));
  }

  /** A request committed for the first time. */
  lemma BeginKeeps(w: World, r: Record)
    requires HistoryKept(w) && RefreshKept(w) && w.client.view.Some? && w.client.inFlight == {}
    requires r.request.Submit? && r.accepted ==> r.request in w.acks
    requires r.request.Submit? ==> w.shown.Some? && r.request.epoch <= w.shown.value.epoch
    ensures var v := Remember(w.(client := Begin(w.client, r))); Inv(v) && Grows(w, v) && v.shown == w.shown
  {
    hide HostsKept, ViewKept, RefreshKept;
    var v := w.(client := Begin(w.client, r));
    PendingKnown(w);
    ClientChange(w, v.client);
    RememberKeeps(v);
    GrowsTwice(w, v, Remember(v));
    RefreshStays(w, Remember(v));
  }

  /** A mutation under way stays, and its request is already remembered. */
  lemma NoContinuation(w: World, v: World)
    requires Inv(w) && HistoryKept(v) && RefreshKept(v) && Grows(w, v)
    requires v.client == w.client.(refresh := v.client.refresh, pending := v.client.pending)
    requires !w.client.mutation.SubmitWaits? && !w.client.mutation.RetryWaits? && v.used == w.used
    ensures Inv(v) && Remember(v) == v
  {
    hide HostsKept, StoreKept, ViewKept, RefreshKept;
    if v.client.mutation.Committing? {
      var r := v.client.mutation.record;
      assert v.used + {r.request} == v.used;
    }
  }

  lemma RefreshDoneKeeps(w: World, previous: Option<Record>, freshId: string)
    requires Inv(w) && Enabled(w, RefreshDone(previous, freshId))
    ensures Inv(RefreshStep(w, RefreshDone(previous, freshId)))
    ensures Grows(w, RefreshStep(w, RefreshDone(previous, freshId)))
  {
    hide HostsKept, StoreKept, Grows, Remember, RetryFrom, Pending, FromHost, Covered;
    var current, m := w.client.refresh.current, w.client.mutation;
    var c := w.client.(refresh := NoRefresh, pending := Pending(w.outbox, w.client.inFlight));
    var v := w.(client := c);
    PendingKnown(w);
    ClientChange(w, c);
    match m
    case SubmitWaits(payload, requested) =>
      if previous.Some? {
        RetryFromKeeps(v, previous.value, current.stamp.epoch);
      } else {
        BeginKeeps(v, NewSubmit(current.stamp.epoch, payload, requested, freshId));
      }
      GrowsTwice(w, v, RefreshStep(w, RefreshDone(previous, freshId)));
    case RetryWaits(r) =>
      RetryFromKeeps(v, r, current.stamp.epoch);
      GrowsTwice(w, v, RefreshStep(w, RefreshDone(previous, freshId)));
    case _ =>
      NoContinuation(w, v);
  }

  lemma RefreshStepKeeps(w: World, a: Action)
    requires Inv(w) && Enabled(w, a) && OfRefresh(a)
    ensures Inv(RefreshStep(w, a)) && Grows(w, RefreshStep(w, a))
  {
    hide Inv, Grows, Show, Remember, Continue, Store, Drop, Collect;
    match a
    case RefreshStarts => RefreshStartsKeeps(w);
    case RefreshReply(age) => RefreshReplyKeeps(w, age);
    case RefreshFails => RefreshFailedKeeps(w);
    case RefreshLists(records) => RefreshListsKeeps(w, records);
    case RefreshVisits => RefreshVisitsKeeps(w);
    case RefreshWrites(ok) => RefreshWritesKeeps(w, ok);
    case RefreshDone(previous, freshId) => RefreshDoneKeeps(w, previous, freshId);
  }

  // ----- The calls, the mutation and the rest

  lemma CallStepKeeps(w: World, a: Action)
    requires Inv(w) && Enabled(w, a) && OfCall(a)
    ensures Inv(CallStep(w, a)) && Grows(w, CallStep(w, a))
  {
    hide HostsKept, StoreKept, ViewKept, FromHost, Covered, Remember;
    PendingKnown(w);
    if a.ActCalled? {
      ActCalledKeeps(w, a.record, a.epoch);
    } else {
      var c := if w.client.refresh.NoRefresh? then w.client.(refresh := Asked(Now(w))) else w.client;
      var v := w.(client := c);
      if w.client.refresh.NoRefresh? {
        RefreshStartsKeeps(w);
      } else {
        GrowsSelf(w);
      }
      var d := c.(mutation := if a.SubmitCalled? then SubmitWaits(a.payload, a.requested) else RetryWaits(a.record));
      ClientChange(v, d);
      RefreshStays(v, v.(client := d));
      GrowsTwice(w, v, v.(client := d));
    }
  }

  lemma ActCalledKeeps(w: World, r: Record, epoch: nat)
    requires Inv(w) && Enabled(w, ActCalled(r, epoch))
    ensures var v := Remember(w.(client := RetryFrom(w.client, r, epoch, Now(w)))); Inv(v) && Grows(w, v)
  {
    hide HostsKept, StoreKept, ViewKept, RefreshKept;
    var v := w.(client := w.client.(mutation := NoMutation));
    if r.request.epoch == epoch {
      BeginKeeps(w, r);
    } else {
      PendingKnown(w);
      ClientChange(w, v.client);
      RefreshStays(w, v);
    }
  }

  /** A snapshot for an epoch seen before is shown unless a newer one is. */
  lemma ShowReplyKeeps(w: World, age: nat)
    requires Inv(w) && age < |w.hosts| && w.client.view.Some?
    requires w.hosts[age].stamp.epoch <= w.shown.value.epoch
    ensures var v := Show(w, SnapOf(w.hosts[age]), false);
            && HistoryKept(v) && RefreshKept(v) && Grows(w, v) && Le(w.hosts[age].stamp, v.shown.value)
            && v == w.(client := w.client.(view := v.client.view), shown := v.shown) && v.client.view.Some?
  {
    hide StoreKept, HostsKept, RefreshKept, FromHost, Show, Grows;
    var v := Show(w, SnapOf(w.hosts[age]), false);
    ShowKeeps(w, age, false);
    ShowLeaves(w, SnapOf(w.hosts[age]), false);
    RefreshStays(w, v);
  }

  lemma AckReplyKeeps(w: World, r: Record, age: nat)
    requires Inv(w) && Good(w, r) && r.request.Submit? && age < |w.hosts| && w.client.view.Some?
    requires r.request.turnId in w.hosts[age].entries
    ensures var v := Ack(Show(w, SnapOf(w.hosts[age]), false), r, age);
            && HistoryKept(v) && RefreshKept(v) && Grows(w, v) && r.request in v.acks
            && v == w.(client := w.client.(view := v.client.view), shown := v.shown, acks := v.acks)
               && v.client.view.Some?
  {
    hide HostsKept, RefreshKept, ViewKept, Show;
    SeenEpoch(w, r);
    if w.hosts[age].stamp.epoch == r.request.epoch {
      ShowReplyKeeps(w, age);
    } else {
      ShowActReplyKeeps(w, age);
    }
    var u := Show(w, SnapOf(w.hosts[age]), false);
    AckKeeps(u, r, age);
    var v := Ack(u, r, age);
    GrowsTwice(w, u, v);
    RefreshStays(u, v);
  }

  /** The mutation moves on. */
  lemma MutationMoves(w: World, c: Client)
    requires HistoryKept(w) && RefreshKept(w) && c.view == w.client.view && c.refresh == w.client.refresh
    requires forall k :: k in c.pending ==> c.pending[k] in w.known
    requires MutationKept(w.(client := c))
    ensures var v := w.(client := c); Inv(v) && Grows(w, v)
  {
    hide HostsKept, StoreKept, ViewKept, RefreshKept, MutationKept;
    ClientChange(w, c);
    RefreshStays(w, w.(client := c));
  }

  lemma ReceiptReplyKeeps(w: World, age: nat)
    requires Inv(w) && Enabled(w, ReceiptReply(age))
    ensures Inv(MutationStep(w, ReceiptReply(age))) && Grows(w, MutationStep(w, ReceiptReply(age)))
  {
    hide HostsKept, StoreKept, ViewKept, RefreshKept, Show, Ack, Grows;
    var r := w.client.mutation.record;
    if KeyOf(r.request) in w.hosts[age].entries {
      AckReplyKeeps(w, r, age);
      var v := Ack(Show(w, SnapOf(w.hosts[age]), false), r, age);
      PendingKnown(v);
      GoodGrows(w, v, r);
      MutationMoves(v, v.client.(mutation := StoringReceipt(r)));
      GrowsTwice(w, v, MutationStep(w, ReceiptReply(age)));
    } else {
      SeenEpoch(w, r);
      BeginKeeps(w, r);
    }
  }

  /** The end of transmit. */
  lemma EndedKeeps(w: World, r: Record)
    requires HistoryKept(w) && RefreshKept(w) && w.client.inFlight == {KeyOf(r.request)}
    ensures Inv(Ended(w, r)) && Grows(w, Ended(w, r))
  {
    hide HostsKept, StoreKept, ViewKept, RefreshKept, Pending;
    PendingKnown(w);
    MutationMoves(w, Finish(w.client, w.outbox, r));
  }

  lemma RequestReplyKeeps(w: World, age: nat)
    requires Inv(w) && Enabled(w, RequestReply(age))
    ensures Inv(MutationStep(w, RequestReply(age))) && Grows(w, MutationStep(w, RequestReply(age)))
  {
    hide HostsKept, StoreKept, RefreshKept, Show, Ack, Grows, Ended, FromHost;
    var r, h := w.client.mutation.record, w.hosts[age];
    var v := Show(w, SnapOf(h), false);
    if h.stamp.epoch != r.request.epoch || (r.request.Submit? && r.request.turnId !in h.entries) {
      EndedKeeps(w, r);
    } else {
      if r.request.Submit? {
        AckReplyKeeps(w, r, age);
        v := Ack(v, r, age);
      } else {
        ShowActReplyKeeps(w, age);
      }
      PendingKnown(v);
      GoodGrows(w, v, r);
      MutationMoves(v, v.client.(mutation := Acknowledged(r)));
      GrowsTwice(w, v, MutationStep(w, RequestReply(age)));
    }
  }

  /** The reply to an action may be for an epoch the view does not have; then it is not shown. */
  lemma ShowActReplyKeeps(w: World, age: nat)
    requires Inv(w) && age < |w.hosts| && w.client.view.Some?
    ensures var v := Show(w, SnapOf(w.hosts[age]), false);
            && HistoryKept(v) && RefreshKept(v) && Grows(w, v)
            && v == w.(client := w.client.(view := v.client.view), shown := v.shown) && v.client.view.Some?
  {
    hide StoreKept, HostsKept, RefreshKept, FromHost, Show, Grows;
    ShowKeeps(w, age, false);
    ShowLeaves(w, SnapOf(w.hosts[age]), false);
    RefreshStays(w, Show(w, SnapOf(w.hosts[age]), false));
  }

  lemma CommitKeeps(w: World, ok: bool)
    requires Inv(w) && Enabled(w, RequestCommitted(ok))
    ensures Inv(MutationStep(w, RequestCommitted(ok))) && Grows(w, MutationStep(w, RequestCommitted(ok)))
  {
    hide HostsKept, StoreKept, ViewKept, RefreshKept, Grows, Ended, Pending, Store;
    var r := w.client.mutation.record;
    if ok {
      WriteKeeps(w, Put(r));
      var v := Store(w, r);
      StoreLeaves(w, r);
      SentKeeps(v, r.request);
      var u := v.(sent := v.sent + {r.request});
      PendingKnown(u);
      GoodGrows(w, v, r);
      MutationMoves(u, u.client.(mutation := Invoked(r, Now(w)), pending := Pending(u.outbox, u.client.inFlight)));
      GrowsTwice(w, v, u);
      GrowsTwice(w, u, MutationStep(w, RequestCommitted(ok)));
    } else {
      EndedKeeps(w, r);
    }
  }

  lemma StoreLeaves(w: World, r: Record)
    ensures Store(w, r) == w.(outbox := Store(w, r).outbox, known := Store(w, r).known)
    ensures Drop(w, KeyOf(r.request)) == w.(outbox := Drop(w, KeyOf(r.request)).outbox)
  {
  }

  lemma SentKeeps(w: World, q: Request)
    requires HistoryKept(w) && RefreshKept(w) && q in w.used
    ensures var v := w.(sent := w.sent + {q}); HistoryKept(v) && RefreshKept(v) && Grows(w, v)
  {
    hide RefreshKept, FromHost, Holds;
    var v := w.(sent := w.sent + {q});
    assert Grows(w, v);
    forall i, t | 0 <= i < |v.hosts| && t in v.hosts[i].entries ensures Holds(v, v.hosts[i], t) {
      HoldsGrows(w, v, v.hosts[i], t);
    }
    ViewStays(w, v);
    RefreshStays(w, v);
  }

  lemma ReceiptStoredKeeps(w: World, ok: bool)
    requires Inv(w) && Enabled(w, ReceiptStored(ok))
    ensures Inv(MutationStep(w, ReceiptStored(ok))) && Grows(w, MutationStep(w, ReceiptStored(ok)))
  {
    hide HostsKept, StoreKept, ViewKept, RefreshKept, Grows, Pending, Store;
    var r := w.client.mutation.record.(accepted := true);
    PendingKnown(w);
    if ok {
      WriteKeeps(w, Put(r));
      var v := Store(w, r);
      StoreLeaves(w, r);
      PendingKnown(v);
      MutationMoves(v, v.client.(mutation := NoMutation, pending := Pending(v.outbox, v.client.inFlight)));
      GrowsTwice(w, v, MutationStep(w, ReceiptStored(ok)));
    } else {
      MutationMoves(w, w.client.(mutation := NoMutation));
    }
  }

  lemma OutcomeStoredKeeps(w: World, ok: bool)
    requires Inv(w) && Enabled(w, OutcomeStored(ok))
    ensures Inv(MutationStep(w, OutcomeStored(ok))) && Grows(w, MutationStep(w, OutcomeStored(ok)))
  {
    hide HostsKept, StoreKept, ViewKept, RefreshKept, Grows, Ended, Store, Drop;
    var r := w.client.mutation.record;
    var op := if w.client.mutation.Acknowledged? && r.request.Submit? then Put(r.(accepted := true)) else Remove(r);
    var v := if !ok then w else Written(w, op);
    if ok {
      WriteKeeps(w, op);
    } else {
      GrowsSelf(w);
    }
    StoreLeaves(w, r.(accepted := true));
    EndedKeeps(v, r);
    GrowsTwice(w, v, Ended(v, r));
  }

  lemma MutationStepKeeps(w: World, a: Action)
    requires Inv(w) && Enabled(w, a) && OfMutation(a)
    ensures Inv(MutationStep(w, a)) && Grows(w, MutationStep(w, a))
  {
    hide HostsKept, StoreKept, ViewKept, RefreshKept, Grows, Ended, Store, Drop, Show, Ack, Begin;
    match a
    case ReceiptReply(age) => ReceiptReplyKeeps(w, age);
    case ReceiptStored(ok) => ReceiptStoredKeeps(w, ok);
    case RequestCommitted(ok) => CommitKeeps(w, ok);
    case RequestReply(age) => RequestReplyKeeps(w, age);
    case RequestRejected =>
      PendingKnown(w);
      MutationMoves(w, w.client.(mutation := Rejected(w.client.mutation.record)));
    case MutationFails =>
      if w.client.mutation.AskingReceipt? {
        PendingKnown(w);
        MutationMoves(w, w.client.(mutation := NoMutation));
      } else {
        EndedKeeps(w, w.client.mutation.record);
      }
    case OutcomeStored(ok) => OutcomeStoredKeeps(w, ok);
  }

  lemma CrashKeeps(w: World)
    requires Inv(w)
    ensures Inv(w.(client := NEW_CLIENT)) && Grows(w, w.(client := NEW_CLIENT))
  {
    hide HostsKept, StoreKept, ViewKept;
    ClientChange(w, NEW_CLIENT);
  }

  lemma UserStepKeeps(w: World, a: Action)
    requires Inv(w) && Enabled(w, a)
    requires !OfHost(a) && !OfRefresh(a) && !OfCall(a) && !OfMutation(a)
    ensures Inv(UserStep(w, a)) && Grows(w, UserStep(w, a))
  {
    hide HostsKept, StoreKept, ViewKept, RefreshKept, MutationKept, Grows, Store, Drop, Show, Pending;
    match a
    case Crash => CrashKeeps(w);
    case Publish =>
      PendingKnown(w);
      var c := w.client.(pending := Pending(w.outbox, w.client.inFlight));
      PublishKeeps(w);
      MutationMoves(w, c);
    case Observed(age) =>
      ShowActReplyKeeps(w, age);
      MutationStays(w, Show(w, SnapOf(w.hosts[age]), false));
    case RestorePrepared(r) => RestoreKeeps(w, r);
    case Dismissed(key) => DismissKeeps(w, key);
  }

  lemma PublishKeeps(w: World)
    requires Inv(w)
    ensures MutationKept(w.(client := w.client.(pending := Pending(w.outbox, w.client.inFlight))))
  {
    hide HostsKept, StoreKept, ViewKept, RefreshKept, Pending;
  }

  lemma RestoreKeeps(w: World, r: Record)
    requires Inv(w) && r in w.known
    ensures Inv(Store(w, r.(restoreIntent := true))) && Grows(w, Store(w, r.(restoreIntent := true)))
  {
    hide HostsKept, ViewKept, RefreshKept, MutationKept, Grows, Store;
    assert Good(w, r);
    WriteKeeps(w, Put(r.(restoreIntent := true)));
  }

  lemma StepKeeps(w: World, a: Action)
    requires Inv(w) && Enabled(w, a)
    ensures Inv(Step(w, a)) && Grows(w, Step(w, a))
  {
    hide Inv, Enabled, Grows, HostStep, RefreshStep, CallStep, MutationStep, UserStep, OfHost, OfRefresh, OfCall;
    hide OfMutation;
    if OfHost(a) {
      HostStepKeeps(w, a);
    } else if OfRefresh(a) {
      RefreshStepKeeps(w, a);
    } else if OfCall(a) {
      CallStepKeeps(w, a);
    } else if OfMutation(a) {
      MutationStepKeeps(w, a);
    } else {
      UserStepKeeps(w, a);
    }
  }

  // ----- Runs

  ghost predicate IsRun(ws: seq<World>, actions: seq<Action>) {
    && |ws| == |actions| + 1 && Initial(ws[0])
    && forall i :: 0 <= i < |actions| ==>
         ws[i].hosts != [] && Enabled(ws[i], actions[i]) && ws[i + 1] == Step(ws[i], actions[i])
  }

  lemma {:induction false} RunKeeps(ws: seq<World>, actions: seq<Action>, n: nat)
    requires IsRun(ws, actions) && n < |ws|
    ensures Inv(ws[n])
  {
    hide Inv, Enabled, Step, Grows, Initial;
    if n == 0 {
      InitialInv(ws[0]);
    } else {
      RunKeeps(ws, actions, n - 1);
      StepKeeps(ws[n - 1], actions[n - 1]);
    }
  }

  lemma {:induction false} RunGrows(ws: seq<World>, actions: seq<Action>, i: nat, j: nat)
    requires IsRun(ws, actions) && i <= j < |ws|
    ensures Grows(ws[i], ws[j])
    decreases j - i
  {
    hide Inv, Enabled, Step, Grows, Initial;
    if i == j {
      GrowsSelf(ws[i]);
    } else {
      RunGrows(ws, actions, i, j - 1);
      RunKeeps(ws, actions, j - 1);
      StepKeeps(ws[j - 1], actions[j - 1]);
      GrowsTwice(ws[i], ws[j - 1], ws[j]);
    }
  }
}
