/** Concrete runs of the outbox that end where its guarantees end. */
module DialogQueueExamples {
  import opened Wrappers
  import opened DialogQueue
  import opened DialogQueueSafety
  import opened DialogQueueTheorems

  const P: Payload := Payload("hello", [])
  const Q: Request := Submit(0, "a", P)
  const UNACCEPTED: Record := Record(Q, false, false)
  const ACCEPTED: Record := Record(Q, true, false)
  const TO_EDIT: Record := Record(Q, true, true)
  const H0: Host := Host(Stamp(0, 0), map[], {})
  const H1: Host := Host(Stamp(0, 1), map["a" := Q], {"a"})

  const START: World := World(NEW_CLIENT, map[], [H0], {}, {}, {}, map[], None)

  /** A finite run, by its last state. */
  ghost predicate Reaches(w: World) {
    exists ws: seq<World>, actions: seq<Action> :: IsRun(ws, actions) && ws[|actions|] == w
  }

  lemma Begins()
    ensures Reaches(START)
  {
    assert IsRun([START], []);
  }

  lemma Goes(w: World, a: Action, v: World)
    requires Reaches(w) && w.hosts != [] && Enabled(w, a) && v == Step(w, a)
    ensures Reaches(v)
  {
    hide Enabled, Step, Initial;
    var ws: seq<World>, actions: seq<Action> :| IsRun(ws, actions) && ws[|actions|] == w;
    assert IsRun(ws + [v], actions + [a]) && (ws + [v])[|actions| + 1] == v;
  }

  const S0: Snapshot := Snapshot(Stamp(0, 0), {})
  const S1: Snapshot := Snapshot(Stamp(0, 1), {"a"})

  // ----- A refresh, step by step

  lemma Starts(w: World)
    requires Reaches(w) && w.hosts != [] && w.client.refresh.NoRefresh?
    ensures Reaches(w.(client := w.client.(refresh := Asked(|w.hosts| - 1))))
  {
    hide Reaches;
    Goes(w, RefreshStarts, w.(client := w.client.(refresh := Asked(|w.hosts| - 1))));
  }

  lemma Replies(w: World, age: nat)
    requires Reaches(w) && w.client.refresh.Asked? && w.client.refresh.since <= age < |w.hosts|
    requires Accept(w.client.view, SnapOf(w.hosts[age]), true) == Some(SnapOf(w.hosts[age]))
    ensures Reaches(w.(client := w.client.(view := Some(SnapOf(w.hosts[age])), refresh := Replied),
                       shown := Some(w.hosts[age].stamp)))
  {
    hide Reaches, Accept;
    var v := w.(client := w.client.(view := Some(SnapOf(w.hosts[age])), refresh := Replied),
        shown := Some(w.hosts[age].stamp));
    Goes(w, RefreshReply(age), v);
  }

  lemma Lists(w: World, records: seq<Record>)
    requires Reaches(w) && w.hosts != [] && w.client.refresh.Replied? && w.client.view.Some?
    requires Enabled(w, RefreshLists(records))
    ensures Reaches(w.(client := w.client.(refresh := Scanning(records, w.client.view.value))))
  {
    hide Reaches, Enabled;
    Goes(w, RefreshLists(records), w.(client := w.client.(refresh := Scanning(records, w.client.view.value))));
  }

  lemma VisitsLast(w: World, r: Record)
    requires Reaches(w) && w.hosts != [] && w.client.refresh.Scanning? && w.client.refresh.todo == [r]
    ensures var c := w.client;
            var op := Collect(r, c.inFlight, c.refresh.current);
            Reaches(w.(client := c.(refresh := if op.None? then Scanning([], c.refresh.current)
                                               else Writing(op.value, [], c.refresh.current))))
  {
    hide Reaches, Collect;
    var c := w.client;
    var op := Collect(r, c.inFlight, c.refresh.current);
    assert c.refresh.todo[1..] == [];
    Goes(w, RefreshVisits, w.(client := c.(refresh := if op.None? then Scanning([], c.refresh.current)
                                                      else Writing(op.value, [], c.refresh.current))));
  }

  /** A whole pass over an outbox of one record, up to the end of its list. */
  lemma Passes(w: World, age: nat, r: Record)
    requires Reaches(w) && w.client.refresh.Asked? && w.client.refresh.since <= age < |w.hosts|
    requires Accept(w.client.view, SnapOf(w.hosts[age]), true) == Some(SnapOf(w.hosts[age]))
    requires w.outbox == map[KeyOf(r.request) := r] && Collect(r, w.client.inFlight, SnapOf(w.hosts[age])) == None
    ensures var s := SnapOf(w.hosts[age]);
            Reaches(w.(client := w.client.(view := Some(s), refresh := Scanning([], s)), shown := Some(s.stamp)))
  {
    hide Reaches, Collect, Accept;
    var s := SnapOf(w.hosts[age]);
    Replies(w, age);
    var v := w.(client := w.client.(view := Some(s), refresh := Replied), shown := Some(s.stamp));
    Lists(v, [r]);
    VisitsLast(v.(client := v.client.(refresh := Scanning([r], s))), r);
  }

  // ----- A message on its way

  /** The message is submitted, stored and on its way. */
  const SENT: World := World(Client(Some(S0), map[], {"a"}, NoRefresh, Invoked(UNACCEPTED, 0)),
                             map["a" := UNACCEPTED], [H0], {Q}, {Q}, {UNACCEPTED}, map[], Some(Stamp(0, 0)))

  lemma SentIsReached()
    ensures Reaches(SENT)
  {
    hide Reaches;
    Begins();
    var w1 := START.(client := Client(None, map[], {}, Asked(0), SubmitWaits(P, "")));
    Goes(START, SubmitCalled(P, ""), w1);
    Replies(w1, 0);
    var w2 := w1.(client := Client(Some(S0), map[], {}, Replied, SubmitWaits(P, "")), shown := Some(Stamp(0, 0)));
    Lists(w2, []);
    var w3 := w2.(client := Client(Some(S0), map[], {}, Scanning([], S0), SubmitWaits(P, "")));
    var w4 := w3.(client := Client(Some(S0), map[], {"a"}, NoRefresh, Committing(UNACCEPTED)), used := {Q});
    assert Pending(w3.outbox, {}) == map[];
    Goes(w3, RefreshDone(None, "a"), w4);
    assert Pending(SENT.outbox, {"a"}) == map[];
    Goes(w4, RequestCommitted(true), SENT);
  }

  lemma Admitted(w: World)
    requires Reaches(w) && w.hosts == [H0] && w.sent == {Q}
    ensures Reaches(w.(hosts := [H0, H1]))
  {
    hide Reaches;
    assert H0.entries["a" := Q] == H1.entries && H0.listed + {"a"} == H1.listed;
    Goes(w, HostAdmits(Q), w.(hosts := [H0, H1]));
  }

  // ----- An edit intent lost to a running collection

  /** The message is accepted by the host and by the outbox. */
  const STORED: World := World(Client(Some(S1), map[], {}, NoRefresh, NoMutation), map["a" := ACCEPTED], [H0, H1], {Q},
                               {Q}, {UNACCEPTED, ACCEPTED}, map[Q := 1], Some(Stamp(0, 1)))

  /** The host has acknowledged, the outbox has yet to note it. */
  const ACKNOWLEDGED: World := World(Client(Some(S1), map[], {"a"}, NoRefresh, Acknowledged(UNACCEPTED)),
                                     map["a" := UNACCEPTED], [H0, H1], {Q}, {Q}, {UNACCEPTED}, map[Q := 1],
                                     Some(Stamp(0, 1)))

  lemma AcknowledgedIsReached()
    ensures Reaches(ACKNOWLEDGED)
  {
    hide Reaches;
    SentIsReached();
    Admitted(SENT);
    Goes(SENT.(hosts := [H0, H1]), RequestReply(1), ACKNOWLEDGED);
  }

  lemma StoredIsReached()
    ensures Reaches(STORED)
  {
    hide Reaches;
    AcknowledgedIsReached();
    assert Pending(map["a" := ACCEPTED], {}) == map[];
    assert {"a"} - {"a"} == {};
    Goes(ACKNOWLEDGED, OutcomeStored(true), STORED);
  }

  const H2: Host := Host(Stamp(0, 2), map["a" := Q], {})
  const S2: Snapshot := Snapshot(Stamp(0, 2), {})

  /** A refresh has listed the record, the host has let go of the message, and the user has secured the
      draft for editing. */
  const PREPARED: World := World(Client(Some(S2), map[], {}, Scanning([ACCEPTED], S2), NoMutation), map["a" := TO_EDIT],
                                 [H0, H1, H2], {Q}, {Q}, {UNACCEPTED, ACCEPTED, TO_EDIT}, map[Q := 1],
                                     Some(Stamp(0, 2)))

  lemma LetGo()
    ensures Reaches(STORED.(hosts := [H0, H1, H2]))
  {
    hide Reaches;
    StoredIsReached();
    Goes(STORED, HostChanges(2, {}), STORED.(hosts := [H0, H1, H2]));
  }

  lemma PreparedIsReached()
    ensures Reaches(PREPARED)
  {
    hide Reaches, Collect;
    LetGo();
    var w1 := STORED.(hosts := [H0, H1, H2]);
    Starts(w1);
    var w2 := w1.(client := Client(Some(S1), map[], {}, Asked(2), NoMutation));
    Replies(w2, 2);
    var w3 := w2.(client := Client(Some(S2), map[], {}, Replied, NoMutation), shown := Some(Stamp(0, 2)));
    Lists(w3, [ACCEPTED]);
    var w4 := w3.(client := Client(Some(S2), map[], {}, Scanning([ACCEPTED], S2), NoMutation));
    Goes(w4, RestorePrepared(ACCEPTED), PREPARED);
  }

  /** The run goes on with two steps of the refresh, and the secured draft is gone. */
  lemma IntentLost()
    ensures Reaches(PREPARED) && PREPARED.outbox["a"].restoreIntent
    ensures exists w: World :: Reaches(w) && w.outbox == map[] && w.hosts == PREPARED.hosts && w.sent == PREPARED.sent
  {
    hide Reaches;
    PreparedIsReached();
    VisitsLast(PREPARED, ACCEPTED);
    var w1 := PREPARED.(client := Client(Some(S2), map[], {}, Writing(Remove(ACCEPTED), [], S2), NoMutation));
    var w2 := w1.(client := Client(Some(S2), map[], {}, Scanning([], S2), NoMutation), outbox := map[]);
    Goes(w1, RefreshWrites(true), w2);
  }

  // ----- A draft displaced by a reused id

  const OTHER: Request := Submit(0, "a", Payload("bye", []))

  /** About to commit a second message under the id of the first. */
  const DISPLACING: World := STORED.(
    client := Client(Some(S1), map[], {"a"}, NoRefresh, Committing(Record(OTHER, false, false))),
    used := {Q, OTHER})

  /** The refresh before the second message has listed nothing. */
  const LISTED: World := STORED.(
    client := Client(Some(S1), map[], {}, Scanning([], S1), SubmitWaits(Payload("bye", []), "a")))

  lemma ListedIsReached()
    ensures Reaches(LISTED)
  {
    hide Reaches;
    StoredIsReached();
    var p := Payload("bye", []);
    var w1 := STORED.(client := Client(Some(S1), map[], {}, Asked(1), SubmitWaits(p, "a")));
    Goes(STORED, SubmitCalled(p, "a"), w1);
    Passes(w1, 1, ACCEPTED);
    assert Pending(LISTED.outbox, {}) == map[];
  }

  lemma DisplacingIsReached()
    ensures Reaches(DISPLACING)
  {
    hide Reaches;
    ListedIsReached();
    Goes(LISTED, RefreshDone(None, "z"), DISPLACING);
  }

  /** The second message asked for the id of the first: the first draft leaves the outbox unseen. */
  lemma DraftDisplaced()
    ensures Reaches(DISPLACING) && Stored(DISPLACING, "a") && ReusedId(DISPLACING, RequestCommitted(true), "a")
    ensures Step(DISPLACING, RequestCommitted(true)).outbox["a"].request == OTHER
  {
    hide Reaches, Pending;
    DisplacingIsReached();
  }

  // ----- A get answered across a change of owner

  const WAITING: map<string, Record> := map["a" := UNACCEPTED]

  /** The submit got no answer; its retry asks for a receipt while another refresh is on its way. */
  const ASKING: World := World(Client(Some(S0), WAITING, {}, Asked(0), AskingReceipt(UNACCEPTED, 0)),
                               WAITING, [H0], {Q}, {Q}, {UNACCEPTED}, map[], Some(Stamp(0, 0)))

  lemma Unanswered()
    ensures Reaches(SENT.(client := Client(Some(S0), WAITING, {}, NoRefresh, NoMutation)))
  {
    hide Reaches;
    SentIsReached();
    assert Pending(WAITING, {}) == WAITING && {"a"} - {"a"} == {};
    Goes(SENT, MutationFails, SENT.(client := Client(Some(S0), WAITING, {}, NoRefresh, NoMutation)));
  }

  lemma AskingIsReached()
    ensures Reaches(ASKING)
  {
    hide Reaches;
    assert Pending(WAITING, {}) == WAITING;
    Unanswered();
    var w1 := SENT.(client := Client(Some(S0), WAITING, {}, NoRefresh, NoMutation));
    var w2 := w1.(client := Client(Some(S0), WAITING, {}, Asked(0), RetryWaits(UNACCEPTED)));
    Goes(w1, RetryCalled(UNACCEPTED), w2);
    Passes(w2, 0, UNACCEPTED);
    var w5 := w2.(client := Client(Some(S0), WAITING, {}, Scanning([], S0), RetryWaits(UNACCEPTED)));
    var w6 := w5.(client := Client(Some(S0), WAITING, {}, NoRefresh, AskingReceipt(UNACCEPTED, 0)));
    Goes(w5, RefreshDone(None, "z"), w6);
    Starts(w6);
  }

  const H3: Host := Host(Stamp(1, 0), map["a" := Q], {})

  lemma OwnerChanges(w: World)
    requires Reaches(w) && w.hosts == [H0, H1]
    ensures Reaches(w.(hosts := [H0, H1, H3]))
  {
    hide Reaches;
    var a, v := HostRestarts(1, 0, {"a"}), w.(hosts := [H0, H1, H3]);
    assert Step(w, a).hosts[2].entries == H3.entries;
    assert Step(w, a).hosts == v.hosts;
    Goes(w, a, v);
  }

  /** The late request was admitted, the owner changed, and the new owner answered the receipt. */
  const RECEIVED: World := ASKING.(
    client := Client(Some(S0), map[], {}, Asked(0), NoMutation), outbox := map["a" := ACCEPTED],
    hosts := [H0, H1, H3], known := {UNACCEPTED, ACCEPTED}, acks := map[Q := 2])

  lemma ReceivedIsReached()
    ensures Reaches(RECEIVED)
  {
    hide Reaches;
    AskingIsReached();
    Admitted(ASKING);
    OwnerChanges(ASKING.(hosts := [H0, H1]));
    var w2 := ASKING.(hosts := [H0, H1, H3]);
    var w3 := w2.(client := Client(Some(S0), WAITING, {}, Asked(0), StoringReceipt(UNACCEPTED)), acks := map[Q := 2]);
    Goes(w2, ReceiptReply(2), w3);
    assert Pending(map["a" := ACCEPTED], {}) == map[];
    Goes(w3, ReceiptStored(true), RECEIVED);
  }

  /** About to remove the record: the older refresh found it accepted and not listed. */
  const REMOVING: World := RECEIVED.(
    client := Client(Some(S0), map[], {}, Writing(Remove(ACCEPTED), [], S0), NoMutation))

  /** The record counts as accepted in an epoch whose last snapshot is older than the admission, and is
      collected, although no host runs or lists the message any more. */
  lemma ForeignReceiptLoses()
    ensures Reaches(REMOVING) && Stored(REMOVING, "a") && ForeignReceipt(REMOVING, RefreshWrites(true), "a")
    ensures Step(REMOVING, RefreshWrites(true)).outbox == map[] && H3.listed == {}
  {
    hide Reaches;
    ReceivedIsReached();
    Replies(RECEIVED, 0);
    var w5 := RECEIVED.(client := Client(Some(S0), map[], {}, Replied, NoMutation));
    Lists(w5, [ACCEPTED]);
    var w6 := w5.(client := Client(Some(S0), map[], {}, Scanning([ACCEPTED], S0), NoMutation));
    VisitsLast(w6, ACCEPTED);
  }

  // ----- A message whose owner is gone

  const H4: Host := Host(Stamp(1, 0), map[], {})
  const S4: Snapshot := Snapshot(Stamp(1, 0), {})

  lemma OwnerGone()
    ensures Reaches(STORED.(hosts := [H0, H1, H4]))
  {
    hide Reaches;
    StoredIsReached();
    var a, v := HostRestarts(1, 0, {}), STORED.(hosts := [H0, H1, H4]);
    assert Step(STORED, a).hosts[2].entries == H4.entries;
    assert Step(STORED, a).hosts == v.hosts;
    Goes(STORED, a, v);
  }

  /** The refresh has asked the new owner and has the old record before it. */
  const COMPARING: World := STORED.(
    client := Client(Some(S4), map[], {}, Scanning([ACCEPTED], S4), NoMutation), hosts := [H0, H1, H4],
    shown := Some(Stamp(1, 0)))

  lemma ComparingIsReached()
    ensures Reaches(COMPARING)
  {
    hide Reaches;
    OwnerGone();
    var w1 := STORED.(hosts := [H0, H1, H4]);
    Starts(w1);
    var w2 := w1.(client := Client(Some(S1), map[], {}, Asked(2), NoMutation));
    Replies(w2, 2);
    var w3 := w2.(client := Client(Some(S4), map[], {}, Replied, NoMutation), shown := Some(Stamp(1, 0)));
    Lists(w3, [ACCEPTED]);
  }

  /** The host had accepted the message and restarts without it: the next refresh stores the draft as not
      accepted and shows it to the user again. */
  lemma OfferedAgain()
    ensures exists w: World :: Reaches(w) && w.hosts == [H0, H1, H4] && w.client.refresh == NoRefresh
                               && w.outbox == w.client.pending == map["a" := UNACCEPTED]
  {
    hide Reaches;
    ComparingIsReached();
    VisitsLast(COMPARING, ACCEPTED);
    assert ACCEPTED.(accepted := false) == UNACCEPTED;
    var w1 := COMPARING.(client := Client(Some(S4), map[], {}, Writing(Put(UNACCEPTED), [], S4), NoMutation));
    var w2 := w1.(client := Client(Some(S4), map[], {}, Scanning([], S4), NoMutation), outbox := WAITING);
    assert STORED.outbox["a" := UNACCEPTED] == WAITING && STORED.known + {UNACCEPTED} == STORED.known;
    Goes(w1, RefreshWrites(true), w2);
    assert Pending(WAITING, {}) == WAITING;
    Goes(w2, RefreshDone(None, "z"), w2.(client := Client(Some(S4), WAITING, {}, NoRefresh, NoMutation)));
  }
}
