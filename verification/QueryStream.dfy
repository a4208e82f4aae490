/** The stream of one SDK query: bounded, ordered, with waiting readers and exactly one end. */
module QueryStream {
  import opened Wrappers

  // ----- State

  datatype Item =
    | Event(sequence: nat, jsonBytes: nat, permission: Option<string>)
    | Result(output: string)

  const MAX_BUFFERED_ITEMS: nat := 1024
  const MAX_BUFFERED_EVENT_BYTES: nat := 1048576

  /** bufferedItemBytes */
  function ItemBytes(item: Item): nat {
    if item.Result? then 0 else item.jsonBytes + 128
  }

  /** How one call of next ended. */
  datatype Answer = Item(item: Item) | Done | Failed

  datatype Settlement = Resolved(output: string) | Rejected

  /** The private fields, then what the outside has seen: the answers to the calls of next in the order
      they were given, what was delivered, how the result promise was settled, the permissions asked for
      and the ones answered. A waiter is the number of its call. */
  datatype Stream = Stream(items: seq<Item>, waiters: seq<nat>, pending: set<string>, lastSequence: nat,
                           terminal: bool, failed: bool, bufferedBytes: int,
                           calls: nat, answers: seq<(nat, Answer)>, delivered: seq<Item>, result: seq<Settlement>,
                           asked: seq<string>, responded: seq<string>)

  const CREATED: Stream := Stream([], [], {}, 0, false, false, 0, 0, [], [], [], [], [])

  // ----- The methods

  function Settle(waiters: seq<nat>, a: Answer): seq<(nat, Answer)> {
    seq(|waiters|, i requires 0 <= i < |waiters| => (waiters[i], a))
  }

  /** #onConnectionFailure; an abort calls it at once. */
  function Fail(s: Stream): Stream {
    if s.terminal then s
    else s.(terminal := true, failed := true, pending := {}, result := s.result + [Rejected],
            answers := s.answers + Settle(s.waiters, Failed), waiters := [])
  }

  predicate Overflows(s: Stream, item: Item) {
    s.waiters == [] && (|s.items| >= MAX_BUFFERED_ITEMS || s.bufferedBytes + ItemBytes(item) > MAX_BUFFERED_EVENT_BYTES)
  }

  /** #push, unless the buffer overflows. */
  function Push(s: Stream, item: Item): Stream {
    if s.waiters != []
    then s.(answers := s.answers + [(s.waiters[0], Answer.Item(item))], waiters := s.waiters[1..],
        delivered := s.delivered + [item])
    else s.(items := s.items + [item], bufferedBytes := s.bufferedBytes + ItemBytes(item))
  }

  function Ask(s: Stream, permission: Option<string>): Stream {
    if permission.None? then s
    else s.(pending := s.pending + {permission.value}, asked := s.asked + [permission.value])
  }

  /** #onEvent. A thrown error ends the connection, and with it the query. */
  function OnEvent(s: Stream, identity: bool, e: Item): Stream
    requires e.Event?
  {
    if !identity || s.terminal || e.sequence != s.lastSequence + 1 then Fail(s)
    else
      var t := s.(lastSequence := e.sequence);
      if e.permission.Some? && e.permission.value in s.pending then Fail(t)
      else
        var u := Ask(t, e.permission);
        if Overflows(u, e) then Fail(u) else Push(u, e)
  }

  /** #onResult */
  function OnResult(s: Stream, identity: bool, output: string): Stream {
    if !identity || s.terminal || Overflows(s, Result(output)) then Fail(s)
    else
      var t := Push(s, Result(output));
      t.(terminal := true, pending := {}, result := t.result + [Resolved(output)],
         answers := t.answers + Settle(t.waiters, Done), waiters := [])
  }

  /** #next */
  function Next(s: Stream): Stream {
    var t := s.(calls := s.calls + 1);
    if s.items != []
    then t.(items := s.items[1..], bufferedBytes := s.bufferedBytes - ItemBytes(s.items[0]),
            answers := s.answers + [(s.calls, Answer.Item(s.items[0]))], delivered := s.delivered + [s.items[0]])
    else if s.failed then t.(answers := s.answers + [(s.calls, Failed)])
    else if s.terminal then t.(answers := s.answers + [(s.calls, Done)])
    else t.(waiters := s.waiters + [s.calls])
  }

  /** respondPermission: the request is used up before the response is looked at. */
  function Respond(s: Stream, id: string, wellFormed: bool): Stream {
    if id !in s.pending then s
    else s.(pending := s.pending - {id}, responded := if wellFormed then s.responded + [id] else s.responded)
  }

  datatype Action =
    | EventArrives(identity: bool, event: Item)
    | ResultArrives(identity: bool, output: string)
    | ConnectionFails
    | NextCalled
    | Responds(id: string, wellFormed: bool)

  function Step(s: Stream, a: Action): Stream
    requires a.EventArrives? ==> a.event.Event?
  {
    match a
    case EventArrives(identity, e) => OnEvent(s, identity, e)
    case ResultArrives(identity, output) => OnResult(s, identity, output)
    case ConnectionFails => Fail(s)
    case NextCalled => Next(s)
    case Responds(id, wellFormed) => Respond(s, id, wellFormed)
  }

  // ----- What every state keeps

  function Bytes(items: seq<Item>): nat {
    if items == [] then 0 else Bytes(items[..|items| - 1]) + ItemBytes(items[|items| - 1])
  }

  /** Events 1, 2, 3, ... in order, then at most the result. */
  predicate InOrder(all: seq<Item>, ended: bool) {
    && (forall i :: 0 <= i < |all| ==> if all[i].Event? then all[i].sequence == i + 1 else ended && i == |all| - 1)
    && (ended ==> |all| > 0 && all[|all| - 1].Result?)
  }

  predicate BufferKept(s: Stream) {
    && (s.waiters != [] ==> s.items == [] && !s.terminal)
    && s.bufferedBytes == Bytes(s.items) <= MAX_BUFFERED_EVENT_BYTES && |s.items| <= MAX_BUFFERED_ITEMS
  }

  predicate OrderKept(s: Stream) {
    && InOrder(s.delivered + s.items, s.terminal && !s.failed)
    && (if s.failed then |s.delivered + s.items| <= s.lastSequence
        else |s.delivered + s.items| == s.lastSequence + if s.terminal then 1 else 0)
  }

  predicate EndKept(s: Stream) {
    && (s.failed ==> s.terminal)
    && (s.terminal ==> s.waiters == [] && s.pending == {})
    && s.result == if !s.terminal then [] else if s.failed then [Rejected]
                   else [Resolved(LastOutput(s.delivered + s.items))]
  }

  function LastOutput(all: seq<Item>): string {
    if all != [] && all[|all| - 1].Result? then all[|all| - 1].output else ""
  }

  /** The calls of next are answered in order: the first ones get the items in order, the others end. */
  predicate AnswersKept(s: Stream) {
    && |s.answers| + |s.waiters| == s.calls && |s.delivered| <= |s.answers|
    && (forall i :: 0 <= i < |s.answers| ==> s.answers[i].0 == i)
    && (forall i :: 0 <= i < |s.waiters| ==> s.waiters[i] == |s.answers| + i)
    && (forall i :: 0 <= i < |s.delivered| ==> s.answers[i].1 == Answer.Item(s.delivered[i]))
    && (forall i :: |s.delivered| <= i < |s.answers| ==> s.answers[i].1 == if s.failed then Failed else Done)
    && (|s.delivered| < |s.answers| ==> s.terminal && s.items == [])
  }

  ghost predicate PermissionsKept(s: Stream) {
    forall id :: multiset(s.responded)[id] + (if id in s.pending then 1 else 0) <= multiset(s.asked)[id]
  }

  ghost predicate Inv(s: Stream) {
    BufferKept(s) && OrderKept(s) && EndKept(s) && AnswersKept(s) && PermissionsKept(s)
  }

  lemma BytesSnoc(items: seq<Item>, x: Item)
    ensures Bytes(items + [x]) == Bytes(items) + ItemBytes(x)
  {
    assert (items + [x])[..|items|] == items;
  }

  lemma {:induction false} BytesHead(items: seq<Item>)
    requires items != []
    ensures Bytes(items) == ItemBytes(items[0]) + Bytes(items[1..])
  {
    if |items| == 1 {
      assert items == [] + [items[0]] && items[1..] == [];
      BytesSnoc([], items[0]);
    } else {
      var front, last := items[..|items| - 1], items[|items| - 1];
      BytesHead(front);
      assert items == front + [last] && items[1..] == front[1..] + [last];
      BytesSnoc(front, last);
      BytesSnoc(front[1..], last);
    }
  }

  lemma FailKeeps(s: Stream)
    requires Inv(s)
    ensures Inv(Fail(s))
  {
    hide Bytes;
  }

  lemma PushKeepsBuffer(s: Stream, item: Item)
    requires BufferKept(s) && !s.terminal && !Overflows(s, item)
    ensures BufferKept(Push(s, item))
  {
    hide Bytes;
    BytesSnoc(s.items, item);
  }

  lemma PushAll(s: Stream, item: Item)
    requires s.waiters != [] ==> s.items == []
    ensures Push(s, item).delivered + Push(s, item).items == s.delivered + s.items + [item]
  {
    assert s.delivered + s.items + [item] == s.delivered + (s.items + [item]);
    if s.waiters != [] {
      assert s.delivered + s.items == s.delivered;
      assert s.delivered + [item] + [] == s.delivered + [item];
    }
  }

  lemma PushKeepsAnswers(s: Stream, item: Item)
    requires AnswersKept(s) && !s.terminal && !s.failed
    ensures AnswersKept(Push(s, item)) && |s.answers| == |s.delivered|
  {
  }

  lemma PermissionAsked(s: Stream, permission: Option<string>)
    requires PermissionsKept(s) && (permission.Some? ==> permission.value !in s.pending)
    ensures PermissionsKept(Ask(s, permission))
  {
    var t := Ask(s, permission);
    forall id ensures multiset(t.responded)[id] + (if id in t.pending then 1 else 0) <= multiset(t.asked)[id] {
      assert multiset(s.responded)[id] + (if id in s.pending then 1 else 0) <= multiset(s.asked)[id];
    }
  }

  lemma EventKeeps(s: Stream, identity: bool, e: Item)
    requires Inv(s) && e.Event?
    ensures Inv(OnEvent(s, identity, e))
  {
    hide BufferKept, AnswersKept, PermissionsKept, Push, Fail, Ask, Overflows;
    if !identity || s.terminal || e.sequence != s.lastSequence + 1 {
      FailKeeps(s);
    } else {
      var t := s.(lastSequence := e.sequence);
      var u := Ask(t, e.permission);
      if e.permission.Some? && e.permission.value in s.pending {
        LateFailKeeps(s, t);
      } else {
        AskKeeps(s, t, e.permission);
        if Overflows(u, e) {
          LateFailKeeps(s, u);
        } else {
          EventPushed(u, e);
        }
      }
    }
  }

  /** The state between taking a sequence number and pushing its item. */
  ghost predicate Between(s: Stream) {
    && BufferKept(s) && AnswersKept(s) && PermissionsKept(s) && EndKept(s) && !s.terminal
    && InOrder(s.delivered + s.items, false) && |s.delivered + s.items| + 1 == s.lastSequence
  }

  lemma SamePermissions(s: Stream, t: Stream)
    requires PermissionsKept(s) && t.pending == s.pending && t.asked == s.asked && t.responded == s.responded
    ensures PermissionsKept(t)
  {
  }

  lemma AskKeeps(s: Stream, t: Stream, permission: Option<string>)
    requires Inv(s) && !s.terminal && t == s.(lastSequence := s.lastSequence + 1)
    requires permission.Some? ==> permission.value !in s.pending
    ensures Between(Ask(t, permission)) && Ask(t, permission).lastSequence == t.lastSequence
  {
    hide Bytes, InOrder, PermissionsKept, AnswersKept;
    PermissionAsked(s, permission);
    SameAnswers(s, Ask(t, permission));
    SamePermissions(Ask(s, permission), Ask(t, permission));
  }

  lemma SameAnswers(s: Stream, t: Stream)
    requires AnswersKept(s) && t.(pending := s.pending, asked := s.asked, lastSequence := s.lastSequence) == s
    ensures AnswersKept(t)
  {
  }

  lemma NothingPending(s: Stream, t: Stream)
    requires PermissionsKept(s) && t.pending == {} && t.asked == s.asked && t.responded == s.responded
    ensures PermissionsKept(t)
  {
    forall x ensures multiset(t.responded)[x] <= multiset(t.asked)[x] {
      assert multiset(s.responded)[x] + (if x in s.pending then 1 else 0) <= multiset(s.asked)[x];
    }
  }

  lemma LateFailKeeps(s: Stream, t: Stream)
    requires Inv(s) && !s.terminal
    requires t == s.(lastSequence := s.lastSequence + 1) || Between(t)
    ensures Inv(Fail(t))
  {
    hide Bytes, InOrder, PermissionsKept;
    if t == s.(lastSequence := s.lastSequence + 1) {
      NothingPending(s, Fail(t));
    } else {
      NothingPending(t, Fail(t));
    }
  }

  lemma EventPushed(s: Stream, e: Item)
    requires Between(s) && e.Event? && e.sequence == s.lastSequence && !Overflows(s, e)
    ensures Inv(Push(s, e))
  {
    hide Bytes;
    PushKeepsBuffer(s, e);
    PushKeepsAnswers(s, e);
    PushAll(s, e);
  }

  lemma ResultEnds(all: seq<Item>, output: string)
    requires InOrder(all, false)
    ensures InOrder(all + [Result(output)], true)
  {
  }

  lemma ResultKeeps(s: Stream, identity: bool, output: string)
    requires Inv(s)
    ensures Inv(OnResult(s, identity, output))
  {
    hide Bytes, Fail, InOrder, PermissionsKept;
    if !identity || s.terminal || Overflows(s, Result(output)) {
      FailKeeps(s);
    } else {
      PushKeepsBuffer(s, Result(output));
      PushKeepsAnswers(s, Result(output));
      PushAll(s, Result(output));
      ResultEnds(s.delivered + s.items, output);
      NothingPending(s, OnResult(s, identity, output));
    }
  }

  lemma NextKeeps(s: Stream)
    requires Inv(s)
    ensures Inv(Next(s))
  {
    hide Bytes, InOrder;
    if s.items != [] {
      BytesHead(s.items);
      assert s.delivered + s.items == s.delivered + [s.items[0]] + s.items[1..];
    }
  }

  lemma RespondKeeps(s: Stream, id: string, wellFormed: bool)
    requires Inv(s)
    ensures Inv(Respond(s, id, wellFormed))
  {
    hide Bytes, InOrder;
    var t := Respond(s, id, wellFormed);
    forall x ensures multiset(t.responded)[x] + (if x in t.pending then 1 else 0) <= multiset(t.asked)[x] {
      assert multiset(s.responded)[x] + (if x in s.pending then 1 else 0) <= multiset(s.asked)[x];
    }
  }

  lemma StepKeeps(s: Stream, a: Action)
    requires Inv(s) && (a.EventArrives? ==> a.event.Event?)
    ensures Inv(Step(s, a))
  {
    hide Inv, OnEvent, OnResult, Fail, Next, Respond;
    match a
    case EventArrives(identity, e) => EventKeeps(s, identity, e);
    case ResultArrives(identity, output) => ResultKeeps(s, identity, output);
    case ConnectionFails => FailKeeps(s);
    case NextCalled => NextKeeps(s);
    case Responds(id, wellFormed) => RespondKeeps(s, id, wellFormed);
  }

  // ----- Runs

  ghost predicate IsRun(ss: seq<Stream>, actions: seq<Action>) {
    && |ss| == |actions| + 1 && ss[0] == CREATED
    && forall i :: 0 <= i < |actions| ==>
         (actions[i].EventArrives? ==> actions[i].event.Event?) && ss[i + 1] == Step(ss[i], actions[i])
  }

  lemma {:induction false} RunKeeps(ss: seq<Stream>, actions: seq<Action>, n: nat)
    requires IsRun(ss, actions) && n < |ss|
    ensures Inv(ss[n])
  {
    hide Step;
    if n > 0 {
      hide Inv;
      RunKeeps(ss, actions, n - 1);
      StepKeeps(ss[n - 1], actions[n - 1]);
    }
  }

  /** The k-th call of next is answered with the k-th event of the host, or with the result if that is
      the (k + 1)-th item; no call gets anything else, and none gets two answers. */
  lemma CallGetsItsItem(ss: seq<Stream>, actions: seq<Action>, n: nat, k: nat)
    requires IsRun(ss, actions) && n < |ss| && k < |ss[n].answers|
    ensures var s, (call, a) := ss[n], ss[n].answers[k];
            && call == k && (forall j :: 0 <= j < |s.answers| && j != k ==> s.answers[j].0 != k)
            && match a
               case Item(item) =>
                 if item.Event? then item.sequence == k + 1 else s.terminal && !s.failed && k == s.lastSequence
               case Done => s.terminal && !s.failed && k > s.lastSequence
               case Failed => s.failed
  {
    hide Step, BufferKept, EndKept, PermissionsKept;
    RunKeeps(ss, actions, n);
    var s := ss[n];
    if k < |s.delivered| {
      assert (s.delivered + s.items)[k] == s.delivered[k];
    }
  }

  /** No call waits once the stream has ended, and the result promise is settled then, exactly once:
      with the output of the last item, or rejected. */
  lemma EndsOnce(ss: seq<Stream>, actions: seq<Action>, n: nat)
    requires IsRun(ss, actions) && n < |ss|
    ensures var s := ss[n];
            && |s.result| == (if s.terminal then 1 else 0)
            && (s.terminal ==> |s.answers| == s.calls)
            && (s.terminal && !s.failed ==>
                  var all := s.delivered + s.items;
                  all != [] && all[|all| - 1].Result? && s.result == [Resolved(all[|all| - 1].output)])
  {
    hide Step, BufferKept, PermissionsKept;
    RunKeeps(ss, actions, n);
  }

  /** A permission is answered at most as often as it was asked for, in every run. */
  lemma AnsweredAtMostOnce(ss: seq<Stream>, actions: seq<Action>, n: nat, id: string)
    requires IsRun(ss, actions) && n < |ss|
    ensures multiset(ss[n].responded)[id] <= multiset(ss[n].asked)[id]
  {
    hide Step, BufferKept, OrderKept, EndKept, AnswersKept;
    RunKeeps(ss, actions, n);
  }

  lemma {:induction false} NotPendingStays(ss: seq<Stream>, actions: seq<Action>, i: nat, j: nat, id: string)
    requires IsRun(ss, actions) && i <= j < |ss| && id !in ss[i].pending
    requires forall k :: i <= k < j && actions[k].EventArrives? ==> actions[k].event.permission != Some(id)
    ensures id !in ss[j].pending && multiset(ss[j].responded)[id] == multiset(ss[i].responded)[id]
    decreases j - i
  {
    hide Step;
    if i < j {
      NotPendingStays(ss, actions, i, j - 1, id);
      NotPendingStep(ss[j - 1], actions[j - 1], id);
    }
  }

  lemma NotPendingStep(s: Stream, a: Action, id: string)
    requires id !in s.pending && (a.EventArrives? ==> a.event.Event? && a.event.permission != Some(id))
    ensures id !in Step(s, a).pending && multiset(Step(s, a).responded)[id] == multiset(s.responded)[id]
  {
  }

  /** While a request is pending, only a response to it or the end of the stream changes that. */
  lemma PendingStep(s: Stream, a: Action, id: string)
    requires Inv(s) && id in s.pending && (a.EventArrives? ==> a.event.Event? && a.event.permission != Some(id))
    ensures var t := Step(s, a);
            && (!a.Responds? || a.id != id ==>
                  (id in t.pending <==> !t.terminal) && multiset(t.responded)[id] == multiset(s.responded)[id])
            && (a.Responds? && a.id == id ==>
                  && id !in t.pending && !t.terminal
                  && multiset(t.responded)[id] == multiset(s.responded)[id] + if a.wellFormed then 1 else 0)
  {
    hide BufferKept, OrderKept, AnswersKept, PermissionsKept, Overflows;
  }

  lemma EndedStays(s: Stream, a: Action)
    requires Inv(s) && s.terminal && (a.EventArrives? ==> a.event.Event?)
    ensures Step(s, a).terminal
  {
    hide BufferKept, OrderKept, EndKept, AnswersKept, PermissionsKept;
  }

  /** The response that settles a request pending since step i: the first one to it, before the end. */
  predicate Settles(ss: seq<Stream>, actions: seq<Action>, i: nat, k: nat, id: string)
    requires |ss| == |actions| + 1
  {
    && i <= k < |actions| && actions[k].Responds? && actions[k].id == id && !ss[k].terminal
    && forall l :: i <= l < k ==> !(actions[l].Responds? && actions[l].id == id)
  }

  predicate NoResponse(actions: seq<Action>, i: nat, j: nat, id: string)
    requires j <= |actions|
  {
    forall k :: i <= k < j ==> !(actions[k].Responds? && actions[k].id == id)
  }

  /** The well-formed first response, and no other, is sent. */
  ghost predicate Answered(ss: seq<Stream>, actions: seq<Action>, i: nat, j: nat, id: string)
    requires |ss| == |actions| + 1
  {
    exists k: nat :: k < j && Settles(ss, actions, i, k, id) && actions[k].wellFormed
  }

  /** The fate of a request that is pending, as long as the host does not ask again: it stays pending
      exactly until the first response or the end of the stream, and it is answered, once, exactly when
      that response is well formed. */
  lemma {:induction false} PermissionExactly(ss: seq<Stream>, actions: seq<Action>, i: nat, j: nat, id: string)
    requires IsRun(ss, actions) && i <= j < |ss| && id in ss[i].pending
    requires forall k :: i <= k < j && actions[k].EventArrives? ==> actions[k].event.permission != Some(id)
    ensures id in ss[j].pending <==> !ss[j].terminal && NoResponse(actions, i, j, id)
    ensures multiset(ss[j].responded)[id]
            == multiset(ss[i].responded)[id] + if Answered(ss, actions, i, j, id) then 1 else 0
    decreases j - i
  {
    hide Step, Inv, Answered;
    if i == j {
      RunKeeps(ss, actions, i);
      NoResponseNoAnswer(ss, actions, i, i, id);
      PendingOpen(ss[i], id);
    } else {
      PermissionExactly(ss, actions, i, j - 1, id);
      RunKeeps(ss, actions, j - 1);
      var s, a := ss[j - 1], actions[j - 1];
      AnsweredStep(ss, actions, i, j, id);
      if id in s.pending {
        NoResponseNoAnswer(ss, actions, i, j - 1, id);
        PendingStep(s, a, id);
      } else {
        NotPendingStep(s, a, id);
        if s.terminal {
          EndedStays(s, a);
        }
      }
    }
  }

  lemma PendingOpen(s: Stream, id: string)
    requires Inv(s) && id in s.pending
    ensures !s.terminal
  {
  }

  lemma NoResponseNoAnswer(ss: seq<Stream>, actions: seq<Action>, i: nat, j: nat, id: string)
    requires |ss| == |actions| + 1 && j <= |actions| && NoResponse(actions, i, j, id)
    ensures !Answered(ss, actions, i, j, id)
  {
  }

  lemma AnsweredStep(ss: seq<Stream>, actions: seq<Action>, i: nat, j: nat, id: string)
    requires IsRun(ss, actions) && i < j < |ss|
    ensures Answered(ss, actions, i, j, id) <==>
              || Answered(ss, actions, i, j - 1, id)
              || (!ss[j - 1].terminal && NoResponse(actions, i, j - 1, id) && actions[j - 1] == Responds(id, true))
  {
    hide Step;
    if !ss[j - 1].terminal && NoResponse(actions, i, j - 1, id) && actions[j - 1] == Responds(id, true) {
      assert Settles(ss, actions, i, j - 1, id);
    }
  }

  /** So a response that the client refuses uses the request up: until the host asks again no answer is
      sent for it in the rest of the run, whatever the caller tries. */
  lemma MalformedResponseUsesUp(ss: seq<Stream>, actions: seq<Action>, i: nat, j: nat, id: string)
    requires IsRun(ss, actions) && i < j < |ss| && actions[i] == Responds(id, false)
    requires forall k :: i < k < j && actions[k].EventArrives? ==> actions[k].event.permission != Some(id)
    ensures id !in ss[j].pending && multiset(ss[j].responded)[id] == multiset(ss[i].responded)[id]
  {
    assert ss[i + 1] == Step(ss[i], actions[i]);
    NotPendingStays(ss, actions, i + 1, j, id);
  }

  /** A host asks for one permission. The caller's first response is malformed and its second, a good one,
      is not sent; a good first response is. */
  lemma MalformedThenNothing() returns (ss: seq<Stream>, actions: seq<Action>)
    ensures IsRun(ss, actions)
    ensures actions == [EventArrives(true, Event(1, 0, Some("p"))), Responds("p", false), Responds("p", true)]
    ensures ss[1].pending == {"p"} && ss[3].pending == {} && ss[3].responded == [] && !ss[3].terminal
    ensures Step(ss[1], Responds("p", true)).responded == ["p"]
  {
    actions := [EventArrives(true, Event(1, 0, Some("p"))), Responds("p", false), Responds("p", true)];
    var s1 := Step(CREATED, actions[0]);
    var s2 := Step(s1, actions[1]);
    ss := [CREATED, s1, s2, Step(s2, actions[2])];
    assert s1.pending == {"p"} && s2.pending == {};
  }

  /** A result counts no bytes, but it takes a place: it is refused exactly when no one waits and the
      buffer holds the full number of unread items. */
  lemma ResultRefusedExactly(s: Stream, output: string)
    requires Inv(s)
    ensures Overflows(s, Result(output)) <==> s.waiters == [] && |s.items| == MAX_BUFFERED_ITEMS
    ensures !s.terminal ==> (OnResult(s, true, output).result == [Resolved(output)] <==> !Overflows(s, Result(output)))
  {
    hide Bytes, InOrder;
    if !s.terminal {
      assert s.result + [Resolved(output)] == [Resolved(output)];
      assert (s.result + [Rejected])[0] == Rejected;
    }
  }

  // ----- The byte limit

  /** What the unread events weigh: their JSON, and 128 bytes more for each of them. */
  function UnreadBytes(items: seq<Item>): nat {
    if items == [] then 0
    else
      var last := items[|items| - 1];
      UnreadBytes(items[..|items| - 1]) + if last.Event? then last.jsonBytes + 128 else 0
  }

  lemma {:induction false} UnreadBytesCounted(items: seq<Item>)
    ensures Bytes(items) == UnreadBytes(items)
  {
    if items != [] {
      UnreadBytesCounted(items[..|items| - 1]);
    }
  }

  /** The next event of the host is refused, and fails the query, exactly when no one waits and either
      1,024 items are unread or it does not fit into the mebibyte beside them. Otherwise it is the next item
      to read and nothing else is settled. */
  lemma EventRefusedExactly(s: Stream, e: Item)
    requires Inv(s) && !s.terminal && e.Event? && e.sequence == s.lastSequence + 1
    requires e.permission.Some? ==> e.permission.value !in s.pending
    ensures var t := OnEvent(s, true, e);
            if s.waiters == [] && (|s.items| >= 1024 || UnreadBytes(s.items) + e.jsonBytes + 128 > 1048576)
            then t.failed && t.terminal && t.result == [Rejected] && t.delivered + t.items == s.delivered + s.items
            else !t.failed && !t.terminal && t.result == [] && t.delivered + t.items == s.delivered + s.items + [e]
  {
    hide Bytes, UnreadBytes, InOrder, AnswersKept, PermissionsKept;
    UnreadBytesCounted(s.items);
    PushAll(Ask(s.(lastSequence := e.sequence), e.permission), e);
    assert [] + [Rejected] == [Rejected];
  }

  /** In every run at most 1,024 items are unread and their events weigh at most a mebibyte. */
  lemma UnreadBounded(ss: seq<Stream>, actions: seq<Action>, n: nat)
    requires IsRun(ss, actions) && n < |ss|
    ensures |ss[n].items| <= 1024 && UnreadBytes(ss[n].items) <= 1048576
  {
    hide Bytes, UnreadBytes, Step;
    RunKeeps(ss, actions, n);
    UnreadBytesCounted(ss[n].items);
  }

  /** A first event fails the query if nobody waits for it and its JSON has more than 1,048,448 bytes, and
      is kept otherwise; a caller who waits gets it at any size. */
  lemma OversizedEventFails(size: nat) returns (ss: seq<Stream>, actions: seq<Action>)
    ensures IsRun(ss, actions) && actions == [EventArrives(true, Event(1, size, None))]
    ensures ss[1].failed <==> size > 1048448
    ensures ss[1].result == (if size > 1048448 then [Rejected] else [])
    ensures ss[1].items == (if size > 1048448 then [] else [Event(1, size, None)])
    ensures Step(Step(CREATED, NextCalled), actions[0]).answers == [(0, Answer.Item(Event(1, size, None)))]
  {
    actions := [EventArrives(true, Event(1, size, None))];
    ss := [CREATED, Step(CREATED, actions[0])];
    assert [] + [Rejected] == [Rejected] && [] + [Event(1, size, None)] == [Event(1, size, None)];
  }

  // ----- A query that nobody reads

  /** The first n events, without a reader. */
  function Unread(n: nat): (s: Stream) {
    CREATED.(items := seq(n, i requires 0 <= i < n => Event(i + 1, 0, None)), lastSequence := n,
        bufferedBytes := 128 * n)
  }

  lemma {:induction false} UnreadIsReached(n: nat) returns (ss: seq<Stream>, actions: seq<Action>)
    requires n <= MAX_BUFFERED_ITEMS
    ensures IsRun(ss, actions) && ss[|actions|] == Unread(n)
    ensures |actions| == n && forall k :: 0 <= k < n ==> actions[k] == EventArrives(true, Event(k + 1, 0, None))
  {
    if n == 0 {
      ss, actions := [CREATED], [];
    } else {
      ss, actions := UnreadIsReached(n - 1);
      var a, s := EventArrives(true, Event(n, 0, None)), Unread(n - 1);
      assert Unread(n).items == s.items + [Event(n, 0, None)];
      OneMore(ss, actions, a);
      ss, actions := ss + [Unread(n)], actions + [a];
    }
  }

  lemma OneMore(ss: seq<Stream>, actions: seq<Action>, a: Action)
    requires IsRun(ss, actions) && (a.EventArrives? ==> a.event.Event?)
    ensures IsRun(ss + [Step(ss[|actions|], a)], actions + [a])
  {
    hide Step;
  }

  /** 1,024 events of a healthy host and then its result: the query fails. One event fewer and the
      result is accepted. */
  lemma UnreadResultFails(output: string) returns (ss: seq<Stream>, actions: seq<Action>)
    ensures IsRun(ss, actions) && |actions| == MAX_BUFFERED_ITEMS + 1
    ensures actions[MAX_BUFFERED_ITEMS] == ResultArrives(true, output)
    ensures forall k :: 0 <= k < MAX_BUFFERED_ITEMS ==> actions[k] == EventArrives(true, Event(k + 1, 0, None))
    ensures ss[|actions|].failed && ss[|actions|].result == [Rejected]
    ensures OnResult(Unread(MAX_BUFFERED_ITEMS - 1), true, output).result == [Resolved(output)]
  {
    ss, actions := UnreadIsReached(MAX_BUFFERED_ITEMS);
    var a := ResultArrives(true, output);
    OneMore(ss, actions, a);
    assert [] + [Rejected] == [Rejected] && [] + [Resolved(output)] == [Resolved(output)];
    ss, actions := ss + [Step(ss[|actions|], a)], actions + [a];
  }

  // ----- The object

  class Query {
    var items: seq<Item>
    var waiters: seq<nat>
    var pendingPermissionIds: set<string>
    var lastSequence: nat
    var terminal: bool
    var failed: bool
    var bufferedBytes: int
    /** Numbers the calls of next; stands for the promise each of them returned. */
    var calls: nat
    ghost var answers: seq<(nat, Answer)>
    ghost var delivered: seq<Item>
    ghost var result: seq<Settlement>
    ghost var asked: seq<string>
    ghost var responded: seq<string>

    ghost function Model(): Stream
      reads this
    {
      Stream(items, waiters, pendingPermissionIds, lastSequence, terminal, failed, bufferedBytes,
             calls, answers, delivered, result, asked, responded)
    }

    ghost predicate Valid()
      reads this
    {
      Inv(Model())
    }

    constructor ()
      ensures Valid() && Model() == CREATED
    {
      items, waiters, pendingPermissionIds := [], [], {};
      lastSequence, terminal, failed, bufferedBytes := 0, false, false, 0;
      calls, answers, delivered, result, asked, responded := 0, [], [], [], [], [];
    }

    /** Empties the waiters, each with the same answer. */
    method ReleaseWaiters(ghost a: Answer)
      modifies this`waiters, this`answers
      ensures waiters == [] && answers == old(answers) + Settle(old(waiters), a)
    {
      while waiters != []
        invariant |waiters| <= |old(waiters)| && waiters == old(waiters)[|old(waiters)| - |waiters|..]
        invariant answers == old(answers) + Settle(old(waiters)[..|old(waiters)| - |waiters|], a)
        decreases |waiters|
      {
        ghost var k := |old(waiters)| - |waiters|;
        assert old(waiters)[..k + 1] == old(waiters)[..k] + [old(waiters)[k]];
        SettleSnoc(old(waiters)[..k], old(waiters)[k], a);
        answers := answers + [(waiters[0], a)];
        waiters := waiters[1..];
      }
    }

    method OnConnectionFailure()
      requires Valid()
      modifies this
      ensures Valid() && Model() == Step(old(Model()), ConnectionFails)
    {
      hide Inv, Settle;
      StepKeeps(Model(), ConnectionFails);
      FailQuery();
    }

    /** What a failed connection does to the query; an abort from within does it at once. */
    method FailQuery()
      modifies this
      ensures Model() == Fail(old(Model()))
    {
      if terminal {
        return;
      }
      terminal := true;
      pendingPermissionIds := {};
      failed := true;
      result := result + [Rejected];
      ReleaseWaiters(Failed);
    }

    /** False when the buffer overflows; the connection is aborted then, which fails the query. */
    method PushItem(item: Item) returns (ok: bool)
      modifies this
      ensures ok == !Overflows(old(Model()), item)
      ensures Model() == if ok then Push(old(Model()), item) else Fail(old(Model()))
    {
      if waiters != [] {
        answers := answers + [(waiters[0], Answer.Item(item))];
        delivered := delivered + [item];
        waiters := waiters[1..];
        return true;
      }
      var itemBytes := ItemBytes(item);
      if |items| >= MAX_BUFFERED_ITEMS || bufferedBytes + itemBytes > MAX_BUFFERED_EVENT_BYTES {
        FailQuery();
        return false;
      }
      items := items + [item];
      bufferedBytes := bufferedBytes + itemBytes;
      return true;
    }

    method OnEventNotification(identity: bool, e: Item)
      requires Valid() && e.Event?
      modifies this
      ensures Valid() && Model() == Step(old(Model()), EventArrives(identity, e))
    {
      hide Inv, Settle;
      StepKeeps(Model(), EventArrives(identity, e));
      if !identity || terminal || e.sequence != lastSequence + 1 {
        FailQuery();
        return;
      }
      lastSequence := e.sequence;
      if e.permission.Some? {
        if e.permission.value in pendingPermissionIds {
          FailQuery();
          return;
        }
        pendingPermissionIds := pendingPermissionIds + {e.permission.value};
        asked := asked + [e.permission.value];
      }
      var ok := PushItem(e);
    }

    method OnResultNotification(identity: bool, output: string)
      requires Valid()
      modifies this
      ensures Valid() && Model() == Step(old(Model()), ResultArrives(identity, output))
    {
      hide Inv, Settle;
      StepKeeps(Model(), ResultArrives(identity, output));
      if !identity || terminal {
        FailQuery();
        return;
      }
      var ok := PushItem(Result(output));
      if !ok {
        return;
      }
      terminal := true;
      pendingPermissionIds := {};
      result := result + [Resolved(output)];
      ReleaseWaiters(Done);
    }

    method NextItem()
      requires Valid()
      modifies this
      ensures Valid() && Model() == Step(old(Model()), NextCalled)
    {
      hide Inv, Settle;
      StepKeeps(Model(), NextCalled);
      calls := calls + 1;
      if items != [] {
        var item := items[0];
        items := items[1..];
        bufferedBytes := bufferedBytes - ItemBytes(item);
        answers := answers + [(calls - 1, Answer.Item(item))];
        delivered := delivered + [item];
        return;
      }
      if failed {
        answers := answers + [(calls - 1, Failed)];
      } else if terminal {
        answers := answers + [(calls - 1, Done)];
      } else {
        waiters := waiters + [calls - 1];
      }
    }

    method RespondPermission(id: string, wellFormed: bool) returns (sent: bool)
      requires Valid()
      modifies this
      ensures Valid() && Model() == Step(old(Model()), Responds(id, wellFormed))
      ensures sent == (id in old(pendingPermissionIds) && wellFormed)
    {
      hide Inv, Settle;
      StepKeeps(Model(), Responds(id, wellFormed));
      if id !in pendingPermissionIds {
        return false;
      }
      pendingPermissionIds := pendingPermissionIds - {id};
      if wellFormed {
        responded := responded + [id];
      }
      return wellFormed;
    }
  }

  lemma SettleSnoc(waiters: seq<nat>, w: nat, a: Answer)
    ensures Settle(waiters + [w], a) == Settle(waiters, a) + [(w, a)]
  {
  }
}
