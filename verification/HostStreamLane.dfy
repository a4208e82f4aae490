/** The single work lane of an open host stream: refreshes and older pages take turns, failures retry
    after a delay, and nothing that was asked for is forgotten. */
module HostStreamLane {
  // ----- State

  datatype Outcome = Resolved | Rejected

  datatype Settlement = Settlement(id: nat, outcome: Outcome)

  /** Where the running drain waits: for a refresh, for an older page, or for the microtasks after it
      ended (its then or catch, then its finally). Idle: no drain runs. */
  datatype At = Idle | Refreshing | LoadingOlder(id: nat) | Ended(ok: bool) | Finishing

  /** What happened, for the properties below. */
  datatype Mark = Invalidated | RefreshStarted | RefreshEnded | OlderStarted(id: nat) | OlderEnded(id: nat) | Closed

  datatype Lane = Lane(active: bool, dirty: bool, at: At, retry: bool, retryDelay: nat, older: seq<nat>,
                       requested: seq<nat>, settled: seq<Settlement>, trace: seq<Mark>)

  const OPENED: Lane := Lane(true, false, Idle, false, 1000, [], [], [], [])

  // ----- The code between two awaits

  function StartOlder(s: Lane): Lane
    requires s.older != []
  {
    s.(older := s.older[1..], at := LoadingOlder(s.older[0]), trace := s.trace + [OlderStarted(s.older[0])])
  }

  /** The head of the loop in drain, up to the next await or the end. */
  function Top(s: Lane): Lane {
    if !s.active || (!s.dirty && s.older == []) then s.(at := Ended(true))
    else if s.dirty then s.(dirty := false, at := Refreshing, trace := s.trace + [RefreshStarted])
    else StartOlder(s)
  }

  function Wake(s: Lane): Lane {
    if !s.active || s.at != Idle || s.retry then s else Top(s)
  }

  function Invalidate(s: Lane): Lane {
    if !s.active then s else Wake(s.(dirty := true, trace := s.trace + [Invalidated]))
  }

  function RequestOlder(s: Lane, id: nat): Lane {
    var t := s.(requested := s.requested + [id]);
    if !s.active then t.(settled := s.settled + [Settlement(id, Resolved)])
    else Wake(t.(older := s.older + [id]))
  }

  function Reject(ids: seq<nat>): seq<Settlement> {
    seq(|ids|, i requires 0 <= i < |ids| => Settlement(ids[i], Rejected))
  }

  function Close(s: Lane): Lane {
    if !s.active then s
    else s.(active := false, retry := false, settled := s.settled + Reject(s.older), older := [],
        trace := s.trace + [Closed])
  }

  /** The refresh came back: one older request has its turn before the next refresh. */
  function RefreshDone(s: Lane): Lane {
    var t := s.(trace := s.trace + [RefreshEnded]);
    if t.older != [] then StartOlder(t) else Top(t)
  }

  function RefreshFailed(s: Lane): Lane {
    s.(at := Ended(false), trace := s.trace + [RefreshEnded])
  }

  function OlderDone(s: Lane, outcome: Outcome): Lane
    requires s.at.LoadingOlder?
  {
    Top(s.(settled := s.settled + [Settlement(s.at.id, outcome)], trace := s.trace + [OlderEnded(s.at.id)]))
  }

  /** The then or the catch of the drain. */
  function AfterDrain(s: Lane): Lane
    requires s.at.Ended?
  {
    if s.at.ok then s.(at := Finishing, retryDelay := 1000)
    else if !s.active then s.(at := Finishing)
    else s.(at := Finishing, dirty := true, retry := true,
            retryDelay := if 2 * s.retryDelay < 30000 then 2 * s.retryDelay else 30000)
  }

  function Finally(s: Lane): Lane {
    var t := s.(at := Idle);
    if t.active && (t.dirty || t.older != []) && !t.retry then Wake(t) else t
  }

  function RetryFires(s: Lane): Lane {
    Wake(s.(retry := false))
  }

  // ----- Steps

  datatype Action =
    | Invalidates | RequestsOlder(id: nat) | Closes
    | RefreshSucceeds | RefreshFails | OlderSettles(outcome: Outcome) | DrainEnds | DrainFinishes | TimerFires

  predicate OfLane(a: Action) {
    a.RefreshSucceeds? || a.RefreshFails? || a.OlderSettles? || a.DrainEnds? || a.DrainFinishes? || a.TimerFires?
  }

  /** A caller's request is a new one. */
  predicate Enabled(s: Lane, a: Action) {
    match a
    case Invalidates => true
    case RequestsOlder(id) => id !in s.requested
    case Closes => true
    case RefreshSucceeds => s.at.Refreshing?
    case RefreshFails => s.at.Refreshing?
    case OlderSettles(_) => s.at.LoadingOlder?
    case DrainEnds => s.at.Ended?
    case DrainFinishes => s.at.Finishing?
    case TimerFires => s.retry
  }

  function Step(s: Lane, a: Action): Lane
    requires Enabled(s, a)
  {
    match a
    case Invalidates => Invalidate(s)
    case RequestsOlder(id) => RequestOlder(s, id)
    case Closes => Close(s)
    case RefreshSucceeds => RefreshDone(s)
    case RefreshFails => RefreshFailed(s)
    case OlderSettles(outcome) => OlderDone(s, outcome)
    case DrainEnds => AfterDrain(s)
    case DrainFinishes => Finally(s)
    case TimerFires => RetryFires(s)
  }

  // ----- What every state keeps

  /** The read that is open after a trace; None also when two were open at once. */
  datatype Open = Nothing | Refresh | Older(id: nat) | Overlap

  function OpenAfter(trace: seq<Mark>): Open {
    if trace == [] then Nothing
    else NextOpen(OpenAfter(trace[..|trace| - 1]), trace[|trace| - 1])
  }

  function NextOpen(before: Open, m: Mark): Open {
    match m
    case RefreshStarted => if before.Nothing? then Refresh else Overlap
    case OlderStarted(id) => if before.Nothing? then Older(id) else Overlap
    case RefreshEnded => if before.Refresh? then Nothing else Overlap
    case OlderEnded(id) => if before == Older(id) then Nothing else Overlap
    case _ => before
  }

  /** An invalidation that no refresh has followed yet. */
  function Owed(trace: seq<Mark>): bool {
    trace != [] &&
    match trace[|trace| - 1]
    case Invalidated => true
    case RefreshStarted => false
    case Closed => false
    case _ => Owed(trace[..|trace| - 1])
  }

  function OpenAt(at: At): Open {
    match at
    case Refreshing => Refresh
    case LoadingOlder(id) => Older(id)
    case _ => Nothing
  }

  function Loading(at: At): seq<nat> {
    if at.LoadingOlder? then [at.id] else []
  }

  function Ids(s: seq<Settlement>): seq<nat> {
    seq(|s|, i requires 0 <= i < |s| => s[i].id)
  }

  predicate Inv(s: Lane) {
    && (s.active && (s.dirty || s.older != []) ==> s.at != Idle || s.retry)
    && (s.retry ==> s.active && s.dirty && (s.at.Idle? || s.at.Finishing?))
    && (!s.active ==> s.older == [])
    && OpenAfter(s.trace) == OpenAt(s.at)
    && (Owed(s.trace) ==> s.active && s.dirty)
    && 1000 <= s.retryDelay <= 30000
    && multiset(s.requested) == multiset(Ids(s.settled)) + multiset(Loading(s.at)) + multiset(s.older)
    && (s.active ==> s.requested == Ids(s.settled) + Loading(s.at) + s.older)
  }

  lemma Snoc(trace: seq<Mark>, m: Mark)
    ensures OpenAfter(trace + [m]) == NextOpen(OpenAfter(trace), m)
    ensures Owed(trace + [m]) == (m.Invalidated? || (!m.RefreshStarted? && !m.Closed? && Owed(trace)))
  {
    assert (trace + [m])[..|trace|] == trace;
  }

  lemma IdsSnoc(s: seq<Settlement>, x: Settlement)
    ensures Ids(s + [x]) == Ids(s) + [x.id]
  {
  }

  lemma IdsReject(s: seq<Settlement>, ids: seq<nat>)
    ensures Ids(s + Reject(ids)) == Ids(s) + ids
  {
  }

  /** Between two reads, with no retry armed: the drain may look for work. */
  predicate Ready(s: Lane) {
    && !s.retry && (!s.active ==> s.older == []) && OpenAfter(s.trace) == Nothing
    && (Owed(s.trace) ==> s.active && s.dirty) && 1000 <= s.retryDelay <= 30000
    && multiset(s.requested) == multiset(Ids(s.settled)) + multiset(s.older)
    && (s.active ==> s.requested == Ids(s.settled) + s.older)
  }

  lemma HeadAndTail(front: seq<nat>, queue: seq<nat>)
    requires queue != []
    ensures multiset(queue) == multiset([queue[0]]) + multiset(queue[1..])
    ensures front + queue == front + [queue[0]] + queue[1..]
  {
    assert queue == [queue[0]] + queue[1..];
  }

  lemma StartOlderKeeps(s: Lane)
    requires Ready(s) && s.active && s.older != []
    ensures Inv(StartOlder(s))
  {
    hide OpenAfter, Owed, Ids;
    Snoc(s.trace, OlderStarted(s.older[0]));
    HeadAndTail(Ids(s.settled), s.older);
  }

  lemma TopKeeps(s: Lane)
    requires Ready(s)
    ensures Inv(Top(s))
  {
    hide OpenAfter, Owed, Ids, StartOlder;
    if s.active && s.dirty {
      Snoc(s.trace, RefreshStarted);
      assert Ids(s.settled) + [] == Ids(s.settled);
    } else if s.active && s.older != [] {
      StartOlderKeeps(s);
    } else {
      assert Ids(s.settled) + [] == Ids(s.settled);
    }
  }

  lemma IdleReady(s: Lane)
    requires Inv(s) && !s.retry && OpenAt(s.at) == Nothing
    ensures Ready(s)
  {
    hide OpenAfter, Owed, Ids;
    assert Ids(s.settled) + [] == Ids(s.settled);
  }

  lemma InvalidateKeeps(s: Lane)
    requires Inv(s)
    ensures Inv(Invalidate(s))
  {
    hide OpenAfter, Owed, Ids, Top;
    var t := s.(dirty := true, trace := s.trace + [Invalidated]);
    Snoc(s.trace, Invalidated);
    if s.active && s.at == Idle && !s.retry {
      IdleReady(s);
      TopKeeps(t);
    }
  }

  lemma RequestOlderKeeps(s: Lane, id: nat)
    requires Inv(s)
    ensures Inv(RequestOlder(s, id))
  {
    hide OpenAfter, Owed, Ids, Top;
    IdsSnoc(s.settled, Settlement(id, Resolved));
    var t := s.(requested := s.requested + [id], older := s.older + [id]);
    if s.active {
      assert Ids(s.settled) + Loading(s.at) + (s.older + [id]) == Ids(s.settled) + Loading(s.at) + s.older + [id];
    }
    if s.active && s.at == Idle && !s.retry {
      IdleReady(s);
      assert Ids(s.settled) + (s.older + [id]) == Ids(s.settled) + s.older + [id];
      TopKeeps(t);
    }
  }

  lemma CloseKeeps(s: Lane)
    requires Inv(s)
    ensures Inv(Close(s))
  {
    hide OpenAfter, Owed, Ids, Reject;
    Snoc(s.trace, Closed);
    IdsReject(s.settled, s.older);
  }

  lemma RefreshEndKeeps(s: Lane, ok: bool)
    requires Inv(s) && s.at.Refreshing?
    ensures Inv(if ok then RefreshDone(s) else RefreshFailed(s))
  {
    hide OpenAfter, Owed, Ids, Top, StartOlder;
    Snoc(s.trace, RefreshEnded);
    var t := s.(trace := s.trace + [RefreshEnded]);
    assert Ids(s.settled) + [] == Ids(s.settled);
    if ok && s.older != [] {
      StartOlderKeeps(t);
    } else if ok {
      TopKeeps(t);
    }
  }

  lemma OlderDoneKeeps(s: Lane, outcome: Outcome)
    requires Inv(s) && s.at.LoadingOlder?
    ensures Inv(OlderDone(s, outcome))
  {
    hide OpenAfter, Owed, Ids, Top;
    Snoc(s.trace, OlderEnded(s.at.id));
    IdsSnoc(s.settled, Settlement(s.at.id, outcome));
    TopKeeps(s.(settled := s.settled + [Settlement(s.at.id, outcome)], trace := s.trace + [OlderEnded(s.at.id)]));
  }

  lemma AfterDrainKeeps(s: Lane)
    requires Inv(s) && s.at.Ended?
    ensures Inv(AfterDrain(s))
  {
    hide OpenAfter, Owed, Ids;
  }

  lemma FinallyKeeps(s: Lane)
    requires Inv(s) && s.at.Finishing?
    ensures Inv(Finally(s))
  {
    hide OpenAfter, Owed, Ids, Top;
    var t := s.(at := Idle);
    if t.active && (t.dirty || t.older != []) && !t.retry {
      IdleReady(s);
      TopKeeps(t);
    }
  }

  lemma RetryFiresKeeps(s: Lane)
    requires Inv(s) && s.retry
    ensures Inv(RetryFires(s))
  {
    hide OpenAfter, Owed, Ids, Top;
    var t := s.(retry := false);
    assert Ids(s.settled) + [] == Ids(s.settled);
    if s.at == Idle {
      TopKeeps(t);
    }
  }

  /** Over every step: pending work has a running drain or an armed retry, reads never overlap, every
      older request is queued, being read or settled, in the order of the requests while open. */
  lemma StepKeeps(s: Lane, a: Action)
    requires Inv(s) && Enabled(s, a)
    ensures Inv(Step(s, a))
  {
    hide Inv, Invalidate, RequestOlder, Close, RefreshDone, RefreshFailed, OlderDone, AfterDrain, Finally, RetryFires;
    match a
    case Invalidates => InvalidateKeeps(s);
    case RequestsOlder(id) => RequestOlderKeeps(s, id);
    case Closes => CloseKeeps(s);
    case RefreshSucceeds => RefreshEndKeeps(s, true);
    case RefreshFails => RefreshEndKeeps(s, false);
    case OlderSettles(outcome) => OlderDoneKeeps(s, outcome);
    case DrainEnds => AfterDrainKeeps(s);
    case DrainFinishes => FinallyKeeps(s);
    case TimerFires => RetryFiresKeeps(s);
  }

  // ----- Runs

  ghost predicate IsRun(ss: seq<Lane>, actions: seq<Action>) {
    && |ss| == |actions| + 1 && ss[0] == OPENED
    && forall i :: 0 <= i < |actions| ==> Enabled(ss[i], actions[i]) && ss[i + 1] == Step(ss[i], actions[i])
  }

  lemma {:induction false} RunKeeps(ss: seq<Lane>, actions: seq<Action>, n: nat)
    requires IsRun(ss, actions) && n < |ss|
    ensures Inv(ss[n])
  {
    hide Inv, Step, Enabled;
    if n == 0 {
      OpenedInv();
    } else {
      RunKeeps(ss, actions, n - 1);
      StepKeeps(ss[n - 1], actions[n - 1]);
    }
  }

  lemma OpenedInv()
    ensures Inv(OPENED)
  {
    assert Ids(OPENED.settled) + Loading(OPENED.at) + OPENED.older == [];
  }

  /** Requests are made once each, so a run never settles one twice. */
  lemma {:induction false} RequestsOnce(ss: seq<Lane>, actions: seq<Action>, n: nat, id: nat)
    requires IsRun(ss, actions) && n < |ss|
    ensures multiset(ss[n].requested)[id] <= 1
  {
    hide Enabled, Top, StartOlder, Reject;
    if n > 0 {
      RequestsOnce(ss, actions, n - 1, id);
      var s, a := ss[n - 1], actions[n - 1];
      assert ss[n].requested == if a.RequestsOlder? then s.requested + [a.id] else s.requested by {
        RequestedOf(s, a);
      }
      if a.RequestsOlder? {
        assert Enabled(s, a);
        FreshRequest(s, a, id);
      }
    }
  }

  lemma FreshRequest(s: Lane, a: Action, id: nat)
    requires a.RequestsOlder? && Enabled(s, a) && multiset(s.requested)[id] <= 1
    ensures multiset(s.requested + [a.id])[id] <= 1
  {
  }

  lemma RequestedOf(s: Lane, a: Action)
    requires Enabled(s, a)
    ensures Step(s, a).requested == if a.RequestsOlder? then s.requested + [a.id] else s.requested
  {
  }

  lemma TwiceCounts(ids: seq<nat>, i: nat, j: nat)
    requires i < j < |ids|
    ensures ids[i] == ids[j] ==> multiset(ids)[ids[j]] >= 2
  {
    assert ids == ids[..j] + [ids[j]] + ids[j + 1..];
    assert ids[i] in ids[..j];
  }

  lemma SettledAtMostOnce(ss: seq<Lane>, actions: seq<Action>, n: nat, i: nat, j: nat)
    requires IsRun(ss, actions) && n < |ss| && i < j < |ss[n].settled|
    ensures ss[n].settled[i].id != ss[n].settled[j].id
  {
    hide Enabled, Step, OpenAfter, Owed;
    RunKeeps(ss, actions, n);
    var ids, x := Ids(ss[n].settled), ss[n].settled[j].id;
    RequestsOnce(ss, actions, n, x);
    TwiceCounts(ids, i, j);
  }

  /** Nothing asked for is dropped: once the stream is closed and its last read is over, every request
      is settled. */
  lemma AllSettledAfterClose(ss: seq<Lane>, actions: seq<Action>, n: nat, id: nat)
    requires IsRun(ss, actions) && n < |ss| && !ss[n].active && !ss[n].at.LoadingOlder? && id in ss[n].requested
    ensures exists k :: 0 <= k < |ss[n].settled| && ss[n].settled[k].id == id
  {
    hide Enabled, Step, OpenAfter, Owed;
    RunKeeps(ss, actions, n);
    var s := ss[n];
    assert id in multiset(s.requested);
    assert multiset(s.requested) == multiset(Ids(s.settled)) + multiset([]) + multiset([]);
    assert id in Ids(s.settled);
    var k :| 0 <= k < |Ids(s.settled)| && Ids(s.settled)[k] == id;
    assert s.settled[k].id == id;
  }

  /** Two reads are never open at once, in any run. */
  lemma NoOverlap(ss: seq<Lane>, actions: seq<Action>, n: nat)
    requires IsRun(ss, actions) && n < |ss|
    ensures OpenAfter(ss[n].trace) != Overlap
  {
    RunKeeps(ss, actions, n);
  }

  // ----- No lost wake-up

  /** How many steps of the lane are left at most before the next refresh starts. */
  function Rank(s: Lane): nat {
    match s.at
    case Idle => 1
    case Finishing => if s.retry then 2 else 1
    case Ended(ok) => if ok then 2 else 3
    case LoadingOlder(_) => 1
    case Refreshing => 4
  }

  /** A refresh started, or the stream was closed, since this trace. */
  predicate Served(before: seq<Mark>, after: seq<Mark>)
    requires |before| <= |after|
  {
    exists k :: |before| <= k < |after| && (after[k].RefreshStarted? || after[k].Closed?)
  }

  /** While an invalidation waits, the lane can move. */
  lemma NeverStuck(s: Lane) returns (a: Action)
    requires Inv(s) && s.active && s.dirty
    ensures OfLane(a) && Enabled(s, a)
  {
    a := match s.at
         case Idle => TimerFires
         case Refreshing => RefreshSucceeds
         case LoadingOlder(_) => OlderSettles(Resolved)
         case Ended(_) => DrainEnds
         case Finishing => DrainFinishes;
  }

  /** Each step starts a refresh or closes, or the invalidation still waits and is no farther; a step of
      the lane brings it closer. */
  lemma StepServes(s: Lane, a: Action)
    requires Inv(s) && Enabled(s, a) && s.active && s.dirty
    ensures var t := Step(s, a);
            && s.trace <= t.trace
            && (Served(s.trace, t.trace)
                || (t.active && t.dirty && Rank(t) <= Rank(s) && (OfLane(a) ==> Rank(t) < Rank(s))))
  {
    hide OpenAfter, Owed, Ids, Reject;
    var t := Step(s, a);
    if |t.trace| > |s.trace| && (t.trace[|t.trace| - 1].RefreshStarted? || t.trace[|t.trace| - 1].Closed?) {
      assert Served(s.trace, t.trace);
    }
  }

  function LaneSteps(actions: seq<Action>): nat {
    if actions == [] then 0 else LaneSteps(actions[..|actions| - 1]) + if OfLane(actions[|actions| - 1]) then 1 else 0
  }

  lemma {:induction false} ServedWithin(ss: seq<Lane>, actions: seq<Action>, i: nat, j: nat)
    requires IsRun(ss, actions) && i <= j < |ss| && ss[i].active && ss[i].dirty
    ensures ss[i].trace <= ss[j].trace
    ensures Served(ss[i].trace, ss[j].trace)
            || (ss[j].active && ss[j].dirty && Rank(ss[j]) + LaneSteps(actions[i..j]) <= Rank(ss[i]))
    decreases j - i
  {
    hide Inv, Step, Enabled, Rank, Served;
    if i < j {
      ServedWithin(ss, actions, i, j - 1);
      assert actions[i..j] == actions[i..j - 1] + [actions[j - 1]];
      TraceGrows(ss[j - 1], actions[j - 1]);
      if Served(ss[i].trace, ss[j - 1].trace) {
        ServedLater(ss[i].trace, ss[j - 1].trace, ss[j].trace);
      } else {
        RunKeeps(ss, actions, j - 1);
        StepServes(ss[j - 1], actions[j - 1]);
        if Served(ss[j - 1].trace, ss[j].trace) {
          ServedLater(ss[i].trace, ss[j - 1].trace, ss[j].trace);
        }
      }
    } else {
      assert actions[i..j] == [];
    }
  }

  lemma TraceGrows(s: Lane, a: Action)
    requires Enabled(s, a)
    ensures s.trace <= Step(s, a).trace
  {
  }

  lemma ServedLater(a: seq<Mark>, b: seq<Mark>, c: seq<Mark>)
    requires a <= b <= c && (Served(a, b) || Served(b, c))
    ensures Served(a, c)
  {
    if Served(a, b) {
      var k :| |a| <= k < |b| && (b[k].RefreshStarted? || b[k].Closed?);
      assert c[k] == b[k];
    } else {
      var k :| |b| <= k < |c| && (c[k].RefreshStarted? || c[k].Closed?);
      assert c[k].RefreshStarted? || c[k].Closed?;
    }
  }

  /** Every invalidation of an open stream is followed by a refresh that starts after it, or by close,
      within four steps of the lane, whatever else happens in between. */
  lemma EveryInvalidationServed(ss: seq<Lane>, actions: seq<Action>, i: nat, j: nat)
    requires IsRun(ss, actions) && i < j < |ss| && actions[i] == Invalidates && ss[i].active
    requires LaneSteps(actions[i + 1..j]) >= 4
    ensures ss[i].trace + [Invalidated] <= ss[j].trace && Served(ss[i].trace + [Invalidated], ss[j].trace)
  {
    hide Inv, Enabled, Rank, Served, OpenAfter, Owed;
    var s, t := ss[i], ss[i + 1];
    var marked := s.trace + [Invalidated];
    assert t == Invalidate(s);
    if t.active && t.dirty {
      ServedWithin(ss, actions, i + 1, j);
      RankBounds(ss[i + 1], ss[j]);
      assert t.trace == marked;
    } else {
      RunTrace(ss, actions, i + 1, j);
      StartsAtOnce(s);
      ServedLater(marked, t.trace, ss[j].trace);
    }
  }

  lemma RankBounds(s: Lane, t: Lane)
    ensures Rank(s) <= 4 && Rank(t) >= 1
  {
  }

  lemma StartsAtOnce(s: Lane)
    requires s.active && !Invalidate(s).dirty
    ensures s.trace + [Invalidated] <= Invalidate(s).trace && Served(s.trace + [Invalidated], Invalidate(s).trace)
  {
    var t := Invalidate(s);
    assert t.trace[|t.trace| - 1].RefreshStarted?;
  }

  lemma {:induction false} RunTrace(ss: seq<Lane>, actions: seq<Action>, i: nat, j: nat)
    requires IsRun(ss, actions) && i <= j < |ss|
    ensures ss[i].trace <= ss[j].trace
    decreases j - i
  {
    hide Inv, Step, Enabled;
    if i < j {
      RunTrace(ss, actions, i, j - 1);
      TraceGrows(ss[j - 1], actions[j - 1]);
    }
  }

  // ----- The object

  /** The variables of openHostStream, changed in place. */
  class StreamLane {
    var active: bool
    var dirty: bool
    var at: At
    var retry: bool
    var retryDelay: nat
    var olderRequests: seq<nat>
    ghost var requested: seq<nat>
    ghost var settled: seq<Settlement>
    ghost var trace: seq<Mark>

    ghost function Model(): Lane
      reads this
    {
      Lane(active, dirty, at, retry, retryDelay, olderRequests, requested, settled, trace)
    }

    ghost predicate Valid()
      reads this
    {
      Inv(Model())
    }

    constructor ()
      ensures Valid() && Model() == OPENED
    {
      active, dirty, at, retry, retryDelay, olderRequests := true, false, Idle, false, 1000, [];
      requested, settled, trace := [], [], [];
      new;
      OpenedInv();
    }

    method ShiftOlder()
      requires olderRequests != []
      modifies this
      ensures Model() == StartOlder(old(Model()))
    {
      var older := olderRequests[0];
      olderRequests := olderRequests[1..];
      at := LoadingOlder(older);
      trace := trace + [OlderStarted(older)];
    }

    method DrainTop()
      modifies this
      ensures Model() == Top(old(Model()))
    {
      if active && (dirty || olderRequests != []) {
        if dirty {
          dirty := false;
          at := Refreshing;
          trace := trace + [RefreshStarted];
        } else {
          ShiftOlder();
        }
      } else {
        at := Ended(true);
      }
    }

    method WakeUp()
      modifies this
      ensures Model() == Wake(old(Model()))
    {
      if !active || at != Idle || retry {
        return;
      }
      DrainTop();
    }

    method OnInvalidate()
      requires Valid()
      modifies this
      ensures Valid() && Model() == Step(old(Model()), Invalidates)
    {
      hide Inv, StartOlder, Reject;
      StepKeeps(Model(), Invalidates);
      if !active {
        return;
      }
      dirty := true;
      trace := trace + [Invalidated];
      WakeUp();
    }

    method LoadOlder(id: nat)
      requires Valid() && id !in requested
      modifies this
      ensures Valid() && Model() == Step(old(Model()), RequestsOlder(id))
    {
      hide Inv, StartOlder, Reject;
      StepKeeps(Model(), RequestsOlder(id));
      requested := requested + [id];
      if !active {
        settled := settled + [Settlement(id, Resolved)];
        return;
      }
      olderRequests := olderRequests + [id];
      WakeUp();
    }

    method CloseStream()
      requires Valid()
      modifies this
      ensures Valid() && Model() == Step(old(Model()), Closes)
    {
      hide Inv, StartOlder, Reject;
      StepKeeps(Model(), Closes);
      if !active {
        return;
      }
      active := false;
      retry := false;
      settled := settled + Reject(olderRequests);
      olderRequests := [];
      trace := trace + [Closed];
    }

    method OnRefreshed(ok: bool)
      requires Valid() && at.Refreshing?
      modifies this
      ensures Valid() && Model() == Step(old(Model()), if ok then RefreshSucceeds else RefreshFails)
    {
      hide Inv, StartOlder, Reject;
      StepKeeps(Model(), if ok then RefreshSucceeds else RefreshFails);
      trace := trace + [RefreshEnded];
      if !ok {
        at := Ended(false);
        return;
      }
      if olderRequests != [] {
        ShiftOlder();
      } else {
        DrainTop();
      }
    }

    method OnOlderSettled(outcome: Outcome)
      requires Valid() && at.LoadingOlder?
      modifies this
      ensures Valid() && Model() == Step(old(Model()), OlderSettles(outcome))
    {
      hide Inv, StartOlder, Reject;
      StepKeeps(Model(), OlderSettles(outcome));
      settled := settled + [Settlement(at.id, outcome)];
      trace := trace + [OlderEnded(at.id)];
      DrainTop();
    }

    method OnDrainEnded()
      requires Valid() && at.Ended?
      modifies this
      ensures Valid() && Model() == Step(old(Model()), DrainEnds)
    {
      hide Inv, StartOlder, Reject;
      StepKeeps(Model(), DrainEnds);
      if at.ok {
        retryDelay := 1000;
      } else if active {
        dirty := true;
        retry := true;
        retryDelay := if 2 * retryDelay < 30000 then 2 * retryDelay else 30000;
      }
      at := Finishing;
    }

    method OnDrainFinished()
      requires Valid() && at.Finishing?
      modifies this
      ensures Valid() && Model() == Step(old(Model()), DrainFinishes)
    {
      hide Inv, StartOlder, Reject;
      StepKeeps(Model(), DrainFinishes);
      at := Idle;
      if active && (dirty || olderRequests != []) && !retry {
        WakeUp();
      }
    }

    method OnTimer()
      requires Valid() && retry
      modifies this
      ensures Valid() && Model() == Step(old(Model()), TimerFires)
    {
      hide Inv, StartOlder, Reject;
      StepKeeps(Model(), TimerFires);
      retry := false;
      WakeUp();
    }
  }
}
