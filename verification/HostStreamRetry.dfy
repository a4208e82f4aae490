/** What the lane does about a failed refresh and about close, over whole runs. */
module HostStreamRetry {
  import opened HostStreamLane

  // ----- Failed refreshes

  /** The last read that came back was a refresh that failed. */
  predicate FailedLast(actions: seq<Action>, n: nat)
    requires n <= |actions|
  {
    n > 0 &&
    match actions[n - 1]
    case RefreshFails => true
    case RefreshSucceeds => false
    case OlderSettles(_) => false
    case _ => FailedLast(actions, n - 1)
  }

  /** How many drains of the open stream have ended in a failure since the last one that did not. */
  function FailuresInARow(ss: seq<Lane>, actions: seq<Action>, n: nat): nat
    requires |ss| == |actions| + 1 && n <= |actions|
  {
    if n == 0 then 0
    else if actions[n - 1].DrainEnds? && !FailedLast(actions, n - 1) then 0
    else FailuresInARow(ss, actions, n - 1) + if actions[n - 1].DrainEnds? && ss[n - 1].active then 1 else 0
  }

  /** In milliseconds: doubled with every failure, at most half a minute. */
  function DelayAfter(failures: nat): nat {
    if failures == 0 then 1000 else if failures == 1 then 2000 else if failures == 2 then 4000
    else if failures == 3 then 8000 else if failures == 4 then 16000 else 30000
  }

  /** Where the drain stands says how its last read came back. */
  lemma DrainTells(s: Lane, a: Action, failed: bool)
    requires Inv(s) && Enabled(s, a) && (s.at.Ended? ==> s.at.ok == !failed)
    ensures var t := Step(s, a);
            t.at.Ended? ==>
              t.at.ok == !(match a
                           case RefreshFails => true
                           case RefreshSucceeds => false
                           case OlderSettles(_) => false
                           case _ => failed)
  {
    hide OpenAfter, Owed, Ids, Reject;
  }

  lemma {:induction false} EndTells(ss: seq<Lane>, actions: seq<Action>, n: nat)
    requires IsRun(ss, actions) && n < |ss|
    ensures ss[n].at.Ended? ==> ss[n].at.ok == !FailedLast(actions, n)
  {
    hide Inv, Step, Enabled;
    if n > 0 {
      EndTells(ss, actions, n - 1);
      RunKeeps(ss, actions, n - 1);
      DrainTells(ss[n - 1], actions[n - 1], FailedLast(actions, n - 1));
    }
  }

  lemma DelayStep(s: Lane, a: Action)
    requires Enabled(s, a)
    ensures Step(s, a).retryDelay
            == if !a.DrainEnds? then s.retryDelay
               else if s.at.ok then 1000
               else if !s.active then s.retryDelay
               else if s.retryDelay < 15000 then 2 * s.retryDelay else 30000
  {
    hide Reject;
  }

  /** The next retry waits a second after a drain that ended well, and twice as long after each failure in a
      row: 1, 2, 4, 8 and 16 seconds, then half a minute. */
  lemma {:induction false} RetryDelays(ss: seq<Lane>, actions: seq<Action>, n: nat)
    requires IsRun(ss, actions) && n < |ss|
    ensures ss[n].retryDelay == DelayAfter(FailuresInARow(ss, actions, n))
  {
    hide Inv, Step, FailedLast;
    if n > 0 {
      RetryDelays(ss, actions, n - 1);
      EndTells(ss, actions, n - 1);
      assert Enabled(ss[n - 1], actions[n - 1]) && ss[n] == Step(ss[n - 1], actions[n - 1]);
      DelayStep(ss[n - 1], actions[n - 1]);
    }
  }

  /** When a drain of an open stream ends, the retry is armed and the refresh owed again exactly when its last
      read was a refresh that failed. */
  lemma RetryArmedExactly(ss: seq<Lane>, actions: seq<Action>, n: nat)
    requires IsRun(ss, actions) && n < |actions| && actions[n].DrainEnds? && ss[n].active
    ensures ss[n + 1].retry == FailedLast(actions, n)
    ensures ss[n + 1].dirty == (FailedLast(actions, n) || ss[n].dirty)
  {
    hide FailedLast, OpenAfter, Owed, Ids;
    RunKeeps(ss, actions, n);
    EndTells(ss, actions, n);
    assert Enabled(ss[n], actions[n]) && ss[n + 1] == Step(ss[n], actions[n]);
  }

  /** So a failed refresh is tried again: within four steps of the lane after its drain has ended, a refresh
      starts or the stream is closed. */
  lemma FailedRefreshRetried(ss: seq<Lane>, actions: seq<Action>, i: nat, j: nat)
    requires IsRun(ss, actions) && i < j < |ss| && actions[i].DrainEnds? && FailedLast(actions, i) && ss[i].active
    requires LaneSteps(actions[i + 1..j]) >= 4
    ensures ss[i + 1].trace <= ss[j].trace && Served(ss[i + 1].trace, ss[j].trace)
  {
    hide Inv, Enabled, Rank, Served, FailedLast, Step;
    RetryArmedExactly(ss, actions, i);
    assert ss[i + 1].active by {
      EndingKeepsOpen(ss[i], actions[i]);
    }
    ServedWithin(ss, actions, i + 1, j);
    RankBounds(ss[i + 1], ss[j]);
  }

  lemma EndingKeepsOpen(s: Lane, a: Action)
    requires a.DrainEnds? && Enabled(s, a)
    ensures Step(s, a).active == s.active
  {
  }

  // ----- Close

  /** Close stops the retry, rejects what is queued, in order, and leaves a running read alone; a second
      close does nothing. */
  lemma ClosesAtOnce(s: Lane)
    requires Inv(s)
    ensures Enabled(s, Closes)
    ensures var t := Step(s, Closes);
            && !t.active && !t.retry && t.older == [] && t.at == s.at && Step(t, Closes) == t
            && |t.settled| == |s.settled| + |s.older| && s.settled <= t.settled
            && forall k :: 0 <= k < |s.older| ==> t.settled[|s.settled| + k] == Settlement(s.older[k], Rejected)
  {
    hide OpenAfter, Owed, Ids;
  }

  lemma ClosedStep(s: Lane, a: Action)
    requires Inv(s) && !s.active && Enabled(s, a)
    ensures var t := Step(s, a);
            && !t.active && s.trace <= t.trace
            && (forall k :: |s.trace| <= k < |t.trace| ==> t.trace[k].RefreshEnded? || t.trace[k].OlderEnded?)
            && (a.RequestsOlder? ==> t.settled == s.settled + [Settlement(a.id, Resolved)])
  {
    hide OpenAfter, Owed, Ids;
  }

  /** Once closed a stream stays closed, and no read starts any more. */
  lemma {:induction false} ClosedForGood(ss: seq<Lane>, actions: seq<Action>, i: nat, j: nat)
    requires IsRun(ss, actions) && i <= j < |ss| && !ss[i].active
    ensures !ss[j].active && ss[i].trace <= ss[j].trace
    ensures forall k :: |ss[i].trace| <= k < |ss[j].trace| ==>
              !ss[j].trace[k].RefreshStarted? && !ss[j].trace[k].OlderStarted?
    decreases j - i
  {
    hide Inv, Step, Enabled;
    if i < j {
      ClosedForGood(ss, actions, i, j - 1);
      RunKeeps(ss, actions, j - 1);
      ClosedStep(ss[j - 1], actions[j - 1]);
    }
  }
}
