/** An open host stream: the work lane drives the paging reader. */
module HostStream {
  import Lane = HostStreamLane
  import opened HostStreamReader

  // ----- Lane and reader on one clock

  /** What the reader holds: the answers the host has given so far, the epoch and range it follows, and
      the events emitted since the last gap. */
  datatype Reading = Reading(tick: nat, epoch: nat, cursor: int, oldest: int, emitted: seq<Event>)

  /** The lane, when each of its marks was made in answers of the host, and the reader. */
  datatype Whole = Whole(lane: Lane.Lane, times: seq<nat>, reading: Reading)

  /** An action of the lane, with what the reader holds after it. An invalidation tells of a state the
      host was in by then. */
  datatype Happening = Happening(action: Lane.Action, moment: nat, reading: Reading)

  predicate Reads(at: Lane.At) {
    at.Refreshing? || at.LoadingOlder?
  }

  /** The reader has caught up with the host that answered last. */
  ghost predicate CaughtUp(hosts: nat -> Host, r: Reading) {
    && r.tick > 0 && Covers(hosts(r.tick - 1), r.epoch, r.cursor, r.oldest, r.emitted)
    && r.epoch == hosts(r.tick - 1).epoch && r.cursor == hosts(r.tick - 1).cursor
  }

  /** Position of the last refresh begun. */
  function LastStart(trace: seq<Lane.Mark>): (k: nat)
    ensures k <= |trace| && (k < |trace| ==> trace[k].RefreshStarted?)
  {
    if trace == [] then 0
    else if trace[|trace| - 1].RefreshStarted? then |trace| - 1
    else
      var k := LastStart(trace[..|trace| - 1]);
      if k == |trace| - 1 then |trace| else k
  }

  /** The host answers only while a read is open; a refresh that succeeds has been answered since it began
      and has caught up. */
  ghost predicate Moves(hosts: nat -> Host, w: Whole, h: Happening, v: Whole)
    requires |w.times| == |w.lane.trace|
  {
    && Lane.Enabled(w.lane, h.action) && v.lane == Lane.Step(w.lane, h.action) && v.reading == h.reading
    && w.reading.tick <= v.reading.tick && (!Reads(w.lane.at) ==> v.reading == w.reading)
    && |v.times| == |v.lane.trace| && w.times <= v.times
    && (forall k :: |w.times| <= k < |v.times| ==> v.times[k] == v.reading.tick)
    && (h.action.Invalidates? ==> h.moment <= v.reading.tick)
    && (h.action.RefreshSucceeds? ==>
          && CaughtUp(hosts, v.reading)
          && (LastStart(w.lane.trace) < |w.times| ==> w.times[LastStart(w.lane.trace)] < v.reading.tick))
  }

  ghost predicate IsWholeRun(hosts: nat -> Host, ws: seq<Whole>, hs: seq<Happening>) {
    && |ws| == |hs| + 1 && ws[0].lane == Lane.OPENED && ws[0].times == []
    && (forall i :: 0 <= i < |ws| ==> |ws[i].times| == |ws[i].lane.trace|)
    && forall i :: 0 <= i < |hs| ==> Moves(hosts, ws[i], hs[i], ws[i + 1])
  }

  function Lanes(ws: seq<Whole>): seq<Lane.Lane> {
    seq(|ws|, i requires 0 <= i < |ws| => ws[i].lane)
  }

  function Actions(hs: seq<Happening>): seq<Lane.Action> {
    seq(|hs|, i requires 0 <= i < |hs| => hs[i].action)
  }

  lemma LaneRuns(hosts: nat -> Host, ws: seq<Whole>, hs: seq<Happening>)
    requires IsWholeRun(hosts, ws, hs)
    ensures Lane.IsRun(Lanes(ws), Actions(hs))
  {
    hide Lane.Enabled, Lane.Step, CaughtUp;
    forall i | 0 <= i < |Actions(hs)|
      ensures Lane.Enabled(Lanes(ws)[i], Actions(hs)[i]) && Lanes(ws)[i + 1] == Lane.Step(Lanes(ws)[i], Actions(hs)[i])
    {
      assert Moves(hosts, ws[i], hs[i], ws[i + 1]);
    }
  }

  /** Marks keep their times, and later marks have no earlier ones. */
  predicate InTime(w: Whole) {
    && (forall j, k :: 0 <= j <= k < |w.times| ==> w.times[j] <= w.times[k])
    && forall k :: 0 <= k < |w.times| ==> w.times[k] <= w.reading.tick
  }

  lemma {:induction false} RunInTime(hosts: nat -> Host, ws: seq<Whole>, hs: seq<Happening>, i: nat, j: nat)
    requires IsWholeRun(hosts, ws, hs) && i <= j < |ws|
    ensures InTime(ws[j]) && ws[i].times <= ws[j].times
    decreases j
  {
    hide Lane.Enabled, Lane.Step, CaughtUp, LastStart;
    if j > 0 {
      RunInTime(hosts, ws, hs, if i < j then i else j - 1, j - 1);
      assert Moves(hosts, ws[j - 1], hs[j - 1], ws[j]);
    }
  }

  /** All that the host kept at a moment from the oldest event on, and kept when it answered last, was
      emitted. */
  ghost predicate ServedAt(hosts: nat -> Host, moment: nat, r: Reading) {
    && moment < r.tick
    && forall e :: e in hosts(moment).log && e in hosts(r.tick - 1).log && r.oldest <= e.seqNo ==> e in r.emitted
  }

  lemma {:induction false} OpenHasStart(trace: seq<Lane.Mark>)
    requires Lane.OpenAfter(trace).Refresh?
    ensures LastStart(trace) < |trace|
  {
    var last := trace[|trace| - 1];
    if !last.RefreshStarted? {
      OpenHasStart(trace[..|trace| - 1]);
    }
  }

  /** A refresh that ends has begun. */
  lemma RefreshBegan(hosts: nat -> Host, ws: seq<Whole>, hs: seq<Happening>, e: nat)
    requires IsWholeRun(hosts, ws, hs) && e < |hs| && hs[e].action == Lane.RefreshSucceeds
    ensures LastStart(ws[e].lane.trace) < |ws[e].lane.trace|
  {
    hide Lane.Step, LastStart, CaughtUp, Lane.IsRun;
    LaneRuns(hosts, ws, hs);
    Lane.RunKeeps(Lanes(ws), Actions(hs), e);
    assert Moves(hosts, ws[e], hs[e], ws[e + 1]) && Lanes(ws)[e] == ws[e].lane;
    OpenHasStart(ws[e].lane.trace);
  }

  /** A refresh begun after an invalidation serves it, if it succeeds. */
  lemma RefreshServes(hosts: nat -> Host, ws: seq<Whole>, hs: seq<Happening>, i: nat, e: nat)
    requires forall t: nat :: ValidHost(hosts(t))
    requires IsWholeRun(hosts, ws, hs) && i < e < |hs|
    requires hs[i].action == Lane.Invalidates && ws[i].lane.active && hs[e].action == Lane.RefreshSucceeds
    requires |ws[i].lane.trace| < LastStart(ws[e].lane.trace)
    ensures ServedAt(hosts, hs[i].moment, ws[e + 1].reading)
  {
    hide Lane.Enabled, Lane.Step, LastStart, Covers, ValidHost;
    RunInTime(hosts, ws, hs, i + 1, e);
    RefreshBegan(hosts, ws, hs, e);
    assert Moves(hosts, ws[i], hs[i], ws[i + 1]) && Moves(hosts, ws[e], hs[e], ws[e + 1]);
    Marked(ws[i].lane);
    var n := |ws[i].lane.trace|;
    assert ws[i + 1].times[n] == ws[e].times[n] == ws[i + 1].reading.tick;
    assert ws[e].times[n] <= ws[e].times[LastStart(ws[e].lane.trace)];
    AllEmitted(hosts(ws[e + 1].reading.tick - 1), ws[e + 1].reading);
  }

  lemma Marked(s: Lane.Lane)
    requires s.active
    ensures |Lane.Step(s, Lane.Invalidates).trace| > |s.trace|
  {
  }

  lemma AllEmitted(h: Host, r: Reading)
    requires ValidHost(h) && Covers(h, r.epoch, r.cursor, r.oldest, r.emitted)
    requires r.epoch == h.epoch && r.cursor == h.cursor
    ensures forall e :: e in h.log && r.oldest <= e.seqNo ==> e in r.emitted
  {
  }

  /** From the hint to the screen, over any run of lane, reader and host: within four steps of the lane a
      refresh begins after the invalidation, or the stream is closed; and any such refresh that succeeds
      has emitted all that the host kept when it sent the invalidation, from the oldest event on, and
      still keeps. */
  lemma InvalidationReachesConsumer(hosts: nat -> Host, ws: seq<Whole>, hs: seq<Happening>, i: nat, j: nat)
    returns (k: nat)
    requires forall t: nat :: ValidHost(hosts(t))
    requires IsWholeRun(hosts, ws, hs) && i < j < |ws| && hs[i].action == Lane.Invalidates && ws[i].lane.active
    requires Lane.LaneSteps(Actions(hs)[i + 1..j]) >= 4
    ensures |ws[i].lane.trace| < k < |ws[j].lane.trace|
    ensures ws[j].lane.trace[k].RefreshStarted? || ws[j].lane.trace[k].Closed?
    ensures forall e :: i < e < |hs| && hs[e].action == Lane.RefreshSucceeds
                        && k <= LastStart(ws[e].lane.trace) ==>
              ServedAt(hosts, hs[i].moment, ws[e + 1].reading)
  {
    hide Lane.IsRun, Moves, ServedAt, LastStart, Lane.LaneSteps;
    LaneRuns(hosts, ws, hs);
    k := InvalidationReachesRefresh(Lanes(ws), Actions(hs), i, j);
    forall e | i < e < |hs| && hs[e].action == Lane.RefreshSucceeds && k <= LastStart(ws[e].lane.trace)
      ensures ServedAt(hosts, hs[i].moment, ws[e + 1].reading)
    {
      RefreshServes(hosts, ws, hs, i, e);
    }
  }

  /** Every invalidation of an open stream reaches such a refresh or the close: in any run of the lane
      that goes on for four steps, a refresh starts after it. */
  lemma InvalidationReachesRefresh(ss: seq<Lane.Lane>, actions: seq<Lane.Action>, i: nat, j: nat) returns (k: nat)
    requires Lane.IsRun(ss, actions) && i < j < |ss| && actions[i] == Lane.Invalidates && ss[i].active
    requires Lane.LaneSteps(actions[i + 1..j]) >= 4
    ensures |ss[i].trace| < k < |ss[j].trace| && (ss[j].trace[k].RefreshStarted? || ss[j].trace[k].Closed?)
    ensures ss[j].trace[|ss[i].trace|] == Lane.Invalidated
  {
    hide Lane.IsRun;
    Lane.EveryInvalidationServed(ss, actions, i, j);
    var marked := ss[i].trace + [Lane.Invalidated];
    assert marked[|ss[i].trace|] == ss[j].trace[|ss[i].trace|];
    k :| |marked| <= k < |ss[j].trace| && (ss[j].trace[k].RefreshStarted? || ss[j].trace[k].Closed?);
  }

  // ----- The object

  /** The next state: new marks get the time of the reading. */
  function Moved(w: Whole, lane: Lane.Lane, reading: Reading): Whole
    requires |w.times| <= |lane.trace|
  {
    Whole(lane, w.times + seq(|lane.trace| - |w.times|, _ => reading.tick), reading)
  }

  /** What the two may do next: any enabled action of the lane, with answers only to an open read. */
  lemma MovesTo(hosts: nat -> Host, w: Whole, a: Lane.Action, r: Reading)
    requires |w.times| == |w.lane.trace| && InTime(w) && Lane.Enabled(w.lane, a) && !a.Invalidates?
    requires w.reading.tick <= r.tick && Reads(w.lane.at)
    requires a.RefreshSucceeds? ==> CaughtUp(hosts, r) && w.reading.tick < r.tick
    ensures w.lane.trace <= Lane.Step(w.lane, a).trace
    ensures var v := Moved(w, Lane.Step(w.lane, a), r);
            Moves(hosts, w, Happening(a, 0, r), v) && |v.times| == |v.lane.trace| && InTime(v)
  {
    hide Lane.Enabled, Lane.Step, CaughtUp, LastStart;
    Lane.TraceGrows(w.lane, a);
  }

  /** A reader that has caught up with the host has emitted all it keeps from the oldest event on. */
  lemma CaughtUpServes(reader: Reader)
    requires reader.Valid()
    ensures reader.epoch == reader.Seen().epoch && reader.cursor == reader.Seen().cursor ==>
              forall e :: e in reader.Seen().log && reader.oldest <= e.seqNo ==> e in SinceGap(reader.calls)
  {
    hide SinceGap, Heard, Sourced;
    var h := reader.Seen();
    assert ValidHost(h);
  }

  class OpenStream {
    const reader: Reader
    const lane: Lane.StreamLane

    ghost predicate Valid()
      reads this, reader, reader.transport, lane
    {
      reader.Valid() && lane.Valid()
    }

    constructor (reader: Reader, lane: Lane.StreamLane)
      requires reader.Valid() && lane.Valid()
      ensures Valid() && this.reader == reader && this.lane == lane
    {
      this.reader, this.lane := reader, lane;
    }

    /** What the host kept at some moment from the oldest event on, and still keeps, was emitted. */
    ghost predicate Served(moment: nat)
      reads reader, reader.transport
      requires reader.transport.tick > 0
    {
      forall e :: e in reader.transport.hosts(moment).log && e in reader.Seen().log && reader.oldest <= e.seqNo ==>
        e in SinceGap(reader.calls)
    }

    ghost function Now(): Reading
      reads reader, reader.transport
    {
      Reading(reader.transport.tick, reader.epoch, reader.cursor, reader.oldest, SinceGap(reader.calls))
    }

    /** The state of lane and reader, with times for the lane's marks. */
    ghost predicate Shows(w: Whole)
      reads this, reader, reader.transport, lane
    {
      w.lane == lane.Model() && w.reading == Now() && |w.times| == |w.lane.trace| && InTime(w)
    }

    /** The refresh the lane started, to its end: a move of the two together. If it succeeds it has served
        every moment before it started. */
    method RunRefresh(ghost w: Whole) returns (ok: bool, ghost v: Whole)
      requires Valid() && lane.at.Refreshing? && Shows(w)
      modifies reader, reader.transport, lane
      ensures Valid() && Shows(v)
      ensures var a := if ok then Lane.RefreshSucceeds else Lane.RefreshFails;
              Moves(reader.transport.hosts, w, Happening(a, 0, Now()), v)
      ensures ok ==> forall moment: nat :: moment <= old(reader.transport.tick) ==> Served(moment)
    {
      hide Lane.Inv, Lane.Step, SinceGap, Heard, Sourced, LastStart, Moves, InTime;
      ok := reader.Refresh();
      lane.OnRefreshed(ok);
      CaughtUpServes(reader);
      MovesTo(reader.transport.hosts, w, if ok then Lane.RefreshSucceeds else Lane.RefreshFails, Now());
      v := Moved(w, lane.Model(), Now());
    }

    /** The older pages the lane started, to their end: the request is resolved exactly when they came, none
        is read after one that shows a new turn, and what was covered stays covered. */
    method RunOlder(ghost w: Whole) returns (r: CatchUpResult, ghost v: Whole, ghost pages: seq<Page>)
      requires Valid() && lane.at.LoadingOlder? && Shows(w)
      modifies reader, reader.transport, lane
      ensures Valid() && Shows(v)
      ensures var a := Lane.OlderSettles(if r.CaughtUp? then Lane.Resolved else Lane.Rejected);
              Moves(reader.transport.hosts, w, Happening(a, 0, Now()), v)
      ensures ReadsBack(reader.transport, old(reader.transport.tick), old(reader.oldest), old(reader.emittedTurns),
                        pages)
      ensures r.CaughtUp? ==>
                && |pages| == reader.transport.tick - old(reader.transport.tick)
                && StopsWhenShown(old(reader.emittedTurns), old(reader.hasMore), pages)
                && reader.oldest == OldestAfter(old(reader.oldest), pages)
                && SinceGap(reader.calls) == old(SinceGap(reader.calls)) + EventsOf(pages)
      ensures !r.CaughtUp? ==> !StopsWhenShown(old(reader.emittedTurns), old(reader.hasMore), pages)
    {
      hide Lane.Inv, Lane.Step, SinceGap, Heard, Sourced, Covers, LastStart, Moves, InTime;
      hide ReadsBack, StopsWhenShown, OldestAfter, EventsOf;
      r, pages := reader.LoadOlder();
      var outcome := if r.CaughtUp? then Lane.Resolved else Lane.Rejected;
      lane.OnOlderSettled(outcome);
      MovesTo(reader.transport.hosts, w, Lane.OlderSettles(outcome), Now());
      v := Moved(w, lane.Model(), Now());
    }
  }
}
