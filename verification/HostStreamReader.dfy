/** The paging reader of one host-owned stream, against any host that keeps its contract. */
module HostStreamReader {
  import opened Wrappers

  // ----- The host

  /** turn is what streamEventTurnId reads: the turn of a session record. */
  datatype Event = Event(seqNo: int, turn: Option<string>, body: string)

  /** What the host keeps: events in sequence order, the newest sequence it gave out, a bound below
      everything it kept, and whether older history can still be loaded. Epochs are numbered in the
      order the host used them. */
  datatype Host = Host(epoch: nat, log: seq<Event>, cursor: int, floor: int, history: bool, truncated: bool)

  /** parseStreamPage refuses sequences that are not safe integers. */
  const MAX_SAFE_INTEGER: int := 9007199254740991

  predicate ValidHost(h: Host) {
    && (forall i, j :: 0 <= i < j < |h.log| ==> h.log[i].seqNo < h.log[j].seqNo)
    && (forall i :: 0 <= i < |h.log| ==> h.floor <= h.log[i].seqNo <= h.cursor)
    && h.floor <= h.cursor + 1 && h.cursor <= MAX_SAFE_INTEGER
  }

  /** Within an epoch the host appends after its cursor, loads history below everything it had, and may
      drop any event; a new epoch starts over and no epoch comes back. */
  ghost predicate Evolves(a: Host, b: Host) {
    || a.epoch < b.epoch
    || (a.epoch == b.epoch && a.cursor <= b.cursor && b.floor <= a.floor
        && forall e :: e in b.log ==> e in a.log || e.seqNo > a.cursor || e.seqNo < a.floor)
  }

  datatype Request = Latest | After(seqNo: int) | Before(seqNo: int)

  datatype Page = Page(epoch: nat, events: seq<Event>, hasMore: bool, cursor: int, truncated: bool)

  /** How many of the events, oldest first, are below a sequence. */
  function Below(log: seq<Event>, s: int): (n: nat)
    ensures n <= |log| && (n < |log| ==> log[n].seqNo >= s) && (n > 0 ==> log[n - 1].seqNo < s)
  {
    if log == [] then 0
    else if log[|log| - 1].seqNo < s then |log|
    else Below(log[..|log| - 1], s)
  }

  /** One page: at least one event if there is one, at most n, in sequence order. */
  function PageOf(h: Host, q: Request, n: nat): Page {
    var size := if n == 0 then 1 else n;
    if q.After? then
      var k := Below(h.log, q.seqNo + 1);
      var end := if k + size < |h.log| then k + size else |h.log|;
      Page(h.epoch, h.log[k..end], end < |h.log|, h.cursor, h.truncated)
    else
      var m := if q.Latest? then |h.log| else Below(h.log, q.seqNo);
      var start := if m > size then m - size else 0;
      Page(h.epoch, h.log[start..m], start > 0 || h.history, h.cursor, h.truncated)
  }

  datatype Reply = Failed | Answered(page: Page)

  /** The calls to the host, each at its own moment; how the host is then, how it cuts its page and
      whether the call fails is arbitrary. */
  class Transport {
    const hosts: nat -> Host
    const cuts: nat -> nat
    const fails: nat -> bool
    var tick: nat

    ghost predicate Valid() {
      forall t: nat :: ValidHost(hosts(t)) && Evolves(hosts(t), hosts(t + 1))
    }

    constructor (hosts: nat -> Host, cuts: nat -> nat, fails: nat -> bool)
      requires forall t: nat :: ValidHost(hosts(t)) && Evolves(hosts(t), hosts(t + 1))
      ensures Valid() && tick == 0 && this.hosts == hosts && this.cuts == cuts && this.fails == fails
    {
      this.hosts, this.cuts, this.fails, tick := hosts, cuts, fails, 0;
    }

    /** The page the host answers at a moment, if the call does not fail. */
    ghost function AnswerTo(t: nat, q: Request): Page {
      PageOf(hosts(t), q, cuts(t))
    }

    method ReadStream(q: Request) returns (r: Reply)
      modifies this
      ensures tick == old(tick) + 1
      ensures r == if fails(old(tick)) then Failed else Answered(PageOf(hosts(old(tick)), q, cuts(old(tick))))
    {
      r := if fails(tick) then Failed else Answered(PageOf(hosts(tick), q, cuts(tick)));
      tick := tick + 1;
    }
  }

  lemma EvolvesTwice(a: Host, b: Host, c: Host)
    requires Evolves(a, b) && Evolves(b, c)
    ensures Evolves(a, c)
  {
  }

  lemma {:induction false} EvolvesBetween(t: Transport, i: nat, j: nat)
    requires t.Valid() && i <= j
    ensures Evolves(t.hosts(i), t.hosts(j))
    decreases j - i
  {
    if i < j {
      EvolvesBetween(t, i, j - 1);
      EvolvesTwice(t.hosts(i), t.hosts(j - 1), t.hosts(j));
    }
  }

  // ----- What the consumer hears

  datatype Call = OnEvent(event: Event) | OnGap | OnHistory(hasMore: bool, oldest: int, cursor: int, truncated: bool)

  /** The events heard since the last gap. */
  function SinceGap(calls: seq<Call>): seq<Event> {
    if calls == [] then []
    else
      var last := calls[|calls| - 1];
      Told(SinceGap(calls[..|calls| - 1]), last)
  }

  function EventCalls(events: seq<Event>): seq<Call> {
    seq(|events|, i requires 0 <= i < |events| => OnEvent(events[i]))
  }

  /** The turns heard of since the stream was opened. */
  function Heard(calls: seq<Call>): set<string> {
    set i | 0 <= i < |calls| && calls[i].OnEvent? && calls[i].event.turn.Some? :: calls[i].event.turn.value
  }

  lemma CallSnoc(calls: seq<Call>, c: Call)
    ensures SinceGap(calls + [c])
            == Told(SinceGap(calls), c)
  {
    assert (calls + [c])[..|calls|] == calls;
  }

  predicate Distinct(events: seq<Event>) {
    forall i, j :: 0 <= i < j < |events| ==> events[i].seqNo != events[j].seqNo
  }

  /** The reader against the host of its epoch: everything kept from oldest to cursor was emitted since
      the last gap, and nothing twice. */
  ghost predicate Covers(h: Host, epoch: nat, cursor: int, oldest: int, emitted: seq<Event>) {
    && epoch <= h.epoch && oldest <= cursor + 1
    && (forall i :: 0 <= i < |emitted| ==> oldest <= emitted[i].seqNo <= cursor)
    && Distinct(emitted)
    && (epoch == h.epoch ==>
          && cursor <= h.cursor && h.floor <= oldest
          && forall e :: e in h.log && oldest <= e.seqNo <= cursor ==> e in emitted)
  }

  lemma CoversLater(a: Host, b: Host, epoch: nat, cursor: int, oldest: int, emitted: seq<Event>)
    requires Covers(a, epoch, cursor, oldest, emitted) && Evolves(a, b)
    ensures Covers(b, epoch, cursor, oldest, emitted)
  {
  }

  /** These are exactly the kept events between two sequences, each once. */
  predicate Slice(h: Host, lo: int, hi: int, events: seq<Event>) {
    && (forall i :: 0 <= i < |events| ==> lo <= events[i].seqNo <= hi) && Distinct(events)
    && (forall e :: e in h.log && lo <= e.seqNo <= hi ==> e in events)
    && forall i :: 0 <= i < |events| ==> events[i] in h.log
  }

  lemma InOrder(h: Host, i: nat, j: nat)
    requires ValidHost(h) && i <= j < |h.log|
    ensures h.log[i].seqNo <= h.log[j].seqNo && (i < j ==> h.log[i].seqNo < h.log[j].seqNo)
    ensures h.floor <= h.log[i].seqNo && h.log[j].seqNo <= h.cursor
  {
  }

  /** An event of the log between two sequences lies between the positions they cut at. */
  lemma InBetween(h: Host, start: nat, end: nat, lo: int, hi: int, e: Event)
    requires ValidHost(h) && start <= end <= |h.log| && e in h.log && lo <= e.seqNo <= hi
    requires start > 0 ==> h.log[start - 1].seqNo < lo
    requires end < |h.log| ==> hi < h.log[end].seqNo
    ensures e in h.log[start..end]
  {
    hide ValidHost;
    var i :| 0 <= i < |h.log| && h.log[i] == e;
    if i < start {
      InOrder(h, i, start - 1);
    }
    if i >= end {
      InOrder(h, end, i);
    }
    assert h.log[start..end][i - start] == e;
  }

  lemma AtPosition(h: Host, start: nat, end: nat, i: nat, j: nat)
    requires ValidHost(h) && start + i <= start + j < end <= |h.log|
    ensures var s := h.log[start..end];
            && s[i] in h.log && h.log[start].seqNo <= s[i].seqNo <= s[j].seqNo <= h.log[end - 1].seqNo
            && (i < j ==> s[i].seqNo < s[j].seqNo)
  {
    hide ValidHost;
    InOrder(h, start, start + i);
    InOrder(h, start + i, start + j);
    InOrder(h, start + j, end - 1);
  }

  /** Events next to each other in the log are a slice. */
  lemma Consecutive(h: Host, start: nat, end: nat, lo: int, hi: int)
    requires ValidHost(h) && start <= end <= |h.log|
    requires start > 0 ==> h.log[start - 1].seqNo < lo
    requires end < |h.log| ==> hi < h.log[end].seqNo
    requires start < end ==> lo <= h.log[start].seqNo && h.log[end - 1].seqNo <= hi
    ensures Slice(h, lo, hi, h.log[start..end])
  {
    hide ValidHost;
    var events := h.log[start..end];
    forall i, j | 0 <= i <= j < |events|
      ensures events[i] in h.log && lo <= events[i].seqNo <= hi && (i < j ==> events[i].seqNo != events[j].seqNo)
    {
      AtPosition(h, start, end, i, j);
    }
    forall i | 0 <= i < |events| ensures events[i] in h.log && lo <= events[i].seqNo <= hi {
      AtPosition(h, start, end, i, i);
    }
    forall e | e in h.log && lo <= e.seqNo <= hi ensures e in events {
      InBetween(h, start, end, lo, hi, e);
    }
  }

  lemma SliceExtends(h: Host, epoch: nat, cursor: int, oldest: int, emitted: seq<Event>, events: seq<Event>, lo: int,
      hi: int)
    requires epoch == h.epoch && Covers(h, epoch, cursor, oldest, emitted) && Slice(h, lo, hi, events)
    requires (lo == cursor + 1 && cursor <= hi <= h.cursor) || (hi == oldest - 1 && h.floor <= lo <= oldest)
    ensures Covers(h, epoch, if lo == cursor + 1 then hi else cursor,
                   if lo == cursor + 1 then oldest else lo, emitted + events)
  {
    forall e | e in events ensures lo <= e.seqNo <= hi {
    }
  }

  /** A page after the cursor is a piece of the log, without more exactly when it is the last piece. */
  lemma AfterPage(h: Host, cursor: int, n: nat)
    ensures var p, k := PageOf(h, After(cursor), n), Below(h.log, cursor + 1);
            var c := |p.events|;
            && k + c <= |h.log| && p.events == h.log[k..k + c] && (c > 0 ==> p.events[c - 1] == h.log[k + c - 1])
            && (p.hasMore <==> k + c < |h.log|) && (p.hasMore ==> c > 0) && p.cursor == h.cursor
  {
    hide Below;
  }

  /** A page after the cursor extends the covered range to its last event, or to the host's cursor if
      it is the last page. */
  lemma NewerPageCovers(h: Host, epoch: nat, cursor: int, oldest: int, emitted: seq<Event>, n: nat)
    requires ValidHost(h) && epoch == h.epoch && Covers(h, epoch, cursor, oldest, emitted)
    ensures var p := PageOf(h, After(cursor), n);
            var end := if !p.hasMore then p.cursor else p.events[|p.events| - 1].seqNo;
            && (p.hasMore ==> |p.events| > 0) && cursor <= end <= h.cursor
            && (|p.events| > 0 ==> cursor < p.events[|p.events| - 1].seqNo <= end)
            && Slice(h, cursor + 1, end, p.events) && Covers(h, epoch, end, oldest, emitted + p.events)
  {
    hide Covers, Slice, ValidHost, PageOf;
    var p := PageOf(h, After(cursor), n);
    var k, c := Below(h.log, cursor + 1), |p.events|;
    AfterPage(h, cursor, n);
    var end := if !p.hasMore then p.cursor else p.events[c - 1].seqNo;
    CursorBelow(h, epoch, cursor, oldest, emitted);
    if c > 0 {
      InOrder(h, k, k + c - 1);
    }
    if p.hasMore {
      InOrder(h, k + c - 1, k + c);
    }
    Consecutive(h, k, k + c, cursor + 1, end);
    SliceExtends(h, epoch, cursor, oldest, emitted, p.events, cursor + 1, end);
  }

  lemma CursorBelow(h: Host, epoch: nat, cursor: int, oldest: int, emitted: seq<Event>)
    requires epoch == h.epoch && Covers(h, epoch, cursor, oldest, emitted)
    ensures cursor <= h.cursor && h.floor <= oldest <= cursor + 1
  {
  }

  /** A page before a sequence number is the piece of the log that ends there, empty only if nothing is before. */
  lemma BeforePage(h: Host, oldest: int, n: nat) returns (k: nat)
    ensures var p, m := PageOf(h, Before(oldest), n), Below(h.log, oldest);
            && k <= m <= |h.log| && p.events == h.log[k..m] && (k == m <==> p.events == []) && (k == m ==> m == 0)
            && (k < m ==> p.events[0] == h.log[k])
  {
    hide Below;
    var m, size := Below(h.log, oldest), if n == 0 then 1 else n;
    k := if m > size then m - size else 0;
  }

  lemma OlderPageCovers(h: Host, epoch: nat, cursor: int, oldest: int, emitted: seq<Event>, n: nat)
    requires ValidHost(h) && epoch == h.epoch && Covers(h, epoch, cursor, oldest, emitted)
    ensures var p := PageOf(h, Before(oldest), n);
            var start := if |p.events| > 0 then p.events[0].seqNo else oldest;
            && start <= oldest && Slice(h, start, oldest - 1, p.events)
            && Covers(h, epoch, cursor, start, emitted + p.events)
  {
    hide Covers, Slice, ValidHost, PageOf, Below;
    var p, m := PageOf(h, Before(oldest), n), Below(h.log, oldest);
    var k := BeforePage(h, oldest, n);
    CursorBelow(h, epoch, cursor, oldest, emitted);
    if k == m {
      Consecutive(h, k, m, oldest, oldest - 1);
      assert emitted + p.events == emitted;
    } else {
      var start := h.log[k].seqNo;
      InOrder(h, k, m - 1);
      if k > 0 {
        InOrder(h, k - 1, k);
      }
      Consecutive(h, k, m, start, oldest - 1);
      SliceExtends(h, epoch, cursor, oldest, emitted, p.events, start, oldest - 1);
    }
  }

  /** The latest page is the end of the log, empty only if the log is. */
  lemma LatestPage(h: Host, n: nat) returns (k: nat)
    ensures var p, m := PageOf(h, Latest, n), |h.log|;
            && k <= m && p.events == h.log[k..m] && (k == m <==> p.events == []) && (k == m ==> m == 0)
            && (k < m ==> p.events[0] == h.log[k]) && p.epoch == h.epoch && p.cursor == h.cursor
  {
    var m, size := |h.log|, if n == 0 then 1 else n;
    k := if m > size then m - size else 0;
  }

  lemma LatestPageCovers(h: Host, n: nat)
    requires ValidHost(h)
    ensures var p := PageOf(h, Latest, n);
            Covers(h, p.epoch, p.cursor, if |p.events| > 0 then p.events[0].seqNo else p.cursor + 1, p.events)
  {
    hide ValidHost, PageOf;
    var p, m := PageOf(h, Latest, n), |h.log|;
    var k := LatestPage(h, n);
    FloorBelow(h);
    if k == m {
      Consecutive(h, k, m, p.cursor + 1, h.cursor);
    } else {
      InOrder(h, k, m - 1);
      if k > 0 {
        InOrder(h, k - 1, k);
      }
      Consecutive(h, k, m, h.log[k].seqNo, h.cursor);
    }
  }

  lemma FloorBelow(h: Host)
    requires ValidHost(h)
    ensures h.floor <= h.cursor + 1 && h.cursor <= MAX_SAFE_INTEGER
  {
  }

  // ----- One answer

  /** Every event was kept by a host of this epoch that answered before. */
  ghost predicate Sourced(t: Transport, tick: nat, epoch: nat, events: seq<Event>) {
    forall i :: 0 <= i < |events| ==> KeptBefore(t, tick, epoch, events[i])
  }

  ghost predicate KeptBefore(t: Transport, tick: nat, epoch: nat, e: Event) {
    exists age: nat :: age < tick && t.hosts(age).epoch == epoch && e in t.hosts(age).log
  }

  lemma SourcedMore(t: Transport, tick: nat, epoch: nat, events: seq<Event>, more: seq<Event>)
    requires Sourced(t, tick, epoch, events) && (more != [] ==> t.hosts(tick).epoch == epoch)
    requires forall i :: 0 <= i < |more| ==> more[i] in t.hosts(tick).log
    ensures Sourced(t, tick + 1, epoch, events + more)
  {
    forall i | 0 <= i < |events + more| ensures KeptBefore(t, tick + 1, epoch, (events + more)[i]) {
      if i < |events| {
        assert KeptBefore(t, tick, epoch, events[i]);
      }
    }
  }

  lemma FirstAnswer(t: Transport, tick: nat)
    requires t.Valid()
    ensures var p := PageOf(t.hosts(tick), Latest, t.cuts(tick));
            && Covers(t.hosts(tick), p.epoch, p.cursor,
                      if |p.events| > 0 then p.events[0].seqNo else p.cursor + 1, p.events)
            && Sourced(t, tick + 1, p.epoch, p.events) && p.epoch == t.hosts(tick).epoch
               && p.cursor == t.hosts(tick).cursor
  {
    hide Covers;
    var p := PageOf(t.hosts(tick), Latest, t.cuts(tick));
    LatestPageCovers(t.hosts(tick), t.cuts(tick));
    SourcedMore(t, tick, p.epoch, [], p.events);
    assert [] + p.events == p.events;
  }

  /** Whatever was covered still is when the host answers again, whatever it answers. */
  lemma AnotherAnswer(t: Transport, tick: nat, epoch: nat, cursor: int, oldest: int, emitted: seq<Event>)
    requires t.Valid() && tick > 0 && Covers(t.hosts(tick - 1), epoch, cursor, oldest, emitted)
    requires Sourced(t, tick, epoch, emitted)
    ensures Covers(t.hosts(tick), epoch, cursor, oldest, emitted) && Sourced(t, tick + 1, epoch, emitted)
  {
    hide Covers, Evolves, ValidHost;
    CoversLater(t.hosts(tick - 1), t.hosts(tick), epoch, cursor, oldest, emitted);
    SourcedMore(t, tick, epoch, emitted, []);
    assert emitted + [] == emitted;
  }

  lemma NewerAnswer(t: Transport, tick: nat, epoch: nat, cursor: int, oldest: int, emitted: seq<Event>)
    requires t.Valid() && tick > 0 && Covers(t.hosts(tick - 1), epoch, cursor, oldest, emitted)
    requires Sourced(t, tick, epoch, emitted)
    requires t.hosts(tick).epoch == epoch
    ensures var p := PageOf(t.hosts(tick), After(cursor), t.cuts(tick));
            var last := if |p.events| > 0 then Greater(cursor, p.events[|p.events| - 1].seqNo) else cursor;
            var end := if p.hasMore then last else Greater(last, p.cursor);
            && p.epoch == epoch && (if p.hasMore then cursor < end <= MAX_SAFE_INTEGER else end == t.hosts(tick).cursor)
            && Covers(t.hosts(tick), epoch, end, oldest, emitted + p.events)
               && Sourced(t, tick + 1, epoch, emitted + p.events)
  {
    hide Covers, Evolves, ValidHost, Sourced;
    var p := PageOf(t.hosts(tick), After(cursor), t.cuts(tick));
    AnotherAnswer(t, tick, epoch, cursor, oldest, emitted);
    NewerPageCovers(t.hosts(tick), epoch, cursor, oldest, emitted, t.cuts(tick));
    FloorBelow(t.hosts(tick));
    SourcedMore(t, tick, epoch, emitted, p.events);
  }

  function Greater(a: int, b: int): int {
    if a < b then b else a
  }

  lemma OlderAnswer(t: Transport, tick: nat, epoch: nat, cursor: int, oldest: int, emitted: seq<Event>)
    requires t.Valid() && tick > 0 && Covers(t.hosts(tick - 1), epoch, cursor, oldest, emitted)
    requires Sourced(t, tick, epoch, emitted)
    requires t.hosts(tick).epoch == epoch
    ensures var p := PageOf(t.hosts(tick), Before(oldest), t.cuts(tick));
            var start := if |p.events| > 0 then p.events[0].seqNo else oldest;
            && p.epoch == epoch
            && Covers(t.hosts(tick), epoch, cursor, start, emitted + p.events)
               && Sourced(t, tick + 1, epoch, emitted + p.events)
  {
    hide Covers, Evolves, ValidHost, Sourced;
    var p := PageOf(t.hosts(tick), Before(oldest), t.cuts(tick));
    AnotherAnswer(t, tick, epoch, cursor, oldest, emitted);
    OlderPageCovers(t.hosts(tick), epoch, cursor, oldest, emitted, t.cuts(tick));
    SourcedMore(t, tick, epoch, emitted, p.events);
  }

  // ----- The pages of one request of older history

  predicate HasTurn(events: seq<Event>, turn: string) {
    exists i :: 0 <= i < |events| && events[i].turn == Some(turn)
  }

  /** The page shows a turn that was not emitted before the request, nor by an earlier page of it. */
  predicate ShowsNewTurn(turns: set<string>, earlier: seq<Page>, page: Page) {
    exists i :: 0 <= i < |page.events| && page.events[i].turn.Some? && page.events[i].turn.value !in turns
                && forall j :: 0 <= j < |earlier| ==> !HasTurn(earlier[j].events, page.events[i].turn.value)
  }

  /** The oldest sequence after some pages: the first of the last page that is not empty. */
  function OldestAfter(oldest: int, pages: seq<Page>): int {
    if pages == [] then oldest
    else
      var last := pages[|pages| - 1];
      if last.events == [] then OldestAfter(oldest, pages[..|pages| - 1]) else last.events[0].seqNo
  }

  function EventsOf(pages: seq<Page>): seq<Event> {
    if pages == [] then [] else EventsOf(pages[..|pages| - 1]) + pages[|pages| - 1].events
  }

  /** Answers to requests for what is before the oldest event so far, one after the other; the host has more
      history after each but the last, and no page but the last shows a new turn. */
  ghost predicate ReadsBack(t: Transport, from: nat, oldest: int, turns: set<string>, pages: seq<Page>) {
    && (forall k :: 0 <= k < |pages| ==> IsAnswer(t, from, oldest, pages[..k], pages[k]))
    && forall k :: 0 <= k < |pages| - 1 ==> pages[k].hasMore && !ShowsNewTurn(turns, pages[..k], pages[k])
  }

  ghost predicate IsAnswer(t: Transport, from: nat, oldest: int, earlier: seq<Page>, page: Page) {
    page == t.AnswerTo(from + |earlier|, Before(OldestAfter(oldest, earlier)))
  }

  /** It went on until the host had no more, four pages were read or the last one shows a new turn. */
  predicate StopsWhenShown(turns: set<string>, hadMore: bool, pages: seq<Page>) {
    if pages == [] then !hadMore
    else
      var last := pages[|pages| - 1];
      !last.hasMore || |pages| == 4 || ShowsNewTurn(turns, pages[..|pages| - 1], last)
  }

  lemma ReadsOn(t: Transport, from: nat, oldest: int, turns: set<string>, pages: seq<Page>, page: Page)
    requires ReadsBack(t, from, oldest, turns, pages)
    requires page == t.AnswerTo(from + |pages|, Before(OldestAfter(oldest, pages)))
    requires pages != [] ==>
               var n := |pages| - 1; pages[n].hasMore && !ShowsNewTurn(turns, pages[..n], pages[n])
    ensures ReadsBack(t, from, oldest, turns, pages + [page])
    ensures OldestAfter(oldest, pages + [page])
            == if page.events == [] then OldestAfter(oldest, pages) else page.events[0].seqNo
    ensures EventsOf(pages + [page]) == EventsOf(pages) + page.events
  {
    hide ShowsNewTurn, IsAnswer;
    var more, n := pages + [page], |pages|;
    assert IsAnswer(t, from, oldest, pages, page) by { IsAnswerTo(t, from, oldest, pages, page); }
    assert more[..n] == pages;
    forall k | 0 <= k < |more|
      ensures IsAnswer(t, from, oldest, more[..k], more[k])
      ensures k < n ==> more[k].hasMore && !ShowsNewTurn(turns, more[..k], more[k])
    {
      if k < n {
        assert more[..k] == pages[..k] && more[k] == pages[k];
      }
    }
  }

  lemma IsAnswerTo(t: Transport, from: nat, oldest: int, pages: seq<Page>, page: Page)
    requires page == t.AnswerTo(from + |pages|, Before(OldestAfter(oldest, pages)))
    ensures IsAnswer(t, from, oldest, pages, page)
  {
  }

  /** The turns emitted so far, in terms of the pages. */
  ghost predicate Emitted(turns: set<string>, pages: seq<Page>, now: set<string>) {
    forall turn :: turn in now <==> turn in turns || OnPage(pages, turn)
  }

  predicate OnPage(pages: seq<Page>, turn: string) {
    exists j :: 0 <= j < |pages| && HasTurn(pages[j].events, turn)
  }

  lemma OnPageMore(pages: seq<Page>, page: Page, turn: string)
    ensures OnPage(pages + [page], turn) <==> OnPage(pages, turn) || HasTurn(page.events, turn)
  {
    hide HasTurn;
    var more := pages + [page];
    assert forall j :: 0 <= j < |pages| ==> more[j] == pages[j];
    assert more[|pages|] == page;
  }

  lemma EmittedMore(turns: set<string>, pages: seq<Page>, page: Page, now: set<string>, next: set<string>)
    requires Emitted(turns, pages, now)
    requires forall turn :: turn in next <==> turn in now || HasTurn(page.events, turn)
    ensures Emitted(turns, pages + [page], next)
    ensures ShowsOlderTurn(page.events, now) == ShowsNewTurn(turns, pages, page)
  {
    hide HasTurn, OnPage;
    forall turn ensures OnPage(pages + [page], turn) <==> OnPage(pages, turn) || HasTurn(page.events, turn) {
      OnPageMore(pages, page, turn);
    }
    forall i | 0 <= i < |page.events| && page.events[i].turn.Some?
      ensures OnPage(pages, page.events[i].turn.value)
              <==> exists j :: 0 <= j < |pages| && HasTurn(pages[j].events, page.events[i].turn.value)
    {
      OnPageIs(pages, page.events[i].turn.value);
    }
  }

  lemma OnPageIs(pages: seq<Page>, turn: string)
    ensures OnPage(pages, turn) <==> exists j :: 0 <= j < |pages| && HasTurn(pages[j].events, turn)
  {
  }

  lemma HeardPage(before: seq<Call>, after: seq<Call>, events: seq<Event>)
    requires |after| == |before| + |events| && after[..|before|] == before
    requires forall i :: |before| <= i < |after| ==> after[i] == OnEvent(events[i - |before|])
    ensures forall turn :: turn in Heard(after) <==> turn in Heard(before) || HasTurn(events, turn)
  {
    forall turn ensures turn in Heard(after) <==> turn in Heard(before) || HasTurn(events, turn) {
      if turn in Heard(before) {
        var i :| 0 <= i < |before| && before[i].OnEvent? && before[i].event.turn == Some(turn);
        assert after[i].event.turn.value in Heard(after);
      }
      if HasTurn(events, turn) {
        var i :| 0 <= i < |events| && events[i].turn == Some(turn);
        assert after[|before| + i].event.turn.value in Heard(after);
      }
      if turn in Heard(after) {
        var i :| 0 <= i < |after| && after[i].OnEvent? && after[i].event.turn == Some(turn);
        if i < |before| {
          assert before[i] == after[i] && before[i].event.turn.value in Heard(before);
        } else {
          assert events[i - |before|].turn == Some(turn);
        }
      }
    }
  }

  // ----- The reader

  datatype CatchUpResult = CaughtUp | Restarted | Lost

  const MAX_HISTORY_PAGES_PER_REQUEST: nat := 4

  class Reader {
    const transport: Transport
    var epoch: nat
    var cursor: int
    var oldest: int
    var hasMore: bool
    var truncated: bool
    var emittedTurns: set<string>
    /** What the consumer heard, in order. */
    var calls: seq<Call>

    /** What the consumer heard is what the reader remembers, and came from the host of this epoch. */
    ghost predicate Faithful()
      reads this, transport
    {
      && transport.Valid() && emittedTurns == Heard(calls)
      && Sourced(transport, transport.tick, epoch, SinceGap(calls))
    }

    /** The reader covers the host as it was last heard of. */
    ghost predicate Valid()
      reads this, transport
    {
      && Faithful() && transport.tick > 0
      && Covers(transport.hosts(transport.tick - 1), epoch, cursor, oldest, SinceGap(calls))
    }

    constructor (transport: Transport)
      requires transport.Valid()
      ensures Faithful() && calls == [] && this.transport == transport
    {
      this.transport := transport;
      epoch, cursor, oldest, hasMore, truncated, emittedTurns, calls := 0, 0, 1, false, false, {}, [];
    }

    method EmitPage(events: seq<Event>)
      requires emittedTurns == Heard(calls)
      modifies this`calls, this`emittedTurns
      ensures emittedTurns == Heard(calls) && old(emittedTurns) <= emittedTurns
      ensures SinceGap(calls) == old(SinceGap(calls)) + events
      ensures |calls| == |old(calls)| + |events| && calls[..|old(calls)|] == old(calls)
      ensures forall i :: |old(calls)| <= i < |calls| ==> calls[i] == OnEvent(events[i - |old(calls)|])
      ensures calls == old(calls) + EventCalls(events)
    {
      var k := 0;
      while k < |events|
        invariant 0 <= k <= |events| && emittedTurns == Heard(calls) && old(emittedTurns) <= emittedTurns
        invariant SinceGap(calls) == old(SinceGap(calls)) + events[..k]
        invariant |calls| == |old(calls)| + k && calls[..|old(calls)|] == old(calls)
        invariant forall i :: |old(calls)| <= i < |calls| ==> calls[i] == OnEvent(events[i - |old(calls)|])
      {
        Tell(OnEvent(events[k]));
        if events[k].turn.Some? {
          emittedTurns := emittedTurns + {events[k].turn.value};
        }
        k := k + 1;
      }
    }

    method Tell(c: Call)
      modifies this`calls
      ensures calls == old(calls) + [c] && SinceGap(calls) == old(Told(SinceGap(calls), c))
      ensures Heard(calls) == old(Heard(calls)) + if c.OnEvent? && c.event.turn.Some? then {c.event.turn.value} else {}
    {
      CallSnoc(calls, c);
      HeardSnoc(calls, c);
      calls := calls + [c];
    }

    /** The state is that of a latest page just taken over. */
    ghost predicate StartsFrom(page: Page)
      reads this
    {
      && epoch == page.epoch && cursor == page.cursor && SinceGap(calls) == page.events
      && oldest == (if |page.events| > 0 then page.events[0].seqNo else page.cursor + 1)
      && hasMore == page.hasMore && truncated == page.truncated
    }

    /** What the consumer hears of the latest page: its events, then the state of history. */
    ghost function Announced(): seq<Call>
      reads this
    {
      EventCalls(SinceGap(calls)) + [OnHistory(hasMore, oldest, cursor, truncated)]
    }

    /** The host as the last answer showed it. */
    ghost function Seen(): Host
      reads this, transport
      requires transport.tick > 0
    {
      transport.hosts(transport.tick - 1)
    }

    /** The latest page first: the state starts over from it. */
    method Resync() returns (ok: bool)
      requires Faithful() && SinceGap(calls) == []
      modifies this, transport
      ensures Faithful() && transport.tick == old(transport.tick) + 1
      ensures ok == !transport.fails(old(transport.tick))
      ensures ok ==> Valid() && StartsFrom(transport.AnswerTo(old(transport.tick), Latest))
      ensures ok ==> epoch == Seen().epoch && cursor == Seen().cursor
      ensures !ok ==> SinceGap(calls) == [] && epoch == old(epoch) && cursor == old(cursor) && oldest == old(oldest)
      ensures old(emittedTurns) <= emittedTurns
      ensures calls == old(calls) + if ok then Announced() else []
    {
      hide Covers, PageOf, Heard, SinceGap, Sourced, Transport.Valid;
      ghost var t := transport.tick;
      var r := transport.ReadStream(Latest);
      NothingSourced(transport, t + 1, epoch);
      if r.Failed? {
        return false;
      }
      var page := r.page;
      FirstAnswer(transport, t);
      epoch := page.epoch;
      cursor := page.cursor;
      oldest := if |page.events| > 0 then page.events[0].seqNo else page.cursor + 1;
      hasMore := page.hasMore;
      truncated := page.truncated;
      EmitPage(page.events);
      Tell(OnHistory(hasMore, oldest, cursor, truncated));
      assert [] + page.events == page.events;
      assert old(calls) + EventCalls(page.events) + [OnHistory(hasMore, oldest, cursor, truncated)]
          == old(calls) + Announced();
      return true;
    }

    /** Reads after the cursor until the host has no more: terminates because every page with more to
        come moves the cursor. */
    method CatchUp() returns (r: CatchUpResult)
      requires Valid()
      modifies this, transport
      ensures Valid() && transport.tick > old(transport.tick) && epoch == old(epoch) && oldest == old(oldest)
      ensures r.CaughtUp? ==> epoch == Seen().epoch && cursor == Seen().cursor
      ensures r.Restarted? ==> epoch != Seen().epoch
      ensures !transport.fails(old(transport.tick)) && transport.hosts(old(transport.tick)).epoch != old(epoch) ==>
                r.Restarted? && transport.tick == old(transport.tick) + 1 && calls == old(calls)
      ensures old(emittedTurns) <= emittedTurns
      ensures OnlyEvents(old(calls), calls) && hasMore == old(hasMore) && truncated == old(truncated)
    {
      hide Covers, PageOf, Heard, SinceGap, Sourced, Transport.Valid, EventCalls;
      while true
        invariant Valid() && transport.tick >= old(transport.tick) && epoch == old(epoch) && oldest == old(oldest)
        invariant old(emittedTurns) <= emittedTurns
        invariant OnlyEvents(old(calls), calls) && hasMore == old(hasMore) && truncated == old(truncated)
        invariant transport.tick > old(transport.tick) ==>
                    transport.fails(old(transport.tick)) || transport.hosts(old(transport.tick)).epoch == old(epoch)
        invariant transport.tick == old(transport.tick) ==> calls == old(calls)
        decreases MAX_SAFE_INTEGER - cursor
      {
        ghost var t, was := transport.tick, SinceGap(calls);
        var reply := transport.ReadStream(After(cursor));
        AnotherAnswer(transport, t, epoch, cursor, oldest, was);
        if reply.Failed? {
          return Lost;
        }
        var page := reply.page;
        PageEpoch(transport.hosts(t), After(cursor), transport.cuts(t));
        if page.epoch != epoch {
          return Restarted;
        }
        NewerAnswer(transport, t, epoch, cursor, oldest, was);
        EmitPage(page.events);
        if |page.events| > 0 {
          cursor := Greater(cursor, page.events[|page.events| - 1].seqNo);
        }
        if !page.hasMore {
          cursor := Greater(cursor, page.cursor);
          return CaughtUp;
        }
      }
    }

    /** After a refresh everything the host keeps from oldest on was emitted since the last gap. */
    method Refresh() returns (ok: bool)
      requires Valid()
      modifies this, transport
      ensures Faithful() && transport.tick > old(transport.tick)
      ensures Valid() && (ok ==> epoch == Seen().epoch && cursor == Seen().cursor)
      ensures old(emittedTurns) <= emittedTurns
      ensures var t := old(transport.tick);
              !transport.fails(t) && transport.hosts(t).epoch != old(epoch) && !transport.fails(t + 1) ==>
                ok && transport.tick == t + 2 && StartsFrom(transport.AnswerTo(t + 1, Latest))
      ensures ok && epoch == old(epoch) ==> OnlyEvents(old(calls), calls)
      ensures ok && epoch != old(epoch) ==>
                exists k :: |old(calls)| <= k < |calls| && OnlyEvents(old(calls), calls[..k])
                            && calls[k..] == [OnGap] + Announced()
    {
      hide PageOf, Heard, SinceGap, Sourced, Transport.Valid, EventCalls;
      var caught := CatchUp();
      if caught != Restarted {
        return caught.CaughtUp?;
      }
      ghost var k := |calls|;
      ok := Restart();
      if ok {
        assert calls[..k] + calls[k..] == calls;
      }
    }

    /** The gap and the resync after it. When the resync fails, nothing counts as emitted any more and
        the epoch stays the old one, so that the next read finds the gap again. */
    method Restart() returns (ok: bool)
      requires Valid() && epoch != Seen().epoch
      modifies this, transport
      ensures Valid() && transport.tick == old(transport.tick) + 1
      ensures if ok then epoch == Seen().epoch && cursor == Seen().cursor
              else SinceGap(calls) == [] && epoch == old(epoch) && epoch != Seen().epoch
      ensures old(emittedTurns) <= emittedTurns
      ensures ok == !transport.fails(old(transport.tick))
      ensures ok ==> StartsFrom(transport.AnswerTo(old(transport.tick), Latest))
      ensures calls == old(calls) + [OnGap] + if ok then Announced() else []
      ensures ok ==> epoch != old(epoch)
    {
      hide PageOf, Heard, SinceGap, Sourced, Transport.Valid, EventCalls;
      ghost var t := transport.tick;
      NewEpochStays(transport, t - 1, epoch);
      Tell(OnGap);
      NothingSourced(transport, transport.tick, epoch);
      ok := Resync();
    }

    /** Emits a page of older history and moves the oldest event down to its first one. */
    method TakeOlderPage(page: Page) returns (shows: bool)
      requires emittedTurns == Heard(calls)
      modifies this`calls, this`emittedTurns, this`oldest, this`hasMore, this`truncated
      ensures emittedTurns == Heard(calls) && SinceGap(calls) == old(SinceGap(calls)) + page.events
      ensures oldest == if |page.events| > 0 then page.events[0].seqNo else old(oldest)
      ensures hasMore == page.hasMore && truncated == page.truncated
      ensures old(emittedTurns) <= emittedTurns && (shows ==> Grew(old(emittedTurns), emittedTurns))
      ensures shows == ShowsOlderTurn(page.events, old(emittedTurns))
      ensures forall turn :: turn in emittedTurns <==> turn in old(emittedTurns) || HasTurn(page.events, turn)
      ensures OnlyEvents(old(calls), calls)
    {
      hide Heard, SinceGap, ShowsOlderTurn, Grew, HasTurn, EventCalls;
      ghost var heard := emittedTurns;
      shows := ShowsOlderTurn(page.events, emittedTurns);
      EmitPage(page.events);
      NewTurnHeard(heard, calls, page.events);
      HeardPage(old(calls), calls, page.events);
      if |page.events| > 0 {
        oldest := page.events[0].seqNo;
      }
      hasMore := page.hasMore;
      truncated := page.truncated;
    }

    /** One page before the oldest event; shows tells whether it holds a turn never emitted before. */
    method ReadOlderPage() returns (r: CatchUpResult, shows: bool)
      requires Valid()
      modifies this, transport
      ensures Valid() && old(transport.tick) < transport.tick <= old(transport.tick) + if r.CaughtUp? then 1 else 2
      ensures r.CaughtUp? ==> epoch == old(epoch) == Seen().epoch && cursor == old(cursor) && oldest <= old(oldest)
      ensures old(emittedTurns) <= emittedTurns
      ensures r.CaughtUp? && shows ==> Grew(old(emittedTurns), emittedTurns)
      ensures r.CaughtUp? ==> OnlyEvents(old(calls), calls)
      ensures r.Restarted? ==> epoch == Seen().epoch
      ensures r.CaughtUp? == (!transport.fails(old(transport.tick))
          && transport.hosts(old(transport.tick)).epoch == old(epoch))
      ensures r.CaughtUp? ==>
                var page := transport.AnswerTo(old(transport.tick), Before(old(oldest)));
                && SinceGap(calls) == old(SinceGap(calls)) + page.events
                && shows == ShowsOlderTurn(page.events, old(emittedTurns))
                && (forall turn :: turn in emittedTurns <==> turn in old(emittedTurns) || HasTurn(page.events, turn))
                && oldest == (if page.events == [] then old(oldest) else page.events[0].seqNo)
                && hasMore == page.hasMore && truncated == page.truncated
    {
      hide HasTurn, PageOf, Heard, SinceGap, Sourced, Transport.Valid, Covers, Grew, OnlyEvents, ShowsOlderTurn;
      ghost var t, was := transport.tick, SinceGap(calls);
      var reply := transport.ReadStream(Before(oldest));
      AnotherAnswer(transport, t, epoch, cursor, oldest, was);
      if reply.Failed? {
        return Lost, false;
      }
      var page := reply.page;
      PageEpoch(transport.hosts(t), Before(oldest), transport.cuts(t));
      if page.epoch != epoch {
        var ok := Restart();
        return if ok then Restarted else Lost, false;
      }
      OlderAnswer(transport, t, epoch, cursor, oldest, was);
      OldestGoesDown(transport, t, oldest);
      shows := TakeOlderPage(page);
      return CaughtUp, shows;
    }

    /** One request of older history: at most four pages, until one shows a turn never emitted before.
        Everything up to the new oldest event stays covered; the consumer hears one history report. */
    method LoadOlder() returns (r: CatchUpResult, ghost pages: seq<Page>)
      requires Valid()
      modifies this, transport
      ensures Valid()
      ensures old(transport.tick) <= transport.tick <= old(transport.tick) + MAX_HISTORY_PAGES_PER_REQUEST + 1
      ensures r.CaughtUp? ==>
                && epoch == old(epoch) && cursor == old(cursor) && oldest <= old(oldest)
                && (transport.tick > old(transport.tick) ==> epoch == Seen().epoch)
                && transport.tick <= old(transport.tick) + MAX_HISTORY_PAGES_PER_REQUEST
      ensures r.CaughtUp? ==>
                || !hasMore || transport.tick == old(transport.tick) + MAX_HISTORY_PAGES_PER_REQUEST
                || Grew(old(emittedTurns), emittedTurns)
      ensures r.CaughtUp? ==>
                if transport.tick == old(transport.tick) then calls == old(calls)
                else && |calls| > 0 && calls[|calls| - 1] == OnHistory(hasMore, oldest, cursor, truncated)
                     && OnlyEvents(old(calls), calls[..|calls| - 1])
      ensures r.Restarted? ==> epoch == Seen().epoch
      ensures ReadsBack(transport, old(transport.tick), old(oldest), old(emittedTurns), pages)
      ensures r.CaughtUp? ==>
                && |pages| == transport.tick - old(transport.tick)
                && StopsWhenShown(old(emittedTurns), old(hasMore), pages)
                && oldest == OldestAfter(old(oldest), pages)
                && SinceGap(calls) == old(SinceGap(calls)) + EventsOf(pages)
                && hasMore == (if pages == [] then old(hasMore) else pages[|pages| - 1].hasMore)
      ensures !r.CaughtUp? ==>
                && |pages| < MAX_HISTORY_PAGES_PER_REQUEST && !StopsWhenShown(old(emittedTurns), old(hasMore), pages)
                && var t := old(transport.tick) + |pages|;
                   transport.fails(t) || transport.hosts(t).epoch != old(epoch)
    {
      hide PageOf, Heard, SinceGap, Sourced, Transport.Valid, Covers, HasTurn, ShowsNewTurn, ShowsOlderTurn, ReadsBack;
      hide EventsOf, OldestAfter, Transport.AnswerTo, Emitted, OnPage, IsAnswer;
      var count := 0;
      pages := [];
      StartsReading(transport, transport.tick, oldest, emittedTurns);
      while hasMore && count < MAX_HISTORY_PAGES_PER_REQUEST
        invariant Valid() && count <= MAX_HISTORY_PAGES_PER_REQUEST && transport.tick == old(transport.tick) + count
        invariant epoch == old(epoch) && cursor == old(cursor) && oldest <= old(oldest)
        invariant count > 0 ==> epoch == Seen().epoch
        invariant old(emittedTurns) <= emittedTurns
        invariant OnlyEvents(old(calls), calls)
        invariant count == 0 ==> calls == old(calls)
        invariant count == |pages| && Emitted(old(emittedTurns), pages, emittedTurns)
        invariant ReadsBack(transport, old(transport.tick), old(oldest), old(emittedTurns), pages)
        invariant oldest == OldestAfter(old(oldest), pages) && SinceGap(calls) == old(SinceGap(calls)) + EventsOf(pages)
        invariant hasMore == if pages == [] then old(hasMore) else pages[|pages| - 1].hasMore
        invariant pages != [] ==> !ShowsNewTurn(old(emittedTurns), pages[..|pages| - 1], pages[|pages| - 1])
        decreases MAX_HISTORY_PAGES_PER_REQUEST - count
      {
        ghost var turns, page := emittedTurns, transport.AnswerTo(transport.tick, Before(oldest));
        var result, shows := ReadOlderPage();
        if !result.CaughtUp? {
          return result, pages;
        }
        count := count + 1;
        ReadsOn(transport, old(transport.tick), old(oldest), old(emittedTurns), pages, page);
        EmittedMore(old(emittedTurns), pages, page, turns, emittedTurns);
        assert (pages + [page])[..|pages|] == pages;
        pages := pages + [page];
        if shows {
          break;
        }
      }
      if count > 0 {
        Tell(OnHistory(hasMore, oldest, cursor, truncated));
      }
      return CaughtUp, pages;
    }
  }

  predicate ShowsOlderTurn(events: seq<Event>, emittedTurns: set<string>) {
    exists i :: 0 <= i < |events| && events[i].turn.Some? && events[i].turn.value !in emittedTurns
  }

  lemma StartsReading(t: Transport, from: nat, oldest: int, turns: set<string>)
    ensures ReadsBack(t, from, oldest, turns, []) && Emitted(turns, [], turns)
    ensures OldestAfter(oldest, []) == oldest && EventsOf([]) == []
  {
  }

  /** The later calls are the earlier ones and then events. */
  predicate OnlyEvents(before: seq<Call>, after: seq<Call>) {
    before <= after && forall i :: |before| <= i < |after| ==> after[i].OnEvent?
  }

  predicate Grew(before: set<string>, after: set<string>) {
    exists turn :: turn in after && turn !in before
  }

  lemma NewTurnHeard(before: set<string>, calls: seq<Call>, events: seq<Event>)
    requires |events| <= |calls|
    requires forall i :: 0 <= i < |events| ==> calls[|calls| - |events| + i] == OnEvent(events[i])
    ensures ShowsOlderTurn(events, before) ==> Grew(before, Heard(calls))
  {
    if ShowsOlderTurn(events, before) {
      var i :| 0 <= i < |events| && events[i].turn.Some? && events[i].turn.value !in before;
      assert calls[|calls| - |events| + i].event.turn.value in Heard(calls);
    }
  }

  lemma OldestGoesDown(t: Transport, tick: nat, oldest: int)
    requires t.Valid()
    ensures var p := PageOf(t.hosts(tick), Before(oldest), t.cuts(tick)); |p.events| > 0 ==> p.events[0].seqNo < oldest
  {
    hide ValidHost;
    var h := t.hosts(tick);
    var p := PageOf(h, Before(oldest), t.cuts(tick));
    var m := Below(h.log, oldest);
    if |p.events| > 0 {
      assert p.events[0] == h.log[m - |p.events|];
      InOrder(h, m - |p.events|, m - 1);
    }
  }

  lemma NewEpochStays(t: Transport, tick: nat, epoch: nat)
    requires t.Valid() && epoch < t.hosts(tick).epoch
    ensures epoch < t.hosts(tick + 1).epoch
  {
    assert Evolves(t.hosts(tick), t.hosts(tick + 1));
  }

  lemma PageEpoch(h: Host, q: Request, n: nat)
    ensures PageOf(h, q, n).epoch == h.epoch
  {
  }

  lemma NothingSourced(t: Transport, tick: nat, epoch: nat)
    ensures Sourced(t, tick, epoch, [])
  {
  }

  /** The events since the last gap after one more call. */
  function Told(before: seq<Event>, c: Call): seq<Event> {
    if c.OnGap? then [] else if c.OnEvent? then before + [c.event] else before
  }

  lemma HeardSnoc(calls: seq<Call>, c: Call)
    ensures Heard(calls + [c]) == Heard(calls) + if c.OnEvent? && c.event.turn.Some? then {c.event.turn.value} else {}
  {
    var all := calls + [c];
    forall t | t in Heard(calls) ensures t in Heard(all) {
      var i :| 0 <= i < |calls| && calls[i].OnEvent? && calls[i].event.turn.Some? && calls[i].event.turn.value == t;
      assert all[i] == calls[i];
    }
    if c.OnEvent? && c.event.turn.Some? {
      assert all[|calls|] == c;
    }
  }

  // ----- What it means for the consumer

  /** If the host dropped nothing, the covered events are exactly the kept ones. */
  lemma CoveredExactly(t: Transport, tick: nat, epoch: nat, cursor: int, oldest: int, emitted: seq<Event>, e: Event)
    requires t.Valid() && tick > 0 && Covers(t.hosts(tick - 1), epoch, cursor, oldest, emitted)
    requires Sourced(t, tick, epoch, emitted)
    requires t.hosts(tick - 1).epoch == epoch
    requires forall i: nat, j: nat, x :: i <= j && t.hosts(i).epoch == t.hosts(j).epoch && x in t.hosts(i).log ==>
        x in t.hosts(j).log
    ensures e in emitted <==> e in t.hosts(tick - 1).log && oldest <= e.seqNo <= cursor
  {
    if e in emitted {
      var i :| 0 <= i < |emitted| && emitted[i] == e;
      assert KeptBefore(t, tick, epoch, e);
    }
  }

  /** hintIsNew */
  predicate HintIsNew(epoch: nat, cursor: int, hintEpoch: nat, hintCursor: int) {
    hintEpoch != epoch || hintCursor > cursor
  }

  /** A hint that is not new tells of nothing unread: everything the host kept from oldest on, when it
      sent the hint, was emitted unless it is gone by now. */
  lemma OldHintLosesNothing(t: Transport, sent: nat, now: nat, epoch: nat, cursor: int, oldest: int,
      emitted: seq<Event>, e: Event)
    requires t.Valid() && sent <= now && Covers(t.hosts(now), epoch, cursor, oldest, emitted)
    requires t.hosts(now).epoch == epoch
    requires !HintIsNew(epoch, cursor, t.hosts(sent).epoch, t.hosts(sent).cursor)
    requires e in t.hosts(sent).log && e in t.hosts(now).log && oldest <= e.seqNo
    ensures e in emitted
  {
    var i :| 0 <= i < |t.hosts(sent).log| && t.hosts(sent).log[i] == e;
    InOrder(t.hosts(sent), i, i);
  }

  /** Once the reader has caught up with the host, a hint the host sent before in this epoch is not new, so no
      further refresh follows from it. */
  lemma CaughtUpHintIsOld(t: Transport, sent: nat, now: nat)
    requires t.Valid() && sent <= now && t.hosts(sent).epoch == t.hosts(now).epoch
    ensures !HintIsNew(t.hosts(now).epoch, t.hosts(now).cursor, t.hosts(sent).epoch, t.hosts(sent).cursor)
  {
    EvolvesBetween(t, sent, now);
  }

  // ----- Turns emitted before a gap

  /** The page shows a turn that the transcript, that is the events since the last gap, does not have. */
  predicate ShowsMissingTurn(events: seq<Event>, transcript: seq<Event>) {
    exists i :: 0 <= i < |events| && events[i].turn.Some? && !HasTurn(transcript, events[i].turn.value)
  }

  lemma {:induction false} TranscriptWasHeard(calls: seq<Call>, turn: string)
    requires HasTurn(SinceGap(calls), turn)
    ensures turn in Heard(calls)
  {
    if calls != [] {
      var front, last := calls[..|calls| - 1], calls[|calls| - 1];
      assert calls == front + [last];
      HeardSnoc(front, last);
      if last.OnEvent? && last.event.turn == Some(turn) {
      } else {
        if last.OnEvent? {
          TurnInFront(SinceGap(front), last.event, turn);
        }
        TranscriptWasHeard(front, turn);
      }
    }
  }

  lemma TurnInFront(events: seq<Event>, e: Event, turn: string)
    requires HasTurn(events + [e], turn) && e.turn != Some(turn)
    ensures HasTurn(events, turn)
  {
    var i :| 0 <= i < |events + [e]| && (events + [e])[i].turn == Some(turn);
    assert events[i].turn == Some(turn);
  }

  /** A page counts as progress when it shows a turn missing from the transcript, except that turns heard
      only before the last gap do not count: the two tests agree on a page exactly when it has no such
      turn, or also has a turn never heard at all. */
  lemma ProgressExactly(calls: seq<Call>, events: seq<Event>)
    ensures (ShowsOlderTurn(events, Heard(calls)) <==> ShowsMissingTurn(events, SinceGap(calls)))
            <==> ((forall i :: 0 <= i < |events| && events[i].turn.Some? && events[i].turn.value in Heard(calls) ==>
                     HasTurn(SinceGap(calls), events[i].turn.value))
                  || exists i :: 0 <= i < |events| && events[i].turn.Some? && events[i].turn.value !in Heard(calls))
  {
    hide Heard, SinceGap, HasTurn;
    forall i | 0 <= i < |events| && events[i].turn.Some? && HasTurn(SinceGap(calls), events[i].turn.value)
      ensures events[i].turn.value in Heard(calls)
    {
      TranscriptWasHeard(calls, events[i].turn.value);
    }
  }

  const FIRST: Event := Event(1, Some("t"), "")
  const SECOND: Event := Event(2, Some("u"), "")

  /** A host with one turn, which restarts with two. */
  function RestartingHost(t: nat): Host {
    if t == 0 then Host(0, [FIRST], 1, 1, false, false) else Host(1, [FIRST, SECOND], 2, 1, false, false)
  }

  lemma RestartingPages()
    ensures PageOf(RestartingHost(0), Latest, 1) == Page(0, [FIRST], false, 1, false)
    ensures PageOf(RestartingHost(2), Latest, 1) == Page(1, [SECOND], true, 2, false)
    ensures PageOf(RestartingHost(3), Before(2), 1) == Page(1, [FIRST], false, 2, false)
  {
    assert Below([FIRST, SECOND], 2) == 1 by {
      assert [FIRST, SECOND][..1] == [FIRST];
    }
    assert [FIRST][0..1] == [FIRST] && [FIRST, SECOND][1..2] == [SECOND] && [FIRST, SECOND][0..1] == [FIRST];
  }

  lemma FirstTurnMissing()
    ensures HasTurn([FIRST], "t") && ShowsMissingTurn([FIRST], [SECOND])
    ensures forall heard: set<string> :: "t" in heard ==> !ShowsOlderTurn([FIRST], heard)
  {
    assert [FIRST][0].turn == Some("t") && "t" != "u";
  }

  /** The stream is opened, the host restarts and the refresh starts over with its latest page. Then a
      page of history brings back the first turn, which the transcript lost at the gap; the page does
      not count as progress. */
  method RestartHidesProgress() returns (reader: Reader, page: seq<Event>, shows: bool)
    ensures fresh(reader) && page == [FIRST] && SinceGap(reader.calls) == [SECOND] + page
    ensures ShowsMissingTurn(page, [SECOND]) && !shows
  {
    hide Heard, SinceGap, Sourced, Covers, PageOf, HasTurn, ShowsMissingTurn, ShowsOlderTurn, OnlyEvents, Grew;
    hide ValidHost;
    RestartingIsValid();
    var transport := new Transport(RestartingHost, _ => 1, _ => false);
    reader := new Reader(transport);
    NothingHeard();
    RestartingPages();
    FirstTurnMissing();
    var ready := reader.Resync();
    LatestHeard(reader, "t");
    var refreshed := reader.Refresh();
    var r;
    r, shows := reader.ReadOlderPage();
    page := [FIRST];
  }

  lemma RestartingIsValid()
    ensures forall t: nat :: ValidHost(RestartingHost(t)) && Evolves(RestartingHost(t), RestartingHost(t + 1))
  {
  }

  lemma NothingHeard()
    ensures SinceGap([]) == []
  {
  }

  lemma LatestHeard(reader: Reader, turn: string)
    requires reader.Faithful() && HasTurn(SinceGap(reader.calls), turn)
    ensures turn in reader.emittedTurns
  {
    TranscriptWasHeard(reader.calls, turn);
  }
}
