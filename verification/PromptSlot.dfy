/** The in-flight prompt of one ACP session and how it is settled. */
module PromptSlot {
  import opened Wrappers

  // ----- State

  datatype TurnEnd = Completed | MaxTokens | Aborted | Interrupted | Blocked | Error(message: string)

  datatype StopReason = EndTurn | MaxTokensStop | Cancelled

  /** turnEndToStopReason */
  function StopOf(e: TurnEnd): StopReason {
    match e
    case MaxTokens => MaxTokensStop
    case Interrupted => Cancelled
    case _ => EndTurn
  }

  /** A prompt is named by the id of the message it queued. */
  datatype Inflight = Inflight(messageId: nat, turn: Option<nat>, endReason: Option<TurnEnd>)

  datatype Outcome = Resolved(reason: StopReason) | Rejected(message: string)

  datatype Settlement = Settlement(messageId: nat, outcome: Outcome)

  /** The slot of the session record, whether the bridge still knows the session, the prompts whose idle
      wait is still to run, and what happened so far. */
  datatype Slot = Slot(inflight: Option<Inflight>, open: bool, waits: set<nat>,
                       accepted: seq<nat>, settled: seq<Settlement>, log: seq<Event>)

  datatype Event =
    | PromptSent(messageId: nat)
    | PromptThrows(messageId: nat, detail: string)
    | CancelRequested
    | Claimed(messageId: nat, turn: nat)
    | TurnEnded(turn: nat, reason: TurnEnd)
    | AgentFailed(failedTurn: Option<nat>, message: string)
    | IdleReached(messageId: nat)
    | Disposed

  const CREATED: Slot := Slot(None, true, {}, [], [], [])

  // ----- Handlers

  function Settle(s: Slot, o: Outcome): Slot
    requires s.inflight.Some?
  {
    s.(inflight := None, settled := s.settled + [Settlement(s.inflight.value.messageId, o)])
  }

  /** settlePrompt */
  function SettlePrompt(s: Slot): Slot {
    if s.inflight.None? then s else Settle(s, Resolved(Cancelled))
  }

  function OnClaimed(s: Slot, messageId: nat, turn: nat): Slot {
    if s.open && s.inflight.Some? && s.inflight.value.messageId == messageId
    then s.(inflight := Some(s.inflight.value.(turn := Some(turn)))) else s
  }

  function OnTurnEnd(s: Slot, turn: nat, reason: TurnEnd): Slot {
    if !s.open || s.inflight.None? || s.inflight.value.turn != Some(turn) then s
    else if reason.Error? then Settle(s, Rejected("turn failed: " + reason.message))
    else s.(inflight := Some(s.inflight.value.(endReason := Some(reason))))
  }

  function OnAgentError(s: Slot, turn: Option<nat>, message: string): Slot {
    if !s.open || s.inflight.None? || s.inflight.value.turn == turn then s
    else Settle(s, Rejected("turn failed: " + message))
  }

  /** What the idle wait of a prompt does: nothing unless the prompt still holds the slot. */
  function OnIdle(s: Slot, messageId: nat): Slot {
    var t := s.(waits := s.waits - {messageId});
    if s.inflight.None? || s.inflight.value.messageId != messageId then t
    else
      match s.inflight.value.endReason
      case None => Settle(t, Resolved(Cancelled))
      case Some(MaxTokens) => Settle(t, Resolved(EndTurn))
      case Some(end) => Settle(t, Resolved(StopOf(end)))
  }

  function OnPrompt(s: Slot, messageId: nat): Slot {
    s.(inflight := Some(Inflight(messageId, None, None)), waits := s.waits + {messageId},
        accepted := s.accepted + [messageId])
  }

  /** followup refuses the message: the slot is freed again. */
  function OnPromptThrows(s: Slot, messageId: nat, detail: string): Slot {
    s.(accepted := s.accepted + [messageId],
       settled := s.settled + [Settlement(messageId, Rejected("prompt was not queued: " + detail))])
  }

  function Handle(s: Slot, e: Event): Slot {
    match e
    case PromptSent(messageId) => OnPrompt(s, messageId)
    case PromptThrows(messageId, detail) => OnPromptThrows(s, messageId, detail)
    case CancelRequested => if s.open then SettlePrompt(s) else s
    case Claimed(messageId, turn) => OnClaimed(s, messageId, turn)
    case TurnEnded(turn, reason) => OnTurnEnd(s, turn, reason)
    case AgentFailed(turn, message) => OnAgentError(s, turn, message)
    case IdleReached(messageId) => OnIdle(s, messageId)
    case Disposed => SettlePrompt(s).(open := false)
  }

  function Step(s: Slot, e: Event): Slot {
    Handle(s, e).(log := s.log + [e])
  }

  /** A prompt is accepted only into a free slot of an open bridge, under a new message id; an idle wait
      runs once. The agent may do anything in any order. */
  predicate Enabled(s: Slot, e: Event) {
    match e
    case PromptSent(messageId) => s.open && s.inflight.None? && messageId !in s.accepted
    case PromptThrows(messageId, _) => s.open && s.inflight.None? && messageId !in s.accepted
    case IdleReached(messageId) => messageId in s.waits
    case _ => true
  }

  // ----- What every state keeps

  function Ids(s: seq<Settlement>): seq<nat> {
    seq(|s|, i requires 0 <= i < |s| => s[i].messageId)
  }

  function Held(s: Slot): seq<nat> {
    if s.inflight.Some? then [s.inflight.value.messageId] else []
  }

  /** The accepted prompts are the settled ones and the one in the slot, each once; while the slot is
      held, the idle wait of its prompt is still to run. */
  predicate SlotKept(s: Slot) {
    && multiset(s.accepted) == multiset(Ids(s.settled)) + multiset(Held(s))
    && (forall id :: id in s.waits ==> id in s.accepted)
    && (s.inflight.Some? ==> s.open && s.inflight.value.messageId in s.waits)
  }

  // ----- The story the events tell of one prompt

  /** Since the prompt was sent: the last turn that claimed it, and the last ordinary ending of a turn
      while that turn was the one that had claimed it. */
  datatype Story = Story(turn: Option<nat>, ending: Option<TurnEnd>)

  function StoryOf(log: seq<Event>, messageId: nat): Story {
    if log == [] then Story(None, None)
    else
      var before := StoryOf(log[..|log| - 1], messageId);
      match log[|log| - 1]
      case PromptSent(id) => if id == messageId then Story(None, None) else before
      case Claimed(id, turn) => if id == messageId then before.(turn := Some(turn)) else before
      case TurnEnded(turn, reason) =>
        if before.turn == Some(turn) && !reason.Error? then before.(ending := Some(reason)) else before
      case _ => before
  }

  /** The outcome an event calls for while the prompt holds the slot: cancelled on request and on
      disposal; rejected by the error of the turn that claimed it and by a failing agent in any other
      turn; and when its own idle wait has run, cancelled without an ending or after an interrupted
      turn, the end of the turn otherwise, token limit included. */
  function OutcomeOf(story: Story, messageId: nat, e: Event): Option<Outcome> {
    match e
    case CancelRequested => Some(Resolved(Cancelled))
    case Disposed => Some(Resolved(Cancelled))
    case TurnEnded(turn, Error(message)) =>
      if story.turn == Some(turn) then Some(Rejected("turn failed: " + message)) else None
    case AgentFailed(turn, message) => if story.turn == turn then None else Some(Rejected("turn failed: " + message))
    case IdleReached(id) =>
      if id != messageId then None
      else if story.ending.None? || story.ending.value.Interrupted? then Some(Resolved(Cancelled))
      else Some(Resolved(EndTurn))
    case _ => None
  }

  /** The slot remembers the story of the prompt that holds it; no ending it kept is an error. */
  predicate TellsStory(s: Slot) {
    s.inflight.Some? ==>
      && s.open && Story(s.inflight.value.turn, s.inflight.value.endReason)
         == StoryOf(s.log, s.inflight.value.messageId)
  }

  predicate Inv(s: Slot) {
    SlotKept(s) && TellsStory(s)
  }

  lemma IdsSnoc(s: seq<Settlement>, x: Settlement)
    ensures Ids(s + [x]) == Ids(s) + [x.messageId]
  {
  }

  lemma SettleKeeps(s: Slot, o: Outcome)
    requires s.inflight.Some? && multiset(s.accepted) == multiset(Ids(s.settled)) + multiset(Held(s))
    ensures multiset(s.accepted) == multiset(Ids(Settle(s, o).settled)) + multiset(Held(Settle(s, o)))
  {
    hide Ids;
    IdsSnoc(s.settled, Settlement(s.inflight.value.messageId, o));
  }

  lemma AcceptKeeps(s: Slot, e: Event)
    requires SlotKept(s) && Enabled(s, e) && (e.PromptSent? || e.PromptThrows?)
    ensures SlotKept(Step(s, e))
  {
    hide Ids;
    if e.PromptThrows? {
      IdsSnoc(s.settled, Settlement(e.messageId, Rejected("prompt was not queued: " + e.detail)));
    }
  }

  /** Any other event leaves the held prompt alone or settles it. */
  lemma HoldsOrSettles(s: Slot, e: Event)
    requires !e.PromptSent? && !e.PromptThrows?
    ensures var t := Step(s, e);
            && t.accepted == s.accepted && t.waits <= s.waits
            && (t.inflight.None? ||
                (&& t.open == s.open && s.inflight.Some?
                 && t.inflight.value.messageId == s.inflight.value.messageId
                 && (t.inflight.value.messageId in s.waits ==> t.inflight.value.messageId in t.waits)))
            && (if |t.settled| == |s.settled| then t.settled == s.settled && Held(t) == Held(s)
                else s.inflight.Some? && t.inflight.None? && exists o :: t.settled == Settle(s, o).settled)
  {
    var t := Step(s, e);
    if |t.settled| > |s.settled| {
      assert t.settled == Settle(s, t.settled[|s.settled|].outcome).settled;
    }
  }

  lemma SlotStep(s: Slot, e: Event)
    requires SlotKept(s) && Enabled(s, e)
    ensures SlotKept(Step(s, e))
  {
    hide Ids, Step;
    if e.PromptSent? || e.PromptThrows? {
      AcceptKeeps(s, e);
    } else {
      var t := Step(s, e);
      HoldsOrSettles(s, e);
      if |t.settled| != |s.settled| {
        var o :| t.settled == Settle(s, o).settled;
        SettleKeeps(s, o);
      }
    }
  }

  lemma StoryStep(s: Slot, e: Event)
    requires TellsStory(s) && Enabled(s, e)
    ensures TellsStory(Step(s, e))
  {
    var t := Step(s, e);
    assert t.log[..|t.log| - 1] == s.log;
  }

  lemma StepKeeps(s: Slot, e: Event)
    requires Inv(s) && Enabled(s, e)
    ensures Inv(Step(s, e))
  {
    hide SlotKept, TellsStory, Step, Enabled;
    SlotStep(s, e);
    StoryStep(s, e);
  }

  lemma CreatedInv()
    ensures Inv(CREATED)
  {
  }

  // ----- Runs

  ghost predicate IsRun(ss: seq<Slot>, events: seq<Event>) {
    && |ss| == |events| + 1 && ss[0] == CREATED
    && forall i :: 0 <= i < |events| ==> Enabled(ss[i], events[i]) && ss[i + 1] == Step(ss[i], events[i])
  }

  lemma {:induction false} RunKeeps(ss: seq<Slot>, events: seq<Event>, n: nat)
    requires IsRun(ss, events) && n < |ss|
    ensures Inv(ss[n])
  {
    hide Step, Enabled, Inv;
    if n == 0 {
      CreatedInv();
    } else {
      RunKeeps(ss, events, n - 1);
      StepKeeps(ss[n - 1], events[n - 1]);
    }
  }

  lemma {:induction false} AcceptedOnce(ss: seq<Slot>, events: seq<Event>, n: nat, id: nat)
    requires IsRun(ss, events) && n < |ss|
    ensures multiset(ss[n].accepted)[id] <= 1
  {
    if n > 0 {
      AcceptedOnce(ss, events, n - 1, id);
    }
  }

  /** Every accepted prompt settles at most once, and not while it holds the slot. */
  lemma SettledAtMostOnce(ss: seq<Slot>, events: seq<Event>, n: nat, id: nat)
    requires IsRun(ss, events) && n < |ss|
    ensures multiset(Ids(ss[n].settled))[id]
            + (if ss[n].inflight.Some? && ss[n].inflight.value.messageId == id then 1 else 0) <= 1
  {
    hide Step, Enabled, TellsStory, Ids;
    RunKeeps(ss, events, n);
    AcceptedOnce(ss, events, n, id);
  }

  /** Once the idle wait of an accepted prompt has run, the prompt is settled. */
  lemma SettledAfterIdle(ss: seq<Slot>, events: seq<Event>, n: nat, id: nat)
    requires IsRun(ss, events) && n < |ss| && id in ss[n].accepted && id !in ss[n].waits
    ensures id in Ids(ss[n].settled)
  {
    hide Step, Enabled, TellsStory, Ids;
    RunKeeps(ss, events, n);
    assert id in multiset(ss[n].accepted);
  }

  /** The idle wait of one prompt never settles another. */
  lemma IdleSettlesItsOwn(ss: seq<Slot>, events: seq<Event>, n: nat, other: nat)
    requires IsRun(ss, events) && n < |events| && events[n].IdleReached? && events[n].messageId != other
    ensures other in Ids(ss[n + 1].settled) <==> other in Ids(ss[n].settled)
    ensures ss[n].inflight.Some? && ss[n].inflight.value.messageId == other ==> ss[n + 1].inflight == ss[n].inflight
  {
    var s, t := ss[n], ss[n + 1];
    assert t == Step(s, events[n]);
    if |t.settled| > |s.settled| {
      IdsSnoc(s.settled, t.settled[|s.settled|]);
    }
  }

  /** Disposal is for good: whatever happens later, the bridge stays closed with a free slot, and no prompt
      is accepted or settled any more. */
  lemma {:induction false} DisposedForGood(ss: seq<Slot>, events: seq<Event>, i: nat, j: nat)
    requires IsRun(ss, events) && i < j < |ss| && events[i].Disposed?
    ensures !ss[j].open && ss[j].inflight.None?
    ensures ss[j].accepted == ss[i + 1].accepted && ss[j].settled == ss[i + 1].settled
    decreases j - i
  {
    assert Enabled(ss[j - 1], events[j - 1]) && ss[j] == Step(ss[j - 1], events[j - 1]);
    if i + 1 < j {
      DisposedForGood(ss, events, i, j - 1);
    }
  }

  /** While a prompt holds the slot, an event settles it exactly when it calls for an outcome, and with
      that outcome; every other event leaves it in the slot and nothing settled. */
  lemma SettledByEvent(ss: seq<Slot>, events: seq<Event>, n: nat, id: nat)
    requires IsRun(ss, events) && n < |events| && ss[n].inflight.Some? && ss[n].inflight.value.messageId == id
    ensures match OutcomeOf(StoryOf(ss[n].log, id), id, events[n])
            case Some(outcome) =>
              ss[n + 1].inflight.None? && ss[n + 1].settled == ss[n].settled + [Settlement(id, outcome)]
            case None =>
              && ss[n + 1].inflight.Some? && ss[n + 1].inflight.value.messageId == id
              && ss[n + 1].settled == ss[n].settled
  {
    hide StoryOf, SlotKept;
    RunKeeps(ss, events, n);
    assert ss[n + 1] == Step(ss[n], events[n]);
    NoErrorKept(ss, events, n);
  }

  lemma {:induction false} NoErrorEnding(log: seq<Event>, id: nat)
    ensures StoryOf(log, id).ending.Some? ==> !StoryOf(log, id).ending.value.Error?
  {
    if log != [] {
      NoErrorEnding(log[..|log| - 1], id);
    }
  }

  lemma NoErrorKept(ss: seq<Slot>, events: seq<Event>, n: nat)
    requires IsRun(ss, events) && n < |ss| && ss[n].inflight.Some?
    ensures ss[n].inflight.value.endReason.Some? ==> !ss[n].inflight.value.endReason.value.Error?
  {
    hide StoryOf, SlotKept, Step, Enabled;
    RunKeeps(ss, events, n);
    NoErrorEnding(ss[n].log, ss[n].inflight.value.messageId);
  }

  /** Nothing else settles: a settlement of a run was added by the step whose event called for it while
      its prompt held the slot, or by the refusal of its message. */
  lemma {:induction false} SettledByStep(ss: seq<Slot>, events: seq<Event>, n: nat, i: nat) returns (m: nat)
    requires IsRun(ss, events) && n < |ss| && i < |ss[n].settled|
    ensures m < n && |ss[m].settled| == i
    ensures var x := ss[n].settled[i];
            || (&& ss[m].inflight.Some? && ss[m].inflight.value.messageId == x.messageId
                && OutcomeOf(StoryOf(ss[m].log, x.messageId), x.messageId, events[m]) == Some(x.outcome))
            || exists d :: events[m] == PromptThrows(x.messageId, d)
                && x.outcome == Rejected("prompt was not queued: " + d)
  {
    hide StoryOf, SlotKept, TellsStory, OutcomeOf;
    assert n > 0;
    SettledGrows(ss, events, n - 1);
    if i < |ss[n - 1].settled| {
      m := SettledByStep(ss, events, n - 1, i);
    } else {
      m := n - 1;
      if ss[m].inflight.Some? {
        SettledByEvent(ss, events, m, ss[m].inflight.value.messageId);
      }
    }
  }

  lemma SettledGrows(ss: seq<Slot>, events: seq<Event>, n: nat)
    requires IsRun(ss, events) && n < |events|
    ensures ss[n].settled <= ss[n + 1].settled && |ss[n + 1].settled| <= |ss[n].settled| + 1
  {
    assert ss[n + 1] == Step(ss[n], events[n]);
  }

  /** No prompt is resolved with the token-limit stop. */
  lemma NeverTokenLimit(ss: seq<Slot>, events: seq<Event>, n: nat, i: nat)
    requires IsRun(ss, events) && n < |ss| && i < |ss[n].settled|
    ensures ss[n].settled[i].outcome != Resolved(MaxTokensStop)
  {
    hide StoryOf, Step;
    var m := SettledByStep(ss, events, n, i);
  }

  /** A failing agent rejects the prompt exactly when the failing turn is not the one that claimed it:
      an error left over from an earlier turn rejects a prompt that no turn has claimed yet. */
  lemma AgentErrorRejectsExactly(s: Slot, turn: Option<nat>, message: string)
    requires s.open && s.inflight.Some?
    ensures OnAgentError(s, turn, message).inflight.None? <==> s.inflight.value.turn != turn
    ensures OnAgentError(s, turn, message).settled == s.settled <==> s.inflight.value.turn == turn
  {
    var t := OnAgentError(s, turn, message);
    assert |t.settled| == |s.settled| + (if s.inflight.value.turn == turn then 0 else 1);
  }

  /** A cancelled prompt's turn fails late: the error settles the next prompt, which no turn has claimed. */
  lemma EarlierErrorRejects() returns (ss: seq<Slot>, events: seq<Event>)
    ensures events == [PromptSent(1), Claimed(1, 7), CancelRequested, PromptSent(2), AgentFailed(Some(7), "lost")]
    ensures IsRun(ss, events)
    ensures ss[5].settled == [Settlement(1, Resolved(Cancelled)), Settlement(2, Rejected("turn failed: " + "lost"))]
  {
    events := [PromptSent(1), Claimed(1, 7), CancelRequested, PromptSent(2), AgentFailed(Some(7), "lost")];
    var s1 := Step(CREATED, events[0]);
    var s2 := Step(s1, events[1]);
    var s3 := Step(s2, events[2]);
    var s4 := Step(s3, events[3]);
    ss := [CREATED, s1, s2, s3, s4, Step(s4, events[4])];
    assert s3.settled == [Settlement(1, Resolved(Cancelled))] && s3.accepted == [1];
  }

  // ----- The object

  class SessionRecord {
    var inflight: Option<Inflight>
    var open: bool
    ghost var waits: set<nat>
    ghost var accepted: seq<nat>
    ghost var settled: seq<Settlement>
    ghost var log: seq<Event>

    ghost function Model(): Slot
      reads this
    {
      Slot(inflight, open, waits, accepted, settled, log)
    }

    ghost predicate Valid()
      reads this
    {
      Inv(Model())
    }

    constructor ()
      ensures Valid() && Model() == CREATED
    {
      inflight, open := None, true;
      waits, accepted, settled, log := {}, [], [], [];
      new;
      CreatedInv();
    }

    method Finish(o: Outcome)
      requires inflight.Some?
      modifies this`inflight, this`settled
      ensures Model() == Settle(old(Model()), o)
    {
      settled := settled + [Settlement(inflight.value.messageId, o)];
      inflight := None;
    }

    /** prompt, up to its wait; refused is what followup threw. A closed bridge and a held slot refuse. */
    method Prompt(messageId: nat, refused: Option<string>) returns (ok: bool)
      requires Valid() && messageId !in accepted
      modifies this
      ensures Valid() && ok == (old(open) && old(inflight).None?)
      ensures Model() == if !ok then old(Model())
                         else Step(old(Model()), if refused.Some? then PromptThrows(messageId, refused.value)
                             else PromptSent(messageId))
    {
      hide Inv, SlotKept, TellsStory, StoryOf;
      if !open || inflight.Some? {
        return false;
      }
      StepKeeps(Model(), if refused.Some? then PromptThrows(messageId, refused.value) else PromptSent(messageId));
      accepted := accepted + [messageId];
      inflight := Some(Inflight(messageId, None, None));
      if refused.Some? {
        Finish(Rejected("prompt was not queued: " + refused.value));
        log := log + [PromptThrows(messageId, refused.value)];
        return true;
      }
      waits := waits + {messageId};
      log := log + [PromptSent(messageId)];
      return true;
    }

    method OnTurnEndEvent(turn: nat, reason: TurnEnd)
      requires Valid()
      modifies this
      ensures Valid() && Model() == Step(old(Model()), TurnEnded(turn, reason))
    {
      hide Inv, SlotKept, TellsStory, StoryOf;
      StepKeeps(Model(), TurnEnded(turn, reason));
      log := log + [TurnEnded(turn, reason)];
      if open && inflight.Some? && inflight.value.turn == Some(turn) {
        if reason.Error? {
          Finish(Rejected("turn failed: " + reason.message));
        } else {
          inflight := Some(inflight.value.(endReason := Some(reason)));
        }
      }
    }

    method OnInboxClaimed(messageId: nat, turn: nat)
      requires Valid()
      modifies this
      ensures Valid() && Model() == Step(old(Model()), Claimed(messageId, turn))
    {
      hide Inv, SlotKept, TellsStory, StoryOf;
      StepKeeps(Model(), Claimed(messageId, turn));
      log := log + [Claimed(messageId, turn)];
      if open && inflight.Some? && inflight.value.messageId == messageId {
        inflight := Some(inflight.value.(turn := Some(turn)));
      }
    }

    method OnAgentErrorEvent(turn: Option<nat>, message: string)
      requires Valid()
      modifies this
      ensures Valid() && Model() == Step(old(Model()), AgentFailed(turn, message))
    {
      hide Inv, SlotKept, TellsStory, StoryOf;
      StepKeeps(Model(), AgentFailed(turn, message));
      log := log + [AgentFailed(turn, message)];
      if !open || inflight.None? || inflight.value.turn == turn {
        return;
      }
      Finish(Rejected("turn failed: " + message));
    }

    method OnIdleReached(messageId: nat)
      requires Valid() && messageId in waits
      modifies this
      ensures Valid() && Model() == Step(old(Model()), IdleReached(messageId))
    {
      hide Inv, SlotKept, TellsStory, StoryOf;
      StepKeeps(Model(), IdleReached(messageId));
      log := log + [IdleReached(messageId)];
      waits := waits - {messageId};
      if inflight.None? || inflight.value.messageId != messageId {
        return;
      }
      var end := inflight.value.endReason;
      if end.None? {
        Finish(Resolved(Cancelled));
      } else {
        Finish(Resolved(if end.value.MaxTokens? then EndTurn else StopOf(end.value)));
      }
    }

    method Cancel()
      requires Valid()
      modifies this
      ensures Valid() && Model() == Step(old(Model()), CancelRequested)
    {
      hide Inv, SlotKept, TellsStory, StoryOf;
      StepKeeps(Model(), CancelRequested);
      log := log + [CancelRequested];
      if open && inflight.Some? {
        Finish(Resolved(Cancelled));
      }
    }

    method Quiesce()
      requires Valid()
      modifies this
      ensures Valid() && Model() == Step(old(Model()), Disposed)
    {
      hide Inv, SlotKept, TellsStory, StoryOf;
      StepKeeps(Model(), Disposed);
      log := log + [Disposed];
      if inflight.Some? {
        Finish(Resolved(Cancelled));
      }
      open := false;
    }
  }
}
