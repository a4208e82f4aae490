/** Filling the whole memory (core.c): the single-threaded order, arbitrary interleavings of the
    lanes inside a slice, and the creating and joining of threads under a thread limit. */
module Argon2Schedule {
  import opened Arithmetic
  import opened Argon2Geometry
  import opened Argon2Index
  import opened Argon2Round
  import opened Argon2Blocks
  import opened Argon2Segment
  import opened Argon2FillSegment

  /** Lanes 0 to l - 1 of a slice, one after the other. */
  function SliceTo(g: Instance, perm: Permutation, m: Matrix, pass: nat, slice: nat, l: nat): (m': Matrix)
    requires ValidInstance(g) && pass < g.passes && slice < SYNC_POINTS && l <= g.lanes && Shaped(g, m)
    ensures Shaped(g, m')
  {
    if l == 0 then m
    else FillTo(g, perm, SliceTo(g, perm, m, pass, slice, l - 1), pass, l - 1, slice, g.segmentLength)
  }

  /** The first s slices of a pass. */
  function PassTo(g: Instance, perm: Permutation, m: Matrix, pass: nat, s: nat): (m': Matrix)
    requires ValidInstance(g) && pass < g.passes && s <= SYNC_POINTS && Shaped(g, m)
    ensures Shaped(g, m')
  {
    if s == 0 then m else SliceTo(g, perm, PassTo(g, perm, m, pass, s - 1), pass, s - 1, g.lanes)
  }

  /** The first r passes. */
  function RunTo(g: Instance, perm: Permutation, m: Matrix, r: nat): (m': Matrix)
    requires ValidInstance(g) && r <= g.passes && Shaped(g, m)
    ensures Shaped(g, m')
  {
    if r == 0 then m else PassTo(g, perm, RunTo(g, perm, m, r - 1), r - 1, SYNC_POINTS)
  }

  /** fill_memory_blocks_st */
  method FillMemoryBlocksSt(g: Instance, perm: Permutation, memory: array<Word>)
    requires ValidInstance(g) && memory.Length == WORDS * g.memoryBlocks
    modifies memory
    ensures View(g, memory[..]) == RunTo(g, perm, old(View(g, memory[..])), g.passes)
  {
    hide FillTo, View, Shaped;
    ghost var m0 := View(g, memory[..]);
    var r := 0;
    while r < g.passes
      invariant 0 <= r <= g.passes && View(g, memory[..]) == RunTo(g, perm, m0, r)
    {
      ghost var mr := RunTo(g, perm, m0, r);
      var s := 0;
      while s < SYNC_POINTS
        invariant 0 <= s <= SYNC_POINTS && View(g, memory[..]) == PassTo(g, perm, mr, r, s)
      {
        ghost var ms := PassTo(g, perm, mr, r, s);
        var l := 0;
        while l < g.lanes
          invariant 0 <= l <= g.lanes && View(g, memory[..]) == SliceTo(g, perm, ms, r, s, l)
        {
          ghost var _ := FillSegmentRef(g, perm, memory, r, l, s);
          l := l + 1;
        }
        s := s + 1;
      }
      r := r + 1;
    }
  }

  // ----- One slice under any interleaving

  predicate ValidSlice(g: Instance, pass: nat, slice: nat) {
    ValidInstance(g) && pass < g.passes && slice < SYNC_POINTS
  }

  /** Next index of every lane. */
  predicate ValidCounts(g: Instance, pass: nat, slice: nat, counts: seq<nat>) {
    && |counts| == g.lanes
    && forall l :: 0 <= l < g.lanes ==> FirstIndex(pass, slice) <= counts[l] <= g.segmentLength
  }

  /** Every lane as if it had run alone from the start of the slice. */
  function Merge(g: Instance, perm: Permutation, m0: Matrix, pass: nat, slice: nat, counts: seq<nat>): (m: Matrix)
    requires ValidSlice(g, pass, slice) && Shaped(g, m0) && ValidCounts(g, pass, slice, counts)
    ensures Shaped(g, m)
  {
    seq(g.lanes, l requires 0 <= l < g.lanes => FillTo(g, perm, m0, pass, l, slice, counts[l])[l])
  }

  /** Building blocks of one lane changes that lane's part of the slice only. */
  lemma {:induction false} FillToFrame(g: Instance, perm: Permutation, m: Matrix, pass: nat, lane: nat, slice: nat,
      i: nat, c: Cell)
    requires ValidSegment(g, pass, lane, slice) && Shaped(g, m) && i <= g.segmentLength && InMatrix(g, c)
    requires c.lane != lane || !InSlice(g, slice, c.column)
    ensures At(g, FillTo(g, perm, m, pass, lane, slice, i), c) == At(g, m, c)
  {
    hide NewBlock, IndexAlpha, Times;
    if i > FirstIndex(pass, slice) {
      FillToFrame(g, perm, m, pass, lane, slice, i - 1, c);
      CurrentInSlice(g, Position(pass, lane, slice, i - 1));
    }
  }

  lemma CurrentInSlice(g: Instance, p: Position)
    requires ValidPosition(g, p)
    ensures Current(g, p).lane == p.lane && InSlice(g, p.slice, Current(g, p).column)
  {
  }

  /** The cells the block at p may depend on. */
  ghost predicate Agree(g: Instance, p: Position, m1: Matrix, m2: Matrix)
    requires Shaped(g, m1) && Shaped(g, m2)
  {
    forall c :: InMatrix(g, c) && (c.lane == p.lane || !InSlice(g, p.slice, c.column)) ==>
      At(g, m1, c) == At(g, m2, c)
  }

  /** No lane reads what another lane writes in the same slice. */
  lemma NoCrossLaneRead(g: Instance, p: Position, j: Word)
    requires ValidPosition(g, p)
    ensures var c := Reference(g, p, j); c.lane == p.lane || !InSlice(g, p.slice, c.column)
    ensures Reference(g, p, j) != Current(g, p) && Reference(g, p, j) != Previous(g, p)
  {
    hide IndexAlpha, Times;
    var l := ReferenceLane(g, p, j);
    IndexAlphaAvoids(g, p, j % U32_LIMIT, l == p.lane);
  }

  lemma NewBlockLocal(g: Instance, perm: Permutation, p: Position, m1: Matrix, m2: Matrix)
    requires ValidPosition(g, p) && Shaped(g, m1) && Shaped(g, m2) && Agree(g, p, m1, m2)
    ensures NewBlock(g, perm, m1, p) == NewBlock(g, perm, m2, p)
  {
    hide IndexAlpha, Times, FillBlock, Addresses, AddressInput, Reference, InSlice;
    assert At(g, m1, Previous(g, p)) == At(g, m2, Previous(g, p));
    NoCrossLaneRead(g, p, PseudoRandom(g, perm, m1, p));
  }

  lemma MergeAt(g: Instance, perm: Permutation, m0: Matrix, pass: nat, slice: nat, counts: seq<nat>, c: Cell)
    requires ValidSlice(g, pass, slice) && Shaped(g, m0) && ValidCounts(g, pass, slice, counts) && InMatrix(g, c)
    ensures At(g, Merge(g, perm, m0, pass, slice, counts), c)
            == At(g, FillTo(g, perm, m0, pass, c.lane, slice, counts[c.lane]), c)
    ensures !InSlice(g, slice, c.column) ==> At(g, Merge(g, perm, m0, pass, slice, counts), c) == At(g, m0, c)
  {
    hide FillTo, InSlice, Times;
    if !InSlice(g, slice, c.column) {
      FillToFrame(g, perm, m0, pass, c.lane, slice, counts[c.lane], c);
    }
  }

  /** One step of any lane, taken in the merged memory, is the step the lane would take alone. */
  lemma MergeStep(g: Instance, perm: Permutation, m0: Matrix, pass: nat, slice: nat, counts: seq<nat>, l: nat)
    requires ValidSlice(g, pass, slice) && Shaped(g, m0) && ValidCounts(g, pass, slice, counts)
    requires l < g.lanes && counts[l] < g.segmentLength
    ensures StepBlock(g, perm, Merge(g, perm, m0, pass, slice, counts), Position(pass, l, slice, counts[l]))
            == Merge(g, perm, m0, pass, slice, counts[l := counts[l] + 1])
  {
    hide InSlice, Times, NewBlock, IndexAlpha, Merge, At;
    var p := Position(pass, l, slice, counts[l]);
    var m1, m2 := Merge(g, perm, m0, pass, slice, counts), FillTo(g, perm, m0, pass, l, slice, counts[l]);
    var counts' := counts[l := counts[l] + 1];
    forall c | InMatrix(g, c) && (c.lane == l || !InSlice(g, slice, c.column))
      ensures At(g, m1, c) == At(g, m2, c)
    {
      MergeAt(g, perm, m0, pass, slice, counts, c);
      if c.lane != l {
        FillToFrame(g, perm, m0, pass, l, slice, counts[l], c);
      }
    }
    NewBlockLocal(g, perm, p, m1, m2);
    var a, b := StepBlock(g, perm, m1, p), Merge(g, perm, m0, pass, slice, counts');
    forall c | InMatrix(g, c) ensures At(g, a, c) == At(g, b, c) {
      MergeAt(g, perm, m0, pass, slice, counts, c);
      MergeAt(g, perm, m0, pass, slice, counts', c);
    }
    SameCells(g, a, b);
  }

  lemma SameCells(g: Instance, a: Matrix, b: Matrix)
    requires Shaped(g, a) && Shaped(g, b)
    requires forall c :: InMatrix(g, c) ==> At(g, a, c) == At(g, b, c)
    ensures a == b
  {
    forall l, j | 0 <= l < g.lanes && 0 <= j < g.laneLength ensures a[l][j] == b[l][j] {
      assert At(g, a, Cell(l, j)) == At(g, b, Cell(l, j));
    }
    SameMatrix(g, a, b);
  }

  /** Next indices after the first l lanes are complete and the others have not started. */
  function Started(g: Instance, pass: nat, slice: nat, l: nat): (counts: seq<nat>)
    requires ValidInstance(g)
    ensures ValidCounts(g, pass, slice, counts)
  {
    seq(g.lanes, k requires 0 <= k < g.lanes => StartedAt(g, pass, slice, l, k))
  }

  function StartedAt(g: Instance, pass: nat, slice: nat, l: nat, k: nat): nat {
    if k < l then g.segmentLength else FirstIndex(pass, slice)
  }

  lemma MergeOfNothing(g: Instance, perm: Permutation, m: Matrix, pass: nat, slice: nat)
    requires ValidSlice(g, pass, slice) && Shaped(g, m)
    ensures Merge(g, perm, m, pass, slice, Started(g, pass, slice, 0)) == m
  {
  }

  lemma {:induction false} MergeOfLane(g: Instance, perm: Permutation, m0: Matrix, pass: nat, slice: nat,
      counts: seq<nat>, l: nat, i: nat)
    requires ValidSlice(g, pass, slice) && Shaped(g, m0) && ValidCounts(g, pass, slice, counts)
    requires l < g.lanes && counts[l] == FirstIndex(pass, slice) <= i <= g.segmentLength
    ensures FillTo(g, perm, Merge(g, perm, m0, pass, slice, counts), pass, l, slice, i)
            == Merge(g, perm, m0, pass, slice, counts[l := i])
  {
    hide Merge, StepBlock, Times;
    if i > FirstIndex(pass, slice) {
      MergeOfLane(g, perm, m0, pass, slice, counts, l, i - 1);
      MergeStep(g, perm, m0, pass, slice, counts[l := i - 1], l);
      assert counts[l := i - 1][l := i] == counts[l := i];
    } else {
      assert counts[l := i] == counts;
    }
  }

  /** The single-threaded order is the interleaving that runs the lanes one after the other. */
  lemma {:induction false} SliceIsMerge(g: Instance, perm: Permutation, m0: Matrix, pass: nat, slice: nat, l: nat)
    requires ValidSlice(g, pass, slice) && Shaped(g, m0) && l <= g.lanes
    ensures SliceTo(g, perm, m0, pass, slice, l) == Merge(g, perm, m0, pass, slice, Started(g, pass, slice, l))
  {
    hide Merge, FillTo, Times;
    if l == 0 {
      MergeOfNothing(g, perm, m0, pass, slice);
    } else {
      SliceIsMerge(g, perm, m0, pass, slice, l - 1);
      var counts := Started(g, pass, slice, l - 1);
      MergeOfLane(g, perm, m0, pass, slice, counts, l - 1, g.segmentLength);
      assert counts[l - 1 := g.segmentLength] == Started(g, pass, slice, l);
    }
  }

  /** A schedule names the lane that builds its next block; a lane with nothing left does nothing. */
  function Interleave(g: Instance, perm: Permutation, m: Matrix, pass: nat, slice: nat, counts: seq<nat>,
      schedule: seq<nat>): (r: (Matrix, seq<nat>))
    requires ValidSlice(g, pass, slice) && Shaped(g, m) && ValidCounts(g, pass, slice, counts)
    requires forall l :: l in schedule ==> l < g.lanes
    ensures Shaped(g, r.0) && ValidCounts(g, pass, slice, r.1)
    decreases |schedule|
  {
    if schedule == [] then (m, counts)
    else
      var l := schedule[0];
      assert l in schedule && forall k :: k in schedule[1..] ==> k in schedule;
      if counts[l] == g.segmentLength then Interleave(g, perm, m, pass, slice, counts, schedule[1..])
      else Interleave(g, perm, StepBlock(g, perm, m, Position(pass, l, slice, counts[l])), pass, slice,
                      counts[l := counts[l] + 1], schedule[1..])
  }

  lemma {:induction false} InterleaveIsMerge(g: Instance, perm: Permutation, m0: Matrix, pass: nat, slice: nat,
      counts: seq<nat>, schedule: seq<nat>)
    requires ValidSlice(g, pass, slice) && Shaped(g, m0) && ValidCounts(g, pass, slice, counts)
    requires forall l :: l in schedule ==> l < g.lanes
    ensures var r := Interleave(g, perm, Merge(g, perm, m0, pass, slice, counts), pass, slice, counts, schedule);
            r.0 == Merge(g, perm, m0, pass, slice, r.1)
    decreases |schedule|
  {
    hide Merge, StepBlock, Times;
    if schedule != [] {
      var l := schedule[0];
      assert l in schedule && forall k :: k in schedule[1..] ==> k in schedule;
      if counts[l] == g.segmentLength {
        InterleaveIsMerge(g, perm, m0, pass, slice, counts, schedule[1..]);
      } else {
        MergeStep(g, perm, m0, pass, slice, counts, l);
        InterleaveIsMerge(g, perm, m0, pass, slice, counts[l := counts[l] + 1], schedule[1..]);
      }
    }
  }

  /** Whatever the order of block steps, once every lane is complete the slice is as the
      single-threaded form leaves it. */
  lemma ScheduleIndependence(g: Instance, perm: Permutation, m: Matrix, pass: nat, slice: nat, schedule: seq<nat>)
    requires ValidSlice(g, pass, slice) && Shaped(g, m)
    requires forall l :: l in schedule ==> l < g.lanes
    ensures var r := Interleave(g, perm, m, pass, slice, Started(g, pass, slice, 0), schedule);
            (forall l :: 0 <= l < g.lanes ==> r.1[l] == g.segmentLength) ==>
              r.0 == SliceTo(g, perm, m, pass, slice, g.lanes)
  {
    hide Merge, Interleave, SliceTo, Times;
    var r := Interleave(g, perm, m, pass, slice, Started(g, pass, slice, 0), schedule);
    MergeOfNothing(g, perm, m, pass, slice);
    InterleaveIsMerge(g, perm, m, pass, slice, Started(g, pass, slice, 0), schedule);
    SliceIsMerge(g, perm, m, pass, slice, g.lanes);
    if forall l :: 0 <= l < g.lanes ==> r.1[l] == g.segmentLength {
      assert r.1 == Started(g, pass, slice, g.lanes);
    }
  }

  // ----- Threads: fill_memory_blocks_mt

  /** Where the main thread stands in a slice: about to create thread l (with the join this needs
      already made or not), or about to join thread l after all are created. */
  datatype MainPc = Creating(l: nat, joined: bool) | Joining(l: nat)

  datatype MtState = MtState(threads: nat, m: Matrix, pass: nat, slice: nat, pc: MainPc, counts: seq<nat>)

  /** The main thread moves, or a created thread builds its next block. */
  datatype Action = Main | Work(lane: nat)

  function Created(g: Instance, pc: MainPc): nat {
    if pc.Creating? then pc.l else g.lanes
  }

  predicate MtShape(g: Instance, s: MtState) {
    && ValidInstance(g) && Shaped(g, s.m)
    && ((s.pass < g.passes && s.slice < SYNC_POINTS) || (s.pass == g.passes && s.slice == 0))
    && ValidCounts(g, s.pass, s.slice, s.counts)
    && 1 <= s.threads <= g.lanes && s.pc.l <= g.lanes
  }

  /** The thread the main thread waits for, if its next move is a join. */
  predicate WaitsFor(g: Instance, threads: nat, pc: MainPc, l: nat) {
    match pc
    case Creating(k, joined) => k < g.lanes && k >= threads && !joined && l == k - threads
    case Joining(k) => k < g.lanes && l == k
  }

  /** A created thread has a block left; the main thread waits for no thread that has. */
  predicate CanTake(g: Instance, threads: nat, pc: MainPc, counts: seq<nat>, a: Action)
    requires |counts| == g.lanes && pc.l <= g.lanes
  {
    match a
    case Work(l) => l < Created(g, pc) && counts[l] < g.segmentLength
    case Main => forall l :: 0 <= l < g.lanes && WaitsFor(g, threads, pc, l) ==> counts[l] == g.segmentLength
  }

  predicate Enabled(g: Instance, s: MtState, a: Action)
    requires MtShape(g, s)
  {
    s.pass < g.passes && CanTake(g, s.threads, s.pc, s.counts, a)
  }

  function MtInit(g: Instance, threads: nat, m: Matrix): MtState
    requires ValidInstance(g)
  {
    MtState(threads, m, 0, 0, Creating(0, false), Started(g, 0, 0, 0))
  }

  function NextSlice(g: Instance, s: MtState): MtState
    requires MtShape(g, s) && s.pass < g.passes
  {
    var pass := if s.slice + 1 == SYNC_POINTS then s.pass + 1 else s.pass;
    var slice := if s.slice + 1 == SYNC_POINTS then 0 else s.slice + 1;
    MtState(s.threads, s.m, pass, slice, Creating(0, false), Started(g, pass, slice, 0))
  }

  function MtStep(g: Instance, perm: Permutation, s: MtState, a: Action): (s': MtState)
    requires MtShape(g, s) && Enabled(g, s, a)
    ensures MtShape(g, s')
  {
    match a
    case Work(l) =>
      s.(m := StepBlock(g, perm, s.m, Position(s.pass, l, s.slice, s.counts[l])),
         counts := s.counts[l := s.counts[l] + 1])
    case Main =>
      match s.pc
      case Creating(l, joined) =>
        if l == g.lanes then s.(pc := Joining(g.lanes - s.threads))
        else if l >= s.threads && !joined then s.(pc := Creating(l, true))
        else s.(pc := Creating(l + 1, false))
      case Joining(l) =>
        if l == g.lanes then NextSlice(g, s) else s.(pc := Joining(l + 1))
  }

  /** The memory at the start of the current slice, had the run been single-threaded. */
  function SliceStartMemory(g: Instance, perm: Permutation, m0: Matrix, s: MtState): (m: Matrix)
    requires MtShape(g, s) && Shaped(g, m0)
    ensures Shaped(g, m)
  {
    if s.pass == g.passes then RunTo(g, perm, m0, s.pass)
    else PassTo(g, perm, RunTo(g, perm, m0, s.pass), s.pass, s.slice)
  }

  /** Lanes the main thread has already waited for. */
  function JoinedBelow(threads: nat, pc: MainPc): int {
    match pc
    case Creating(l, joined) => l - threads + if joined then 1 else 0
    case Joining(l) => l
  }

  predicate MtInvariant(g: Instance, perm: Permutation, m0: Matrix, s: MtState) {
    && MtShape(g, s) && Shaped(g, m0)
    && (s.pass < g.passes ==>
          s.m == Merge(g, perm, SliceStartMemory(g, perm, m0, s), s.pass, s.slice, s.counts))
    && (s.pass == g.passes ==> s.m == RunTo(g, perm, m0, s.pass))
    && (forall l :: 0 <= l < JoinedBelow(s.threads, s.pc) && l < g.lanes ==> s.counts[l] == g.segmentLength)
    && (forall l :: Created(g, s.pc) <= l < g.lanes ==> s.counts[l] == FirstIndex(s.pass, s.slice))
  }

  lemma MtInitInvariant(g: Instance, perm: Permutation, threads: nat, m0: Matrix)
    requires ValidInstance(g) && Shaped(g, m0) && 1 <= threads <= g.lanes
    ensures MtInvariant(g, perm, m0, MtInit(g, threads, m0))
  {
    hide Merge, Times;
    MergeOfNothing(g, perm, m0, 0, 0);
  }

  lemma MtStepInvariant(g: Instance, perm: Permutation, m0: Matrix, s: MtState, a: Action)
    requires MtInvariant(g, perm, m0, s) && Enabled(g, s, a)
    ensures MtInvariant(g, perm, m0, MtStep(g, perm, s, a))
  {
    hide Merge, StepBlock, Times, PassTo, RunTo;
    var start := SliceStartMemory(g, perm, m0, s);
    if a.Work? {
      MergeStep(g, perm, start, s.pass, s.slice, s.counts, a.lane);
    } else if s.pc == Joining(g.lanes) {
      assert s.counts == Started(g, s.pass, s.slice, g.lanes);
      SliceIsMerge(g, perm, start, s.pass, s.slice, g.lanes);
      NextSliceInvariant(g, perm, m0, s);
    }
  }

  /** At the last join every thread has been waited for, so the next slice starts from complete lanes. */
  lemma NextSliceInvariant(g: Instance, perm: Permutation, m0: Matrix, s: MtState)
    requires MtInvariant(g, perm, m0, s) && s.pass < g.passes && s.pc == Joining(g.lanes)
    requires s.m == SliceTo(g, perm, SliceStartMemory(g, perm, m0, s), s.pass, s.slice, g.lanes)
    ensures MtInvariant(g, perm, m0, NextSlice(g, s))
  {
    hide Merge, Times, SliceTo;
    var t := NextSlice(g, s);
    assert s.m == PassTo(g, perm, RunTo(g, perm, m0, s.pass), s.pass, s.slice + 1);
    if t.pass < g.passes {
      MergeOfNothing(g, perm, s.m, t.pass, t.slice);
    }
  }

  /** The states along a run of actions, each enabled where it is taken. */
  predicate IsMtRun(g: Instance, perm: Permutation, states: seq<MtState>, actions: seq<Action>) {
    && |states| == |actions| + 1
    && (forall k :: 0 <= k < |states| ==> MtShape(g, states[k]))
    && forall k :: 0 <= k < |actions| ==>
         Enabled(g, states[k], actions[k]) && states[k + 1] == MtStep(g, perm, states[k], actions[k])
  }

  lemma {:induction false} MtRunInvariant(g: Instance, perm: Permutation, threads: nat, m0: Matrix,
      states: seq<MtState>, actions: seq<Action>, k: nat)
    requires ValidInstance(g) && Shaped(g, m0) && 1 <= threads <= g.lanes
    requires IsMtRun(g, perm, states, actions) && states[0] == MtInit(g, threads, m0) && k < |states|
    ensures MtInvariant(g, perm, m0, states[k])
  {
    hide MtInvariant, MtStep, Enabled, Times;
    if k == 0 {
      MtInitInvariant(g, perm, threads, m0);
    } else {
      MtRunInvariant(g, perm, threads, m0, states, actions, k - 1);
      MtStepInvariant(g, perm, m0, states[k - 1], actions[k - 1]);
    }
  }

  /** Every complete multi-threaded run, under any thread limit and any timing, leaves the memory of
      the single-threaded form. */
  lemma MtRefinesSt(g: Instance, perm: Permutation, threads: nat, m0: Matrix, states: seq<MtState>,
      actions: seq<Action>)
    requires ValidInstance(g) && Shaped(g, m0) && 1 <= threads <= g.lanes
    requires IsMtRun(g, perm, states, actions) && states[0] == MtInit(g, threads, m0)
    ensures states[|actions|].pass == g.passes ==> states[|actions|].m == RunTo(g, perm, m0, g.passes)
  {
    hide RunTo, Merge, MtStep, Enabled, Times;
    MtRunInvariant(g, perm, threads, m0, states, actions, |actions|);
  }

  /** No reachable state before the end is stuck: the thread waited for can work, or the main thread moves. */
  lemma MtNeverStuck(g: Instance, perm: Permutation, m0: Matrix, s: MtState)
    requires MtInvariant(g, perm, m0, s) && s.pass < g.passes
    ensures Enabled(g, s, Main) || exists l :: 0 <= l < g.lanes && Enabled(g, s, Work(l))
  {
    hide RunTo, PassTo, Merge, Times;
    if l :| 0 <= l < g.lanes && WaitsFor(g, s.threads, s.pc, l) && s.counts[l] != g.segmentLength {
      assert Enabled(g, s, Work(l));
    }
  }

  /** Blocks still to be built by lanes 0 to n - 1 of the slice. */
  function WorkLeft(g: Instance, counts: seq<nat>, n: nat): nat
    requires n <= |counts| && forall l :: 0 <= l < |counts| ==> counts[l] <= g.segmentLength
  {
    if n == 0 then 0 else WorkLeft(g, counts, n - 1) + g.segmentLength - counts[n - 1]
  }

  lemma {:induction false} WorkLeftStep(g: Instance, counts: seq<nat>, n: nat, l: nat)
    requires n <= |counts| && l < |counts| && counts[l] < g.segmentLength
    requires forall k :: 0 <= k < |counts| ==> counts[k] <= g.segmentLength
    ensures WorkLeft(g, counts[l := counts[l] + 1], n) == WorkLeft(g, counts, n) - if l < n then 1 else 0
  {
    if n > 0 {
      WorkLeftStep(g, counts, n - 1, l);
    }
  }

  lemma {:induction false} WorkLeftBound(g: Instance, counts: seq<nat>, n: nat)
    requires n <= |counts| && forall k :: 0 <= k < |counts| ==> counts[k] <= g.segmentLength
    ensures WorkLeft(g, counts, n) <= Times(n, g.segmentLength)
  {
    if n > 0 {
      WorkLeftBound(g, counts, n - 1);
    }
  }

  function MovesLeft(g: Instance, pc: MainPc): nat
    requires pc.l <= g.lanes
  {
    match pc
    case Creating(l, joined) => 3 * g.lanes - 2 * l + if joined then 1 else 2
    case Joining(l) => g.lanes - l
  }

  /** Steps one slice can take at most. */
  function SliceBound(g: Instance): nat {
    Times(g.lanes, g.segmentLength) + 3 * g.lanes + 3
  }

  function StepsLeft(g: Instance, s: MtState): nat
    requires MtShape(g, s)
  {
    if s.pass == g.passes then 0
    else Times(4 * (g.passes - s.pass) - s.slice - 1, SliceBound(g))
         + 1 + MovesLeft(g, s.pc) + WorkLeft(g, s.counts, g.lanes)
  }

  lemma MtStepDecreases(g: Instance, perm: Permutation, s: MtState, a: Action)
    requires MtShape(g, s) && Enabled(g, s, a)
    ensures StepsLeft(g, MtStep(g, perm, s, a)) < StepsLeft(g, s)
  {
    hide StepBlock, WorkLeft;
    if a.Work? {
      WorkLeftStep(g, s.counts, g.lanes, a.lane);
    } else if s.pc == Joining(g.lanes) {
      var t := NextSlice(g, s);
      WorkLeftBound(g, t.counts, g.lanes);
    }
  }

  /** Runs are bounded: with MtNeverStuck, every run that is continued completes. */
  lemma {:induction false} MtRunBounded(g: Instance, perm: Permutation, states: seq<MtState>, actions: seq<Action>)
    requires IsMtRun(g, perm, states, actions)
    ensures |actions| <= StepsLeft(g, states[0])
    decreases |actions|
  {
    hide StepsLeft, MtStep, Enabled, MtShape;
    if actions != [] {
      MtStepDecreases(g, perm, states[0], actions[0]);
      MtRunBounded(g, perm, states[1..], actions[1..]);
    }
  }

  /** From every reachable state some continuation completes. */
  lemma {:induction false} MtCompletes(g: Instance, perm: Permutation, m0: Matrix, s: MtState)
    returns (states: seq<MtState>, actions: seq<Action>)
    requires MtInvariant(g, perm, m0, s)
    ensures IsMtRun(g, perm, states, actions) && states[0] == s && states[|actions|].pass == g.passes
    decreases StepsLeft(g, s)
  {
    hide StepsLeft, MtStep, Enabled, MtInvariant;
    InvariantShape(g, perm, m0, s);
    if s.pass == g.passes {
      states, actions := [s], [];
    } else {
      MtNeverStuck(g, perm, m0, s);
      var a: Action :| Enabled(g, s, a);
      var t := MtStep(g, perm, s, a);
      MtStepDecreases(g, perm, s, a);
      MtStepInvariant(g, perm, m0, s, a);
      var states', actions' := MtCompletes(g, perm, m0, t);
      states, actions := [s] + states', [a] + actions';
    }
  }

  lemma InvariantShape(g: Instance, perm: Permutation, m0: Matrix, s: MtState)
    requires MtInvariant(g, perm, m0, s)
    ensures MtShape(g, s) && s.pass <= g.passes
  {
  }

  // ----- What the first pass reads

  /** Written before lane l builds block i of slice s in the first pass, by that lane or before the slice. */
  predicate WrittenFor(g: Instance, l: nat, s: nat, i: nat, c: Cell) {
    c.column < SliceStart(g, s) || (c.lane == l && c.column < SliceStart(g, s) + i)
  }

  /** In the first pass the previous and the reference block were written earlier in the same run,
      whatever the pseudo-random value and however the other lanes are scheduled. */
  lemma FirstPassReadsWritten(g: Instance, p: Position, j: Word)
    requires ValidPosition(g, p) && p.pass == 0
    ensures WrittenFor(g, p.lane, p.slice, p.index, Previous(g, p))
    ensures WrittenFor(g, p.lane, p.slice, p.index, Reference(g, p, j))
  {
    hide IndexAlpha, Times;
    var l := ReferenceLane(g, p, j);
    IndexAlphaAvoids(g, p, j % U32_LIMIT, l == p.lane);
    NoCrossLaneRead(g, p, j);
  }

  /** Cells written when lanes below l have finished slice s, lane l has built its blocks below i,
      and the first two blocks of every lane are given. */
  predicate Written(g: Instance, s: nat, l: nat, i: nat, c: Cell) {
    c.column < 2 || WrittenFor(g, l, s, i, c) || (c.lane < l && c.column < SliceStart(g, s + 1))
  }

  ghost predicate AgreeOnWritten(g: Instance, s: nat, l: nat, i: nat, m1: Matrix, m2: Matrix)
    requires Shaped(g, m1) && Shaped(g, m2)
  {
    forall c :: InMatrix(g, c) && Written(g, s, l, i, c) ==> At(g, m1, c) == At(g, m2, c)
  }

  lemma {:induction false} FillToIgnoresUnwritten(g: Instance, perm: Permutation, m1: Matrix, m2: Matrix, l: nat,
      s: nat, i: nat)
    requires ValidSegment(g, 0, l, s) && Shaped(g, m1) && Shaped(g, m2)
    requires FirstIndex(0, s) <= i <= g.segmentLength
    requires AgreeOnWritten(g, s, l, FirstIndex(0, s), m1, m2)
    ensures AgreeOnWritten(g, s, l, i, FillTo(g, perm, m1, 0, l, s, i), FillTo(g, perm, m2, 0, l, s, i))
  {
    hide IndexAlpha, Times, FillBlock, Addresses, AddressInput, Reference;
    if i > FirstIndex(0, s) {
      FillToIgnoresUnwritten(g, perm, m1, m2, l, s, i - 1);
      var a, b := FillTo(g, perm, m1, 0, l, s, i - 1), FillTo(g, perm, m2, 0, l, s, i - 1);
      FirstPassBlock(g, perm, a, b, Position(0, l, s, i - 1));
    }
  }

  lemma FirstPassBlock(g: Instance, perm: Permutation, a: Matrix, b: Matrix, p: Position)
    requires ValidPosition(g, p) && p.pass == 0 && Shaped(g, a) && Shaped(g, b)
    requires AgreeOnWritten(g, p.slice, p.lane, p.index, a, b)
    ensures NewBlock(g, perm, a, p) == NewBlock(g, perm, b, p)
    ensures AgreeOnWritten(g, p.slice, p.lane, p.index + 1, StepBlock(g, perm, a, p), StepBlock(g, perm, b, p))
  {
    hide IndexAlpha, Times, Addresses, AddressInput, Reference;
    FirstPassReadsWritten(g, p, PseudoRandom(g, perm, a, p));
    assert At(g, a, Previous(g, p)) == At(g, b, Previous(g, p));
  }

  lemma {:induction false} SliceIgnoresUnwritten(g: Instance, perm: Permutation, m1: Matrix, m2: Matrix, s: nat, l: nat)
    requires ValidSlice(g, 0, s) && Shaped(g, m1) && Shaped(g, m2) && l <= g.lanes
    requires AgreeOnWritten(g, s, 0, FirstIndex(0, s), m1, m2)
    ensures AgreeOnWritten(g, s, l, FirstIndex(0, s), SliceTo(g, perm, m1, 0, s, l), SliceTo(g, perm, m2, 0, s, l))
  {
    hide FillTo, Times;
    if l > 0 {
      SliceIgnoresUnwritten(g, perm, m1, m2, s, l - 1);
      var a, b := SliceTo(g, perm, m1, 0, s, l - 1), SliceTo(g, perm, m2, 0, s, l - 1);
      FillToIgnoresUnwritten(g, perm, a, b, l - 1, s, g.segmentLength);
    }
  }

  lemma {:induction false} PassIgnoresUnwritten(g: Instance, perm: Permutation, m1: Matrix, m2: Matrix, s: nat)
    requires ValidInstance(g) && Shaped(g, m1) && Shaped(g, m2) && s <= SYNC_POINTS
    requires AgreeOnWritten(g, 0, 0, 2, m1, m2)
    ensures AgreeOnWritten(g, s, 0, FirstIndex(0, s), PassTo(g, perm, m1, 0, s), PassTo(g, perm, m2, 0, s))
  {
    hide SliceTo, Times;
    if s > 0 {
      PassIgnoresUnwritten(g, perm, m1, m2, s - 1);
      SliceIgnoresUnwritten(g, perm, PassTo(g, perm, m1, 0, s - 1), PassTo(g, perm, m2, 0, s - 1), s - 1, g.lanes);
    }
  }

  /** The filled memory depends on the first two blocks of every lane only, not on what the
      allocation held. */
  lemma {:induction false} FillIgnoresGarbage(g: Instance, perm: Permutation, m1: Matrix, m2: Matrix, r: nat)
    requires ValidInstance(g) && Shaped(g, m1) && Shaped(g, m2) && 1 <= r <= g.passes
    requires AgreeOnWritten(g, 0, 0, 2, m1, m2)
    ensures RunTo(g, perm, m1, r) == RunTo(g, perm, m2, r)
  {
    hide PassTo, Times;
    if r == 1 {
      assert RunTo(g, perm, m1, 0) == m1 && RunTo(g, perm, m2, 0) == m2;
      PassIgnoresUnwritten(g, perm, m1, m2, SYNC_POINTS);
      SameCells(g, PassTo(g, perm, m1, 0, SYNC_POINTS), PassTo(g, perm, m2, 0, SYNC_POINTS));
    } else {
      FillIgnoresGarbage(g, perm, m1, m2, r - 1);
    }
  }
}
