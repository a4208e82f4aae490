/** Threads over the flat memory: the reference form under any timing, what a thread of opt.c carries
    from block to block, and what the first pass reads in a run. */
module Argon2Threads {
  import opened Arithmetic
  import opened Argon2Geometry
  import opened Argon2Index
  import opened Argon2Round
  import opened Argon2Blocks
  import opened Argon2Segment
  import opened Argon2FillSegment
  import opened Argon2Schedule

  // ----- fill_memory_blocks_mt in place

  /** One block of a segment in place. */
  method StepInPlace(g: Instance, perm: Permutation, memory: array<Word>, p: Position)
    requires ValidPosition(g, p) && memory.Length == WORDS * g.memoryBlocks
    modifies memory
    ensures Shaped(g, old(View(g, memory[..])))
    ensures View(g, memory[..]) == StepBlock(g, perm, old(View(g, memory[..])), p)
  {
    hide FillBlock, Addresses, IndexAlpha, AddressInput, View, StepBlock, BlockAt, Times;
    Offsets(g, p);
    var currOffset, prevOffset := BlockOffset(g, Current(g, p)), BlockOffset(g, Previous(g, p));
    var pseudoRand: Word;
    if DataIndependent(g, p) {
      pseudoRand := Addresses(perm, AddressInput(g, p, p.index / ADDRESSES_IN_BLOCK + 1))[p.index % ADDRESSES_IN_BLOCK];
    } else {
      pseudoRand := PreviousWord(g, perm, memory, p, prevOffset);
    }
    BuildRef(g, perm, memory, p, pseudoRand, prevOffset, currOffset);
  }

  /** The thread the main thread is blocked on. */
  lemma Blocked(g: Instance, threads: nat, pc: MainPc, counts: seq<nat>)
    requires |counts| == g.lanes && pc.l <= g.lanes && 1 <= threads && !CanTake(g, threads, pc, counts, Main)
    requires forall l :: 0 <= l < g.lanes ==> counts[l] <= g.segmentLength
    ensures pc.Creating? ==> pc.l >= threads
    ensures CanTake(g, threads, pc, counts, Work(if pc.Creating? then pc.l - threads else pc.l))
  {
  }

  /** fill_memory_blocks_mt: the timing proposes who moves next; a proposal that is not possible gives
      the move to the main thread or to the thread it waits for. */
  method FillMemoryBlocksMt(g: Instance, perm: Permutation, memory: array<Word>, threads: nat, timing: nat -> Action)
    returns (ghost states: seq<MtState>, ghost actions: seq<Action>)
    requires ValidInstance(g) && memory.Length == WORDS * g.memoryBlocks && 1 <= threads <= g.lanes
    modifies memory
    ensures IsMtRun(g, perm, states, actions) && states[0] == MtInit(g, threads, old(View(g, memory[..])))
    ensures states[|actions|].pass == g.passes && states[|actions|].m == View(g, memory[..])
    ensures View(g, memory[..]) == RunTo(g, perm, old(View(g, memory[..])), g.passes)
  {
    hide View, StepBlock, RunTo, StepsLeft, CanTake, Started, Times;
    ghost var m0 := View(g, memory[..]);
    var pass: nat, slice: nat, pc, counts := 0, 0, Creating(0, false), Started(g, 0, 0, 0);
    ghost var s := MtInit(g, threads, m0);
    states, actions := [s], [];
    var k := 0;
    while pass < g.passes
      invariant s == MtState(threads, View(g, memory[..]), pass, slice, pc, counts) && MtShape(g, s)
      invariant IsMtRun(g, perm, states, actions) && states[0] == MtInit(g, threads, m0) && states[|actions|] == s
      decreases StepsLeft(g, s)
    {
      var a := timing(k);
      if !CanTake(g, threads, pc, counts, a) {
        a := Main;
        if !CanTake(g, threads, pc, counts, Main) {
          Blocked(g, threads, pc, counts);
          a := Work(if pc.Creating? then pc.l - threads else pc.l);
        }
      }
      ghost var t := MtStep(g, perm, s, a);
      MtStepDecreases(g, perm, s, a);
      RunExtends(g, perm, states, actions, a);
      if a.Work? {
        WorkInSegment(g, s, a.lane);
        StepInPlace(g, perm, memory, Position(pass, a.lane, slice, counts[a.lane]));
        counts := counts[a.lane := counts[a.lane] + 1];
      } else if pc.Creating? && pc.l == g.lanes {
        pc := Joining(g.lanes - threads);
      } else if pc.Creating? && pc.l >= threads && !pc.joined {
        pc := Creating(pc.l, true);
      } else if pc.Creating? {
        pc := Creating(pc.l + 1, false);
      } else if pc.l < g.lanes {
        pc := Joining(pc.l + 1);
      } else {
        slice := slice + 1;
        if slice == SYNC_POINTS {
          pass, slice := pass + 1, 0;
        }
        pc, counts := Creating(0, false), Started(g, pass, slice, 0);
      }
      states, actions, s, k := states + [t], actions + [a], t, k + 1;
    }
    MtRefinesSt(g, perm, threads, m0, states, actions);
  }

  lemma WorkInSegment(g: Instance, s: MtState, l: nat)
    requires MtShape(g, s) && Enabled(g, s, Work(l))
    ensures l < g.lanes && ValidPosition(g, Position(s.pass, l, s.slice, s.counts[l]))
  {
  }

  lemma RunExtends(g: Instance, perm: Permutation, states: seq<MtState>, actions: seq<Action>, a: Action)
    requires IsMtRun(g, perm, states, actions) && Enabled(g, states[|actions|], a)
    ensures IsMtRun(g, perm, states + [MtStep(g, perm, states[|actions|], a)], actions + [a])
  {
    hide MtStep, Enabled, MtShape;
  }

  // ----- What the first pass reads in a run

  /** An earlier action of the run built the block in this cell, in the first pass. */
  predicate BuiltBy(g: Instance, states: seq<MtState>, actions: seq<Action>, k: nat, c: Cell)
    requires k < |actions| && |actions| < |states|
  {
    var s := states[k];
    && actions[k] == Work(c.lane) && s.pass == 0 && c.lane < |s.counts|
    && c.column == SliceStart(g, s.slice) + s.counts[c.lane]
  }

  ghost predicate BuiltBefore(g: Instance, states: seq<MtState>, actions: seq<Action>, n: nat, c: Cell)
    requires n <= |actions| < |states|
  {
    exists k :: 0 <= k < n && BuiltBy(g, states, actions, k, c)
  }

  /** In the first pass, every cell below a lane's next block, but for the first two, was built in the run. */
  lemma {:induction false} FirstPassBuilt(g: Instance, perm: Permutation, threads: nat, m0: Matrix,
                                          states: seq<MtState>, actions: seq<Action>, n: nat, c: Cell)
    requires ValidInstance(g) && Shaped(g, m0) && 1 <= threads <= g.lanes
    requires IsMtRun(g, perm, states, actions) && states[0] == MtInit(g, threads, m0)
    requires n <= |actions| && states[n].pass == 0 && InMatrix(g, c) && c.column >= 2
    requires c.column < SliceStart(g, states[n].slice) + states[n].counts[c.lane]
    ensures BuiltBefore(g, states, actions, n, c)
  {
    hide StepBlock, MtInvariant, Started;
    if n == 0 {
      assert StartedAt(g, 0, 0, 0, c.lane) == 2;
      StartedCount(g, 0, 0, c.lane);
    } else {
      var s, t, a := states[n - 1], states[n], actions[n - 1];
      assert t == MtStep(g, perm, s, a) && MtShape(g, s) && Enabled(g, s, a);
      BeforeStep(g, perm, threads, m0, states, actions, n, c);
      if a.Work? && c.lane == a.lane && c.column == SliceStart(g, s.slice) + s.counts[c.lane] {
        assert BuiltBy(g, states, actions, n - 1, c);
      } else {
        FirstPassBuilt(g, perm, threads, m0, states, actions, n - 1, c);
        var k :| 0 <= k < n - 1 && BuiltBy(g, states, actions, k, c);
      }
    }
  }

  lemma StartedCount(g: Instance, pass: nat, slice: nat, l: nat)
    requires ValidInstance(g) && l < g.lanes
    ensures Started(g, pass, slice, 0)[l] == FirstIndex(pass, slice)
  {
  }

  /** The cell built by the last action, or one below the lane's next block before it. */
  lemma BeforeStep(g: Instance, perm: Permutation, threads: nat, m0: Matrix, states: seq<MtState>,
                   actions: seq<Action>, n: nat, c: Cell)
    requires ValidInstance(g) && Shaped(g, m0) && 1 <= threads <= g.lanes
    requires IsMtRun(g, perm, states, actions) && states[0] == MtInit(g, threads, m0)
    requires 1 <= n <= |actions| && states[n].pass == 0 && InMatrix(g, c)
    requires c.column < SliceStart(g, states[n].slice) + states[n].counts[c.lane]
    ensures var s, a := states[n - 1], actions[n - 1];
            && s.pass == 0
            && ((a == Work(c.lane) && c.column == SliceStart(g, s.slice) + s.counts[c.lane])
                || c.column < SliceStart(g, s.slice) + s.counts[c.lane])
  {
    hide StepBlock, Merge, RunTo, PassTo, Started;
    var s, a := states[n - 1], actions[n - 1];
    MtRunInvariant(g, perm, threads, m0, states, actions, n - 1);
    assert states[n] == MtStep(g, perm, s, a);
    if a.Main? && s.pc == Joining(g.lanes) {
      StartedCount(g, states[n].pass, states[n].slice, c.lane);
      assert s.counts[c.lane] == g.segmentLength;
    }
  }

  /** The thread of lane l reads this cell, besides its own, for its next block. */
  predicate ReadBy(g: Instance, perm: Permutation, s: MtState, l: nat, c: Cell)
    requires MtShape(g, s) && Enabled(g, s, Work(l))
  {
    WorkInSegment(g, s, l);
    var p := Position(s.pass, l, s.slice, s.counts[l]);
    c == Previous(g, p) || c == Reference(g, p, PseudoRandom(g, perm, s.m, p))
  }

  /** Whatever the timing and the thread limit: the blocks read in the first pass of a run are one of the
      first two of a lane, or were built by an earlier action of the run. */
  lemma FirstPassReadsBuilt(g: Instance, perm: Permutation, threads: nat, m0: Matrix, states: seq<MtState>,
                            actions: seq<Action>, n: nat, l: nat, c: Cell)
    requires ValidInstance(g) && Shaped(g, m0) && 1 <= threads <= g.lanes
    requires IsMtRun(g, perm, states, actions) && states[0] == MtInit(g, threads, m0)
    requires n < |actions| && actions[n] == Work(l) && states[n].pass == 0
    requires ReadBy(g, perm, states[n], l, c)
    ensures c.column < 2 || BuiltBefore(g, states, actions, n, c)
  {
    hide StepBlock, Merge, RunTo, PassTo, Reference, Previous, PseudoRandom, MtStep, WrittenFor, BuiltBefore, CanTake;
    var s := states[n];
    WorkInSegment(g, s, l);
    var p := Position(0, l, s.slice, s.counts[l]);
    FirstPassReadsWritten(g, p, PseudoRandom(g, perm, s.m, p));
    WrittenIsBelow(g, s, l, c);
    if c.column >= 2 {
      FirstPassBuilt(g, perm, threads, m0, states, actions, n, c);
    }
  }

  lemma WrittenIsBelow(g: Instance, s: MtState, l: nat, c: Cell)
    requires MtShape(g, s) && s.pass == 0 && l < g.lanes && InMatrix(g, c)
    requires WrittenFor(g, l, s.slice, s.counts[l], c)
    ensures c.column >= 2 ==> c.column < SliceStart(g, s.slice) + s.counts[c.lane]
  {
  }
}
