/** Threads of opt.c: each carries the previous block, its offsets and its address block on its own
    stack, and these stay right however the threads interleave. */
module Argon2OptThreads {
  import opened Arithmetic
  import opened Argon2Geometry
  import opened Argon2Index
  import opened Argon2Round
  import opened Argon2Blocks
  import opened Argon2Segment
  import opened Argon2FillSegment
  import opened Argon2Schedule

  /** What fill_segment of opt.c keeps between two blocks. */
  datatype Locals = Locals(prevOffset: uint32, currOffset: uint32, state: Block, input: seq<Word>, address: seq<Word>)

  predicate ValidWords(g: Instance, words: seq<Word>) {
    ValidInstance(g) && |words| == WORDS * g.memoryBlocks
  }

  /** The locals are right for the next block at p, which may be past the end of the segment. */
  predicate Right(g: Instance, perm: Permutation, m: Matrix, p: Position, x: Locals)
    requires Shaped(g, m)
  {
    && p.lane < U32_LIMIT && p.slice < U32_LIMIT
    && OffsetState(g, p, x.prevOffset, x.currOffset)
    && (ValidPosition(g, p) ==> x.state == At(g, m, Previous(g, p)))
    && (DataIndependent(g, p) ==> AddressState(g, perm, p, x.input, x.address))
  }

  /** Before the loop: the offsets, the previous block from memory, and the address generator. */
  function StartLocals(g: Instance, perm: Permutation, words: seq<Word>, p: Position): Locals
    requires ValidWords(g, words) && ValidSegment(g, p.pass, p.lane, p.slice)
    requires p.lane < U32_LIMIT && p.index == FirstIndex(p.pass, p.slice)
  {
    var curr := U32(p.lane * g.laneLength + p.slice * g.segmentLength + p.index);
    StartOffsets(g, p, curr);
    var prev := if curr % g.laneLength == 0 then U32(curr + g.laneLength - 1) else U32(curr - 1);
    var input := AddressInput(g, p, if p.index == 0 then 0 else 1);
    Locals(prev, curr, BlockAt(words, WORDS * prev), input, Addresses(perm, input))
  }

  lemma StartRight(g: Instance, perm: Permutation, words: seq<Word>, p: Position)
    requires ValidWords(g, words) && ValidSegment(g, p.pass, p.lane, p.slice)
    requires p.lane < U32_LIMIT && p.index == FirstIndex(p.pass, p.slice)
    ensures Shaped(g, View(g, words)) && Right(g, perm, View(g, words), p, StartLocals(g, perm, words, p))
  {
    hide Addresses, AddressInput, View, BlockAt, Previous, OffsetState, AddressState, Times;
    var curr := U32(p.lane * g.laneLength + p.slice * g.segmentLength + p.index);
    StartOffsets(g, p, curr);
    var x := StartLocals(g, perm, words, p);
    StateCarriesPrevious(g, p, words, x.prevOffset, curr);
    InitialAddressState(g, perm, p, x.input, x.address);
  }

  /** One round of the loop: everything but the reference block, the pseudo-random word of a
      data-dependent block and the overwritten block comes from the locals. */
  function OptBlock(g: Instance, perm: Permutation, words: seq<Word>, p: Position, x: Locals): (seq<Word>, Locals)
    requires ValidWords(g, words) && ValidPosition(g, p)
    requires Shaped(g, View(g, words)) && Right(g, perm, View(g, words), p, x)
  {
    RotateOffset(g, p, x.prevOffset, x.currOffset);
    Offsets(g, p);
    var prev := if x.currOffset % g.laneLength == 1 then U32(x.currOffset - 1) else x.prevOffset;
    var next := DataIndependent(g, p) && p.index % ADDRESSES_IN_BLOCK == 0;
    var input := if next then x.input[6 := U64(x.input[6] as int + 1)] else x.input;
    var address := if next then Addresses(perm, input) else x.address;
    var j := if DataIndependent(g, p) then address[p.index % ADDRESSES_IN_BLOCK] else BlockAt(words, WORDS * prev)[0];
    var c := Reference(g, p, j);
    ReferenceOffset(g, p, j);
    var block := FillBlock(perm, x.state, BlockAt(words, WORDS * U64(g.laneLength * c.lane + c.column)),
                           BlockAt(words, WORDS * x.currOffset), g.version != VERSION_10 && p.pass != 0);
    (Store(words, WORDS * x.currOffset, block), Locals(U32(prev + 1), U32(x.currOffset + 1), block, input, address))
  }

  lemma WordOfThread(g: Instance, perm: Permutation, words: seq<Word>, p: Position, x: Locals)
    requires ValidWords(g, words) && ValidPosition(g, p)
    requires Shaped(g, View(g, words)) && Right(g, perm, View(g, words), p, x)
    ensures var next := DataIndependent(g, p) && p.index % ADDRESSES_IN_BLOCK == 0;
            DataIndependent(g, p) ==>
              var input := if next then x.input[6 := U64(x.input[6] as int + 1)] else x.input;
              var address := if next then Addresses(perm, input) else x.address;
              && address[p.index % ADDRESSES_IN_BLOCK] == PseudoRandom(g, perm, View(g, words), p)
              && (p.index + 1 < U32_LIMIT ==> AddressState(g, perm, p.(index := p.index + 1), input, address))
    ensures BlockOffset(g, Previous(g, p)) < g.memoryBlocks
    ensures !DataIndependent(g, p) ==>
              BlockAt(words, WORDS * BlockOffset(g, Previous(g, p)))[0] == PseudoRandom(g, perm, View(g, words), p)
  {
    hide FillBlock, Addresses, AddressInput, View, BlockAt, Times;
    Offsets(g, p);
    if DataIndependent(g, p) {
      CounterForBlock(g, perm, p, x.input, x.address);
      var input := if p.index % ADDRESSES_IN_BLOCK == 0 then x.input[6 := U64(x.input[6] as int + 1)] else x.input;
      var address := if p.index % ADDRESSES_IN_BLOCK == 0 then Addresses(perm, input) else x.address;
      if p.index + 1 < U32_LIMIT {
        NextAddressState(g, perm, p, input, address);
      }
    } else {
      ViewAt(g, words, Previous(g, p));
    }
  }

  /** What a round of the loop leaves. */
  lemma OptBlockIs(g: Instance, perm: Permutation, words: seq<Word>, p: Position, x: Locals)
    requires ValidWords(g, words) && ValidPosition(g, p)
    requires Shaped(g, View(g, words)) && Right(g, perm, View(g, words), p, x)
    ensures var (words', x') := OptBlock(g, perm, words, p, x);
            var block := NewBlock(g, perm, View(g, words), p);
            && BlockOffset(g, Current(g, p)) < g.memoryBlocks
            && words' == Store(words, WORDS * BlockOffset(g, Current(g, p)), block) && x'.state == block
            && x'.prevOffset == U32(BlockOffset(g, Previous(g, p)) + 1)
            && x'.currOffset == U32(BlockOffset(g, Current(g, p)) + 1)
            && (p.index + 1 < U32_LIMIT && DataIndependent(g, p) ==>
                  AddressState(g, perm, p.(index := p.index + 1), x'.input, x'.address))
  {
    hide FillBlock, Addresses, AddressInput, AddressState, View, BlockAt, PseudoRandom, Times, Store, Previous, Current;
    hide Reference, BlockOffset, NewBlock, ValidStore, At;
    var j := PseudoRandom(g, perm, View(g, words), p);
    WordOfThread(g, perm, words, p, x);
    RotateOffset(g, p, x.prevOffset, x.currOffset);
    Offsets(g, p);
    ReferenceOffset(g, p, j);
    BlockInMemory(g, perm, words, p, j);
  }

  /** A thread's own block: the memory is that of the block recurrence and the locals stay right. */
  lemma OwnBlock(g: Instance, perm: Permutation, words: seq<Word>, p: Position, x: Locals)
    requires ValidWords(g, words) && ValidPosition(g, p)
    requires Shaped(g, View(g, words)) && Right(g, perm, View(g, words), p, x)
    ensures var (words', x') := OptBlock(g, perm, words, p, x);
            && ValidWords(g, words') && View(g, words') == StepBlock(g, perm, View(g, words), p)
            && Right(g, perm, View(g, words'), p.(index := p.index + 1), x')
  {
    hide AddressState, View, BlockAt, PseudoRandom, Times, Store, Previous, Current;
    hide Reference, BlockOffset, NewBlock, OptBlock, OffsetState, FillBlock;
    OptBlockIs(g, perm, words, p, x);
    BlockInMemory(g, perm, words, p, PseudoRandom(g, perm, View(g, words), p));
    AdvanceOffsets(g, p);
  }

  /** Another thread's block of the same slice leaves a thread's locals right. */
  lemma OtherBlock(g: Instance, perm: Permutation, m: Matrix, p: Position, x: Locals, q: Position)
    requires Shaped(g, m) && Right(g, perm, m, p, x) && ValidPosition(g, q)
    requires q.lane != p.lane
    ensures Right(g, perm, StepBlock(g, perm, m, q), p, x)
  {
    hide NewBlock, AddressState, OffsetState;
  }

  // ----- Whole runs

  datatype OptState = OptState(threads: nat, words: seq<Word>, pass: nat, slice: nat, pc: MainPc, counts: seq<nat>,
                               locals: seq<Locals>)

  /** The same state without the locals. */
  function Forget(g: Instance, s: OptState): MtState
    requires ValidWords(g, s.words)
  {
    MtState(s.threads, View(g, s.words), s.pass, s.slice, s.pc, s.counts)
  }

  function PositionOf(s: OptState, l: nat): Position
    requires l < |s.counts| && s.pass < U32_LIMIT && s.counts[l] < U32_LIMIT
  {
    Position(s.pass, l, s.slice, s.counts[l])
  }

  /** The locals of every created thread are right, and the other lanes have not started. */
  predicate Carried(g: Instance, perm: Permutation, s: OptState) {
    && ValidWords(g, s.words) && MtShape(g, Forget(g, s)) && |s.locals| == g.lanes
    && (s.pass < g.passes ==>
          forall l :: 0 <= l < Created(g, s.pc) ==> Right(g, perm, View(g, s.words), PositionOf(s, l), s.locals[l]))
    && forall l :: Created(g, s.pc) <= l < g.lanes ==> s.counts[l] == FirstIndex(s.pass, s.slice)
  }

  /** A created thread starts with its prelude; every later block uses its own locals. */
  function OptStep(g: Instance, perm: Permutation, s: OptState, a: Action): OptState
    requires Carried(g, perm, s) && Enabled(g, Forget(g, s), a)
  {
    match a
    case Work(l) =>
      var (words, x) := OptBlock(g, perm, s.words, PositionOf(s, l), s.locals[l]);
      s.(words := words, counts := s.counts[l := s.counts[l] + 1], locals := s.locals[l := x])
    case Main =>
      var t := MtStep(g, perm, Forget(g, s), Main);
      var created := s.pc.Creating? && s.pc.l < g.lanes && t.pc == Creating(s.pc.l + 1, false);
      OptState(s.threads, s.words, t.pass, t.slice, t.pc, t.counts,
               if created then s.locals[s.pc.l := StartLocals(g, perm, s.words, PositionOf(s, s.pc.l))] else s.locals)
  }

  lemma OptWorks(g: Instance, perm: Permutation, s: OptState, l: nat)
    requires Carried(g, perm, s) && Enabled(g, Forget(g, s), Work(l))
    ensures Carried(g, perm, OptStep(g, perm, s, Work(l)))
    ensures Forget(g, OptStep(g, perm, s, Work(l))) == MtStep(g, perm, Forget(g, s), Work(l))
  {
    hide View, Right, OptBlock, StepBlock, Times;
    OwnBlock(g, perm, s.words, PositionOf(s, l), s.locals[l]);
    var s' := OptStep(g, perm, s, Work(l));
    forall k | 0 <= k < Created(g, s.pc) ensures Right(g, perm, View(g, s'.words), PositionOf(s', k), s'.locals[k]) {
      if k != l {
        OtherBlock(g, perm, View(g, s.words), PositionOf(s, k), s.locals[k], PositionOf(s, l));
      }
    }
  }

  lemma OptMoves(g: Instance, perm: Permutation, s: OptState)
    requires Carried(g, perm, s) && Enabled(g, Forget(g, s), Main)
    ensures Carried(g, perm, OptStep(g, perm, s, Main))
    ensures Forget(g, OptStep(g, perm, s, Main)) == MtStep(g, perm, Forget(g, s), Main)
  {
    hide View, Right, StartLocals, Times, CanTake;
    var s' := OptStep(g, perm, s, Main);
    if s.pc.Creating? && s.pc.l < g.lanes && s'.pc == Creating(s.pc.l + 1, false) {
      StartRight(g, perm, s.words, PositionOf(s, s.pc.l));
    }
    if s.pc == Joining(g.lanes) {
      forall l | 0 <= l < g.lanes ensures s'.counts[l] == FirstIndex(s'.pass, s'.slice) {
        assert StartedAt(g, s'.pass, s'.slice, 0, l) == FirstIndex(s'.pass, s'.slice);
      }
    }
  }

  /** Forgetting the locals, every step is a step of the threads that read everything from memory. */
  lemma OptStepRefines(g: Instance, perm: Permutation, s: OptState, a: Action)
    requires Carried(g, perm, s) && Enabled(g, Forget(g, s), a)
    ensures Carried(g, perm, OptStep(g, perm, s, a))
    ensures Forget(g, OptStep(g, perm, s, a)) == MtStep(g, perm, Forget(g, s), a)
  {
    hide Carried, OptStep, MtStep, Enabled, Forget;
    match a {
      case Work(l) => OptWorks(g, perm, s, l);
      case Main => OptMoves(g, perm, s);
    }
  }

  /** Before any thread: the locals of no lane have a value yet. */
  predicate Fresh(g: Instance, s: OptState) {
    && ValidWords(g, s.words) && |s.locals| == g.lanes && 1 <= s.threads <= g.lanes
    && Forget(g, s) == MtInit(g, s.threads, View(g, s.words))
  }

  lemma FreshCarried(g: Instance, perm: Permutation, s: OptState)
    requires Fresh(g, s)
    ensures Carried(g, perm, s) && MtInvariant(g, perm, View(g, s.words), Forget(g, s))
  {
    hide View, Merge, Times;
    MtInitInvariant(g, perm, s.threads, View(g, s.words));
  }

  /** Each action is enabled where it is taken. */
  ghost predicate Runs(g: Instance, perm: Permutation, s: OptState, actions: seq<Action>, end: OptState)
    requires Carried(g, perm, s)
    decreases |actions|
  {
    if actions == [] then s == end
    else if !Enabled(g, Forget(g, s), actions[0]) then false
    else
      OptStepRefines(g, perm, s, actions[0]);
      Runs(g, perm, OptStep(g, perm, s, actions[0]), actions[1..], end)
  }

  lemma {:induction false} OptRunInvariant(g: Instance, perm: Permutation, m0: Matrix, s: OptState,
                                           actions: seq<Action>, end: OptState)
    requires Carried(g, perm, s) && MtInvariant(g, perm, m0, Forget(g, s)) && Runs(g, perm, s, actions, end)
    ensures Carried(g, perm, end) && MtInvariant(g, perm, m0, Forget(g, end))
    decreases |actions|
  {
    hide Carried, OptStep, MtStep, Enabled, Forget, MtInvariant;
    if actions != [] {
      OptStepRefines(g, perm, s, actions[0]);
      Enabledness(g, perm, m0, s, actions[0]);
      OptRunInvariant(g, perm, m0, OptStep(g, perm, s, actions[0]), actions[1..], end);
    }
  }

  lemma Enabledness(g: Instance, perm: Permutation, m0: Matrix, s: OptState, a: Action)
    requires Carried(g, perm, s) && MtInvariant(g, perm, m0, Forget(g, s)) && Enabled(g, Forget(g, s), a)
    ensures MtInvariant(g, perm, m0, MtStep(g, perm, Forget(g, s), a))
  {
    hide MtStep, Enabled, MtInvariant, Right, View;
    MtStepInvariant(g, perm, m0, Forget(g, s), a);
  }

  /** A run from the start of the filling. */
  ghost predicate RunsFromStart(g: Instance, perm: Permutation, s: OptState, actions: seq<Action>, end: OptState) {
    && Fresh(g, s)
    && (FreshCarried(g, perm, s); Runs(g, perm, s, actions, end))
  }

  /** Every complete run of opt.c's threads, under any thread limit and any timing, leaves the memory of
      the single-threaded reference form; all along, what each thread carries is right. */
  lemma OptRefinesSt(g: Instance, perm: Permutation, s: OptState, actions: seq<Action>, end: OptState)
    requires RunsFromStart(g, perm, s, actions, end)
    ensures Carried(g, perm, end)
    ensures end.pass == g.passes ==> View(g, end.words) == RunTo(g, perm, View(g, s.words), g.passes)
  {
    hide View, RunTo, Right, Merge, PassTo, Times;
    FreshCarried(g, perm, s);
    OptRunInvariant(g, perm, View(g, s.words), s, actions, end);
  }
}
