# Argon2 and the remote-session client, verified

A Dafny model of two parts of the repository and proofs about them.

**The vendored Argon2** (`src/shared/argon2`, RFC 9106). The memory is a flat array of words, as in the
C code, and is viewed as a matrix of blocks (lane by column). Modelled are the geometry, `index_alpha`, the
reference and the 128-bit optimised segment fill, the single-threaded and the multi-threaded schedule, the first
blocks, the final tag, and the encoded hash string with its Base64 and its decimal numbers. All 32-bit and 64-bit
steps are written out. BLAKE2b and H' are parameters, and so is the round where blocks are filled; what is proved holds
for any of them.

**The client side of the remote-session protocol.** The session replica, the reader and the work lane of a host
stream, the durable outbox of the host's dialog queue, the stream of an SDK query, the prompt slot of the ACP bridge,
and the translation between the two agent identity dialects.

How the parts are modelled:

- Code that changes things in place is a method over arrays or a class whose fields it reassigns. Each method is
  proved against a function on values; the properties are lemmas about those functions.
- Asynchronous code is cut at its awaits. Each stretch between two awaits is one step, a promise continuation runs
  in the step that resolves the promise, and everything outside (host, network, clock, user, crash) is an arbitrary
  choice among the steps the contract allows. Properties are stated over all runs, or as invariants of every step.
- Hosts of the queue and of the stream appear as the sequence of states they went through. An answer is a snapshot of
  a state the host was in after it was asked. Epochs are random texts or numbers in the code; here they are numbered
  in the order the host used them, and the client code only compares them for equality.

| file | content |
|---|---|
| `Arithmetic.dfy`, `BitStrings.dfy`, `Wrappers.dfy` | machine arithmetic, bit strings, `Option` |
| `Argon2Geometry.dfy`, `Argon2Index.dfy` | `validate_inputs`, the geometry, `index_alpha` against section 3.4.2 of RFC 9106 |
| `Argon2Round.dfy`, `Argon2Blocks.dfy` | the scalar and the 128-bit round, both forms of `fill_block` |
| `Argon2Segment.dfy`, `Argon2FillSegment.dfy` | the segment fill as a function on matrices; `ref.c` and `opt.c` against it |
| `Argon2Schedule.dfy`, `Argon2Threads.dfy`, `Argon2OptThreads.dfy` | slices, passes and threads; threads in place; what a thread of `opt.c` carries |
| `Argon2Hash.dfy` | one whole request and its verification |
| `Argon2Standard.dfy`, `Argon2Exact.dfy` | section 3.2 of RFC 9106 as equations on numbers and bytes; the tags of the code are exactly the solutions |
| `Base64.dfy`, `Decimal.dfy`, `HashString.dfy`, `EncodingByHand.dfy` | `encoding.c`, and its texts spelled out |
| `SessionReplica.dfy`, `ReplicaListing.dfy`, `ReplicaObject.dfy` | the replica as functions, what a call takes in and a turn lists, told on fields, the object |
| `ReplicaViews.dfy`, `ReplicaFold.dfy` | what a replica shows, a consumer that folds its changes |
| `ReplicaConvergence.dfy`, `ReplicaOrder.dfy`, `ReplicaTies.dfy` | when all orders of the records show the same items, and the same view |
| `DialogQueue.dfy`, `DialogQueueSafety.dfy` | the outbox protocol and its invariant |
| `DialogQueueTheorems.dfy`, `DialogQueueRefresh.dfy` | its theorems, what a completed refresh shows |
| `DialogQueueExamples.dfy`, `DialogQueueObject.dfy` | the runs where its guarantees end, the object |
| `HostStreamReader.dfy`, `HostStreamLane.dfy` | the paging reader, the work lane |
| `HostStreamRetry.dfy`, `HostStream.dfy` | the lane's retries and its close, lane and reader together |
| `QueryStream.dfy`, `PromptSlot.dfy` | the SDK query stream, the ACP prompt slot |
| `AgentIdentity.dfy`, `AgentWire.dfy` | alias tables, tree translation |
| `AgentWireLaws.dfy`, `AgentWirePositions.dfy` | its laws; names, places and refusals spelled out |

Where the code does not do what its comments or a first reading suggest, the model follows the code and a lemma says
exactly when the expectation holds:

- `SessionRecordReplica.ts:33-37` calls newest-first history safe. It is, unless a deleted turn or round is upserted
  again above its tombstone while an older item survives; then the order decides whether the item shows
  (`ConvergentExactly` gives the exact condition, `RevivedTurnDiverges` a concrete set of three records).
- A consumer that folds the returned changes has the full view, unless a deletion takes something from a turn other
  than the first that contains its identity: only that one is reported (`IncrementalExactly`). `apply` accepts an item
  under two turns, and then a deleted item stays on the screen (`MovedItemStays`). When rounds keep their turn and items
  their round, the fold is right over every history (`FoldIsFullView`).
- `HostDialogQueue.ts:223-229` commits an edit intent so that a refresh cannot collect the draft. It cannot, exactly when
  no refresh is removing the record at that moment or has listed it as one it will remove (`IntentLostExactly`);
  `IntentLost` is a run from the start in which the secured draft goes. From a moment without such a refresh on,
  the draft stays over every step of anyone that does not store or drop it itself (`IntentKept`).
- `submit` trusts a requested turn id. Asking for the id of another stored message displaces that draft
  (`RequestedIdOverwrites` from the call on, `DraftDisplaced` as a run); ids stay unambiguous exactly when a requested id
  is unused or names the same request (`FreshExactly`). `NoSilentLoss` holds on all runs and names this way of leaving.
- `retryRecord` does not compare the epoch of the answer to `get`, as `transmit` does. With a host that changes owner
  before it answers, a message the new owner only remembers counts as accepted in the old epoch, and a refresh that was
  asked earlier removes it (`ForeignReceiptLoses`). Acknowledgements stay of their request's epoch over a step exactly
  when it is no first receipt given in another epoch (`OwnAcksExactly`); the runs without such receipts and with
  unambiguous ids are those of `NoSilentLossClean` (`CleanRunExactly`). The repository's host tests the epoch and
  answers under one lock (`host_message_queue.rs:366-388`), so it never gives one.
- The result of a query counts no bytes against its buffer, but it takes one of the 1,024 places, so a query with
  1,024 unread events fails at its result (`ResultRefusedExactly`, and the run `UnreadResultFails`). An event that nobody
  waits for fails the query if it does not fit beside the unread ones, even as the first one (`EventRefusedExactly`,
  `OversizedEventFails`); the same event is delivered at any size to a caller who waits. A refused permission
  response uses the request up: a pending request is answered exactly when the first response to it is well formed
  (`PermissionExactly`, and the run `MalformedThenNothing`).
- `HostStream.ts` describes the emitted turns as the ones in the transcript. They are not forgotten at a gap, so after
  a host restart `loadOlder` reads past turns that were only shown before it. `ProgressExactly` says on which pages the
  code's test and the one its comment describes agree, `RestartHidesProgress` gives a host and a page where they do not.
- An agent error left over from an earlier turn rejects a prompt that no turn has claimed yet
  (`AgentErrorRejectsExactly`, and the run `EarlierErrorRejects`).

`dafny verify dfyconfig.toml` checks everything. Proofs use `hide` statements to keep definitions out of steps that do
not need them.

## Model

| member | source | states |
|---|---|---|
| Argon2Geometry.ValidateInputsExact | src/shared/argon2/core.c:388-513 | although the memory bound is tested with a 32-bit product that may wrap, acceptance is exactly the conjunction of all documented bounds |
| Argon2Geometry.FirstFailedTest | src/shared/argon2/core.c:388-513 | the error code is that of the first of the sixteen tests that fails, in the order of the code, with 8 * lanes taken modulo 2^32 |
| Argon2Geometry.GeometryOfValidInputs | src/shared/argon2/argon2.c:54-77 | from accepted inputs no product wraps, a segment has at least two blocks and memory is the largest multiple of 4 times lanes not above the requested cost |
| Argon2Geometry.OffsetInMemory | src/shared/argon2/ref.c:177-180 | every cell of the matrix has its own offset below the number of blocks |
| Argon2Index.ReferenceSetShape | src/shared/argon2/core.c:201-250 | the reference set of section 3.4.2 of RFC 9106 is a cyclic run from the computed start, of the computed size, and the 32-bit sums for both do not wrap |
| Argon2Index.IndexAlphaRefinesRfc | src/shared/argon2/core.c:189-257 | for every pass, slice, index, lane choice and 32-bit value the result is the member of the reference set the standard prescribes, inside the lane |
| Argon2Index.IndexAlphaAvoids | src/shared/argon2/core.c:189-257 | never the current or the previous block of the own lane, never the slice being written of another lane, never a block not yet written in pass 0 |
| Argon2Index.DistanceInRange | src/shared/argon2/core.c:236-239 | the 64-bit product loses nothing and the mapped value stays below the area size |
| Argon2Index.ChoiceMonotone | src/shared/argon2/core.c:234-239 | the relative position falls as the pseudo-random value grows |
| Argon2Round.SimdRoundRefinesScalar | src/shared/argon2/blake2/blamka-round-opt.h:107-182 | the 128-bit round, with or without the byte-shuffle instruction, is the scalar round on the flattened words |
| Argon2Round.RoundByDiagonals | src/shared/argon2/blake2/blamka-round-ref.h:43-56 | the eight calls of G: the columns of the four-by-four words, then the diagonals |
| Argon2Round.MixOfOne | src/shared/argon2/blake2/blamka-round-ref.h:25-41 | G with the 64-bit mixing and rotations of the source on the words 1, 0, 0, 0 |
| Argon2Blocks.RowRounds | src/shared/argon2/ref.c:55-65 | eight in-place rounds over the rows compute the row step of the permutation |
| Argon2Blocks.ColumnRounds | src/shared/argon2/ref.c:67-77 | eight in-place rounds over the columns compute the column step |
| Argon2Blocks.SameGrouping | src/shared/argon2/opt.c:126-136 | the registers of each 128-bit round hold the words of the reference form's round |
| Argon2Blocks.StateRounds | src/shared/argon2/opt.c:126-136 | the sixteen rounds over the packed state compute rows, then columns |
| Argon2Blocks.FillBlockRef | src/shared/argon2/ref.c:39-81 | the destination becomes the compression of the two old blocks, with XOR over the old content when asked, whatever coincides or overlaps, and no other word changes |
| Argon2Blocks.FillBlockOpt | src/shared/argon2/opt.c:110-146 | the same from the block carried in the state, and the state becomes the new block |
| Argon2Segment.StoreIsPut | src/shared/argon2/ref.c:177-192 | writing one block of the flat memory changes one cell of the matrix |
| Argon2Segment.ReferenceOfWord | src/shared/argon2/ref.c:162-175 | for hi and lo below 2^32 the word hi * 2^32 + lo refers to the own lane in slice 0 of pass 0 and to lane hi mod lanes otherwise, and there to the member of the standard's set W at position W - 1 - (W * (lo^2 / 2^32)) / 2^32 |
| Argon2Segment.ReferencesIgnoreMemory | src/shared/argon2/ref.c:83-88 | in the data-independent modes two runs over different memory contents refer to the same cell at every step |
| Argon2FillSegment.NextAddressesRef | src/shared/argon2/ref.c:83-88 | the second, aliased call is safe: the counter grows by one and the address block is the double compression of the new input block |
| Argon2FillSegment.NextAddressesOpt | src/shared/argon2/opt.c:148-172 | the same with two states on the side |
| Argon2FillSegment.CounterForBlock | src/shared/argon2/ref.c:150-160 | in the streaming form the counter for index i is i/128 + 1, as section 3.4.1.2 of RFC 9106 defines |
| Argon2FillSegment.AdvanceOffsets | src/shared/argon2/ref.c:132-149 | the running offsets are the current cell and its cyclic predecessor after every increment, without 32-bit wrap |
| Argon2FillSegment.StateCarriesPrevious | src/shared/argon2/opt.c:225-233 | the state loaded at the start is the block before the first one to build |
| Argon2FillSegment.FillSegmentRef | src/shared/argon2/ref.c:90-194 | the reference form leaves the memory of the segment function and refers to exactly its cells, whose lane and column follow in numbers from the two halves of each pseudo-random word |
| Argon2FillSegment.FillSegmentOpt | src/shared/argon2/opt.c:174-283 | the optimised form leaves the same memory and refers to the same cells, for every instance and position, without reading the previous block back |
| Argon2Schedule.FillMemoryBlocksSt | src/shared/argon2/core.c:260-276 | the three loops compute all passes, slices and lanes in place |
| Argon2Schedule.NoCrossLaneRead | src/shared/argon2/ref.c:162-178 | no lane reads a cell another lane writes in the same slice, nor its own current cell |
| Argon2Schedule.MergeStep | src/shared/argon2/core.c:311-357 | one block step of any lane in any interleaving writes what the lane would write alone |
| Argon2Schedule.ScheduleIndependence | src/shared/argon2/core.c:311-357 | every interleaving of block steps that completes all lanes leaves the slice of the sequential order |
| Argon2Schedule.MtStepInvariant | src/shared/argon2/core.c:292-362 | starting, stepping and joining threads keeps the slice a merge of lanes running alone, under any thread limit |
| Argon2Schedule.MtRefinesSt | src/shared/argon2/core.c:260-362 | every complete multi-threaded run over all passes and slices leaves the memory of the single-threaded form |
| Argon2Schedule.MtNeverStuck | src/shared/argon2/core.c:315-356 | no reachable state before the end is stuck in a join |
| Argon2Schedule.MtRunBounded | src/shared/argon2/core.c:292-362 | the number of steps of a run is bounded in advance |
| Argon2Schedule.MtCompletes | src/shared/argon2/core.c:292-362 | from every reachable state a continuation completes |
| Argon2Schedule.FirstPassReadsWritten | src/shared/argon2/ref.c:132-178 | in pass 0 both blocks read lie in an earlier slice, or earlier in the own lane's segment |
| Argon2Threads.FirstPassReadsBuilt | src/shared/argon2/core.c:311-357 | at every block step in pass 0 of any threaded run, the two blocks read are first blocks of a lane or were built by an earlier step of that run |
| Argon2Threads.FillMemoryBlocksMt | src/shared/argon2/core.c:292-362 | in place, under any proposed timing: the states form a complete run of the threads, and the memory is that of the single-threaded form |
| Argon2OptThreads.OwnBlock | src/shared/argon2/opt.c:225-283 | a block made from a thread's own locals is the one of the recurrence, and they are right for the next block |
| Argon2OptThreads.OtherBlock | src/shared/argon2/opt.c:174-283 | any block another thread builds in the slice leaves a thread's carried block, offsets and addresses right |
| Argon2OptThreads.OptStepRefines | src/shared/argon2/core.c:311-357 | with the optimised segment in the threads, every step is a step of threads that read everything from memory |
| Argon2OptThreads.OptRefinesSt | src/shared/argon2/core.c:260-362 | every complete run of optimised threads, under any limit and timing, leaves the memory of the single-threaded reference form |
| Argon2Schedule.FillIgnoresGarbage | src/shared/argon2/core.c:612-648 | the result does not depend on what the allocation held |
| Argon2Hash.InitialHashInputInjective | src/shared/argon2/core.c:538-610 | two accepted requests have equal pre-hash inputs only if all hashed parameters are equal |
| Argon2Hash.FillFirstBlocks | src/shared/argon2/core.c:515-536 | each lane's first two blocks are those of section 3.2 of RFC 9106 |
| Argon2Hash.Finalize | src/shared/argon2/core.c:155-187 | the tag is H' of the XOR of the last block of every lane |
| Argon2Hash.FillMemoryBlocks | src/shared/argon2/core.c:371-386 | in order for one thread, by a complete run of threads otherwise |
| Argon2Hash.Argon2Ctx | src/shared/argon2/argon2.c:39-98 | for every context, allocation and timing: the error code is that of the input test; on success one of the possible tags, of the requested length |
| Argon2Hash.SomeTag | src/shared/argon2/argon2.c:39-98 | every accepted request has a tag |
| Argon2Hash.TagUnique | src/shared/argon2/argon2.c:39-98 | and one only: allocation content, thread limit and timing do not show |
| Argon2Hash.Compare | src/shared/argon2/argon2.c:239-247 | the accumulated differences are zero exactly for equal bytes |
| Argon2Hash.HashThenVerify | src/shared/argon2/argon2.c:249-313 | verification accepts the encoded hash of the same password under any timing, another password exactly when its tag is the same, and no other type |
| Argon2Standard.AddressInputBytes | src/shared/argon2/ref.c:109-120 | the 1,024 bytes the address generator compresses: pass, lane, slice, memory blocks, passes, type and counter as eight bytes each, lowest first, then 968 zero bytes |
| Argon2Standard.BeforeBuilt | src/shared/argon2/core.c:260-276 | whenever a block is built, what it may read is the block of this pass where that is built already and the one of the pass before elsewhere |
| Argon2Standard.PassSolves | src/shared/argon2/ref.c:90-194 | memory before and after a pass: every block is G of its predecessor and of the block its pseudo-random word refers to, with G spelled out by rows and columns, and XORed over the old block in later passes unless the version is 1.0 |
| Argon2Standard.TagSolvesStandard | src/shared/argon2/argon2.c:39-98 | from the bytes that are hashed to the tag, any possible tag of the code satisfies all steps of section 3.2 of RFC 9106, whatever the allocation, the thread limit and the timing |
| Argon2Exact.PassDetermined | src/shared/argon2/ref.c:90-194 | the equations of a pass determine the memory after it, in the first pass from the first two blocks of every lane alone |
| Argon2Exact.TagsExactly | src/shared/argon2/argon2.c:39-98 | so the possible tags of the code are exactly those of the standard |
| Base64.MasksAreComparisons | src/shared/argon2/encoding.c:70-78 | the constant-time macros are the comparisons on 0..255 |
| Base64.ByteToCharExact | src/shared/argon2/encoding.c:83-88 | the character map is the alphabet of section 4 of RFC 4648 |
| Base64.CharToByteExact | src/shared/argon2/encoding.c:93-100 | the inverse map is the position in the alphabet, 255 for every other character |
| Base64.FeedGroup | src/shared/argon2/encoding.c:130-133 | the never-masked accumulator keeps the needed low bits although it wraps |
| Base64.ToBase64 | src/shared/argon2/encoding.c:111-143 | writes text and terminator exactly when both fit, and nothing else |
| Base64.FromBase64 | src/shared/argon2/encoding.c:160-199 | decodes the longest run of alphabet characters, or fails as specified |
| Base64.DecodeEncode | src/shared/argon2/encoding.c:111-199 | decoding an encoding gives the bytes back, of b64len characters |
| Base64.EncodeDecode | src/shared/argon2/encoding.c:160-199 | every accepted text is the encoding of its decoding |
| EncodingByHand.EncodeByThrees | src/shared/argon2/encoding.c:111-143 | the encoder's bit string gives the characters of section 4 of RFC 4648: four from each three bytes, three or two from what is left |
| Decimal.NumLen | src/shared/argon2/encoding.c:454-461 | the number of decimal digits |
| Decimal.NumberAtExact | src/shared/argon2/encoding.c:208-237 | accepted are exactly the minimal decimal forms below 2 to the 64, up to the first other character |
| Decimal.DecodeDecimal | src/shared/argon2/encoding.c:208-237 | the loop with its two overflow tests is that reader |
| HashString.EncodeString | src/shared/argon2/encoding.c:372-437 | succeeds exactly for valid inputs and a buffer holding text and terminator |
| HashString.EncodedLen | src/shared/argon2/argon2.c:447-452 | the announced size |
| HashString.EncodedSizeExact | src/shared/argon2/argon2.c:447-452 | the announced size is the needed size exactly for versions of two digits, which 0x10 and 0x13 are |
| HashString.DecodeString | src/shared/argon2/encoding.c:257-370 | the pointer-walking parser accepts what the grammar does, and the two buffers start with the salt and the tag it read |
| HashString.DecodeOfEncode | src/shared/argon2/encoding.c:257-437 | reading a written text with the same type returns version, costs, lanes, salt and tag |
| HashString.DecodeValidates | src/shared/argon2/encoding.c:339-364 | a well-formed text is accepted exactly if its costs, salt and tag pass the input test, and refused with that test's error otherwise |
| HashString.EncodeOfDecode | src/shared/argon2/encoding.c:257-437 | every accepted text passes the input test and is the written form of what was read, or its older form without a version, read as 0x10 |
| HashString.WrongTypeRejected | src/shared/argon2/encoding.c:320-330 | a text of one type is refused under every other, argon2i against argon2id included |
| EncodingByHand.HashSpelled | src/shared/argon2/encoding.c:372-437 | a whole hash string, part by part, with and without its version |
| ReplicaObject.SessionRecordReplica.Apply | src/shared/relay-transport/SessionRecordReplica.ts:44-95 | one call changes the three maps and answers as the step function says, a call that throws changes nothing, and a turn it returns lists what MaterializeTurn says, in that order |
| ReplicaObject.SessionRecordReplica.ApplyDelete | src/shared/relay-transport/SessionRecordReplica.ts:52-61 | the deletion branch: tombstone, then the first turn touched |
| ReplicaObject.SessionRecordReplica.ApplyUpsert | src/shared/relay-transport/SessionRecordReplica.ts:62-95 | the upsert branch: newer headers and items replace older ones |
| ReplicaObject.SessionRecordReplica.MaterializeTurn | src/shared/relay-transport/SessionRecordReplica.ts:102-122 | on the fields: exactly the rounds newer than the tombstones of turn and round, by roundIndex; in each of the three lists exactly the items of its kind newer than the tombstones above them, by orderIndex or 0; equal indices as the replica first saw them |
| ReplicaListing.AcceptedExactly | src/shared/relay-transport/SessionRecordReplica.ts:44-69 | exactly which records a call takes in, and that any other changes nothing |
| ReplicaListing.UpsertExactly | src/shared/relay-transport/SessionRecordReplica.ts:71-94 | an upsert touches its turn, round and item only: a newer revision replaces what is there, an equal one does not, and a new entry stands last |
| ReplicaListing.DeletedExactly | src/shared/relay-transport/SessionRecordReplica.ts:52-61 | a deletion leaves every entry and a tombstone; it reports the first turn seen that contains the identity, and without one the deleted turn as gone |
| ReplicaViews.RankedStep | src/shared/relay-transport/SessionRecordReplica.ts:44-95 | item revision <= round header revision <= turn header revision after every call, and tombstones only grow |
| ReplicaFold.DeleteKeepsExactly | src/shared/relay-transport/SessionRecordReplica.ts:53-61 | an accepted deletion leaves the view of a turn as it is exactly when the turn shows no round or item of that identity up to its revision |
| ReplicaFold.IncrementalExactly | src/shared/relay-transport/SessionRecordReplica.ts:44-122 | in every reachable replica, folding the returned change gives the full view exactly when the call is no accepted deletion that takes from a turn it does not report |
| ReplicaFold.FoldIsFullView | src/shared/relay-transport/SessionRecordReplica.ts:44-122 | over any history whose rounds keep their turn and items their round, refused and stale records included, the fold of all changes is the full view |
| ReplicaFold.MovedItemStays | src/shared/relay-transport/SessionRecordReplica.ts:57-61 | three accepted records after which it is not |
| ReplicaViews.ShowsExactly | src/shared/relay-transport/SessionRecordReplica.ts:97-122 | an item shows exactly when its entry is newer than the fences of item, round and turn |
| ReplicaConvergence.ReplayInvariant | src/shared/relay-transport/SessionRecordReplica.ts:44-95 | in any order and with repetitions the replica remembers every identity's highest revision and every item's newest upsert |
| ReplicaConvergence.ShownIsNewest | src/shared/relay-transport/SessionRecordReplica.ts:44-122 | whatever the order, what shows is the newest upsert of its item |
| ReplicaConvergence.ConvergentExactly | src/shared/relay-transport/SessionRecordReplica.ts:44-122 | all orders and repetitions show the same items with the same data if and only if no item lies between the fences raised for sure and all tombstones over it |
| ReplicaConvergence.ShowsUnderNoGap | src/shared/relay-transport/SessionRecordReplica.ts:44-122 | then an item shows exactly when its newest upsert exceeds every tombstone of its item, round and turn |
| ReplicaConvergence.NoRevivalNoGap | src/shared/relay-transport/SessionRecordReplica.ts:33-37 | the condition holds when no deleted turn or round is upserted again above its tombstone |
| ReplicaConvergence.GapDiverges | src/shared/relay-transport/SessionRecordReplica.ts:50-61 | otherwise newest-first and oldest-first delivery of the same records differ |
| ReplicaConvergence.RevivedTurnDiverges | src/shared/relay-transport/SessionRecordReplica.ts:50-61 | three concrete records for which they do |
| ReplicaOrder.HeadersConverge | src/shared/relay-transport/SessionRecordReplica.ts:71-86 | without tombstones and with one record per revision the remembered headers are the same in every order |
| ReplicaOrder.ViewsConverge | src/shared/relay-transport/SessionRecordReplica.ts:44-122 | and the full views agree: same turns, same headers, the same rounds by roundIndex and the same items by orderIndex or 0, up to ties in these fields |
| ReplicaTies.ViewsConvergeExactly | src/shared/relay-transport/SessionRecordReplica.ts:97-122 | every order gives the very same view if and only if the view has no two rounds of a turn and no two items of one kind in a round with equal index |
| DialogQueueSafety.StepKeeps | src/shared/dialog-queue/HostDialogQueue.ts:100-246 | every step of client, host, network, user or crash keeps the invariant and rewrites no history |
| DialogQueueSafety.CollectAllowed | src/shared/dialog-queue/HostDialogQueue.ts:124-133 | the collection loop removes a record only if the host acknowledged it and a snapshot of its epoch, no older than an acknowledgement of that epoch, does not list it |
| DialogQueueTheorems.NoSilentLoss | src/shared/dialog-queue/HostDialogQueue.ts:107-171 | on every run a stored submit is there and unchanged until a step that dismisses it, follows its definite rejection, collects it as allowed, or is one of two named exceptions: a collection on an answer of another epoch, or a step for another request of the same id |
| DialogQueueTheorems.NoSilentLossClean | src/shared/dialog-queue/HostDialogQueue.ts:107-171 | on runs whose callers request unused ids and whose host gives no first receipt in another epoch than the request's, the exceptions do not occur |
| DialogQueueTheorems.OwnAcksExactly | src/shared/dialog-queue/HostDialogQueue.ts:206-222 | acknowledgements stay of the epoch of their request over a step exactly when it is no first receipt given in another epoch |
| DialogQueueTheorems.CleanRunExactly | src/shared/dialog-queue/HostDialogQueue.ts:107-222 | those runs are exactly the ones on which ids stay unambiguous and acknowledgements of their request's epoch |
| DialogQueueTheorems.FreshExactly | src/shared/dialog-queue/HostDialogQueue.ts:182-184 | ids stay unambiguous over a step exactly when the id it begins a request with is unused or names the same request |
| DialogQueueExamples.ForeignReceiptLoses | src/shared/dialog-queue/HostDialogQueue.ts:211-221 | a run from the start in which an answer of the next owner makes an older refresh remove a message that nobody lists or runs any more |
| DialogQueueTheorems.WriteAhead | src/shared/dialog-queue/HostDialogQueue.ts:146-152 | a request leaves only in the step that made its record durable |
| DialogQueueTheorems.AdmittedWasStored | src/shared/dialog-queue/HostDialogQueue.ts:146-152 | in every run, what a host takes in was stored by an earlier step, and is taken in under the epoch it was stored with and a turn id the host has no entry for |
| DialogQueueTheorems.AckMeansHeld | src/shared/dialog-queue/HostDialogQueue.ts:154-159 | behind a collection on such a run stands a host of the stored epoch that held the stored message, and a snapshot of that epoch no older that does not list it |
| DialogQueueTheorems.OneRequestPerKey | src/shared/dialog-queue/HostDialogQueue.ts:146-157 | on such runs all requests ever sent under one key are the same: turn id, payload and epoch |
| DialogQueueTheorems.HeldAsSent | src/shared/dialog-queue/HostDialogQueue.ts:206-222 | whatever a host holds, restarts that keep entries included, was sent from here for that host's epoch or an earlier one, under its own turn id |
| DialogQueueTheorems.EqualPayloadReuses | src/shared/dialog-queue/HostDialogQueue.ts:172-186 | a submit that meets an unresolved record of equal payload goes on with such a record and takes no new id |
| DialogQueueTheorems.OtherPayloadBegins | src/shared/dialog-queue/HostDialogQueue.ts:172-186 | a submit that meets none begins a request of its own: of the snapshot's epoch, under the requested or a new id, with its own payload |
| DialogQueueTheorems.ViewTakes | src/shared/dialog-queue/HostDialogQueue.ts:107-116 | which snapshots replace the view: of the same epoch those of no lower revision, of another one those of a list |
| DialogQueueTheorems.ViewNeverGoesBack | src/shared/dialog-queue/HostDialogQueue.ts:107-115 | over whole runs, crashes included, a later view is never of an older epoch nor, within one, of a lower revision |
| DialogQueueTheorems.RequestedIdOverwrites | src/shared/dialog-queue/HostDialogQueue.ts:172-186 | from the call on: once a submit under the id of a stored message is committed, the stored request is still there exactly when it is the same one |
| DialogQueueExamples.DraftDisplaced | src/shared/dialog-queue/HostDialogQueue.ts:182-184 | a run from the start in which it is not |
| DialogQueueTheorems.IntentLostExactly | src/shared/dialog-queue/HostDialogQueue.ts:119-133 | after an edit intent is stored, some continuation of the refresh removes the record exactly when the refresh is already removing it or has listed a copy it will remove |
| DialogQueueTheorems.IntentKept | src/shared/dialog-queue/HostDialogQueue.ts:223-229 | otherwise the intent keeps the record over every step of anyone that does not itself store or drop the key |
| DialogQueueExamples.IntentLost | src/shared/dialog-queue/HostDialogQueue.ts:223-229 | a run from the start that stores the intent during a collection and loses the draft |
| DialogQueueRefresh.RefreshShows | src/shared/dialog-queue/HostDialogQueue.ts:115-136 | over any run: when a pass over the listed records ends without a failed write, every stored submit that was not in flight or acknowledged by a receipt meanwhile is pending, or it is accepted, of the snapshot's epoch and listed in the snapshot |
| DialogQueueRefresh.OtherEpochShownAgain | src/shared/dialog-queue/HostDialogQueue.ts:125-136 | so every refresh that ends, in any run, shows again each such submit whose epoch is not the view's |
| DialogQueueExamples.OfferedAgain | src/shared/dialog-queue/HostDialogQueue.ts:126-129 | a run from the start: the host accepts a message and restarts without it, and the next refresh stores and shows the draft as not accepted |
| DialogQueueObject.HostDialogQueue.VisitRecord | src/shared/dialog-queue/HostDialogQueue.ts:124-133 | one turn of the collection loop is the protocol's step |
| DialogQueueObject.HostDialogQueue.OnRecordWritten | src/shared/dialog-queue/HostDialogQueue.ts:126-132 | its storage operation |
| DialogQueueObject.HostDialogQueue.FindPending | src/shared/dialog-queue/HostDialogQueue.ts:176-180 | the search finds a submit of equal payload that waits for no edit exactly when the pending list has one |
| DialogQueueObject.HostDialogQueue.FinishRefresh | src/shared/dialog-queue/HostDialogQueue.ts:134-185 | the end of a refresh and what a waiting submit or retry does next is a step of the protocol and keeps its invariant, whatever id was requested |
| DialogQueueObject.HostDialogQueue.OnCommitted | src/shared/dialog-queue/HostDialogQueue.ts:146-152 | the record is durable before the request leaves |
| DialogQueueObject.HostDialogQueue.OnReceipt | src/shared/dialog-queue/HostDialogQueue.ts:211-222 | a receipt of any epoch is accepted, otherwise the record is sent again |
| DialogQueueObject.HostDialogQueue.OnReply | src/shared/dialog-queue/HostDialogQueue.ts:152-157 | the tests on a reply, then its acceptance |
| DialogQueueObject.HostDialogQueue.OnOutcomeStored | src/shared/dialog-queue/HostDialogQueue.ts:158-170 | accepted submits stay, finished actions and rejected requests go, and the record is no longer in flight |
| HostStreamReader.NewerPageCovers | src/shared/relay-transport/HostStream.ts:168-182 | a page after the cursor extends the covered range to its last event, the last page to the host's cursor |
| HostStreamReader.OlderPageCovers | src/shared/relay-transport/HostStream.ts:188-210 | a page of history extends it down to its first event |
| HostStreamReader.CoversLater | src/shared/relay-transport/HostStream.ts:141-145 | whatever the host appends, loads or drops, what was covered stays covered |
| HostStreamReader.Reader.EmitPage | src/shared/relay-transport/HostStream.ts:146-152 | the consumer hears each event once, in order, and its turns are remembered |
| HostStreamReader.Reader.Resync | src/shared/relay-transport/HostStream.ts:157-166 | the reader starts over from the latest page and covers it; the consumer hears its events and then the state of history; a failed read changes nothing |
| HostStreamReader.Reader.CatchUp | src/shared/relay-transport/HostStream.ts:168-182 | terminates, keeps the coverage at every page and, when caught up, reaches the host's cursor |
| HostStreamReader.Reader.Refresh | src/shared/relay-transport/HostStream.ts:183-187 | after a completed refresh everything the host keeps from the oldest event on was emitted since the last gap, each event once; in the same epoch the consumer hears events only, after a restart the gap, the latest page and the state of history |
| HostStreamReader.Reader.LoadOlder | src/shared/relay-transport/HostStream.ts:188-214 | one call to the host for each page, each page the answer before the oldest event so far; none is read after one that shows a turn never emitted before, nor a fifth, nor when the host has no more, and otherwise it goes on; what was covered stays covered, and the consumer hears the pages' events and one report |
| HostStreamReader.ProgressExactly | src/shared/relay-transport/HostStream.ts:196-203 | that test agrees with "shows a turn missing from the transcript" exactly on pages that have no turn heard only before the last gap, or also a turn never heard |
| HostStreamReader.RestartHidesProgress | src/shared/relay-transport/HostStream.ts:183-203 | a host that restarts, and a page of it on which they differ |
| HostStreamReader.CoveredExactly | src/shared/relay-transport/HostStream.ts:157-214 | if the host dropped nothing, the emitted events are exactly the kept ones from oldest to cursor |
| HostStreamReader.OldHintLosesNothing | src/shared/relay-transport/HostStream.ts:215-218 | a hint that is not new tells of no unread event |
| HostStreamReader.CaughtUpHintIsOld | src/shared/relay-transport/HostStream.ts:215-218 | once caught up, a hint the host sent before in this epoch is not new |
| HostStreamLane.StepKeeps | src/shared/relay-transport/HostStream.ts:229-286 | after every step pending work has a running drain or an armed retry, and every older request is queued, being read or settled, in order |
| HostStreamLane.NoOverlap | src/shared/relay-transport/HostStream.ts:236-247 | a refresh and an older page are never read at the same time |
| HostStreamLane.EveryInvalidationServed | src/shared/relay-transport/HostStream.ts:248-261 | every invalidation is followed, within four steps of the lane, by a refresh that starts after it or by close |
| HostStreamLane.NeverStuck | src/shared/relay-transport/HostStream.ts:248-260 | while an invalidation waits, the lane has a step to take |
| HostStreamLane.SettledAtMostOnce | src/shared/relay-transport/HostStream.ts:242-245 | no older request settles twice in any run |
| HostStreamLane.AllSettledAfterClose | src/shared/relay-transport/HostStream.ts:272-281 | after close, once the last read is over, every request is settled |
| HostStreamRetry.RetryDelays | src/shared/relay-transport/HostStream.ts:248-261 | in every run the delay of the next retry is 1, 2, 4, 8, 16 and then 30 seconds after none, one, two, three, four and more drains in a row that failed, and a drain that ends well starts the count over |
| HostStreamRetry.RetryArmedExactly | src/shared/relay-transport/HostStream.ts:250-256 | when a drain of an open stream ends, the retry is armed exactly when its last read was a failed refresh, and then the refresh is owed again |
| HostStreamRetry.FailedRefreshRetried | src/shared/relay-transport/HostStream.ts:248-261 | after it, within four steps of the lane, a refresh starts or the stream is closed |
| HostStreamRetry.ClosesAtOnce | src/shared/relay-transport/HostStream.ts:272-281 | close disarms the retry, rejects the queue in order, leaves a running read alone and has no effect a second time |
| HostStreamRetry.ClosedForGood | src/shared/relay-transport/HostStream.ts:236-247 | no read starts after close in any run |
| HostStream.InvalidationReachesConsumer | src/shared/relay-transport/HostStream.ts:168-261 | lane, reader and host in one run: within four steps of the lane a refresh begins after an invalidation, or the stream is closed; and such a refresh, if it succeeds, has emitted all the host kept when it sent the invalidation, from the oldest event on, and still keeps |
| HostStream.OpenStream.RunRefresh | src/shared/relay-transport/HostStream.ts:183-247 | the reader's refresh and the lane's next step are such a move; a refresh that succeeds has caught up with the host |
| HostStream.OpenStream.RunOlder | src/shared/relay-transport/HostStream.ts:188-247 | so are the older pages, with the same rule for when to stop, and the request is resolved exactly when they came |
| HostStreamLane.StreamLane.OnRefreshed | src/shared/relay-transport/HostStream.ts:238-244 | one older request has its turn before the next refresh |
| HostStreamLane.StreamLane.OnDrainEnded | src/shared/relay-transport/HostStream.ts:250-256 | a failure marks the stream dirty again, arms the retry and doubles the delay up to 30 seconds |
| HostStreamLane.StreamLane.OnDrainFinished | src/shared/relay-transport/HostStream.ts:256-259 | work left over wakes the lane again |
| HostStreamLane.StreamLane.CloseStream | src/shared/relay-transport/HostStream.ts:272-281 | the queue is rejected and emptied, once |
| QueryStream.StepKeeps | sdk/typescript/src/query.ts:171-407 | order, buffer bounds with the exact byte sum, waiters never beside items, one end, and permissions, after every step |
| QueryStream.EventRefusedExactly | sdk/typescript/src/query.ts:350-376 | the next event fails the query exactly when nobody waits and 1,024 items are unread, or its JSON and 128 bytes do not fit into 1,048,576 beside the same sum over the unread events; otherwise it is the next item and nothing else is settled |
| QueryStream.UnreadBounded | sdk/typescript/src/query.ts:350-393 | in every run at most 1,024 items are unread, and their events weigh at most 1,048,576 bytes |
| QueryStream.OversizedEventFails | sdk/typescript/src/query.ts:350-441 | a run of one event: above 1,048,448 bytes of JSON it fails the query, at or below it is kept, and a caller who waits gets it at any size |
| QueryStream.CallGetsItsItem | sdk/typescript/src/query.ts:350-393 | the k-th call of next gets the k-th event or, after the last, the result; it is answered once |
| QueryStream.EndsOnce | sdk/typescript/src/query.ts:298-407 | the result promise is settled once, with the last item's output or rejected, and no call waits after the end |
| QueryStream.AnsweredAtMostOnce | sdk/typescript/src/query.ts:114-143 | a permission is answered at most as often as it was asked for |
| QueryStream.PermissionExactly | sdk/typescript/src/query.ts:114-143 | over a run, until the host asks again, a request stays pending exactly until the first response to it or the end, and is answered, once, exactly when that response is well formed |
| QueryStream.MalformedResponseUsesUp | sdk/typescript/src/query.ts:118-123 | over the whole rest of a run, until the host asks again, nothing is sent for a request whose response was refused |
| QueryStream.MalformedThenNothing | sdk/typescript/src/query.ts:118-123 | a run in which a malformed response uses a request up and the good one after it is not sent |
| QueryStream.ResultRefusedExactly | sdk/typescript/src/query.ts:350-376 | a result overflows exactly when nobody waits and 1,024 items are unread |
| QueryStream.UnreadResultFails | sdk/typescript/src/query.ts:298-376 | a run of 1,024 events and their result fails; with one event fewer the result is accepted |
| QueryStream.Query.PushItem | sdk/typescript/src/query.ts:350-376 | to the first waiter, else into the buffer, else the query fails |
| QueryStream.Query.OnEventNotification | sdk/typescript/src/query.ts:171-230 | identity, order and repeated permissions are checked before the item is pushed |
| QueryStream.Query.OnResultNotification | sdk/typescript/src/query.ts:298-334 | the result is pushed, the promise settled and the waiters released |
| QueryStream.Query.NextItem | sdk/typescript/src/query.ts:378-393 | an item, the failure, the end, or a place among the waiters |
| QueryStream.Query.OnConnectionFailure | sdk/typescript/src/query.ts:395-407 | fails the stream once and rejects every waiter |
| PromptSlot.SettledAtMostOnce | packages/dsh-acp/src/bridge.ts:498-510 | an accepted prompt settles at most once, and not while it holds the slot |
| PromptSlot.SettledAfterIdle | packages/dsh-acp/src/bridge.ts:1045-1061 | it is settled once its idle wait has run |
| PromptSlot.IdleSettlesItsOwn | packages/dsh-acp/src/bridge.ts:1049-1060 | the idle wait of one prompt never settles another |
| PromptSlot.SettledByEvent | packages/dsh-acp/src/bridge.ts:693-729 | in every run an event settles the prompt in the slot exactly when it calls for an outcome, with that outcome: cancel, disposal or a refused message at that step, the error of the claiming turn, an agent error of another turn, or its own idle wait |
| PromptSlot.SettledByStep | packages/dsh-acp/src/bridge.ts:498-510 | every settlement was added by one step, by an event that called for it while that prompt held the slot |
| PromptSlot.NeverTokenLimit | packages/dsh-acp/src/bridge.ts:1049-1060 | no run resolves a prompt with the token-limit stop: that ending reads as the end of the turn |
| PromptSlot.AgentErrorRejectsExactly | packages/dsh-acp/src/bridge.ts:723-729 | an agent error rejects exactly the prompt whose claiming turn is another one |
| PromptSlot.EarlierErrorRejects | packages/dsh-acp/src/bridge.ts:723-729 | a run in which the error of a cancelled prompt's turn rejects the next prompt |
| PromptSlot.DisposedForGood | packages/dsh-acp/src/bridge.ts:1083-1094 | after disposal the bridge stays closed with a free slot, and no prompt is accepted or settled any more |
| PromptSlot.SessionRecord.Prompt | packages/dsh-acp/src/bridge.ts:1007-1045 | one prompt at a time in an open bridge; a refused message frees the slot |
| PromptSlot.SessionRecord.OnTurnEndEvent | packages/dsh-acp/src/bridge.ts:702-714 | an error settles at once, another ending is kept for idle |
| PromptSlot.SessionRecord.OnIdleReached | packages/dsh-acp/src/bridge.ts:1049-1060 | settles its own prompt with the kept ending, or as cancelled |
| PromptSlot.SessionRecord.Quiesce | packages/dsh-acp/src/bridge.ts:1083-1094 | disposal cancels the prompt and later events find no session |
| AgentIdentity.IdentityNames | src/shared/agent-harness/wire.ts:5-9 | a translation writes the dialect's name of the harness an identity means, and leaves any other identity alone |
| AgentIdentity.LastDialectWins | src/shared/agent-harness/contract.generated.ts:5-46 | of two translations only the last counts, in plain and in profile positions |
| AgentIdentity.SameCollisions | src/shared/agent-harness/contract.generated.ts:5-46 | two identities collide in one dialect exactly when they collide in the other |
| AgentIdentity.CaseAndSpace | src/shared/agent-harness/contract.generated.ts:33-36 | an identity that is in the table in lower case is known in any case and with any surrounding white space |
| AgentWirePositions.AliasTable | src/shared/agent-harness/contract.generated.ts:5-29 | every alias with its canonical, its legacy and its legacy profile name |
| AgentWirePositions.OtherNames | src/shared/agent-harness/contract.generated.ts:33-46 | no other text is an alias: with space removed and in lower case it would have to be one of seven words |
| AgentWirePositions.TrimExactly | src/shared/agent-harness/contract.generated.ts:33-36 | trimming removes the space on both sides and nothing else, for any identity |
| AgentWire.MergeProfileRecords | src/shared/agent-harness/wire.ts:22-34 | the merging loop, stopping at the first conflict |
| AgentWire.TranslateProfileMap | src/shared/agent-harness/wire.ts:41-50 | the collecting loop over a profile map |
| AgentWireLaws.MergeCommutes | src/shared/agent-harness/wire.ts:22-39 | merging two profiles commutes with translating them, conflicts included |
| AgentWireLaws.MergeKeeps | src/shared/agent-harness/wire.ts:22-34 | a merge contains everything of both sides |
| AgentWirePositions.MergeExactly | src/shared/agent-harness/wire.ts:22-34 | two profiles are refused exactly when both have a value at some place, not both a record there, and the values differ |
| AgentWirePositions.MergedByKey | src/shared/agent-harness/wire.ts:22-34 | a merge of two records has the keys of both; a key of one side keeps its value, and the values of a common key are merged |
| AgentWireLaws.ProfileMapLastDialectWins | src/shared/agent-harness/wire.ts:41-50 | for profile maps whose alias keys merge, only the last dialect counts |
| AgentWirePositions.ProfileExactly | src/shared/agent-harness/wire.ts:36-39 | of a profile only its profile_id changes |
| AgentWirePositions.ProfileMapKeeps | src/shared/agent-harness/wire.ts:41-50 | a translated profile map has an entry for each name that is meant and no other, and each holds everything of every profile it was made of |
| AgentWirePositions.ApartMap | src/shared/agent-harness/wire.ts:41-50 | profiles of different names are translated one by one and stay in order |
| AgentWireLaws.TreeLastDialectWins | src/shared/agent-harness/wire.ts:72-91 | over all JSON trees: translating is idempotent, legacy then canonical is canonical, and a conflict arises in both dialects or in none |
| AgentWirePositions.TranslatedByPlace | src/shared/agent-harness/wire.ts:72-91 | place by place: the names under the listed keys change as the tables say, opaque values and records of another source stay, everything else is translated in turn |
| AgentWirePositions.RefusedExactly | src/shared/agent-harness/wire.ts:72-91 | a tree is refused exactly when one of its translated profile maps is |
| AgentWireLaws.OpaqueUnchanged | src/shared/agent-harness/wire.ts:72-91 | records of another source and opaque fields come out unchanged, keys and their order stay |
| AgentWireLaws.ConflictingAliases | src/shared/agent-harness/wire.ts:22-34 | two settings under two aliases of one harness are refused in both dialects |

## Left out

- The 256-bit and 512-bit branches of `opt.c`, whose round macros are not part of this model.
- BLAKE2b and H' are parameters.
- Wiping memory, the allocation callbacks, failing allocations and failing thread creation, and the 32-bit platform's memory limit.
- The effect of the flags that clear the password and the secret, and of printing known-answer values.
- Threads take one block per step; that single words of one block are written by one thread only is not modelled below block granularity. A thread of `opt.c` makes its prelude when it is created, and its locals are values.
- HashString.DecodeString: requires two distinct buffers for salt and tag, as all callers in the repository pass them.
- Characters outside 0..255 in the Base64 maps, which the source's comment on line 71 excludes.
- The entries of the replica's maps are values that are put back, not objects shared between maps; extra fields of records are one opaque text.
- Several browser tabs over one outbox, several queue objects for one scope, and records of another scope or session, which the code refuses at once.
- The queue's listeners, its error text and the `draft` field of a record, which travels with the record unread.
- `publishPending` is one step; that a later read supersedes an earlier one still running is not modelled.
- JSON text, sockets, timers and IndexedDB: a call may fail, an answer may be late or lost, a storage operation may fail, a timer may fire at any time it is armed.
- Events that a read in flight emits after the stream was closed, and consumers that call back into the stream synchronously.
- Hints with another device or stream, the keep-alive timer and the visibility listener are all arbitrary invalidations.
- `Query.cancel` and `Query.close`, whose calls do not touch the stream, and the notifications buffered before a query subscribes.
- The bridge's content checks of a prompt and the retired-agent test, which refuse a prompt before the slot is touched.
- Config paths and values in commands and responses; records with integer-like keys, which JavaScript reorders, and keys of the prototype chain.
