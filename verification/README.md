# Verified model of mAIstr0's distributed and stateful kernels

mAIstr0 is a local-first cluster that runs language models on the machines of a
network. This project models, in Dafny, the parts of it whose correctness is
hard to see by reading: the knowledge stores that synchronise by anti-entropy,
the replicated key/value state machine and its crash recovery, orchestrator
election and failover, the caches that must agree with what they speed up,
history pagination, the agent turn loop and the tensor message codec. Check it
with `dafny verify dfyconfig.toml`.

Code that updates state in place is a class or a loop proved against a
specification function; concurrent code is a transition system whose steps are
the code's locked sections and transactions, and the results range over every
interleaving and every run.

| files | component |
|---|---|
| `memory_records`, `memory_store`, `memory_merge`, `snapshot_merge`, `local_writes`, `sync_protocol`, `sync_theorems`, `store_contents` | anti-entropy sync of experiences, facts, performances and dialogues |
| `memory_store_class`, `bolt_merge`, `bolt_store_class`, `fact_merge` | the two stores' merge code and their agreement |
| `consensus_fsm`, `index_keys`, `consensus_recovery`, `consensus_lifecycle` | replicated state machine, recovery, whole lifecycles |
| `election`, `failover`, `announcement_freshness`, `peer_listing` | leadership and discovery |
| `generation_cache`, `recent_cache`, `idempotency_cache` | caches |
| `history_paging`, `history_pages`, `history_clients` | cursor pagination |
| `agent_loop`, `agent_sessions` | the agent turn loop |
| `tensor_shape`, `stage_codec` | pipeline stage messages |
| `options`, `string_order` | shared vocabulary |

## Assumptions

- Sync: records are stamped. Stores have distinct, non-empty origins, although
  `NewInMemoryStore` numbers them per process only (internal/memory/inmemory.go:37). A whole merge call is one atomic step, since the
  code advances watermarks record by record. Local fact writes are not behind
  the fact they replace and dialogue clocks do not go back; both conditions are
  shown to be exactly what soundness needs. Fingerprints are collision-free.
- Consensus: Raft is a totally ordered committed log. Encodings of entries and
  snapshots are injective; whether a snapshot opens, whether an index is persisted,
  and where Raft resumes delivery after a restart are inputs. With
  `NoSnapshotRestoreOnStart` (internal/consensus/node.go:113) that may be past
  what recovery restored.
- Step-down: at one instant, scores are true, IDs distinct, and a probe succeeds
  exactly when its target is elected in its own view, as the code's comments at
  cmd/maistr0/failover.go:388-389 and 440-441 state. Scores are reals.
- Discovery: the HMAC comparison is an input; the clock does not go back.
- Idempotency: keys are not empty, as the only caller ensures. Output lengths
  count characters for bytes.
- Generation caches: every write transaction that changes what a cache shows is
  followed by its invalidation before the call returns, as all writers do.
  Counters do not overflow.
- Paging: the store does not change between pages. Stored experience IDs start
  at 1 and increase; dialogue and fact keys are not empty. The filter, the
  relevance test and the score are arbitrary functions; scores are reals. An
  encoded size is part of each record.
- Agent loop: cancellation, model replies and tool results are inputs that may
  take any values at each point the code looks. The policy's closing message has
  no calls.
- Codec: JSON encoding of a header without tensor data is non-empty and decodes
  to that header. The writer may take any part of what it is offered, or fail.

Where the code turned out not to have a property outright, the exact condition is
proved instead, with a concrete case: `PutFactKeepsCoverIff` (`BackwardClockLosesFact`),
`AppendKeepsCoverIff` (`BackwardClockLosesDialogue`), `DialogueAgreesIff`
(`UnstampedNewsParts`), `RestartRestoresAppliedIff` (`CompactedLogLosesPersistedEntry`),
`RestartSoundIff` (the same run), `SnapshotSoundIff`
(`SnapshotAfterFailureLosesEntry`), `PruneAgreesIff`
(`PruneCanLeaveCacheShort`), `TidyStepIff` (`PruneBeforeCacheServesDeletedRow`,
`CommitWhilePruningIsMissed`), `GrammarIffStopsWithoutCalls` (`GoingOnBreaksGrammar`),
`PayloadLengthExactIff` (`HugeShapeMeasuresZero`) and `FaultIff` (`HugeTensorFaults`).

## Model

| member | source | states |
|---|---|---|
| `SyncTheorems.WatermarkSoundness` | internal/memory/inmemory.go:122-272 | In every run of local writes, sends and delayed, repeated or lost deliveries among any number of stores: a store whose watermark for origin o has reached n covers every record version ever stamped (o, n) anywhere, also one it learned through third parties |
| `SyncTheorems.StampsNeverReused` | internal/memory/inmemory.go:122-132 | Two records anywhere, at any two moments of a run, with the same origin and sequence have the same key and the same content |
| `SyncTheorems.NewStampsIncrease` | internal/memory/inmemory.go:122-132 | Every record version a step creates carries a sequence above every earlier one of its origin |
| `SyncTheorems.DeltaRefinesFull` | internal/memory/sync.go:296-307 | For a reachable receiver and any requested watermarks not above its own, merging what the sender picks, full or incremental, leaves exactly the store that merging the full snapshot leaves |
| `SyncTheorems.EqualWatermarksConverge` | internal/memory/inmemory.go:151-272 | Reachable stores with equal watermarks hold the same fact triples, experience fingerprints, attempt counts, and dialogue turn and participant sets and update times |
| `SyncTheorems.PullEffect` | internal/memory/inmemory.go:151-174 | After a pull the receiver covers everything the sender holds, stays below anything that covered both, and its watermarks are at least the sender's |
| `SyncTheorems.IdlePull` | internal/memory/inmemory.go:151-174 | Pulling from a store one already covers changes no record and raises the watermarks to the pointwise maximum |
| `SyncTheorems.ThreePullsConverge` | internal/memory/inmemory.go:219-272 | With no local writes, A from B, B from A, A from B gives both stores equal watermarks and equal contents, and the third pull changes no record although merging may restamp dialogues |
| `SyncTheorems.PullIsPossible` | internal/memory/inmemory.go:58-174 | At every moment of every run any store can pull from any other, and then covers everything that one holds |
| `SyncTheorems.WritesArePossible` | internal/memory/inmemory_records.go:10-289 | Any store can record, put a fact not updated since, and append to a dialogue not updated since |
| `SyncTheorems.PutFactKeepsCoverIff` | internal/memory/inmemory_records.go:89-112 | Writing a fact keeps everything the store covered if and only if the replaced fact does not beat the new one |
| `SyncTheorems.AppendKeepsCoverIff` | internal/memory/inmemory_records.go:254-289 | For every append: what the store covered is kept if and only if nothing is appended, the dialogue is new, or the clock is not behind its update time |
| `SyncTheorems.BackwardClockLosesFact` | internal/memory/inmemory_records.go:89-112 | A concrete fact written with a clock behind the stored one, after which the store no longer covers what its watermark claims |
| `SyncTheorems.BackwardClockLosesDialogue` | internal/memory/inmemory_records.go:254-289 | The same for two turns appended with a clock that went back |
| `SyncTheorems.ExperiencesAreNumbered` | internal/memory/inmemory_records.go:10-32 | In every run every store numbers its experiences 1, 2, 3 in the order it stored them |
| `SyncProtocol.StepKeepsInvariant` | internal/memory/inmemory.go:122-272 | Each local write, send and delivery keeps: stores valid, every watermark at most what its origin issued, stamps unique, watermarks sound, and every message in flight accounting for all versions up to its watermarks |
| `SyncProtocol.RunInvariant` | internal/memory/inmemory.go:122-272 | That invariant holds at every moment of every run from empty stores |
| `SnapshotMerge.MergeGrows` | internal/memory/inmemory.go:151-174 | Merging any well-formed records succeeds, keeps the store valid, loses nothing it covered, and covers every merged record |
| `SnapshotMerge.MergeBounded` | internal/memory/inmemory.go:151-174 | Merging adds nothing from nowhere: the result stays below any store that is above the old store and the merged records |
| `SnapshotMerge.MergeStamps` | internal/memory/inmemory.go:219-272 | Whatever is merged, versions the store did not receive carry its own origin, sequences above those issued before, each used once |
| `SnapshotMerge.FlattenSince` | internal/memory/sync.go:344-370 | The incremental snapshot contains exactly the records of the full one above the given watermarks, in the same order |
| `SnapshotMerge.DeltaMergesAsFull` | internal/memory/sync.go:344-374 | Merging the filtered snapshot equals merging the whole one when the records left out are covered and marked |
| `MemoryRecords.BeatsIsStrictTotalOrder` | internal/memory/boltstore_sync.go:247-252 | Later update, then smaller source, then larger value is irreflexive, asymmetric and total on fact triples |
| `MemoryRecords.BeatsTransitive` | internal/memory/boltstore_sync.go:247-252 | And transitive |
| `MemoryRecords.JoinIsLeastUpperBound` | internal/memory/inmemory.go:176-272 | What a merge leaves under a key is the least content covering both versions, for all four record kinds |
| `MemoryMerge.FactLosesIffCovered` | internal/memory/inmemory.go:197-201 | The code's losing test for an incoming fact is exactly "already covered" |
| `MemoryMerge.MergeTurnsContents` | internal/memory/inmemory.go:219-272 | Merged turns are the union of both turn sets, and nothing changes when the incoming turns are already there |
| `MemoryMerge.MergeParticipantsContents` | internal/memory/inmemory.go:219-272 | Merged participants are the union, and nothing changes when the incoming ones are already there |
| `MemoryMerge.MergedDialogueCore` | internal/memory/inmemory.go:219-272 | The merged dialogue is the join of both, and equals the current one exactly when the incoming one is covered |
| `MemoryMerge.MergeRecordEffect` | internal/memory/inmemory.go:134-272 | Merging one record of any kind: keys other than its own keep their content, its own holds the join, watermarks of other origins rise exactly to its stamp, and every record held is an old one, the merged one or freshly stamped by the store itself |
| `LocalWrites.RecordIsLocal` | internal/memory/inmemory_records.go:10-32 | Recording an experience grows the store and stamps only new own sequences, once each |
| `LocalWrites.PutFactIsLocal` | internal/memory/inmemory_records.go:89-112 | A fact write that is not behind the stored fact does the same |
| `LocalWrites.GetFactIsLocal` | internal/memory/inmemory_records.go:114-130 | Reading a fact restamps it without losing anything covered |
| `LocalWrites.AppendIsLocal` | internal/memory/inmemory_records.go:254-289 | Appending dialogue turns with a clock that is not behind does the same |
| `StoreContents.AppendedTurns` | internal/memory/inmemory_records.go:254-289 | An append leaves the old turns and then exactly the given ones, in order, each with its fields as given and its time, or the clock's if it has none |
| `StoreContents.DialogueAfterAppend` | internal/memory/inmemory_records.go:254-289 | And the clock as update time, the united participants, the ID, topic and creation time it had, or the given ones if it is new, and a stamp raised by one per turn; every other dialogue and record is as before |
| `StoreContents.StoredFact` | internal/memory/inmemory_records.go:89-112 | A put stores the caller's key, value and source under its scope and key, updated now with the next own stamp, keeping creation time and hits of the fact it replaces; no other fact or record changes |
| `StoreContents.CountedFact` | internal/memory/inmemory_records.go:114-130 | A read adds one hit and a new stamp to the fact read and changes nothing else |
| `StoreContents.SharedKeyIff` | internal/memory/inmemory_records.go:89-130 | Two scopes and keys share an entry if and only if they are equal or differ only in which bar ends the scope |
| `StoreContents.PutThenGet` | internal/memory/inmemory_records.go:89-130 | What was put under a scope and key is what a read there finds; any other scope and key finds what was there before, unless the two differ only in which bar ends the scope |
| `StoreContents.RecordedExperience` | internal/memory/inmemory_records.go:10-32 | A recorded experience is appended with the next ID and stamp, the given fields, defaults for a missing kind and time, and its texts cut to their limits |
| `StoreContents.PerformanceIsAggregate` | internal/memory/inmemory_performance.go:10-37 | Over any recorded experiences, the aggregate under each key counts exactly those of its node, model and task type: attempts, successes, failures, total and average duration, rating sum and last use |
| `StoreContents.PerformanceKeyParts` | internal/memory/bolt_learning.go:15-20 | The key is node, model and the lower-case task type, "general" if none, separated by bars |
| `StoreContents.MergedExperience` | internal/memory/inmemory_performance.go:257-276 | A received experience is appended under the next ID unless its fingerprint is known |
| `StoreContents.MergedFact` | internal/memory/inmemory.go:176-217 | The held fact stays exactly when the received one is older, or as old from a larger source, or from the same source with no larger value; otherwise the received one is kept, field by field, with the earlier creation time and the larger hit count |
| `StoreContents.MergedPerformance` | internal/memory/inmemory_performance.go:67-95 | The aggregate with more attempts is kept whole |
| `StoreContents.MergedTurns` | internal/memory/inmemory.go:219-272 | Merged turns are the held ones followed by the received ones not yet heard, whole and in order |
| `StoreContents.MergedDialogueIn` | internal/memory/inmemory.go:219-272 | An unknown dialogue is kept as received; a known one gets those turns, the united participants and the later update time, and is restamped when it changes; every other dialogue is as before |
| `StoreContents.SinceMembers` | internal/memory/sync.go:344-370 | The incremental snapshot has exactly the records without a stamp or with one above the marks |
| `StoreContents.PeerIsSent` | internal/memory/sync.go:296-307 | A peer gets the increment exactly when it speaks protocol 1 to 3 and claims nothing the sender has not seen, and otherwise everything |
| `StoreContents.PeerMarksNoted` | internal/memory/inmemory.go:151-174 | After a merge the marks noted for the peer are the pointwise maximum of those before and those of the snapshot, and no other peer's change |
| `MemoryStoreObject.MergeWatermarks` | internal/memory/sync.go:384-392 | The entry-by-entry loop computes the pointwise maximum |
| `MemoryStoreObject.ExperiencesSince` | internal/memory/sync.go:344-370 | The filter loop keeps exactly the experiences above the watermarks, in order |
| `MemoryStoreObject.FactsSince` | internal/memory/sync.go:344-370 | The same for facts |
| `MemoryStoreObject.PerformancesSince` | internal/memory/sync.go:344-370 | The same for performances |
| `MemoryStoreObject.DialoguesSince` | internal/memory/sync.go:344-370 | The same for dialogues |
| `MemoryStoreObject.SinceOf` | internal/memory/sync.go:344-370 | The four loops together produce the incremental snapshot the theorems are about |
| `MemoryStoreObject.FillTurnTimes` | internal/memory/inmemory_records.go:261-266 | The loop gives exactly the turns without a time the clock's and leaves everything else |
| `MemoryStoreObject.HasUtterance` | internal/memory/inmemory.go:219-272 | The search finds a turn exactly when one with the same time, speaker and content is present |
| `MemoryStoreObject.AppendNewTurns` | internal/memory/inmemory.go:219-272 | The nested loops compute the turn union and report a change exactly when there is one |
| `MemoryStoreObject.AppendNewParticipants` | internal/memory/inmemory.go:219-272 | The same for participants |
| `MemoryStoreObject.MemoryStore.constructor` | internal/memory/inmemory.go:36-50 | A new store is empty with no watermarks |
| `MemoryStoreObject.MemoryStore.NextSequence` | internal/memory/inmemory.go:122-132 | Issues a sequence above the counter and the watermark and advances both |
| `MemoryStoreObject.MemoryStore.ObserveRecord` | internal/memory/inmemory.go:134-145 | Raises watermark and counter to an observed stamp, ignoring empty ones |
| `MemoryStoreObject.MemoryStore.Record` | internal/memory/inmemory_records.go:10-32 | The in-place update is the specified step; the prepared experience is stored and returned |
| `MemoryStoreObject.MemoryStore.UpdatePerformance` | internal/memory/inmemory_performance.go:10-37 | Folds one experience into its aggregate as specified |
| `MemoryStoreObject.MemoryStore.PutFact` | internal/memory/inmemory_records.go:89-112 | Refuses exactly the empty key; otherwise stores and returns the caller's value and source under scope and key, updated now, and changes no other fact |
| `MemoryStoreObject.MemoryStore.GetFact` | internal/memory/inmemory_records.go:114-130 | Finds a fact exactly when its scoped key is present, returns its value and counts the hit |
| `MemoryStoreObject.MemoryStore.AppendDialogueTurns` | internal/memory/inmemory_records.go:254-289 | Refuses exactly the empty ID; otherwise leaves the old turns followed by the given ones with missing times filled in, updated now, and every other dialogue as it was |
| `MemoryStoreObject.MemoryStore.MergeExperienceFrom` | internal/memory/inmemory_performance.go:257-276 | The in-place merge is the specified one |
| `MemoryStoreObject.MemoryStore.MergeFactFrom` | internal/memory/inmemory.go:176-217 | Fails exactly on an empty key; otherwise the last-writer-wins merge |
| `MemoryStoreObject.MemoryStore.MergePerformanceFrom` | internal/memory/inmemory_performance.go:67-95 | Keeps the aggregate with more attempts, as specified |
| `MemoryStoreObject.MemoryStore.MergeDialogueFrom` | internal/memory/inmemory.go:219-272 | Unites turns and participants and restamps on change, as specified |
| `MemoryStoreObject.MemoryStore.MergeSnapshotFrom` | internal/memory/inmemory.go:151-174 | The whole merge, with its early failure, is the specified one |
| `FactMerge.WinnerIsMaximum` | internal/memory/inmemory.go:176-217 | After merging dated facts in any order and repetition, each key holds the unique maximum under later update, smaller source, larger value |
| `FactMerge.WinnerOnFields` | internal/memory/inmemory.go:176-217 | On the fields: nothing held or received under the key is later than the fact kept, nothing as late has a smaller source, nothing as late from the same source has a larger value, and the fact kept is one of them |
| `FactMerge.FactMergeIsOrderFree` | internal/memory/inmemory.go:176-217 | Two arrival sequences with the same facts leave the same update time, source and value under every key |
| `FactMerge.ArrivalsAgree` | internal/memory/boltstore_sync.go:191-245 | The bolt and in-memory stores stay in agreement through facts arriving from any peers at any times |
| `FactMerge.StoresAgreeOnMaximum` | internal/memory/boltstore_sync.go:191-252 | Bolt too ends with the maximum for each key, and agrees with an in-memory store that saw the same facts in another order |
| `FactMerge.UndatedFactDependsOnArrival` | internal/memory/inmemory.go:176-217 | A fact with no time at all takes the clock of its arrival, so the hypothesis of non-zero times is needed |
| `BoltMerge.DialogueAgreesIff` | internal/memory/boltstore_sync.go:329-400 | For every dialogue: the two stores agree after merging it if and only if it has no ID or is unknown, or is news and stamped or from the store itself, or is covered and the one held is stamped |
| `BoltMerge.UnstampedNewsParts` | internal/memory/boltstore_sync.go:329-400 | A concrete unstamped later version of a known dialogue, which memory stamps as the peer's and bolt as its own |
| `BoltMerge.RecordAgreesIff` | internal/memory/boltstore_sync.go:191-400 | After any record other than a keyless fact the stores agree if and only if it is not a dialogue outside those cases |
| `BoltMerge.MergesAgree` | internal/memory/boltstore_sync.go:132-189 | Merging any sequence of records that are agreeable when their turn comes keeps the stores in agreement |
| `BoltMerge.StampedIsAgreeable` | internal/memory/boltstore_sync.go:132-189 | Stamped records into a store of stamped dialogues always are |
| `BoltMerge.SnapshotsAgree` | internal/memory/boltstore_sync.go:132-189 | Both stores refuse the same snapshots; a refused one leaves bolt as it was; any other agreeable one leaves them in agreement, closing and peer watermarks included |
| `BoltStoreObject.BoltStore.SaveWatermark` | internal/memory/bolt_sync.go:52-60 | Watermarks only rise |
| `BoltStoreObject.BoltStore.UpdateRecordWatermark` | internal/memory/bolt_sync.go:84-89 | Raises the watermark to a real stamp, ignores an empty one |
| `BoltStoreObject.BoltStore.NextOriginSequence` | internal/memory/bolt_sync.go:62-82 | Issues the next sequence above both stored counters |
| `BoltStoreObject.BoltStore.MergeExperienceTx` | internal/memory/boltstore_sync.go:289-327 | Adds an experience exactly when its fingerprint is new |
| `BoltStoreObject.BoltStore.MergeFactTx` | internal/memory/boltstore_sync.go:191-245 | Fails exactly on an empty key; otherwise the last-writer-wins merge |
| `BoltStoreObject.BoltStore.MergePerformancesFrom` | internal/memory/bolt_learning.go:123-186 | Merging a batch against the cache equals merging one by one, and the cache ends equal to the bucket |
| `BoltStoreObject.BoltStore.MergeDialogueTx` | internal/memory/boltstore_sync.go:329-400 | The in-place dialogue merge is the specified one |
| `ConsensusFsm.StateMachine.Apply` | internal/consensus/fsm.go:62-109 | Puts set their key to their value and deletes remove it, only with the index persisted and only for a new valid operation; once persisting fails no later entry changes anything; the answer distinguishes applied, repeated, reused and invalid operations |
| `ConsensusFsm.StateMachine.Restore` | internal/consensus/fsm.go:159-190 | Replaces the whole state by the snapshot |
| `ConsensusFsm.RefinesDeduplicatedLog` | internal/consensus/fsm.go:62-128 | After any entries the values are those of a plain map run over the first valid entry of each operation ID, and the operation table holds exactly those entries with their indices |
| `ConsensusFsm.ValueIsLastPut` | internal/consensus/fsm.go:62-109 | After any log a key is present if and only if the last of the first valid entries of operations on it is a put, and then holds that entry's value |
| `ConsensusFsm.ValidationLimits` | internal/consensus/fsm.go:111-128 | Identifiers have 1 to 256 bytes and no space around them; puts take any value, deletes none, other kinds are invalid |
| `ConsensusFsm.CharacterBytes` | internal/consensus/identity.go:112-117 | Lengths count UTF-8 bytes, one to four by the value of each character |
| `ConsensusFsm.SpacesAre` | internal/consensus/identity.go:112-117 | The characters an identifier may not begin or end with are the 25 white-space ones |
| `ConsensusFsm.ReusedIDChangesNothing` | internal/consensus/fsm.go:62-109 | An entry whose operation ID was seen changes nothing, and is answered as a repeat or as a conflict according to its payload |
| `ConsensusFsm.RedeliveryIsHarmless` | internal/consensus/fsm.go:62-109 | Re-delivering any already applied entries, in any order and number, changes neither values nor operations |
| `ConsensusFsm.SameStateIff` | internal/consensus/fsm.go:62-109 | Two prefixes of a log leave the same state if and only if no entry between them is the first valid one of its operation |
| `ConsensusFsm.ContainsIff` | internal/consensus/fsm.go:62-109 | The state after r entries contains the first k, so that re-delivering them changes nothing, if and only if no entry from r to k is the first valid one of its operation |
| `IndexKeys.DecodeEncode` | internal/consensus/bolt_store.go:219-223 | An index is recovered from its big-endian key |
| `IndexKeys.OrderPreserved` | internal/consensus/bolt_store.go:219-223 | Byte order of keys is numeric order of indices |
| `IndexKeys.CursorOrder` | internal/consensus/bolt_store.go:51-73 | A cursor over keys of one width meets indices in increasing order, and distinct keys name distinct indices |
| `ConsensusRecovery.LogStore.LastIndex` | internal/consensus/bolt_store.go:63-73 | The greatest stored index, 0 when empty |
| `ConsensusRecovery.LogStore.RecordAppliedIndex` | internal/consensus/bolt_store.go:146-160 | The persisted index never goes down |
| `ConsensusRecovery.LogStore.GetAppliedIndex` | internal/consensus/bolt_store.go:162-185 | The persisted index capped by the last log index |
| `ConsensusRecovery.SortNewestFirst` | internal/consensus/node.go:140-145 | A sorted permutation of the listed snapshots |
| `ConsensusRecovery.ResumeEqualsReplay` | internal/consensus/node.go:180-186 | Continuing from a base that already includes part of the entries gives the plain replay of all of them |
| `ConsensusRecovery.RestoreNewestReadable` | internal/consensus/node.go:145-168 | Succeeds exactly when there is no snapshot or a readable one, and then restores the newest readable one |
| `ConsensusRecovery.ReplayLog` | internal/consensus/node.go:180-186 | Succeeds exactly when every entry between snapshot and applied index is in the log, and then equals replay, up to the entry before the first whose index cannot be persisted if there is one |
| `ConsensusRecovery.RestoreApplicationState` | internal/consensus/node.go:140-187 | When recovery succeeds the state is the replay of all committed entries up to the larger of what the snapshot holds and the capped applied index, whichever snapshots were unreadable; if an index cannot be persisted on the way, up to the entry before it, and the machine is then stopped |
| `ConsensusLifecycle.StateIsAlwaysAReplay` | internal/consensus/fsm.go:62-109 | Over any run of commits, deliveries and recoveries with or without persistence, crashes, and snapshots and restarts that pass over no first valid entry of an operation, the state is the replay of a prefix of the committed log |
| `ConsensusLifecycle.RunSoundIff` | internal/consensus/fsm.go:143-157 | Over every run, all states are sound if and only if no snapshot and no restart passed over such an entry |
| `ConsensusLifecycle.RestartSoundIff` | internal/consensus/node.go:98-114 | Wherever Raft resumes delivery after a recovery, the state contains everything before that point, and a node that has not stopped on a failed persist is sound, if and only if each entry between what was restored and that point is invalid or a repeat |
| `ConsensusLifecycle.RestartRestoresAppliedIff` | internal/consensus/node.go:140-187 | The state after a restart contains every entry whose index was persisted if and only if each one beyond the replay and the chosen snapshot is invalid or a repeat, also when persisting fails during the replay |
| `ConsensusLifecycle.CompactedLogLosesPersistedEntry` | internal/consensus/node.go:140-187 | A run from a new node with sound snapshots, ending in a successful recovery without a persisted entry that is not delivered again: the log is compacted, the newest snapshot unreadable, and delivery resumes at its index |
| `ConsensusLifecycle.SnapshotSoundIff` | internal/consensus/fsm.go:143-157 | A snapshot taken at any moment contains every entry up to the index it is filed under, and keeps recovery sound, if and only if no entry delivered but not followed was the first valid one of its operation |
| `ConsensusLifecycle.SnapshotAfterFailureLosesEntry` | internal/consensus/fsm.go:143-157 | A run from a new node in which a snapshot taken after a failed persist lacks its entry, the restart from it skips the entry and delivery resumes after it |
| `Failover.Coordinator.BeginElection` | cmd/maistr0/failover.go:81-89 | Enters if and only if open, idle and without a promoted server, and marks the election as running |
| `Failover.Coordinator.EndElection` | cmd/maistr0/failover.go:90-98 | Clears the running flag only |
| `Failover.Coordinator.InstallPromoted` | cmd/maistr0/failover.go:234-241 | Installs a new server unless closed |
| `Failover.Coordinator.ServerExited` | cmd/maistr0/failover.go:251-259 | Clears whichever slot the stopped server holds, with its watch |
| `Failover.Coordinator.ReinstateRetired` | cmd/maistr0/failover.go:282-290 | Moves the retired server back only if it is still the retired one |
| `Failover.Coordinator.RollBackReinstatement` | cmd/maistr0/failover.go:293-298 | Moves it to retired again only if it is still promoted |
| `Failover.Coordinator.InstallWatch` | cmd/maistr0/failover.go:311-320 | Replaces the previous watch unless closed |
| `Failover.Coordinator.StepDownServer` | cmd/maistr0/failover.go:414-423 | Retires the server only if it is the promoted one |
| `Failover.Coordinator.Close` | cmd/maistr0/failover.go:481-492 | Closes for good and hands back exactly the servers that were held |
| `Failover.StepKeepsInvariant` | cmd/maistr0/failover.go:75-303 | Every locked section of every goroutine keeps: slots exclusive and empty after close, one election, nothing promoted before an election installs, bound servers held |
| `Failover.SafeUnderEveryInterleaving` | cmd/maistr0/failover.go:75-303 | Under every interleaving promoted and retired are never both set, at most one election is in flight, and before close at most one server is bound |
| `Failover.ClosedForGood` | cmd/maistr0/failover.go:481-503 | After Close neither slot is ever set again, no watch is installed and no election gets in, whatever is still in flight |
| `Failover.OnlyOwnEventsDemote` | cmd/maistr0/failover.go:414-427 | A promoted server loses its slot only by its own exit, its own watch, its own rollback or Close; a stale watch never demotes a newer server |
| `Failover.NewServerOnlyWhenNoneHeld` | cmd/maistr0/failover.go:197-241 | A new server is created only when none is promoted, retired or bound |
| `Failover.EnterIffFree` | cmd/maistr0/failover.go:81-89 | A caller gets into an election if and only if the coordinator is open, idle and has nothing promoted; otherwise it leaves everything as it was |
| `Failover.ElectionCanPromote` | cmd/maistr0/failover.go:75-303 | Whenever the coordinator is open, idle and without a promoted server, an election can be called and go on to promote the retired server if there is one and a new bound one otherwise, watch it, and leave the coordinator idle |
| `Failover.StepDownRetires` | cmd/maistr0/failover.go:414-427 | A promoted server whose watch steps down becomes the retired one; a reaped server is in no slot |
| `Failover.RefusedReinstatementIsUndone` | cmd/maistr0/failover.go:282-298 | When the agent refuses a reinstated server the election can go on to make it the retired one again and leave the coordinator idle |
| `Failover.CloseEmpties` | cmd/maistr0/failover.go:481-492 | Closing is always possible, closes and leaves no server in a slot and no watch |
| `Election.OutranksIsStrictOrder` | internal/discovery/discovery.go:490-493 | Score then ID is a strict order, total on distinct IDs |
| `Election.BestIsHighest` | internal/discovery/discovery.go:490-493 | The best of a field is the one with the highest score and, among those, the smallest ID |
| `StringOrder.LessIsFirstDifference` | internal/discovery/discovery.go:490-493 | ID order is lexicographic: the smaller string ends first or has the smaller character at the first difference |
| `Election.BestActiveOrchestrator` | internal/discovery/discovery.go:435-448 | The fold returns the active orchestrator with the highest score, then smallest ID, none exactly when there is none |
| `Election.BestOrchestratorCandidate` | internal/discovery/discovery.go:453-464 | The same among self and the contenders |
| `Election.IsElectedOrchestrator` | internal/discovery/discovery.go:474-488 | While another active orchestrator is visible, exactly when self wins over those visible; otherwise exactly when self is active or wins over the visible contenders |
| `Election.FailoverElectionWinner` | cmd/maistr0/failover.go:167-187 | A visible trusted active orchestrator always wins; otherwise the eligible candidate with the highest score, then smallest ID, in any peer order |
| `Election.WinnerIsUnique` | cmd/maistr0/failover.go:167-187 | The eligible set alone determines the winner |
| `Election.NoTwoSelfElected` | cmd/maistr0/failover.go:167-187 | Two candidates that see each other as eligible cannot both choose themselves |
| `Election.SameFieldSameWinner` | cmd/maistr0/failover.go:167-187 | Candidates that see the same field choose the same winner |
| `Election.StepDownCandidates` | cmd/maistr0/failover.go:390-412 | Exactly the qualifying challengers, by falling member count, then falling score, then rising ID |
| `Election.FirstHealthyChallenger` | cmd/maistr0/failover.go:372-382 | The first healthy candidate, none exactly when none is healthy |
| `Election.StepsDownIffFound` | cmd/maistr0/failover.go:340-412 | An orchestrator steps down to y in the sense of the next results if and only if the code finds a healthy candidate with that ID |
| `Election.LowerStepsDown` | cmd/maistr0/failover.go:340-412 | The lower-scored of two orchestrators that see each other steps down to the other, and not conversely |
| `Election.TargetsDescend` | cmd/maistr0/failover.go:340-412 | If x steps down to y and y to z then y outranks z |
| `Election.StepDownsFormNoRing` | cmd/maistr0/failover.go:340-412 | With arbitrary partial views no ring of promoted orchestrators each steps down to the next |
| `Election.SomeoneStays` | cmd/maistr0/failover.go:340-412 | Among promoted orchestrators at one instant at least one does not step down to another |
| `AnnouncementFreshness.Listener.AcceptAnnouncement` | internal/discovery/discovery.go:275-297 | Accepts exactly fresh, verified announcements and prunes the table |
| `AnnouncementFreshness.Listener.ExcludePeer` | internal/discovery/discovery.go:404-416 | Excludes and forgets the peer, ignoring an empty ID |
| `AnnouncementFreshness.Listener.IncludePeer` | internal/discovery/discovery.go:418-425 | Ends the exclusion |
| `AnnouncementFreshness.Listener.Snapshot` | internal/discovery/discovery.go:382-399 | Returns exactly the peers not excluded and heard of within 15 seconds, and forgets the others |
| `AnnouncementFreshness.PruningIsInvisible` | internal/discovery/discovery.go:275-297 | Over any run of arrivals, exclusions, inclusions and reads with a clock that does not go back, deleting table entries never changes a decision or the peer table |
| `AnnouncementFreshness.AcceptedTimesIncrease` | internal/discovery/discovery.go:275-335 | With a key, the issue times accepted from each sender strictly increase over the whole run |
| `AnnouncementFreshness.RefusedOnlyForNewer` | internal/discovery/discovery.go:275-335 | A verified announcement is refused exactly when one at least as new from its sender was accepted |
| `AnnouncementFreshness.TableStaysInWindow` | internal/discovery/discovery.go:286-291 | After an accepted announcement the table holds only times inside the verification window |
| `AnnouncementFreshness.AcceptedIsListed` | internal/discovery/discovery.go:275-399 | A sender accepted and not excluded is listed with what it announced to every reader within 15 seconds, and to none later |
| `PeerListing.ListedIffHeard` | internal/discovery/discovery.go:275-425 | Over any run with a clock that does not go back, a reader is shown a peer if and only if its last accepted announcement came within 15 seconds, while it was not excluded, with no exclusion since; and shown it as then announced |
| `PeerListing.ExcludedIff` | internal/discovery/discovery.go:404-425 | Over any run a peer is excluded exactly from an exclusion to the next inclusion |
| `GenerationCache.CacheFields.InvalidateWatermarksCacheLocked` | internal/memory/bolt_cache.go:155-159 | Bumps both generations and empties both caches |
| `GenerationCache.CacheFields.InvalidateSnapshotCacheLocked` | internal/memory/bolt_cache.go:167-171 | Bumps and empties the snapshot cache only |
| `GenerationCache.CacheFields.LookupWatermarks` | internal/memory/bolt_sync.go:92-99 | Returns the cached value if valid and the generation to publish under |
| `GenerationCache.CacheFields.PublishWatermarks` | internal/memory/bolt_sync.go:119-124 | Publishes only under an unchanged generation |
| `GenerationCache.CacheFields.LookupSnapshot` | internal/memory/boltstore_sync.go:31-38 | Returns the cached snapshot if valid and the generation to publish under |
| `GenerationCache.CacheFields.PublishSnapshot` | internal/memory/boltstore_sync.go:111-118 | Publishes only under an unchanged generation |
| `GenerationCache.ReadYourWrites` | internal/memory/boltstore_sync.go:30-120 | For every interleaving, a read that begins after a write call returned reflects that write, from cache or database |
| `GenerationCache.ValidCacheLagsOnlyPending` | internal/memory/bolt_cache.go:149-171 | A valid cache lags only behind commits whose writer has not invalidated yet; with none it is the database |
| `GenerationCache.FinishedReadIsServed` | internal/memory/boltstore_sync.go:30-120 | A database read that finishes with no invalidation in between is what the next read is served |
| `GenerationCache.MissReadsDatabase` | internal/memory/boltstore_sync.go:30-120 | A read that finds no valid cache returns the database as it stood when it read |
| `GenerationCache.WriteIsRead` | internal/memory/bolt_cache.go:149-171 | A write can always be made, and once it has invalidated, the next reader can go on to return and cache what was written |
| `RecentCache.ScanIsNewest` | internal/memory/boltstore_experiences.go:99-110 | The cursor scan is strictly descending, within the limit, and leaves out only older rows, only when full |
| `RecentCache.SearchIndex` | internal/memory/bolt_cache.go:59-61 | Binary search finds the first row whose ID is not above the given one |
| `RecentCache.CursorScan` | internal/memory/boltstore_experiences.go:99-110 | The backward cursor loop computes the scan |
| `RecentCache.ExperienceStore.LoadRecentExperiences` | internal/memory/bolt_cache.go:14-34 | Loads exactly the newest rows |
| `RecentCache.ExperienceStore.CachedExperiences` | internal/memory/bolt_cache.go:36-51 | Answers exactly when loaded and within the limit, with a prefix of the cache |
| `RecentCache.ExperienceStore.Experiences` | internal/memory/boltstore_experiences.go:92-111 | Cached or not, the answer is the cursor scan's |
| `RecentCache.ExperienceStore.CacheRecentExperience` | internal/memory/bolt_cache.go:53-72 | Sorted insertion or replacement, cut to 128 |
| `RecentCache.ExperienceStore.Record` | internal/memory/boltstore_experiences.go:28-79 | A new row under the next ID keeps the cache exactly the newest rows |
| `RecentCache.InsertKeepsNewest` | internal/memory/bolt_cache.go:53-72 | Inserting any new row, in whatever order rows reach the cache, keeps it the newest rows |
| `RecentCache.ExperienceStore.PruneRecentExperienceCache` | internal/memory/bolt_cache.go:74-87 | Keeps exactly the rows not older than the cutoff, in order |
| `RecentCache.ExperienceStore.Prune` | internal/memory/bolt_learning.go:355-389 | Prunes bucket and cache; the cache stays exact if and only if every cached row survives or no uncached row does |
| `RecentCache.PruneAgreesIff` | internal/memory/bolt_learning.go:355-389 | The same equivalence, for all rows and cutoffs |
| `RecentCache.OrderedRowsPruneSafely` | internal/memory/bolt_learning.go:355-389 | Rows created in ID order always prune safely |
| `RecentCache.PruneCanLeaveCacheShort` | internal/memory/bolt_learning.go:355-389 | 129 concrete rows after whose pruning the cache misses a surviving row |
| `RecentCache.MirrorStepIff` | internal/memory/bolt_cache.go:53-87 | In whatever order concurrent writers reach the cache it stays the newest of the rows given to it; a pruner's filter keeps it so if and only if every cached row survives or no row beyond the cache does |
| `RecentCache.TidyStepIff` | internal/memory/bolt_learning.go:355-389 | With deletion and cache filtering as separate steps among running writers, bucket and cache differ only by work in flight after every step, except exactly after a filter when a writer still held a row that prune deleted or an older row came in between |
| `RecentCache.RunGoodIff` | internal/memory/bolt_cache.go:53-87 | From any opened database, over every interleaving of writers and pruners, the cache is good throughout if and only if every filter was clean in both senses |
| `RecentCache.CacheExactIff` | internal/memory/bolt_cache.go:36-51 | At any moment the cache answers as the database would if and only if each row in which they differ has 128 newer ones in the cache |
| `RecentCache.QuietPruneIsClean` | internal/memory/bolt_learning.go:355-389 | A prune on its own is clean when rows are created in ID order and no writer holds a row older than the cutoff |
| `RecentCache.PruneBeforeCacheServesDeletedRow` | internal/memory/bolt_learning.go:381-383 | A concrete interleaving after which, with nothing in flight, the cache serves a row the database does not have |
| `RecentCache.CommitWhilePruningIsMissed` | internal/memory/bolt_learning.go:381-383 | A concrete interleaving after which the cache lacks a row the database has |
| `RecentCache.GoodCacheIsNewest` | internal/memory/bolt_cache.go:14-87 | A good cache is descending, at most 128 long and, with nothing in flight, exactly the newest rows |
| `IdempotencyCache.Cache.SweepExpired` | internal/nodeagent/idempotency.go:78-83 | Drops exactly the expired completed entries and their bytes |
| `IdempotencyCache.Cache.OldestCompleted` | internal/nodeagent/idempotency.go:97-104 | The completed entry expiring first, or the empty key exactly when none is completed |
| `IdempotencyCache.Cache.Admit` | internal/nodeagent/idempotency.go:77-117 | Joins, refuses, evicts one oldest entry or reports busy under exactly the stated conditions; accounting stays exact |
| `IdempotencyCache.Cache.MakeRoom` | internal/nodeagent/idempotency.go:123-137 | The eviction loop terminates with enough room, evicting completed entries only, first to expire first, none more than needed; its way out without room is never taken |
| `IdempotencyCache.Cache.Complete` | internal/nodeagent/idempotency.go:121-150 | A success of at most 1 MiB is always cached; anything else frees the key |
| `IdempotencyCache.BoundedAndSingleFlight` | internal/nodeagent/idempotency.go:67-153 | Over every interleaving with non-empty keys: at most 512 entries and 8 MiB, no two calls generate for one key at once, a running call's entry is never evicted |
| `IdempotencyCache.SuccessIsAlwaysCached` | internal/nodeagent/idempotency.go:121-147 | Over every interleaving a success of at most 1 MiB is in the cache once its call completes |
| `IdempotencyCache.AnswersMatchRequest` | internal/nodeagent/idempotency.go:84-95 | An answer always comes from a run for the same key and the same fingerprint |
| `IdempotencyCache.ArrivalVerdict` | internal/nodeagent/idempotency.go:77-117 | Over every interleaving: while its key has a pending or unexpired entry, a request joins that call if it is the same and is refused if not; otherwise it does neither, and is told busy only when 512 pending entries fill the cache |
| `IdempotencyCache.CachedAnswerIsReady` | internal/nodeagent/idempotency.go:84-95 | A request that joins a completed call is answered at once with that call's successful outcome |
| `IdempotencyCache.RepeatIsServed` | internal/nodeagent/idempotency.go:67-153 | For every key, request and output of at most 1 MiB there is the run in which one call generates it and a second one, arriving within ten minutes of that, is answered with it without generating |
| `IdempotencyCache.GivingUpIsPrivate` | internal/nodeagent/idempotency.go:84-95 | A waiting request may give up at any time, which changes no entry and no other request |
| `IdempotencyCache.EntriesLeaveOnlyForCause` | internal/nodeagent/idempotency.go:77-150 | A pending entry changes only by its own call; a completed one leaves only expired, or as first to expire when 512 unexpired entries or the 8 MiB leave no room |
| `HistoryPaging.BeforeIsStrictOrder` | internal/memory/history_paging.go:334-348 | The three listing orders are strict and total on distinct ranks |
| `HistoryPaging.OrderOnFields` | internal/memory/history_paging.go:334-348 | In a listing larger IDs come first; or higher scores, then larger IDs; or later times, then larger keys |
| `HistoryPaging.BytesAreSizesAndSeparators` | internal/memory/history_paging.go:55-72 | The bytes of a page are its records' sizes and one separator between each two |
| `HistoryPaging.FillIsMaximal` | internal/memory/history_paging.go:55-72 | The page loop takes the longest run of records within the limit and the byte budget counting separators, and fails exactly when the first record alone is too large |
| `HistoryPaging.PageIsMaximal` | internal/memory/history_paging.go:112-134 | Every page is that longest run of what follows the cursor; more is reported exactly when some is left, and then the page is not empty |
| `HistoryPaging.FollowingIsSuffix` | internal/memory/history_paging.go:92-97 | In a sorted listing the records after a cursor are exactly those after its record |
| `HistoryPaging.PaginationIsComplete` | internal/memory/history_paging.go:99-200 | Following cursors on a fixed listing returns its records in order, each once, all of them exactly when no more is reported, every page but the last with at least one record |
| `HistoryPaging.NextPageExists` | internal/memory/history_paging.go:55-72 | When each record fits the budget the next page can always be read |
| `HistoryPages.ListingUnique` | internal/memory/history_paging.go:341-348 | A sorted listing of given records is unique, so map order and sorting algorithm do not matter |
| `HistoryPages.SortItems` | internal/memory/history_paging.go:168-175 | The sort yields that unique listing |
| `HistoryPages.FillPage` | internal/memory/history_paging.go:360-381 | The loop that skips to the cursor and fills computes the specified page |
| `HistoryPages.ExperiencesByIDPage` | internal/memory/history_paging.go:108-137 | The backward loop computes the page of the newest-first listing |
| `HistoryPages.Cursor.Last` | internal/memory/history_paging.go:290-296 | The greatest key |
| `HistoryPages.Cursor.Seek` | internal/memory/history_paging.go:292-294 | The smallest key not below the target, none exactly when all are below |
| `HistoryPages.Cursor.Prev` | internal/memory/history_paging.go:296-300 | The greatest key below the current one |
| `HistoryPages.StartOfScan` | internal/memory/history_paging.go:288-299 | Last, or Seek and Prev, or Seek and Last again: scanning from there lists exactly what follows the cursor |
| `HistoryPages.ScanPage` | internal/memory/history_paging.go:300-323 | The backward cursor loop computes the page of the rows from there |
| `HistoryPages.BoltExperiencesByIDPage` | internal/memory/history_paging.go:283-327 | Together they compute the page of the stored rows |
| `HistoryPages.SeekIsFollowing` | internal/memory/history_paging.go:289-299 | The rows below the cursor's ID are exactly those that follow it in the listing |
| `HistoryPages.RowListingMembers` | internal/memory/history_paging.go:300-323 | The listing holds exactly the matching rows below the bound |
| `HistoryPages.RankedExperiencesPage` | internal/memory/history_paging.go:139-200 | Collecting, sorting and filling computes the page of the score listing of the newest 5000 |
| `HistoryPages.DialoguesPage` | internal/memory/history_paging.go:350-384 | Computes the page of the dialogue listing, whatever the map order |
| `HistoryPages.FactsPage` | internal/memory/history_paging.go:458-494 | The same for the facts of a scope |
| `HistoryPages.PageWithinOptions` | internal/memory/history_paging.go:45-72 | Every page is a start of what follows the cursor, with at most the asked number of records, 50 by default, and bytes, 64 MiB by default, and one record more would exceed one of them; there is none exactly when the next record alone is too large |
| `HistoryPages.ListedExperiences` | internal/memory/history_paging.go:108-137 | The ID listing holds exactly the matching experiences |
| `HistoryPages.ListedRanked` | internal/memory/history_paging.go:139-200 | The ranked listing holds exactly the matching ones of the last 5000, under their scores |
| `HistoryPages.ListedDialogues` | internal/memory/history_paging.go:350-384 | The dialogue listing holds exactly the dialogues, under their update times |
| `HistoryPages.ListedFacts` | internal/memory/history_paging.go:458-494 | The fact listing holds exactly the facts of the scope, or all without one |
| `HistoryClients.ClientSeesEverything` | internal/memory/history_paging.go:99-200 | What a client following cursors has seen is the start of the listing, in order, each record once, all of it exactly when told there is no more, in at most one page per record plus one |
| `HistoryClients.ClientReachesEnd` | internal/memory/history_paging.go:99-200 | When each record fits the budget, a client that keeps asking at whatever times is told there is no more after at most that many pages, and has then seen the listing |
| `HistoryClients.IDHistoryIsComplete` | internal/memory/history_paging.go:108-137 | Both for the in-memory listing by ID |
| `HistoryClients.BoltIDHistoryIsComplete` | internal/memory/history_paging.go:283-327 | Both for the stored listing by ID, which holds exactly the matching rows |
| `HistoryClients.RankedHistoryIsComplete` | internal/memory/history_paging.go:139-200 | Both for the ranked listing although the clock moves: the cursor fixes the time scores are taken at |
| `HistoryClients.DialogueHistoryIsComplete` | internal/memory/history_paging.go:350-384 | Both for dialogues |
| `HistoryClients.FactHistoryIsComplete` | internal/memory/history_paging.go:458-494 | Both for facts |
| `AgentLoop.StepsFollowGrammar` | internal/agent/loop.go:146-266 | A completed run appends call blocks with one tool message per call in order and matching IDs, then one assistant message without calls; an interrupted or failed one a cut-short form of that |
| `AgentLoop.RunFollowsGrammar` | internal/agent/loop.go:75-272 | With the user message in front: a whole transcript, or a proper prefix of one; at most maxSteps model calls |
| `AgentLoop.PartialBodyExtends` | internal/agent/loop.go:146-256 | Every cut-short body extends to a whole one |
| `AgentLoop.GrammarIffStopsWithoutCalls` | internal/agent/loop.go:183-221 | All completed runs follow the grammar if and only if the harness stops on every turn without calls |
| `AgentLoop.GoingOnBreaksGrammar` | internal/agent/loop.go:212-221 | From any turn without calls on which the harness goes on, a run that completes outside the grammar |
| `AgentLoop.TurnAppends` | internal/agent/loop.go:183-255 | A turn appends the model's text under its ID; without calls, ending the run, when the harness stops; otherwise with the turn's calls and, for each until a cancellation, a tool message with the call's ID and name and its execution's output and error, or an error if the arguments do not decode |
| `AgentLoop.CompletesAtFirstStop` | internal/agent/loop.go:146-221 | A run in which nothing is cancelled or fails completes at the first turn the harness stops on, with that turn's text, after that many model calls |
| `AgentLoop.CompletesAtLimit` | internal/agent/loop.go:256-266 | Or, if it stops on none, with the policy's closing message after exactly the allowed number of model calls |
| `AgentLoop.EndsForCause` | internal/agent/loop.go:146-256 | A run is interrupted only after seeing a cancellation, and fails only when formatting or the model fails |
| `AgentLoop.ContainsIffPart` | internal/deepseek/agent_loop.go:73-87 | The text search finds exactly the texts of which the part is a substring |
| `AgentLoop.InterruptedOnce` | internal/deepseek/agent_loop.go:73-87 | Recording an interruption a second time changes nothing |
| `AgentLoop.NameCalls` | internal/agent/loop.go:187-203 | Calls without an ID take the next new one, given IDs are kept |
| `AgentLoop.ExecuteCalls` | internal/agent/loop.go:222-255 | The inner loop appends the tool messages until cut short |
| `AgentLoop.RunTurn` | internal/agent/loop.go:183-255 | What one model turn appends and whether the run goes on |
| `AgentLoop.RunStep` | internal/agent/loop.go:147-182 | What one step appends, how it ends, and how many model calls it used |
| `AgentLoop.RunSteps` | internal/agent/loop.go:146-266 | The outer loop computes the specified run |
| `AgentLoop.Conversation.BeginTurn` | internal/deepseek/agent_loop.go:39-51 | Refused exactly when active; otherwise appends the user message |
| `AgentLoop.Conversation.RecordInterrupted` | internal/deepseek/agent_loop.go:73-87 | Appends the interruption message unless the session already has one |
| `AgentLoop.TurnLoop.Run` | internal/agent/loop.go:75-272 | Refused exactly when the session is being processed; otherwise leaves the user message and the run's messages, an interruption message exactly when interrupted and the session has none, and the session free |
| `AgentSessions.RunsNeverOverlap` | internal/agent/loop.go:83-109 | Under every interleaving with interrupts at any time, at most one run per session is in the loop and a session's messages are whole runs one after another |
| `AgentSessions.OnlyTheRunAppends` | internal/agent/loop.go:83-109 | While a run is in the loop only it extends the session's messages |
| `AgentSessions.EnterIffFree` | internal/agent/loop.go:83-109 | A run gets into the loop if and only if its session has none and is not busy, and appends the user message exactly then |
| `AgentSessions.TurnTakesPlace` | internal/agent/loop.go:83-272 | A turn in a free session can always take place; it leaves its messages in order, all else as it was and the session free |
| `AgentSessions.InterruptFrees` | internal/agent/loop.go:274-284 | An interrupt is always possible and only frees the session |
| `AgentSessions.LeavingFreesSession` | internal/agent/loop.go:83-109 | In every run, once the run in the loop has left and is marked finished, the next request of the session gets in |
| `TensorShape.CountElements` | internal/engine/pipeline_v2.go:123-132 | The element loop never wraps and gives up exactly when a dimension is not positive or the exact count exceeds 64 bits |
| `TensorShape.Validate` | internal/engine/pipeline_v2.go:115-141 | Accepts exactly supported types, ranks 1 to 8, sizes up to 64 MiB and data of exactly that size |
| `TensorShape.ValidIff` | internal/engine/pipeline_v2.go:115-157 | A tensor is accepted if and only if it has one to eight positive dimensions, at most 64 MiB and exactly 2, 2, 4, 8 or 1 bytes per element by its type |
| `TensorShape.TensorPayloadLength` | internal/engine/pipeline_v2.go:546-569 | Computes the payload length with its 64-bit product |
| `TensorShape.PayloadLengthExactIff` | internal/engine/pipeline_v2.go:564-568 | That length is the exact size, or an error above the limit, if and only if the size is within the limit or its residue modulo 2^64 lies between the limit and 2^63 |
| `TensorShape.NegativeLengthIff` | internal/engine/pipeline_v2.go:564-568 | It is negative if and only if bit 63 of the exact size is set |
| `TensorShape.HugeShapeMeasuresZero` | internal/engine/pipeline_v2.go:564-568 | A concrete shape measured as empty |
| `TensorShape.HugeShapeMeasuresNegative` | internal/engine/pipeline_v2.go:564-568 | A concrete shape measured as negative |
| `TensorShape.ValidPayloadLength` | internal/engine/pipeline_v2.go:546-569 | On every tensor Validate accepts the length is the data's and every partial product is in range |
| `StageCodec.LengthRoundTrip` | internal/engine/pipeline_v2.go:452-453 | The four length bytes recover the header length |
| `StageCodec.LengthIsBigEndian` | internal/engine/pipeline_v2.go:452-453 | The length bytes are its base-256 digits, most significant first, both ways |
| `StageCodec.RoundTrip` | internal/engine/pipeline_v2.go:414-544 | For every accepted header and tensor, reading exactly the written bytes returns the header with its tensor data; any trailing bytes are refused |
| `StageCodec.CarriedMessages` | internal/engine/pipeline_v2.go:414-544 | A request or an output with any valid tensor, or a message with none, is accepted when its header without data encodes in at most 1 MiB, is written as length, header and data, and is read back as it was |
| `StageCodec.AcceptedTensor` | internal/engine/pipeline_v2.go:414-450 | Only a valid tensor of the type and shape the header describes is accepted, and no header with two |
| `StageCodec.TruncationIsRejected` | internal/engine/pipeline_v2.go:495-544 | Every proper prefix of a written message is refused |
| `StageCodec.AcceptedIsWellFormed` | internal/engine/pipeline_v2.go:495-544 | Whatever bytes are accepted are a length, a header that decodes to the message, and the data of at most one valid tensor |
| `StageCodec.FaultIff` | internal/engine/pipeline_v2.go:520-530 | Reading stops with a run-time error at allocation, instead of refusing, if and only if the header decodes to one tensor of supported type, rank and element count whose exact size has bit 63 set |
| `StageCodec.HugeTensorFaults` | internal/engine/pipeline_v2.go:520-530 | A concrete tensor for which every message that starts with its header does |
| `StageCodec.WriteStageBytes` | internal/engine/pipeline_v2.go:468-481 | With arbitrary partial writes, success means everything was written; otherwise a prefix was |
| `StageCodec.WriteStageMessage` | internal/engine/pipeline_v2.go:414-466 | Refuses exactly the unacceptable and writes nothing then; otherwise writes the whole frame, or a prefix if the writer fails |
| `StageCodec.ByteSource.ReadFull` | internal/engine/pipeline_v2.go:497-499 | Exactly n bytes, or the source ends first |
| `StageCodec.ReadStageMessage` | internal/engine/pipeline_v2.go:495-544 | The stream steps compute the specified decoding |

## Left out

- SyncTheorems.WatermarkSoundness: does not cover moments inside a merge, legacy unstamped records, `Prune`, `DeleteFact` and `SaveDialogue`: watermarks run ahead inside a merge, receivers stamp legacy records themselves, and deletions are not propagated.
- SyncTheorems.EqualWatermarksConverge: says nothing of fact hits and creation times or dialogue topics, which the merges do not make converge.
- BoltMerge.SnapshotsAgree: after a snapshot with a keyless fact it says only that bolt is unchanged; the in-memory store keeps what it merged before that fact.
- ConsensusFsm.StateMachine.Restore: the size limit and decoding failures are inputs, as whether a snapshot file can be read.
- GenerationCache.ReadYourWrites: does not cover the peer-watermark cache, whose setter overwrites unconditionally (internal/memory/bolt_sync.go:201-207).
- AgentLoop.RunFollowsGrammar: does not model stream events, message timestamps, durations or the completion observer.
- HistoryPages.RankedExperiencesPage: models the in-memory store; the bolt versions of the ranked, dialogue and fact pages run the same loops over bucket contents.
- AnnouncementFreshness.AcceptedTimesIncrease: does not model 64-bit nanosecond overflow of dates outside the years 1678 to 2262.
- Failover.SafeUnderEveryInterleaving: does not model what the servers and the agent do outside the locked sections.
- bbolt, hashicorp/raft, gob, JSON, gzip, SHA-256 and HMAC: a transactional map, a committed log, injective encodings and collision-free fingerprints stand in for them.
- HTTP handlers, TLS, UDP sockets, dashboards, logging, the command line and configuration: input and output.
- Hardware probing, engine clients and model catalogues: string matching over foreign tools.
- `PageSnapshot` and `SplitSnapshot` (internal/memory/sync_pages.go): their work is done by a package that is not part of this model.
- Floating-point relevance, capability and learned-bias scores: opaque ordered values.
- `Recall`, `Recommend`, `Insights`, load counting, device merging, configuration and layer-plan validation: easy beside the above.
