# Anchor: message validation, contract state, sync, duties and key shares

A Dafny model of four parts of Anchor, a Secret Shared Validator client, with proofs over whole runs.

**Message validator.** Every message id has a duty state: per operator a ring of signer states, indexed by
slot modulo the ring size. `SsvTypes`, `SlotTiming`, `RoundEstimate`, `Leader`, `DutySpec` and `MessageRules`
give the rules as functions; `DutyStates` and `MessageValidator` are the same rules as code that updates
rings in place, proved against those functions. `ValidatorRun` is the validator as a state machine over
received messages and cleaner passes with a nondecreasing clock, and `OncePerRound`, `DutyCounts`,
`RootBudgets`, `CleanerInvisible`, `DecidedRepeats`, `RoundMemory` and `PacketMemory` are theorems about its
runs. `History` puts them together: after any ordered run, the verdict on a message that is on time, with its
reason, is the one of a reference that remembers every accepted event and has no rings at all.
`MessageValidator.Validator` owns one duty-state object per message id; its `Receive` and `Clean` work on
those objects in place and are proved to be the steps of that machine. Time is counted in whole
milliseconds. All of them rest on one fact: a ring is large enough that an entry is only ever overwritten
when its whole epoch is already too late to be asked about (`SlotTiming.RingCoversWindow`). That needs a slot
longer than the summed clock margins, 4.1 seconds (`MarginsFitOneSlot`).

**Contract events, database and in-memory state.** `NetworkTables` has one map per table and one function per
statement, with the cascades and triggers of the schema. `NetworkState` is the in-memory copy and its pending
updates, and says what agreement with the tables means. `MirrorSteps` and `EventMirror` prove statement by
statement and event by event what becomes of agreement; `EventHandlers`, `EventEffects`, `Nonces` and
`Provenance` say what events do; `BlockEvents` and `Agreement` are about lists of events, `ChainFold`,
`ChainRuns` and `Divergence` about blocks, calls, failures and restarts. As code,
`MultiIndex.MultiIndexMap`, `StateReplay.StateStore` and `EventProcessor.Processor` change their maps and
tables in place.

**Sync.** `LogFetcher`, `SyncPipeline` and `Syncer` cover range subdivision, batching, the fetch/process
pipeline, historical and live sync. A chain is a function from block numbers to logs; what the node and the
database answer is arbitrary.

**Duties and key shares.** `Duties` covers proposer and PTC schedules and their verdicts. `KeyShares` covers
the share payload, printed by one crate and parsed by another, and the cluster-id preimage.

`Congruence`, `Sorting`, `BlockRanges`, `OperatorIds` and `Wrappers` are support.

## Where code and promise differ

- The in-memory state does not always equal a rebuild from the tables. A validator registered in a cluster
  that is liquidated makes the state take it for active, until the next status event for that cluster or its
  deletion; the removal of the operator with the node's own key leaves the state naming an id that is gone,
  until a restart. After any events, any block and any run, state and tables agree if and only if neither has
  happened since the last restart without being put right (`Agreement.AgreementExactly`,
  `ChainFold.FoldAgreesExactly`, `ChainRuns.RunAgreesExactly`); `Divergence` has a run for each case.
- The rule that decided messages "can't have the same signers" holds per listing and per round. A repeat is
  refused if and only if one of its signers had the same list, in the same order, accepted for the slot and
  has not moved the slot to a higher round since (`DecidedRepeats.DecidedRepeatExactly`). Runs that get around
  it: the signers in another order (`SameSignersTwice`), and the same message again after a round change by
  each signer (`SameListingTwice`).
- The committee duty limit is the documented one except for an odd number of slots per epoch in one case
  (`DutyCounts.CommitteeLimitExactlyWhen`, `CommitteeLimitOddEpoch`).
- Historical sync can stop short of the follow distance: exactly when the head moved by a single block since
  the round before, or when the deployment block is the only one in range and not the next one due
  (`Syncer.ShortExactly`; `StopsShort` is an instance). Live sync then starts from the last processed block.
- An `OperatorAdded` event with id 0 is skipped in the model; the original computes `id - 1` on an unsigned
  number there, which stops a build with overflow checks.

## Model

| member | source | states |
|---|---|---|
| `SlotTiming.RingCoversWindow` | anchor/message_validator/src/lib.rs:739-778 | when a slot a full ring ahead is not too early, every slot of the older slot's epoch is already too late: no entry is overwritten while its epoch can still be counted, for every role |
| `SlotTiming.BehindTheRingIsLate` | anchor/message_validator/src/duty_state.rs:173-182 | a slot more than a ring behind the current slot is too late together with its whole epoch, so dropping the state loses nothing |
| `SlotTiming.LateMono` | anchor/message_validator/src/lib.rs:1134-1159 | too late stays too late as time passes and for earlier slots |
| `SlotTiming.EarlyMono` | anchor/message_validator/src/lib.rs:1113-1130 | what is no longer early never becomes early again |
| `SlotTiming.SlotTimeExactly` | anchor/message_validator/src/lib.rs:1086-1159 | the verdict on a slot's time for every role, slot and moment: early before 1050 ms ahead of the slot, or for preferences of the epoch start the lookahead earlier, late after 3050 ms past the start of a slot 3, 2 or an epoch and 2 further on by role |
| `SlotTiming.EpochMembership` | anchor/message_validator/src/duty_state.rs:216-222 | a slot is in an epoch exactly when it is one of the slots probed for that epoch |
| `RoundEstimate.RoundStartClosedForm` | anchor/message_validator/src/consensus_message.rs:391-421 | round r starts 2(r-1) seconds after slot start up to round 9 and 16+120(r-9) seconds after it beyond |
| `RoundEstimate.EstimateInvertsSchedule` | anchor/message_validator/src/consensus_message.rs:397-421 | the estimate is the exact inverse of the timeout schedule: r is at most the estimate if and only if round r has started |
| `RoundEstimate.SpreadFollowsSchedule` | anchor/message_validator/src/consensus_message.rs:349-389 | a round is in the allowed spread exactly when it is one of the first four or the round three before it has started |
| `Leader.LeaderOrderIndependent` | anchor/message_validator/src/consensus_message.rs:316-346 | the leader depends on the committee's members, not on their order |
| `Leader.LeaderExactly` | anchor/message_validator/src/consensus_message.rs:316-346 | of n distinct members the leader is the one with exactly (height + round - 1) mod n smaller members, from Boole on with the epoch of the height added |
| `Leader.RotationOverRounds` | anchor/message_validator/src/consensus_message.rs:316-346 | over any n consecutive rounds each of n operators leads exactly once |
| `Leader.RotationOverEpochs` | anchor/message_validator/src/consensus_message.rs:316-346 | after Boole, n consecutive epochs at a fixed slot offset and round give each of n operators exactly one turn if and only if slots per epoch plus one and n are coprime |
| `Leader.CanonicalCommitteesRotate` | anchor/message_validator/src/consensus_message.rs:316-346 | with 32 slots per epoch, committees of 4, 7, 10 and 13 always rotate so |
| `DutySpec.GetAfterWrite` | anchor/message_validator/src/duty_state.rs:224-287 | writing a slot makes it readable, hides every other slot of the same ring index and leaves the rest alone |
| `DutySpec.RecordConsensusLookup` | anchor/message_validator/src/duty_state.rs:85-98 | recording a message updates exactly its signers' rings, each once |
| `MessageRules.CheckEachMeaning` | anchor/message_validator/src/consensus_message.rs:248-310 | checking signers one after another accepts exactly when every signer's ring admits the message, and changes no ring |
| `MessageRules.CheckEachReason` | anchor/message_validator/src/consensus_message.rs:257-303 | when every refusal would give one reason, that is the reason given |
| `MessageRules.ConsensusAcceptance` | anchor/message_validator/src/consensus_message.rs:23-67 | a consensus message is accepted exactly when the stateless rules and every signer's ring, as it was before, admit it |
| `MessageRules.ConsensusEffect` | anchor/message_validator/src/consensus_message.rs:23-67 | an accepted message is recorded once for each signer, a refused one for none, and no other operator's ring changes |
| `MessageRules.PartialOutcome` | anchor/message_validator/src/partial_signature.rs:23-73 | a packet is accepted exactly when the rules admit it and the ring takes it; only its signer's ring can change, also when the root budget refuses it |
| `ValidatorRun.StepEffect` | anchor/message_validator/src/lib.rs:494-619 | what one event does to the ring of any operator under any message id: recorded, dropped or untouched |
| `ValidatorRun.CleanedExactly` | anchor/message_validator/src/duty_state.rs:173-182 | a cleaner pass keeps a state, unchanged, exactly when some operator's last slot is at most two epochs and three slots behind the current one, or for preferences three epochs and the lookahead |
| `ValidatorRun.WriteWasAdmitted` | anchor/message_validator/src/lib.rs:1086-1202 | whatever is written to a ring has passed the slot-time and duty-count checks |
| `ValidatorRun.NoLiveCollision` | anchor/message_validator/src/duty_state.rs:277-286 | two slots with one ring index are never both within the acceptance window: the overwritten one's epoch is too late |
| `ValidatorRun.RunFaithful` | anchor/message_validator/src/duty_state.rs:197-287 | after every run each ring holds exactly the recorded slots of every epoch that can still be asked about, with no count above one |
| `OncePerRound.RunRemembers` | anchor/message_validator/src/duty_state.rs:249-286 | after every run each accepted single-signer message whose slot is not too late is still barred by its ring entry |
| `OncePerRound.NeverAcceptedTwice` | anchor/message_validator/src/message_counts.rs:24-106 | a message accepted in a run has no earlier accepted message with the same slot, round and type by the same operator |
| `OncePerRound.AtMostOnePerOperator` | anchor/message_validator/src/duty_state.rs:249-286 | over every run at most one single-signer message of each type per operator, slot and round is accepted, despite aliasing, round replacement and cleaning |
| `OncePerRound.ProposalIsLeaders` | anchor/message_validator/src/consensus_message.rs:221-346 | an accepted proposal is signed by the leader of its height and round alone |
| `OncePerRound.AtMostOneProposal` | anchor/message_validator/src/consensus_message.rs:221-346 | over every run at most one proposal per message id, height and round is accepted across all operators of a committee |
| `OncePerRound.AcceptedRoundIsDue` | anchor/message_validator/src/consensus_message.rs:349-421 | no single-signer message of a round above four is accepted before the round three earlier has started |
| `RoundMemory.RunRecalls` | anchor/message_validator/src/duty_state.rs:249-397 | after every ordered run the entry of a slot that is not late holds exactly the highest round accepted for it, the kinds accepted from the operator alone in that round, and that round's proposal with full data |
| `RoundMemory.OwnEntryExactly` | anchor/message_validator/src/consensus_message.rs:257-303 | an operator's own message is refused by its entry, with these reasons, exactly when an earlier one of a higher round was accepted, else when it carries full data and a proposal of that round with other data was accepted, else when one of the same round and kind was |
| `DutyCounts.DutyCountExact` | anchor/message_validator/src/duty_state.rs:216-247 | whenever a message passes the slot-time check, the probed count is the number of distinct slots of its epoch ever recorded for the operator in the whole run |
| `DutyCounts.DutyVerdictExactly` | anchor/message_validator/src/lib.rs:1162-1266 | a slot that is on time passes the duty count exactly when its role has no limit, it was recorded before, or fewer slots of its epoch were than the role allows: two, a whole epoch, the exits due, or the committee's |
| `DutyCounts.MovedPastExactly` | anchor/message_validator/src/consensus_message.rs:424-460 | an operator has moved past a slot that is not late exactly when a later slot was recorded for it, whatever the cleaner dropped |
| `DutyCounts.LimitNeverExceeded` | anchor/message_validator/src/lib.rs:1162-1202 | under a constant limit no operator ever has more slots of an epoch recorded than the limit |
| `DutyCounts.FullEpochLimitNeverRefuses` | anchor/message_validator/src/lib.rs:1162-1202 | a limit of slots per epoch refuses nothing |
| `DutyCounts.CommitteeLimitExactlyWhen` | anchor/message_validator/src/lib.rs:1204-1266 | the committee limit is all slots with a sync-committee member and else twice the validators, capped, if and only if not 2·count+1 equals an odd slots per epoch while a member is present |
| `DutyCounts.CommitteeLimitOddEpoch` | anchor/message_validator/src/lib.rs:1204-1266 | an instance with three slots per epoch where the limit is two and three was promised |
| `RootBudgets.BudgetRule` | anchor/message_validator/src/duty_state.rs:100-171 | a packet is taken exactly if it brings a new root and the union stays within its kind's cap; then its kind's set becomes the union, and a refusal changes neither set |
| `RootBudgets.BudgetsHold` | anchor/message_validator/src/duty_state.rs:100-171 | over every run a live entry's root set is the union of its accepted packets' roots, within the cap of 4 or 8, and admits at most cap-many packets |
| `RootBudgets.KindsIndependent` | anchor/message_validator/src/duty_state.rs:339-365 | a kind's root set after any packets is what the packets of that kind alone lead to |
| `RootBudgets.VerdictsIndependent` | anchor/message_validator/src/duty_state.rs:339-365 | and so is the verdict on the next packet |
| `PacketMemory.FullExactly` | anchor/message_validator/src/message_counts.rs:62-96 | in every run, ordered or not, an entry takes no further packet of a class, before or after consensus, exactly when one has reached it since it was last forgotten |
| `PacketMemory.LiveFullExactly` | anchor/message_validator/src/partial_signature.rs:197-290 | for a slot that is not late that is exactly when an earlier packet of the class reached it and no consensus message of a higher round has replaced the entry since; a packet of the other class never matters |
| `History.ConsensusVerdictExactly` | anchor/message_validator/src/consensus_message.rs:23-66 | after every ordered run, the verdict and reason for a consensus message that is on time are those of a reference with the whole history: signers, fork, form with quorum and round limits, leader, what the signers had accepted before, round schedule, later slots, duty, duty count, signature, in this order |
| `History.PacketVerdictExactly` | anchor/message_validator/src/partial_signature.rs:23-72 | the same for a packet of partial signatures, down to the distinct signing roots of all packets accepted before |
| `History.OffTimeRefused` | anchor/message_validator/src/lib.rs:1086-1107 | nothing early, late or undecodable is accepted in any state |
| `History.RecordedMeaning` | anchor/message_validator/src/duty_state.rs:85-170 | the slots that count as recorded are those of the consensus messages accepted from an operator and of its packets accepted or refused for their roots alone |
| `CleanerInvisible.AlikeVerdict` | anchor/message_validator/src/lib.rs:494-619 | two states that differ only in what is too late accept and record exactly the same messages, also through the highest-slot check |
| `CleanerInvisible.RunsAlike` | anchor/message_validator/src/lib.rs:587-619 | a run with the cleaner and one without stay alike in that sense |
| `CleanerInvisible.CleaningInvisible` | anchor/message_validator/src/lib.rs:587-619 | the run with the cleaner and the one without give the same verdicts, message by message |
| `DecidedRepeats.SeenExactly` | anchor/message_validator/src/duty_state.rs:249-397 | in every run, ordered or not, an entry's seen signers are exactly the digests of the decided messages accepted for that operator and slot since the entry was last replaced by a higher round, displaced or dropped |
| `DecidedRepeats.DecidedAcceptedExactly` | anchor/message_validator/src/consensus_message.rs:221-310 | after any run, a decided message of whatever root, round or time is accepted if and only if all other rules admit it and no signer's entry still remembers an earlier message with this list of signers |
| `DecidedRepeats.LiveForgetsAt` | anchor/message_validator/src/duty_state.rs:249-288 | while a slot is not too late, its entry forgets a decided message only through a consensus message of a higher round |
| `DecidedRepeats.DecidedRepeatExactly` | anchor/message_validator/src/consensus_message.rs:296-303 | a decided message that the other rules admit is refused if and only if some signer had the same list, id by id in the lowest 32 bits, accepted for the slot earlier in the run and has not moved the slot to a higher round since |
| `DecidedRepeats.SameSignersTwice` | anchor/message_validator/src/consensus_message.rs:221-310 | a run that accepts decided messages by the signers 1, 2, 3 and then 3, 2, 1 |
| `DecidedRepeats.SameListingTwice` | anchor/message_validator/src/duty_state.rs:256-268 | a run that accepts the very same decided message twice, with a round change by each of its signers in between |
| `DutyStates.OperatorState.constructor` | anchor/message_validator/src/duty_state.rs:199-205 | a new ring of the given size holds nothing |
| `DutyStates.OperatorState.GetSignerState` | anchor/message_validator/src/duty_state.rs:224-238 | the entry at the slot's index, only if it is of that slot |
| `DutyStates.OperatorState.GetDutyCount` | anchor/message_validator/src/duty_state.rs:216-222 | the loop over an epoch's slots counts the slots the ring holds |
| `DutyStates.OperatorState.SetSignerState` | anchor/message_validator/src/duty_state.rs:277-287 | the entry is placed and the highest slot kept, as in the value model |
| `DutyStates.OperatorState.Update` | anchor/message_validator/src/duty_state.rs:249-275 | a message of the entry's round or below updates it, a higher round replaces it |
| `DutyStates.OperatorState.UpdateForPartial` | anchor/message_validator/src/duty_state.rs:100-171 | the packet's effect and verdict, an entry being created even if its roots are refused |
| `DutyStates.DutyState.constructor` | anchor/message_validator/src/duty_state.rs:60-67 | a new duty state has no operators |
| `DutyStates.DutyState.GetOrCreateOperator` | anchor/message_validator/src/duty_state.rs:69-74 | the operator's ring, created if missing, shared with no other operator |
| `DutyStates.DutyState.UpdateForConsensusMessage` | anchor/message_validator/src/duty_state.rs:85-98 | the loop over signers records the message in each of their rings and in no other |
| `DutyStates.DutyState.UpdateForPartialSignature` | anchor/message_validator/src/duty_state.rs:100-171 | records the packet in its signer's ring only |
| `DutyStates.DutyState.Outdated` | anchor/message_validator/src/duty_state.rs:173-182 | outdated exactly when every operator's highest slot is more than a ring behind |
| `MessageValidator.ValidateCount` | anchor/message_validator/src/lib.rs:1162-1202 | the duty-count verdict from the ring in place |
| `MessageValidator.JudgeSigners` | anchor/message_validator/src/consensus_message.rs:248-310 | the loop over signers stops at the first refusal |
| `MessageValidator.QbftLogic` | anchor/message_validator/src/consensus_message.rs:221-310 | leader, per-signer and round-spread rules on the rings in place |
| `MessageValidator.DutyLogic` | anchor/message_validator/src/consensus_message.rs:424-475 | slot advance, beacon duty, slot time and duty count on the rings in place |
| `MessageValidator.ConsensusMessage` | anchor/message_validator/src/consensus_message.rs:23-67 | validates and, only on success, records a consensus message in place |
| `MessageValidator.PartialSignature` | anchor/message_validator/src/partial_signature.rs:23-73 | validates and records a packet in place |
| `MessageValidator.AnyMessage` | anchor/message_validator/src/lib.rs:780-805 | dispatch on the payload after the structure checks |
| `MessageValidator.Validator.CreateEntry` | anchor/message_validator/src/lib.rs:574-585 | a new duty state in memory of its own leaves all others as they were |
| `MessageValidator.Validator.Receive` | anchor/message_validator/src/lib.rs:494-585 | judging a message on its duty-state object, created if missing, is one step of the validator's state machine on what all the objects hold, and no two of them ever share memory |
| `MessageValidator.Validator.Clean` | anchor/message_validator/src/lib.rs:587-619 | a pass that asks every object whether it is outdated, and drops it if so, is the machine's cleaning step |
| `LogFetcher.FetchLogs` | anchor/eth/src/sync.rs:554-613 | whatever is refused, fewer than two requests per block; success returns exactly the range's logs once each in block order; failure only on another error or a refused single block |
| `SyncPipeline.BatchesTile` | anchor/eth/src/sync.rs:431-444 | the batches exactly partition the block range in order |
| `SyncPipeline.BatchSizes` | anchor/eth/src/sync.rs:431-444 | the i-th starts 10000 i blocks on, and each but the last is of 10000 blocks |
| `SyncPipeline.ReachInv` | anchor/eth/src/sync.rs:446-526 | in every interleaving, started, fetched, fetching and pending batches together are the original list, an idle processor leaves no fetched batch waiting, and at most 50 are fetched or fetching |
| `SyncPipeline.FinishedMeansAll` | anchor/eth/src/sync.rs:462-526 | the loop ends only when every batch has been processed in order |
| `SyncPipeline.TurnProgress` | anchor/eth/src/sync.rs:462-526 | every turn brings the loop closer to its end |
| `SyncPipeline.ProcessBatches` | anchor/eth/src/sync.rs:446-526 | the loop over its queues: all batches in order on success, a prefix on failure |
| `Syncer.SyncRange` | anchor/eth/src/sync.rs:686-745 | fetching and processing a range keeps tables and state on the chain's fold and reaches its end, unless the provider denies a request in the range, the database fails or an event aborts its block |
| `Syncer.SyncBatches` | anchor/eth/src/sync.rs:431-526 | the pipeline with its fetches and its processor: in whatever order they complete and whatever fails, tables and state stay on the fold, and the end block is reached unless at some turn one of those three happens |
| `Syncer.HistoricalSync` | anchor/eth/src/sync.rs:369-546 | for any reported heads, completion orders, provider answers and database failures the processor stays on the fold, never goes back and never comes nearer to a head than the follow distance; it ends at exactly the block and round that the heads determine unless something between its start and a head's follow distance makes it fail |
| `Syncer.SyncedToMeaning` | anchor/eth/src/sync.rs:369-546 | that block is the one at the follow distance behind the head of the round before, or the first one, and that round is the first whose head stops the sync |
| `Syncer.ShortExactly` | anchor/eth/src/sync.rs:401-416 | with blocks to process, a sync that ends leaves some of them unprocessed if and only if the head has moved by one block since the round before, or in the first round the deployment block alone is in range and not the next one due |
| `Syncer.StopsShort` | anchor/eth/src/sync.rs:412-416 | deployment block 1 and heads 18 and 19: the sync ends at block 10 of 11 |
| `Syncer.LiveStep` | anchor/eth/src/sync.rs:686-745 | a new head that is too early or whose block is processed changes nothing; any other leads to exactly the block eight behind it, never past that and never off the fold; it fails only if the provider, the database or an event of a block on the way does |
| `Syncer.LiveSync` | anchor/eth/src/sync.rs:665-750 | over any stream of heads live sync ends where the heads lead unless something on the way makes it fail, and whether or not it fails no block nearer than eight to the highest head is processed |
| `Syncer.LiveToExactly` | anchor/eth/src/sync.rs:686-745 | where the heads lead: a block is reached exactly when it was before or is at least eight behind some head that is not too early |
| `MultiIndex.SharedLookup` | anchor/database/src/multi_index.rs:295-330 | over every history a shared key finds exactly the primaries linked to it since their last removal |
| `MultiIndex.UniqueLookup` | anchor/database/src/multi_index.rs:274-293 | over every history a unique key finds the last primary linked to it if that one has not been removed since |
| `MultiIndex.IndexesFollowHistory` | anchor/database/src/multi_index.rs:159-442 | after every sequence of insertions, removals, updates and changes in place each index is what its own history makes it, and no index points at a primary that is gone |
| `MultiIndex.ValuesFollowHistory` | anchor/database/src/multi_index.rs:159-442 | and the value of a key is the one last inserted or put in its place, as changed since, unless the key was removed |
| `MultiIndex.RetainWithout` | anchor/database/src/multi_index.rs:206-212 | the retain loop removes exactly the primary's pairs and leaves no empty set |
| `MultiIndex.MultiIndexMap.constructor` | anchor/database/src/multi_index.rs:134-147 | a new map and all its indexes are empty |
| `MultiIndex.MultiIndexMap.InsertOrUpdate` | anchor/database/src/multi_index.rs:159-196 | inserts the value and links its three keys, keeping the keys it had |
| `MultiIndex.MultiIndexMap.Remove` | anchor/database/src/multi_index.rs:198-237 | removes the value and every link to it, and returns it |
| `MultiIndex.MultiIndexMap.Update` | anchor/database/src/multi_index.rs:241-248 | replaces an existing value and no index |
| `MultiIndex.MultiIndexMap.GetBySecondary` | anchor/database/src/multi_index.rs:283-286 | finds a value exactly when the unique key points at a live one |
| `MultiIndex.MultiIndexMap.FirstBySecondary` | anchor/database/src/multi_index.rs:304-314 | some live primary under a shared key, or none exactly when there is none |
| `MultiIndex.MultiIndexMap.ModifyAllByTertiary` | anchor/database/src/multi_index.rs:373-385 | applies the change to exactly the values under the key |
| `NetworkTables.EmptySound` | anchor/database/src/migrations/V1__production_baseline.sql:1-82 | an empty database satisfies what every reachable one does |
| `NetworkTables.InsertOperatorSound` | anchor/database/src/operator_operations.rs:21-53 | inserting a new operator keeps it: ids in range, keys distinct, members with rows, clusters with validators, one share per member |
| `NetworkTables.DeleteOperatorSound` | anchor/database/src/operator_operations.rs:108-143 | deleting or marking an operator keeps it: a removed row lives exactly as long as a membership |
| `NetworkTables.InsertValidatorSound` | anchor/database/src/cluster_operations.rs:11-59 | inserting a checked validator keeps it |
| `NetworkTables.SetLiquidatedSound` | anchor/database/src/cluster_operations.rs:61-80 | changing a cluster's status keeps it |
| `NetworkTables.DeleteValidatorSound` | anchor/database/src/migrations/V1__production_baseline.sql:36-82 | deleting a validator with its cascades keeps it: the cluster goes with its last validator and removed operators with their last membership |
| `NetworkState.ApplyAllSplit` | anchor/database/src/pending_updates.rs:128-133 | replaying a list is replaying its parts in order, up to a panic |
| `NetworkState.AgreementDetermines` | anchor/database/src/state.rs:32-161 | two states that agree with the same tables are equal, except for what keys of removed validators point to |
| `MirrorSteps.InsertOperatorOwn` | anchor/database/src/pending_updates.rs:144-153 | replaying an operator insert keeps our identity and shares right, whether or not it is ours |
| `MirrorSteps.DeleteOperatorOwn` | anchor/database/src/pending_updates.rs:154-156 | replaying an operator removal keeps our identity right if and only if it is not the holder of our key |
| `MirrorSteps.SetFeeRecipientClusters` | anchor/database/src/pending_updates.rs:229-236 | replaying a fee update gives the new recipient to all clusters of the owner and to no others |
| `MirrorSteps.SetLiquidatedClusters` | anchor/database/src/pending_updates.rs:194-201 | replaying a status update puts the flag of its cluster right, whatever it was, and touches no other |
| `MirrorSteps.InsertValidatorClustersAgree` | anchor/database/src/pending_updates.rs:157-192 | replaying a validator insert keeps every cluster and all three cluster indexes right |
| `MirrorSteps.InsertValidatorFlags` | anchor/eth/src/event_processor.rs:541-547 | it makes the flag of the cluster wrong if the cluster is stored as liquidated, right if not, and touches no other flag |
| `MirrorSteps.LastOfCluster` | anchor/database/src/pending_updates.rs:214-224 | the in-memory test for a cluster's last validator is the trigger's |
| `MirrorSteps.DeleteValidatorShape` | anchor/database/src/pending_updates.rs:202-225 | replaying a removal never meets missing metadata and drops the cluster exactly when the trigger does |
| `MirrorSteps.DeleteValidatorOwn` | anchor/database/src/pending_updates.rs:202-225 | after it our shares and clusters are again exactly those of the tables |
| `EventHandlers.AcceptedInsertable` | anchor/eth/src/util.rs:133-182 | a registration that passes every check fits the schema: one share for each of its active, distinct operators |
| `EventHandlers.ShareRowsPaired` | anchor/eth/src/util.rs:57-80 | the i-th operator is stored with the i-th share key and ciphertext, and there is no other row |
| `EventHandlers.HandleSound` | anchor/eth/src/event_processor.rs:339-807 | every event keeps the tables sound, and aborts its block if and only if it removes an operator that is neither active nor skipped or its owner is out of nonces; no key or row ever collides |
| `EventMirror.OperatorAddedFollows` | anchor/eth/src/event_processor.rs:339-422 | the updates queued for a registration, skipped or not, replay to agreement |
| `EventMirror.ValidatorAddedFollows` | anchor/eth/src/event_processor.rs:461-574 | so do those of a validator registration, and the only flag it can put wrong is that of a liquidated cluster it joins |
| `EventMirror.ValidatorRemovedFollows` | anchor/eth/src/event_processor.rs:629-705 | so do those of a removal, and a flag stays wrong only as long as its cluster is there |
| `EventMirror.EventFollows` | anchor/database/src/pending_updates.rs:135-251 | for every event that does not abort, the replay does not panic and restores all but flags and identity; which flags are wrong after it is told from the tables alone, and the identity goes wrong exactly when our operator is removed |
| `EventEffects.EventOperators` | anchor/eth/src/event_processor.rs:339-455 | an operator is active after an event exactly if the event registers it with the next id and an unused key, or it was active and is not removed by it |
| `EventEffects.EventSkipped` | anchor/eth/src/event_processor.rs:355-455 | a skip marker is there exactly for an id taken up without a new and readable key and not removed since |
| `EventEffects.OutcomeExactly` | anchor/eth/src/event_processor.rs:202-270 | which events are carried out, which are skipped and which abort their block |
| `EventEffects.EventLiquidation` | anchor/eth/src/event_processor.rs:708-778 | a stored cluster is liquidated exactly from its liquidation to its reactivation; a cluster stored anew is not |
| `EventEffects.EventOwners` | anchor/database/src/sql_operations.rs:137-160 | only registrations and fee updates touch owner rows, and each only the owner it names |
| `Provenance.EventStored` | anchor/eth/src/event_processor.rs:461-705 | after an event a registration is stored with these shares if and only if it was and its owner does not remove it, or the event makes it and the tables admit it |
| `Provenance.AcceptedExactly` | anchor/eth/src/event_processor.rs:485-574 | the checks pass exactly for registrations of 4, 7, 10 or 13 distinct active operators, one share key each, a new validator, a signature over owner and nonce, and shares that interpolate |
| `Provenance.StoredExactly` | anchor/eth/src/event_processor.rs:461-705 | from an empty database a registration is stored if and only if some event made it, signed for the number of registrations its owner had made before, and the owner has not removed it since |
| `Provenance.FoldStoredExactly` | anchor/eth/src/event_processor.rs:461-705 | the same of the fold of any chain of blocks |
| `Provenance.StoredWasRegistered` | anchor/eth/src/event_processor.rs:461-574 | in every run each stored validator was registered by an event of the chain with exactly the stored shares, signed for the number of registrations its owner had made before |
| `Nonces.FoldNonce` | anchor/database/src/sql_operations.rs:157-160 | in every run an owner's stored nonce is one less than its registrations so far, and absent before the first |
| `Nonces.CheckedNonce` | anchor/database/src/cluster_operations.rs:124-140 | the k-th registration of an owner is checked against nonce k-1, in both modes, whatever events lie between |
| `Nonces.RegistrationAborts` | anchor/database/src/cluster_operations.rs:124-140 | a registration aborts its block exactly when its owner has made 65536 before |
| `Nonces.SplitNonceIsChecked` | anchor/keysplit/src/split.rs:63-89 | the k-th key of a split made at some block carries the nonce the processor checks for the k-th later registration, although the splitter follows two kinds of events only |
| `Nonces.IdsConsecutive` | anchor/eth/src/event_processor.rs:355-386 | the operator ids consumed by a list of events are the consecutive numbers up to the highest seen |
| `Nonces.FoldIds` | anchor/eth/src/event_processor.rs:355-386 | in every run the ids consumed by all blocks are 1, 2, 3 and so on up to the highest seen, each once, and every operator row and every skip marker carries one of them, never both |
| `Nonces.FoldFee` | anchor/database/src/validator_operations.rs:17-34 | in every run an owner's fee recipient is the one its last update named, or the owner |
| `BlockEvents.RunTables` | anchor/eth/src/event_processor.rs:179-270 | what a block does to the tables does not depend on the state in memory |
| `BlockEvents.EventsFollow` | anchor/eth/src/event_processor.rs:179-295 | replaying a whole block's updates does not panic and restores agreement up to flags and identity |
| `Agreement.EventStands` | anchor/database/src/pending_updates.rs:135-251 | one event further, the wrong flags are the ones the tables say, and an identity once lost stays lost, because operator ids are never given out again |
| `Agreement.RunStands` | anchor/database/src/pending_updates.rs:128-133 | the same through all events of a block |
| `Agreement.StaleMeaning` | anchor/eth/src/event_processor.rs:541-547 | a flag is wrong after some events if and only if one of them joined that cluster while it was liquidated and no later one set its status or deleted it |
| `Agreement.AgreementExactly` | anchor/database/src/pending_updates.rs:128-251 | from agreement, the state after a list of events agrees with the tables if and only if no event removes the operator with our key and every join of a liquidated cluster is followed by a status event for it or by its deletion |
| `Agreement.LostTakesNothing` | anchor/database/src/lib.rs:210-228 | once the operator with our key is removed the node takes on no share until a restart, not even when an operator with its key is registered again |
| `Agreement.NeverDisagreesExactly` | anchor/database/src/pending_updates.rs:128-251 | it agrees after every single one of them if and only if none, where it is met, joins a liquidated cluster or removes the operator with our key |
| `Agreement.StatusRepairs` | anchor/eth/src/event_processor.rs:708-778 | a join of a liquidated cluster breaks agreement and the cluster's next status event restores it |
| `ChainFold.CommitHealthy` | anchor/eth/src/event_processor.rs:179-295 | a block commits exactly when no event aborts it, all or nothing |
| `ChainFold.CommitElsewhere` | anchor/database/src/lib.rs:304-311 | what a commit leads to does not depend on the number of the last processed block |
| `ChainFold.WorldStep` | anchor/eth/src/event_processor.rs:95-136 | skipping blocks without logs leads to the same tables and state as committing each of them |
| `ChainFold.FlushesOfChain` | anchor/eth/src/event_processor.rs:95-136 | grouping the logs of a range flushes each block with logs once, in order, and then the end block |
| `ChainFold.FlushesKeep` | anchor/eth/src/event_processor.rs:73-136 | grouping any logs loses none and keeps their order; a log without a block number counts for the end block, no block is committed twice running and the last one is the end block |
| `ChainFold.CommitOnFold` | anchor/eth/src/event_processor.rs:179-295 | committing the next block with logs leads from the fold of one block, tables and state, to the fold of the other, over the empty ones between |
| `ChainFold.FoldIsAfter` | anchor/eth/src/event_processor.rs:73-295 | the fold block by block is the fold of all events in one list, and stops exactly when that does |
| `ChainFold.FoldAgreesExactly` | anchor/database/src/lib.rs:304-311 | after any number of committed blocks, state and tables agree if and only if the events since the start are consistent in the sense of `Agreement.AgreementExactly` |
| `ChainFold.CallOnFold` | anchor/eth/src/event_processor.rs:73-152 | a call that resumes after the last processed block stays on the per-block fold whatever fails, never goes back, and falls short of its end only where the database fails or the fold itself stops |
| `ChainRuns.RunOnFold` | anchor/eth/src/event_processor.rs:73-295 | in every run of calls, failures and restarts the tables are the fold of all blocks up to the last processed one, each applied once and in order; tables and state together are the fold, one commit per block, from the world of the last restart; and the last processed block never decreases |
| `ChainRuns.RunAgreesExactly` | anchor/database/src/state.rs:32-161 | in every run state and tables agree if and only if since the last restart no event removed the operator with our key and every join of a liquidated cluster was followed by a status event for it or by its deletion |
| `ChainRuns.RunsMeet` | anchor/eth/src/event_processor.rs:73-152 | however two runs cut the chain, equal last blocks mean equal tables, and equal state too if they go back to the same restart |
| `ChainRuns.CutsMeet` | anchor/eth/src/event_processor.rs:73-152 | runs without restarts that have processed the same blocks have the same tables and the same state, whatever the events |
| `ChainRuns.RunMatchesRebuild` | anchor/database/src/state.rs:32-161 | when they agree, the state in memory is the one a restart would build, live keys included |
| `Divergence.RemovalDiverges` | anchor/database/src/operator_operations.rs:108-143 | a run in which the state agrees up to the removal of our operator and not after it |
| `Divergence.LiquidatedJoinDiverges` | anchor/eth/src/event_processor.rs:541-547 | a run in which it agrees up to a registration in a liquidated cluster, not after it, and again after the cluster's reactivation |
| `StateReplay.FetchOperators` | anchor/database/src/state.rs:217-228 | reads back exactly the operators not marked as removed |
| `StateReplay.FetchNonces` | anchor/database/src/state.rs:303-323 | reads back exactly the nonces present |
| `StateReplay.StateStore.constructor` | anchor/database/src/state.rs:32-161 | the state rebuilt cluster by cluster mirrors the tables, and serves exactly the shares stored under their validator's cluster that interpolate |
| `StateReplay.RebuiltAgrees` | anchor/database/src/state.rs:113-147 | in sound tables all stored shares do, so that a restart brings full agreement |
| `StateReplay.StateStore.FillCluster` | anchor/database/src/state.rs:85-147 | the inner loop adds exactly one cluster's validators and our shares of them |
| `StateReplay.StateStore.InsertValidator` | anchor/database/src/pending_updates.rs:157-192 | the three maps change in place as the replay specifies |
| `StateReplay.StateStore.DeleteValidator` | anchor/database/src/pending_updates.rs:202-225 | so does a removal; without metadata it stops, with the share gone and nothing else changed |
| `StateReplay.StateStore.Replay` | anchor/database/src/pending_updates.rs:135-251 | one update in place is one step of the replay, and panics exactly when that step does |
| `StateReplay.StateStore.Publish` | anchor/database/src/pending_updates.rs:128-133 | the loop replays the whole list in order, and panics exactly when the replay does |
| `EventProcessor.ValidateOperators` | anchor/eth/src/util.rs:133-182 | accepts exactly 4, 7, 10 or 13 distinct active operators |
| `EventProcessor.CollectRows` | anchor/eth/src/util.rs:57-80 | of distinct operators the i-th gets the i-th key of the payload, and nobody else gets a row |
| `EventProcessor.Transaction.OperatorAddedLog` | anchor/eth/src/event_processor.rs:339-422 | changes the transaction as the handler's specification says, in each of its exits |
| `EventProcessor.Transaction.OperatorRemovedLog` | anchor/eth/src/event_processor.rs:425-455 | the same for a removal, a skip marker being consumed first |
| `EventProcessor.Transaction.ValidatorAddedLog` | anchor/eth/src/event_processor.rs:461-574 | the nonce is consumed before anything is checked |
| `EventProcessor.Transaction.RegisterValidator` | anchor/eth/src/event_processor.rs:485-574 | the checks in order, then row, shares and update together, or none of them |
| `EventProcessor.Transaction.ValidatorRemovedLog` | anchor/eth/src/event_processor.rs:629-705 | only the cluster's owner removes a validator |
| `EventProcessor.Transaction.StatusLog` | anchor/eth/src/event_processor.rs:708-778 | after it the cluster named is liquidated, if stored, exactly as the event says and every other cluster as before, nothing else of the tables changes, and the one update it queues takes any state mirroring the old clusters to one mirroring the new with this flag right |
| `EventProcessor.Transaction.ProcessEvent` | anchor/eth/src/event_processor.rs:202-239 | dispatch by kind of event |
| `EventProcessor.Processor.constructor` | anchor/database/src/lib.rs:155-169 | opening the database rebuilds the state from the tables, and for sound tables the two agree |
| `EventProcessor.Processor.ProcessBlockLogs` | anchor/eth/src/event_processor.rs:179-295 | one block is committed and published whole, or nothing changes, on an abort as on a database failure |
| `EventProcessor.Processor.ProcessLogs` | anchor/eth/src/event_processor.rs:73-152 | the buffering loop commits exactly the flushes of its logs, in order, up to the first failure |
| `Duties.CompleteExactly` | anchor/duties_tracker/src/lib.rs:111-145 | as many duties as slots, all in the epoch and none twice, is the same as exactly one duty for every slot |
| `Duties.FromResponse` | anchor/duties_tracker/src/lib.rs:111-145 | accepts exactly the complete responses; an error names the first offending duty |
| `Duties.RunComplete` | anchor/duties_tracker/src/duties_tracker.rs:276-286 | in every reachable tracker state every retained schedule is complete |
| `Duties.OneProposer` | anchor/duties_tracker/src/duties_tracker.rs:447-467 | in every reachable state each slot of a retained epoch has exactly one assigned key, every other key is denied, and other epochs answer unknown |
| `Duties.ProposerExactly` | anchor/duties_tracker/src/duties_tracker.rs:447-467 | in a complete schedule that key is the one of the schedule's duty for the slot |
| `Duties.ViewExactly` | anchor/duties_tracker/src/duties_tracker.rs:235-286 | after any polls the schedule of an epoch is the last complete response for it, unless it is more than two epochs old |
| `Duties.PollVerdicts` | anchor/duties_tracker/src/duties_tracker.rs:235-273 | a poll changes verdicts only for epochs it has a complete schedule for and those it forgets; failed or malformed answers change none |
| `Duties.FromPtcResponse` | anchor/duties_tracker/src/lib.rs:232-254 | accepts exactly responses about requested validators, in the epoch, with one duty each, and holds exactly those |
| `Duties.PtcVerdictExactly` | anchor/duties_tracker/src/lib.rs:256-262 | assigned exactly for the response's duties, denied for other slots of requested validators, unknown for anyone else |
| `Duties.DutiesTracker.constructor` | anchor/duties_tracker/src/lib.rs:189-196 | nothing is known at first |
| `Duties.DutiesTracker.InstallProposerSchedule` | anchor/duties_tracker/src/duties_tracker.rs:278-286 | a complete response replaces the epoch's schedule, any other leaves it |
| `Duties.DutiesTracker.PollProposers` | anchor/duties_tracker/src/duties_tracker.rs:235-273 | current and next epoch are tried in turn, then old epochs forgotten; an error is reported if a request failed |
| `Duties.DutiesTracker.ProposerAssignment` | anchor/duties_tracker/src/duties_tracker.rs:447-467 | the search through a schedule gives the verdict |
| `Duties.DutiesTracker.PollPtc` | anchor/duties_tracker/src/duties_tracker.rs:289-337 | keeps one earlier epoch, replaces the current view on a sound answer only, and has none without validators |
| `Duties.DutiesTracker.PtcAssignment` | anchor/duties_tracker/src/duties_tracker.rs:479-491 | the PTC verdict of the slot's epoch |
| `KeyShares.HexRoundTrip` | anchor/keysplit/src/output.rs:126-148 | decoding a printed byte string gives it back |
| `KeyShares.HexExactly` | anchor/keysplit/src/output.rs:126-148 | every byte is printed as two lower-case digits, the higher one first |
| `KeyShares.ConcatenateKeyData` | anchor/keysplit/src/output.rs:136-148 | the loop prints all share keys, and all ciphertexts, in operator order |
| `KeyShares.SharesData` | anchor/keysplit/src/output.rs:109-124 | the printed payload decodes to signature, share keys and ciphertexts laid end to end |
| `KeyShares.LayoutExactly` | anchor/eth/src/util.rs:31-56 | signature in the first 96 bytes, the i-th share key 48 i bytes after it, the i-th ciphertext 256 i bytes after all the keys |
| `KeyShares.ParseOfLayout` | anchor/eth/src/util.rs:31-83 | parsing that layout gives back signature and shares in operator order, for every number of operators |
| `KeyShares.LayoutOfParse` | anchor/eth/src/util.rs:31-83 | an input is accepted exactly by its length, and laying out what was read gives the input back |
| `KeyShares.ParseExactly` | anchor/eth/src/util.rs:31-83 | exactly inputs of 96 bytes and 304 more per operator are read, and every part from its place |
| `KeyShares.ComputePreimage` | anchor/eth/src/util.rs:193-208 | the loop over the ids, sorted only if needed, builds the preimage of the sorted ids |
| `KeyShares.PreimageExactly` | anchor/eth/src/util.rs:193-208 | two preimages are equal exactly when the owners and the multisets of operators are |
| `KeyShares.PreimageLayout` | anchor/eth/src/util.rs:193-208 | after the owner come the ids in ascending order as 32-byte big-endian numbers |

## Left out

- MessageValidator.Validator.Receive: the locks around the map and its entries are left out; messages are judged one at a time.
- StateReplay.StateStore.constructor: requires unique operator keys and clusters, members and validators that fit together, as the schema's keys and triggers and the making of cluster ids see to; on a cluster without a validator the original stops the program.
- StateReplay.StateStore.FillCluster: the same requirement.
- EventProcessor.Processor.constructor: the same requirement; runs start from sound tables, which every event keeps sound.
- Syncer.SyncBatches: a processor that is running when a fetch fails comes to its end before the sync returns; in the original it can go on beside the next one.
- SSZ decoding, RSA and BLS signatures, share interpolation, ABI decoding and the justification lists of a QBFT message enter as outcomes or as functions of the environment.
- SHA-256 and Keccak digests are represented by their inputs, so distinct inputs have distinct digests.
- Topic and domain checks, committee lookup and the beacon-duty lookup of a message: its context carries their answers.
- Entry counts per role and inner-signer checks of partial signatures are carried as outcomes; the slot, count and root rules are modelled.
- Slot, round and epoch numbers do not overflow.
- Validator indices, graffiti and their updates, the index-sync and exit queues after a commit, and the slashing database.
- ValidatorExited changes no table; its checks and its queueing are not modelled.
- SQL text, connections and migrations: the tables of a migrated database, whose highest operator id is unknown, are handled by the functions but not by the run theorems.
- Reconnection, timeouts, block timestamps and waiting for the node to sync.
- Sync-committee membership polling and the voluntary-exit tracker.
