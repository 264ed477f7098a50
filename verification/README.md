# Octora: a verified model

A Dafny model of the parts of Octora that hold value or decide who may move it, with proofs about every run of them:
the fixed-denomination mixer pool on chain, the API's mirror of it and the anonymity-set gate, the withdrawal relayer
as a concurrent protocol, the lifecycle of liquidity positions, the recovery worker's alerts, bin-range arithmetic,
the byte formats exchanged with the chain, and the rate limiter.

`dafny verify dfyconfig.toml` checks everything.

## How it is organised

| file | what it models |
|---|---|
| `Sets` | sizes of finite sets |
| `Bytes`, `BigintBytes`, `WireFormats` | fixed-width integers in bytes; the two 32-byte packings; proof, public-input and strategy layouts; the field-range check |
| `MerkleTree`, `RootHistory`, `MixerPool` | incremental insertion against the whole padded tree; the ring of roots; the pool account and its instructions |
| `DepositMirror`, `MixerService` | the API's cache of deposits and nullifiers; paging, decoding and re-hydration; the listing clients rebuild the tree from |
| `AnonymityGate` | requests between the anonymity-set gate and the recording of their spend |
| `NullifierRegistry`, `RelayerProtocol`, `RelayerService` | the registries; the pipeline's steps; the relayer object whose methods take those steps |
| `RelayerLock`, `RelayerBooks`, `RelayerPromises`, `RelayerGate` | invariants of the pipeline |
| `RelayerRuns`, `RelayerDelay`, `RelayerOutcomes` | the theorems over all its runs: safety and books; the privacy delay; why a request ends as it does |
| `RelayerJourney`, `RelayerWitnesses` | a withdrawal from arrival to payment; runs that show what does not hold |
| `ExecutionStates`, `PositionLifecycle` | the transition table; one position with concurrent readers and worker visits |
| `PositionBook`, `PositionService` | the stores and the sequential service over them, with caps, rows, sessions and logs |
| `RecoveryWorker`, `RecoveryScan` | the alert windows of successive ticks; the queue of positions stuck in indexing |
| `BinRange`, `RateLimiter` | range widening and the single-sided plan; the fixed-window limiter |

Concurrency is modelled as steps: the code between two awaits is one step, steps of different requests interleave in
any order, and outcomes of the network, the chain and the adapters are parameters of the steps. In `RelayerProtocol`
each step is described by a small record (`Move`), so that each invariant is proved once about what a step may change
and once about the branches of the code. `RelayerService.Relayer` holds the same fields as the service and updates
them in place; each of its methods is proved to take the protocol's step.

The hash is a parameter everywhere. Collision resistance is never assumed of it as such: where it matters, a
hypothesis says that the trees actually built contain no collision.

## Model

| member | source | states |
|---|---|---|
| MerkleTree.FastRootIsTreeRoot | programs/octora-mixer/src/instructions/deposit.rs:80-122 | for every depth, every sequence of deposits that fits and any initial contents of the stored nodes, the incremental root is the root of the full zero-padded tree |
| MerkleTree.InsertFromCorrect | programs/octora-mixer/src/state.rs:42-53 | which slots one insertion overwrites and with which nodes, from any level upwards |
| MerkleTree.RunTracks | programs/octora-mixer/src/instructions/initialize.rs:66-70 | stored nodes become right whatever they held initially, because each slot is written before it is read |
| MerkleTree.EmptyTreeRoot | programs/octora-mixer/src/constants.rs:29-36 | the last entry of the zero table is the root of the empty tree |
| MerkleTree.RootOfHalves | programs/octora-mixer/src/instructions/deposit.rs:80-122 | the padded tree from the root down: the first half of the leaves hashes on the left, the rest on the right, down to the leaves themselves |
| MerkleTree.RootBinds | programs/octora-mixer/src/instructions/deposit.rs:80-122 | equal roots of different leaves exhibit a hash collision on that leaf's path |
| RootHistory.PushKeepsHistory | programs/octora-mixer/src/state.rs:86-90 | pushing keeps each slot the root of the prefix it should hold, across all turns of the index |
| RootHistory.RecentRootKnown | programs/octora-mixer/src/state.rs:81-90 | the root of the first m of n deposits is accepted whenever n - m is at most 255 |
| RootHistory.WindowExact | programs/octora-mixer/src/state.rs:81-90 | the window is exact: older prefix roots are rejected, except one deposit further back when that deposit was the empty-leaf value, which the deposit handler does not refuse |
| MixerPool.InitializePool | programs/octora-mixer/src/instructions/initialize.rs:14-75 | only the admin makes a pool, and for exactly the positive denominations; it is consistent from the start and its tree holds the leaf limit |
| MixerPool.Pool.IsKnownRoot | programs/octora-mixer/src/state.rs:81-84 | true exactly for roots in the ring |
| MixerPool.Pool.CurrentRoot | programs/octora-mixer/src/state.rs:92-95 | the latest root is the root of the whole tree of deposits |
| MixerPool.Pool.Insert | programs/octora-mixer/src/instructions/deposit.rs:88-119 | the in-place loop stores the nodes and returns the root of the specified walk |
| MixerPool.Pool.Deposit | programs/octora-mixer/src/instructions/deposit.rs:46-135 | succeeds exactly under the handler's conditions; appends the leaf, makes its tree root current, adds one denomination to the vault; otherwise changes nothing |
| MixerPool.Pool.Withdraw | programs/octora-mixer/src/instructions/withdraw.rs:60-181 | pays exactly when every check holds, each refusal in the order of the checks; one denomination for one fresh nullifier, split into amount and fee; the vault is short only when every deposit has been paid out |
| MixerPool.Pool.SetPaused | programs/octora-mixer/src/instructions/set_paused.rs:12-41 | only the authority changes the flag |
| MixerPool.Pool.StaleRootAccepted | programs/octora-mixer/src/constants.rs:7-24 | how many deposits a client may lag behind, exactly, for a pool in use |
| MixerPool.KeyFieldOfBytes | programs/octora-mixer/src/instructions/withdraw.rs:212-224 | from the bytes of a key: its first sixteen bytes are hashed first and its last sixteen second |
| MixerPool.PackedInputsReadBack | programs/octora-mixer/src/instructions/withdraw.rs:65-70 | each of five packed signals is read back as the input it stands for, in the order root, nullifier, recipient, relayer, fee |
| MixerPool.EmptyLeafBytes | programs/octora-mixer/src/constants.rs:26-27 | the empty-leaf value is the word of 32 zero bytes |
| MixerPool.RootIndexFillsOneByte | programs/octora-mixer/src/constants.rs:17-24 | the ring is as long as one byte can count, so its index fits one and wraps with it |
| WireFormats.RequireLtFieldOrder | programs/octora-mixer/src/instructions/withdraw.rs:196-210 | the byte-wise comparison with the written-out order accepts exactly the values below the field order |
| WireFormats.NoNullifierReplay | programs/octora-mixer/src/instructions/withdraw.rs:72-83 | two accepted encodings of one field element are the same bytes, so a nullifier has one account |
| WireFormats.ReadFee | programs/octora-mixer/src/instructions/withdraw.rs:85-93 | reads the fee exactly when the field element fits 64 bits |
| WireFormats.ConvertProofToBytes | octora-api/src/modules/relayer/proof-converter.ts:13-45 | packs a proof exactly when its coordinates fit and y is at most p; which coordinate each of the eight words holds, with y negated; the decoder returns the proof |
| WireFormats.ConvertPublicInputsToBytes | octora-api/src/modules/relayer/proof-converter.ts:47-64 | packs five fitting signals and refuses everything else; each word reads back |
| WireFormats.EncodeLiquidityParamsByStrategy | octora-api/src/modules/executor/single-sided.ts:128-159 | writes the 97-byte layout through a moving offset, each field at its own bytes, exactly when every field is in range |
| WireFormats.ParseLayout | octora-api/src/modules/executor/single-sided.ts:128-159 | the layout decodes to the fields it was made from, negative bins included |
| WireFormats.FieldOrdersOfTheCurve | octora-api/src/modules/relayer/proof-converter.ts:13-14 | both field orders are the values of the BN254 family's polynomials at its parameter |
| BigintBytes.BigintToBytes32 | octora-api/src/modules/mixer/mixer.service.ts:623-634 | the shift loop accepts exactly the 256-bit range and reading big-endian inverts it |
| BigintBytes.BeBytesRoundTrip | octora-api/src/modules/relayer/proof-converter.ts:96-118 | the same for the packing through padded hexadecimal |
| BigintBytes.PackingsAgree | octora-api/src/modules/relayer/proof-converter.ts:106-118 | the two packings give the same bytes on every value |
| Bytes.LittleIsBigBackwards | octora-api/src/modules/executor/single-sided.ts:128-159 | the little-endian fields are the big-endian ones read from the other end |
| DepositMirror.DepositReadsBack | octora-api/src/modules/mixer/mixer.service.ts:303-328 | a logged deposit is decoded to its commitment and leaf index |
| DepositMirror.WithdrawReadsBack | octora-api/src/modules/mixer/mixer.service.ts:330-341 | a logged withdrawal is decoded to its nullifier |
| DepositMirror.DepositPayloadLayout | octora-api/src/modules/mixer/mixer.service.ts:314-328 | tag, commitment and little-endian leaf index stand at bytes 0, 8 and 40 |
| DepositMirror.OnlyDepositsRead | octora-api/src/modules/mixer/mixer.service.ts:314-328 | whatever is read as a deposit starts with exactly what a deposit logs |
| DepositMirror.OnlyWithdrawalsRead | octora-api/src/modules/mixer/mixer.service.ts:330-341 | whatever is read as a withdrawal starts with exactly what a withdrawal logs, and its tag is known |
| DepositMirror.AbsorbAllKeeps | octora-api/src/modules/mixer/mixer.service.ts:188-192 | any mix of truthful scans and confirmations keeps the cache truthful, one record per commitment, and adds exactly what was seen |
| DepositMirror.RehydrationLoadsNothing | octora-api/src/modules/mixer/mixer.service.ts:212-353 | scanning again what has been scanned changes nothing |
| DepositMirror.AnyOrderSamePlacement | octora-api/src/modules/mixer/mixer.service.ts:188-353 | whatever the order of scans and confirmations, commitments end at the same leaf indexes |
| DepositMirror.FirstRecordSticks | octora-api/src/modules/mixer/mixer.service.ts:188-192 | the first record of a commitment is never replaced, right or wrong |
| DepositMirror.TruthfulIffFirstSightingsTrue | octora-api/src/modules/mixer/mixer.service.ts:188-192 | a cache is truthful exactly when it was before and the first sighting of every new commitment is true |
| DepositMirror.ListingRightIffTruthful | octora-api/src/modules/mixer/mixer.service.ts:194-197 | with no deposit missing, the listing is right exactly when every record is |
| DepositMirror.ListingIsTheLeaves | octora-api/src/modules/mixer/mixer.service.ts:194-197 | a listing that misses none of the first n deposits starts with the pool's first n leaves, in order, without a gap |
| DepositMirror.RebuiltRootIsCurrent | octora-api/src/modules/mixer/mixer.service.ts:194-197 | a tree rebuilt from a complete listing has the pool's current root |
| MixerService.CollectTransactions | octora-api/src/modules/mixer/mixer.service.ts:249-275 | paging backwards and reversing gives the most recent transactions in order, 1000 for each page answered, while the chain grows |
| MixerService.DefaultReach | octora-api/src/modules/mixer/mixer.service.ts:208-222 | with the default limit a scan reaches the most recent 50 000 transactions |
| MixerService.ShownExactly | octora-api/src/modules/mixer/mixer.service.ts:286-341 | whichever transactions cannot be fetched, a scan shows exactly what the payloads of the fetched and successful ones decode to |
| MixerService.ShownInOrder | octora-api/src/modules/mixer/mixer.service.ts:286-341 | what the first part of the chain shows comes before what the rest shows, and neither depends on what the other loses |
| MixerService.LossyScanShows | octora-api/src/modules/mixer/mixer.service.ts:286-341 | of the pool's own transactions a lossy scan shows exactly the lines of the fetched ones that took effect, each at the leaf it logged |
| MixerService.FetchedIsKnown | octora-api/src/modules/mixer/mixer.service.ts:208-209 | a leaf or nullifier is known after a scan whenever its own transaction was fetched, whatever else was lost |
| MixerService.DepositShownAtItsLeaf | octora-api/src/modules/mixer/mixer.service.ts:295-328 | a deposit is shown at the place of its commitment among the pool's leaves |
| MixerService.Service.HydrateFromChain | octora-api/src/modules/mixer/mixer.service.ts:212-353 | the cache afterwards has absorbed everything the fetched transactions show, oldest first, whatever could not be fetched; the counts say how much was new |
| MixerService.Service.RecordDeposit | octora-api/src/modules/mixer/mixer.service.ts:184-192 | inserts unless the commitment is known |
| MixerService.Service.RecordWithdrawal | octora-api/src/modules/mixer/mixer.service.ts:355-363 | adds the nullifier, once |
| MixerService.Service.ListDeposits | octora-api/src/modules/mixer/mixer.service.ts:194-197 | every record once, by leaf index |
| MixerService.Service.AnonymitySetSatisfied | octora-api/src/modules/mixer/mixer.service.ts:366-400 | when the gate opens, with an unreadable pool counting as empty and a minimum of zero turning it off |
| MixerService.LogsShowLeaves | octora-api/src/modules/mixer/mixer.service.ts:295-341 | with every transaction fetched, the logs show the pool's leaves exactly when no line but the program's own reads as a deposit the pool does not have |
| MixerService.LogsShowSpends | octora-api/src/modules/mixer/mixer.service.ts:295-341 | the nullifiers shown are the pool's exactly when no other line reads as a spend the pool has not seen |
| MixerService.LookAlikeMisleads | octora-api/src/modules/mixer/mixer.service.ts:299-328 | a chain on which a look-alike line comes first: the listing has two leaves the wrong way round, and no later scan mends it |
| MixerService.WrongConfirmationStays | octora-api/src/modules/mixer/mixer.controller.ts:181-197 | a confirmation at the wrong leaf is not mended by any scan, and the listing of a complete cache stays wrong |
| MixerService.HydratedListingRebuildsRoot | octora-api/src/modules/mixer/mixer.service.ts:199-353 | after a scan that lost nothing the listing is the leaf sequence exactly when the records from before are true and so is the first sighting of every other commitment; without look-alike lines only the records from before matter; a right listing has the pool's current root |
| MixerService.HydratedGateCountsUnspent | octora-api/src/modules/mixer/mixer.service.ts:361-383 | after such a scan no spend is missing, the known nullifiers are the pool's exactly when no line forges a spend, and exactly then (or with everything spent) the gate counts the true number of unspent deposits |
| AnonymityGate.UnspentFloor | octora-api/src/modules/relayer/relayer.routes.ts:69-87 | once a request has passed, unspent deposits stay at least the minimum less the fullest window between gate and recording, less the spends the tracker missed |
| AnonymityGate.FloorOneAtATime | octora-api/src/modules/relayer/relayer.controller.ts:145-186 | with one request at a time and every spend tracked, the floor is the minimum less one |
| AnonymityGate.FloorIsReached | octora-api/src/modules/relayer/relayer.controller.ts:145-186 | the bound is exact: a run loses the whole window |
| AnonymityGate.DriftsExactlyWhen | octora-api/src/modules/mixer/mixer.service.ts:361-400 | the count falls behind the spends exactly at a spend that no request past the gate makes, at the failure of the only request whose landed spend was still to be recorded, and at a restart whose scan finds too few |
| AnonymityGate.TrackedRunsDoNotDrift | octora-api/src/modules/relayer/relayer.routes.ts:69-87 | in a run where every spend is scanned or recorded nothing drifts, so the floor is the minimum less the window |
| AnonymityGate.WindowIsPastGate | octora-api/src/modules/relayer/relayer.controller.ts:145-186 | the window is exactly the requests past the gate, and its peak bounds their number |
| AnonymityGate.GateGoesByTheCount | octora-api/src/modules/mixer/mixer.service.ts:376-400 | with an unreadable pool nobody passes; otherwise a request passes exactly by deposits less known nullifiers |
| AnonymityGate.FullScanTracksAll | octora-api/src/modules/mixer/mixer.service.ts:361-363 | a scan that finds every spend leaves nothing untracked |
| NullifierRegistry.InMemoryNullifierRegistry.MarkSpent | octora-api/src/modules/relayer/nullifier-registry.ts:36-45 | records once and refuses a second mark |
| NullifierRegistry.OnChainNullifierRegistry.IsSpent | octora-api/src/modules/relayer/nullifier-registry.ts:72-96 | answers as the chain does, cached or not, and keeps the cache within the chain's set |
| NullifierRegistry.OnChainNullifierRegistry.MarkSpent | octora-api/src/modules/relayer/nullifier-registry.ts:98-104 | marking after a confirmed withdrawal keeps the cache within the chain's set |
| RelayerProtocol.PrivacyDelaySlots | octora-api/src/modules/relayer/relayer.service.ts:96-100 | the least number of slots that covers the configured delay, never negative |
| RelayerProtocol.WaitPromise | octora-api/src/modules/relayer/relayer.service.ts:432-447 | judged against any row, every attempt from the announced slot on passes exactly when that row is newer neither than the rejected slot nor than the rejection's own row |
| RelayerProtocol.DefaultDelay | octora-api/src/modules/relayer/relayer.service.ts:95-100 | the default of 13 seconds is 33 slots |
| RelayerProtocol.ParityBinds | octora-api/src/modules/relayer/relayer.service.ts:600-626 | parity-valid requests with the same signals agree on root, nullifier and fee, and on recipient and relayer or exhibit a hash collision |
| RelayerProtocol.ParityIsWhatTheProgramChecks | octora-api/src/modules/relayer/relayer.service.ts:600-626 | a body passes parity exactly when the packed signals, read as the program reads them, carry its root, nullifier and fee and the bindings of its two keys |
| RelayerService.RootSeenTable.Observe | octora-api/src/modules/relayer/root-seen.repository.ts:32-42 | the first write of a root wins |
| RelayerService.Relayer.ProcessWithdrawal | octora-api/src/modules/relayer/relayer.service.ts:124-190 | guard, join or take the lock: the protocol's arrival step |
| RelayerService.Relayer.AfterIsSpent | octora-api/src/modules/relayer/relayer.service.ts:193-207 | the step after the registry answers |
| RelayerService.Relayer.CheckPrivacyDelay | octora-api/src/modules/relayer/relayer.service.ts:415-431 | the step that reads or writes the root's row |
| RelayerService.Relayer.AfterVerify | octora-api/src/modules/relayer/relayer.service.ts:243-272 | the step after the proof is verified: a valid one is counted as pending and goes on to submission, an invalid one ends |
| RelayerService.Relayer.AfterSubmit | octora-api/src/modules/relayer/relayer.service.ts:271-288 | the step after the transaction is confirmed, marking the nullifier |
| RelayerService.Relayer.AfterSubmitFailed | octora-api/src/modules/relayer/relayer.service.ts:274-285 | the step after a failed submission, undoing the count |
| RelayerService.Relayer.AfterMark | octora-api/src/modules/relayer/relayer.service.ts:287-306 | the step that closes the counters and settles the success |
| RelayerService.Relayer.Finally | octora-api/src/modules/relayer/relayer.service.ts:144-150 | the step that releases the lock and answers |
| RelayerLock.LockedKept | octora-api/src/modules/relayer/relayer.service.ts:139-150 | every step keeps the lock table equal to the running pipelines |
| RelayerRuns.OnePipelineAtATime | octora-api/src/modules/relayer/relayer.service.ts:139-150 | in every run at most one pipeline per spelling of a nullifier is running |
| RelayerWitnesses.TwoPipelinesIffSpelledApart | octora-api/src/modules/relayer/relayer.service.ts:139-150 | two requests that can start can be made to run at once exactly when they spell their nullifiers differently |
| RelayerWitnesses.OneNullifierRunsTwice | octora-api/src/modules/relayer/relayer.service.ts:125-127 | a run with two pipelines for one nullifier in two spellings |
| RelayerRuns.JoinersShareTheResult | octora-api/src/modules/relayer/relayer.service.ts:139-142 | a joiner returns exactly its leader's result, for the same nullifier |
| RelayerRuns.OneSuccessPerLife | octora-api/src/modules/relayer/relayer.service.ts:193-306 | between restarts at most one pipeline per spelling of a nullifier succeeds, whatever the chain does |
| RelayerRuns.OneSuccessEver | octora-api/src/modules/relayer/relayer.service.ts:193-306 | over any number of restarts, with a chain that refuses spent nullifiers, at most one pipeline per nullifier succeeds, however it is spelled |
| RelayerRuns.SecondMarkNeverThrows | octora-api/src/modules/relayer/nullifier-registry.ts:36-39 | the "already spent" throw of a mark is unreachable |
| RelayerRuns.CacheWithinChain | octora-api/src/modules/relayer/nullifier-registry.ts:63-109 | in every run the cached nullifiers are spent on the chain |
| RelayerRuns.CachedAnswersAreTheChains | octora-api/src/modules/relayer/nullifier-registry.ts:72-96 | with a truthful node, the pre-check ends a pipeline exactly when the chain has the nullifier |
| RelayerBooks.CountedKept | octora-api/src/modules/relayer/relayer.service.ts:271-289 | every step moves the counters with the requests they count |
| RelayerRuns.CountersExact | octora-api/src/modules/relayer/relayer.service.ts:271-289 | pending counts the submissions under way; with nothing running it is 0 and the total is the number of nullifiers marked |
| RelayerRuns.SuccessIsCleared | octora-api/src/modules/relayer/relayer.service.ts:291-306 | a success splits the denomination exactly, meets the minimum fee, passed guard, parity and armed gate, and is on the chain |
| RelayerOutcomes.ArrivalMeans | octora-api/src/modules/relayer/relayer.service.ts:124-190 | when an arriving request is refused by the guard, when it joins, and when it starts |
| RelayerOutcomes.OutcomesSayWhy | octora-api/src/modules/relayer/relayer.service.ts:193-306 | over every run a pipeline ends with a result exactly when one of its steps gave it that result: already spent, mismatch, delayed, bad proof, failed submission, success and throw each by the check or call behind it |
| RelayerOutcomes.SettlesOnce | octora-api/src/modules/relayer/relayer.service.ts:193-306 | no step settles a request that is settled |
| RelayerOutcomes.SubmittedIffProofValid | octora-api/src/modules/relayer/relayer.service.ts:243-272 | over every run a request is submitted exactly when its proof was verified and found valid |
| RelayerOutcomes.InvalidProofNeverSubmitted | octora-api/src/modules/relayer/relayer.service.ts:243-272 | a proof found invalid ends its request as a bad proof, never submitted and never on the chain, in every continuation |
| RelayerOutcomes.SpentIsRemembered | octora-api/src/modules/relayer/nullifier-registry.ts:72-96 | a nullifier found on the chain is in the cache afterwards |
| RelayerJourney.HonestWithdrawalIsPaid | octora-api/src/modules/relayer/relayer.service.ts:193-306 | from any point of any run, a request for this relayer with a sufficient fee, a matching body, a fresh nullifier and an open gate can be taken, with a valid proof and a confirmed transaction, to the success that pays the denomination less the fee; the counters and the cache show it |
| RelayerJourney.FirstWithdrawalIsPaid | octora-api/src/modules/relayer/relayer.service.ts:124-306 | such a run from the start |
| RelayerJourney.LandedButToldOtherwise | octora-api/src/modules/relayer/relayer.service.ts:274-285 | the same request, its confirmation lost, is told that the submission failed though its nullifier is on the chain and not in the cache |
| RelayerDelay.PassageNeedsAnArmer | octora-api/src/modules/relayer/relayer.service.ts:402-447 | a passage at slot s needs an earlier request by someone else, parity-valid, that sighted the root at a slot at most s less the delay; by then it was rejected if and only if it had been compared with no RPC error on it and no restart before that |
| RelayerDelay.ArmerRejected | octora-api/src/modules/relayer/relayer.service.ts:402-447 | in every run the request that armed a root was answered with the arming rejection exactly when its own comparison came before any RPC error on it and any restart |
| RelayerDelay.ArmerNeverPasses | octora-api/src/modules/relayer/relayer.service.ts:408-411 | the request that armed a root never passes the gate |
| RelayerWitnesses.UnrejectedArmer | octora-api/src/modules/relayer/relayer.service.ts:422-447 | for each way the rejection can fail to come, a run from the start in which a later request passes all the same |
| RelayerDelay.RowHasAFirstSighting | octora-api/src/modules/relayer/relayer.service.ts:430-431 | the request on record as arming a root is the one whose step wrote the row, at the slot it had read |
| RelayerDelay.DelayHonoured | octora-api/src/modules/relayer/relayer.service.ts:95-100 | counted in slots of 400 ms the passage came at least the configured delay after the arming |
| RelayerDelay.RowsPersist | octora-api/src/modules/relayer/root-seen.repository.ts:32-42 | a first-seen row never changes, restarts included |
| RelayerDelay.RejectionKeepsItsWord | octora-api/src/modules/relayer/relayer.service.ts:228-241 | over all runs and for any two spellings of a root, the exact condition under which a rejection's announced wait is enough for the attempt that meets the other row; with equal spellings it is the rejection's own row |
| RelayerDelay.RowMetLater | octora-api/src/modules/relayer/root-seen.repository.ts:32-42 | the row a later attempt meets is the one already on record for its spelling |
| RelayerWitnesses.BrokenWait | octora-api/src/modules/relayer/relayer.service.ts:432-447 | a run with a slot that goes backwards: the announced wait is over and the request is rejected again |
| RelayerWitnesses.RespelledRootWaitsAgain | octora-api/src/modules/relayer/relayer.service.ts:228-241 | another spelling of the same root is armed anew, so the wait starts over |
| PositionLifecycle.SessionFollowsTable | octora-api/src/domain/execution-state-machine.ts:3-15 | in every interleaving every session write is an edge of the table, at most eight in all, and at most one to active |
| PositionLifecycle.EveryWriteIsAnEdge | octora-api/src/modules/positions/position.service.ts:655-676 | after any run each step leaves the session alone or takes an edge of the table, also where no check guards the write |
| PositionLifecycle.OnlyUsedEdges | octora-api/src/domain/execution-state-machine.ts:3-15 | in no run is a session written along an edge outside a written-out part of the table |
| PositionLifecycle.ClaimCompletes | octora-api/src/modules/positions/position.service.ts:273-352 | from any idle active position, a claim whose adapters answer goes through claiming and indexing to completed, in both rows |
| PositionLifecycle.WithdrawalCloses | octora-api/src/modules/positions/position.service.ts:354-436 | the same for a withdrawal, through withdrawing, closing and indexing |
| PositionLifecycle.FailedAdapterFails | octora-api/src/modules/positions/position.service.ts:655-676 | in whatever operation and stage, a failing adapter takes both rows to failed and nothing else changes |
| PositionLifecycle.ChecksRefuse | octora-api/src/modules/positions/position.service.ts:188-209 | an operation whose checks fail writes nothing |
| PositionLifecycle.InvKept | octora-api/src/modules/positions/position.service.ts:188-488 | every await of execute, claim, withdraw, a status read or a worker visit keeps the lifecycle invariant |
| PositionLifecycle.SignatureMeansFirstIndexing | octora-api/src/modules/indexer/indexer.service.ts:35-64 | a signature is stored only while both rows are in the first indexing phase, so a later indexing phase is never turned back to active |
| PositionLifecycle.FirstScanIsEmpty | octora-api/src/modules/positions/recovery-worker.ts:134-164 | position rows never show the executing state, so the worker's first scan finds nothing |
| PositionLifecycle.ReorderedWritesStrand | octora-api/src/modules/positions/position.service.ts:256-268 | the two writes that are not awaited can land in the wrong order and lose the signature |
| PositionLifecycle.StrandedForever | octora-api/src/modules/indexer/indexer.service.ts:47-63 | a position whose signature is lost stays in indexing in every continuation |
| PositionLifecycle.ActivatesUnlessLost | octora-api/src/modules/indexer/indexer.service.ts:44-63 | a position that has been handed over can still become active exactly when its signature is stored, on its way, or held by a visit that has not finished writing |
| PositionLifecycle.AtRestActivatesIffStored | octora-api/src/modules/indexer/indexer.service.ts:44-63 | with both writes landed and nobody visiting: exactly when the signature is stored and not yet taken |
| PositionLifecycle.CutOffVisitStrands | octora-api/src/modules/positions/recovery-worker.ts:172-183 | a visit that takes the signature and is cut off before its session write, before or after its row write, strands the position |
| ExecutionStates.TableHasCycle | octora-api/src/domain/execution-state-machine.ts:3-15 | the table alone bounds nothing: for every n some history that follows it goes active n times |
| ExecutionStates.TerminalIsFinal | octora-api/src/modules/positions/position.repository.ts:36-41 | the states left out of the caps are exactly those the table has no way out of |
| PositionBook.PathKeepsHistory | octora-api/src/modules/positions/position.service.ts:210-270 | log and history advance together along any path of the table |
| PositionBook.TakenConsistent | octora-api/src/modules/positions/position.service.ts:188-436 | an operation that ends in a resting state keeps rows, sessions, logs and caps consistent for all positions |
| PositionBook.MovingOnKeepsCaps | octora-api/src/modules/positions/position.repository.ts:36-41 | because terminal states absorb, moving a position on never adds to a count or to the sum |
| PositionBook.CountIsCardinality | octora-api/src/test-kit/memory-db.ts:74-81 | the count is the number of the wallet's positions that are not over |
| PositionBook.CapsOfOneMore | octora-api/src/test-kit/memory-db.ts:74-91 | one more position adds one to its owner's count and its amount to the sum, unless it is over |
| PositionService.Service.AssertBetaCaps | octora-api/src/modules/positions/position.service.ts:693-728 | accepts exactly amounts and wallets within all three caps |
| PositionService.Service.CountActiveByWallet | octora-api/src/test-kit/memory-db.ts:74-81 | counts a wallet's non-terminal positions |
| PositionService.Service.SumActiveAmountSol | octora-api/src/test-kit/memory-db.ts:82-91 | sums the non-terminal amounts |
| PositionService.Service.CreateDraftPositionIntent | octora-api/src/modules/positions/position.service.ts:143-186 | creates a draft exactly when the caps allow it, and every cap still holds |
| PositionService.Service.ExecuteSignedIntent | octora-api/src/modules/positions/position.service.ts:188-271 | which refusal for which state of affairs, in order and without effect; otherwise, by which adapter fails, the state of both rows, the failure stage, whether a signature is on record, and that nothing else changed |
| PositionService.Service.ClaimPosition | octora-api/src/modules/positions/position.service.ts:273-352 | only from active rows; completed, or failed with the stage of the adapter that failed, in both rows and field by field |
| PositionService.Service.WithdrawClosePosition | octora-api/src/modules/positions/position.service.ts:354-436 | the same for a withdrawal, through closing |
| PositionService.Service.GetPosition | octora-api/src/modules/positions/position.service.ts:438-488 | activates both rows exactly when a signature is stored, and takes it; notes a delay at most once in a row; else changes nothing |
| PositionService.Service.RecoverIndexing | octora-api/src/modules/positions/recovery-worker.ts:166-187 | a worker visit activates exactly when a signature is stored |
| PositionService.Service.RowsAndLogAgree | octora-api/src/modules/positions/position.service.ts:159-183 | between operations row and session agree, or the row is a draft awaiting its signature; the log without repeats is the session's history; a failure stage is on record exactly for a failed session and fits the state it failed in |
| PositionService.ExecuteThenLook | octora-api/src/modules/positions/position.service.ts:188-488 | after a successful execution the next look finds the position active exactly if the signature was kept, and else still in indexing |
| PositionService.ExecuteThenRecover | octora-api/src/modules/positions/recovery-worker.ts:166-187 | after a successful execution a worker visit advances the position exactly if the signature was kept |
| PositionService.FromDraftToClose | octora-api/src/modules/positions/position.service.ts:143-436 | whenever a draft is created, executing, activating and closing it succeeds, through the nine states in between, each logged once |
| RecoveryWorker.EveryFailureAlerted | octora-api/src/modules/positions/recovery-worker.ts:189-204 | in every run from boot with at most 50 failures a window, aborted ticks or not, a failure has been alerted once any tick that started after it completes |
| RecoveryWorker.OnceOrTwice | octora-api/src/modules/positions/recovery-worker.ts:109-121 | with no aborts and a strict clock at most two alerts, and exactly one unless the failure fell between a tick's start and its query |
| RecoveryWorker.LostIffFiftyNewer | octora-api/src/test-kit/memory-db.ts:100-107 | with a strict clock a failure not alerted before is lost for good exactly when at least 50 newer rows match as the query of the completing tick runs |
| RecoveryWorker.FiftyOneFailuresLoseOne | octora-api/src/modules/positions/recovery-worker.ts:190-193 | a run that loses the oldest of 51 failures |
| RecoveryWorker.OneFailureAlertedTwice | octora-api/src/modules/positions/recovery-worker.ts:109-121 | a run that alerts one failure twice |
| RecoveryWorker.AbortedTickAlertsAgain | octora-api/src/modules/positions/recovery-worker.ts:194-213 | a run in which an alert throws after one has gone out, and the next tick sends that one again |
| RecoveryScan.Scan | octora-api/src/modules/positions/recovery-worker.ts:166-187 | one scan of the positions stuck in indexing activates the signed rows of its batch and leaves the rest in order |
| RecoveryScan.UnsignedExactly | octora-api/src/modules/positions/recovery-worker.ts:166-187 | exactly the rows without a signature stay, each as often as before |
| RecoveryScan.VisitedIffFewUnsignedAhead | octora-api/src/modules/positions/position.repository.ts:122-127 | while only the worker touches the rows, a stuck row is visited at some scan exactly when fewer than fifty rows without a signature are ahead of it |
| RecoveryWorker.FailureScan.Alert | octora-api/src/modules/positions/recovery-worker.ts:189-204 | sends one alert for each row the tick's query took and moves the boundary, as the completing step does; without an answer, or when an alert throws, as the aborted step after the alerts sent by then |
| BinRange.UseExistingPool | octora-api/src/modules/executor/executor.service.ts:246-343 | the branches reassign the range to its normal form and report its width and arrays |
| BinRange.BinArrayIndexIsFloor | octora-api/src/modules/executor/executor.service.ts:258-259 | arrays tile the line, negative bins included |
| BinRange.NormalizedFits | octora-api/src/modules/executor/executor.service.ts:261-310 | the result keeps the width cap exactly when the request did, and lies in two adjacent arrays |
| BinRange.WidensToTheEdge | octora-api/src/modules/executor/executor.service.ts:277-309 | bin by bin: the result runs from the request to one edge bin of the neighbouring array, less the trimmed bin, and only the edge bin is outside the requested array |
| BinRange.DropsOnlyTheTrimmedBin | octora-api/src/modules/executor/executor.service.ts:272-309 | the one requested bin that can be lost, exactly |
| BinRange.StaysOnItsSide | octora-api/src/modules/executor/executor.service.ts:266-298 | ranges below or above the active bin stay there |
| BinRange.NormalizedTwice | octora-api/src/modules/executor/executor.service.ts:277-309 | the result is a fixed point, wherever the active bin has moved |
| BinRange.PlanVerdictKept | octora-api/src/modules/executor/single-sided.ts:85-126 | widening changes the plan's verdict in exactly one situation |
| BinRange.PlannedHasSolBin | octora-api/src/modules/executor/single-sided.ts:85-126 | a plan exists exactly for a positive deposit and a range with a bin on the SOL side; which error otherwise, and which strategy |
| BinRange.StrategyIsImBalanced | octora-api/src/modules/executor/single-sided.ts:22-38 | the strategy is the imbalanced one of the requested shape in the on-chain enumeration, and no other |
| RateLimiter.Limiter.Handle | octora-api/src/modules/mixer/rate-limit.ts:44-73 | one request's verdict and the bucket it leaves, in place |
| RateLimiter.Limiter.Collect | octora-api/src/modules/mixer/rate-limit.ts:33-40 | a collection drops exactly the expired buckets |
| RateLimiter.CollectionDropsExpired | octora-api/src/modules/mixer/rate-limit.ts:33-40 | an address keeps its window through a collection exactly while the window is open |
| RateLimiter.RefusedOnlyWhenFull | octora-api/src/modules/mixer/rate-limit.ts:44-70 | a request is refused only in a window that an admitted request opened less than a window length before, and with at least the maximum admitted since |
| RateLimiter.RetriesAreLetThrough | octora-api/src/modules/mixer/rate-limit.ts:52-70 | any number of refused retries does not put off the moment at which a request is let through |
| RateLimiter.CollectionIsInvisible | octora-api/src/modules/mixer/rate-limit.ts:33-42 | any schedule of collections admits the same requests as none |
| RateLimiter.BurstBound | octora-api/src/modules/mixer/rate-limit.ts:44-73 | no half-open interval of one window length admits more than twice the maximum less one |
| RateLimiter.BurstBoundIsTight | octora-api/src/modules/mixer/rate-limit.ts:44-73 | a run that admits exactly that many |

## What the proofs turned up

- The re-scan matches every logged line of every successful transaction that names the pool account
  (mixer.service.ts:299-341) and never looks at which program logged it. The cache is the pool's exactly when no
  other line reads as a deposit the pool does not have, or when such a line comes after the true one. A line that
  comes first puts a commitment at the wrong leaf for good; so does a wrong confirmation.
- The default privacy delay of 13 s is described as about 32 slots (octora-api/src/modules/relayer/relayer.controller.ts:133);
  the code rounds up to 33. The model follows the code.
- The request that arms a root is described as rejected (relayer.service.ts:405-411). It is, exactly when its comparison
  is reached: an RPC error on it or a restart in between leaves the root armed without the rejection, and another request can
  pass while the arming one still waits for its own comparison.
- A rejected withdrawal's announced wait is enough exactly when the row that the later attempt meets is newer neither
  than the slot of the rejected attempt nor than its row. It fails when that slot came from before the first-seen one.
  The table is keyed by the string of the request, while parity compares integers: another spelling of the root meets a
  row of its own, which may be older, newer or not there yet.
- The staleness window has one exception. The deposit handler accepts the all-zero commitment, which is the empty-leaf
  value and leaves the root as it was, so a root can stay known for one deposit longer.
- The lock and the registries are keyed by the spelling of a nullifier, so two spellings of one nullifier run two
  pipelines at once, although the comment at relayer.service.ts:125-127 rules that out. At most one of them succeeds,
  because the chain goes by the value.
- A visit that takes a position's signature and is cut off before its session write leaves the position in indexing
  for good: the signature is cleared before either row is written (indexer.service.ts:57, recovery-worker.ts:173-183).
- Fifty stuck positions without a signature keep the worker's second scan busy for ever: it writes nothing to them, so
  they stay the oldest, and later ones with a signature are not visited.
- The pool is initialised with stored nodes one level off the zero table (initialize.rs:68-70 against deposit.rs:98).
  This is harmless: the root does not depend on what the slots held at first.
- The alert comment promises one page per failure (recovery-worker.ts:109-121). A failure that lands between a tick's
  start and its query is alerted twice, one with 50 newer failures in its window is not alerted at all, and alerts that
  went out before another threw go out again.
- A transaction that lands but whose confirmation is lost is reported as a failed submission (relayer.service.ts:274-285),
  and the spend is recorded neither in the registry nor for the anonymity set.
- The transition table has edges that no run takes, such as from awaiting signature or closing to failed.
- The two writes to the indexer after an execution are not awaited (position.service.ts:257, 268). If they land in the
  wrong order the position stays in indexing for good.
- A widened range can change the single-sided plan's verdict in one situation, although the comment in
  executor.service.ts:300-301 says that the direction of the extension does not matter to it there.
- A comment in relayer.controller.ts:152-153 says that the routes catch the thin-set error before the controller is
  called; the hook runs inside the controller, which rethrows it. The model has the request end there.

## Left out

- The proof system, the hash, signatures and encryption: a proof's validity is a parameter and the hash is any function.
- Solana RPC, transaction building, address derivation, priority fees and retries: they appear as outcomes of steps.
- Plain transfers of SOL to the pool account: the vault's balance is what the instructions put there.
- 64-bit overflow of lamport balances and of the counters: a pool holds at most 2^20 denominations.
- AnonymityGate: nullifiers are canonical there. A second spelling recorded by the relayer only makes the tracker count more, and the gate stricter.
- Several relayer processes over one table, and several pools: the protocol has one process and one pool.
- RelayerProtocol: request state is a value in the protocol's state rather than an object; the relayer's own fields are updated in place in RelayerService.
- RelayerService.Relayer.AfterSubmit: the registry's map is a set of nullifiers there; the registries with their entries are in NullifierRegistry.
- An absent client, for which the gate reads no slot and lets every request pass, is not part of the relayer model.
- DepositMirror.FirstRecordSticks: where a wrong confirmation comes from is not modelled.
- AnonymityGate.UnspentFloor: scans find only nullifiers that are spent, which they do exactly when no line forges a spend (MixerService.LogsShowSpends).
- MixerService.Service.HydrateFromChain: runs without interruption; interleavings with confirmations are covered one upsert at a time by AbsorbAllKeeps and AnyOrderSamePlacement.
- PositionLifecycle.SessionFollowsTable: operations of one position are serialised and reconcile is one step; two concurrent executions, or two concurrent loads of one signature, are not covered.
- PositionService: one operation at a time, so two creations cannot both read the caps before either writes; amounts are exact numbers.
- The venue-signature check of the worker's first scan (recovery-worker.ts:247-284): the scan is always empty, so its decision appears only as a parameter.
- RecoveryWorker: a failed row is visible from the moment it is stamped. In the database a row stamped before a tick's start can become visible after its query, and is then never alerted.
- RecoveryScan: the age a row needs before the scan matches it, and the batch limit of the first scan, which is always empty.
- Response formatting, labels and recovery texts: table lookups.
- Configuration, authentication, health and metrics endpoints, the web application and its orchestrators, and the executor program.
- Floating-point shapes, price conversion and profit figures.
