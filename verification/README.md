# Verified model of the replicated ledger

The program is a replicated state machine. A Byzantine-fault-tolerant log orders
ledger operations; every node applies the committed operations to its own
economic replica of accounts, projects, tasks, leases and rewards. This project
models the four parts that carry that design and proves what they promise.

| files | part |
|---|---|
| `Words`, `Sequences` | 64-bit arithmetic with its wrap-around and saturation; sequences, sorting |
| `Ledger` | hash-linked blocks of transactions, balances as folds, conservation, solvency |
| `Model`, `NetworkSpec`, `Reward` | entities and operations of the economic replica, as functions on values |
| `TaskInvariants`, `TaskOutcomes` | tasks, leases, queue and result consensus over all runs |
| `QuotaInvariants`, `QuotaRuns`, `Solvency` | project quotas against ledger balances over all runs |
| `Books` | exactly when each operation keeps quota fields, locked parts and balances in step |
| `Effects`, `Requests`, `Reputations`, `Verdicts`, `Journal` | who may do what, who is served, what a verdict records, what moves reputations and quotas, and what the ledger is told |
| `FailingRuns`, `WrappedRuns` | literal operation logs for promises that need their conditions |
| `Replica` | the `Network` object, updated in place, proved equal to `NetworkSpec` |
| `ExecutorLoop`, `Workers` | a worker's compute loop against the lease clock; what its turn reports and records |
| `Quorum`, `EngineSpec` | quorum arithmetic, proposer rotation, the consensus engine as functions on values |
| `EngineInvariants`, `EngineRuns` | what every step and every run of one engine keeps, against any input |
| `CatchUp` | fork choice, sync responses, saving and restoring |
| `Agreement`, `Division` | many engines, faulty validators, an arbitrary network; the exact threshold for agreement |
| `Mempool`, `Replies`, `Membership` | what becomes of a submitted operation; what an engine says, and when; whom it counts as a validator |
| `Restart` | an engine started again from its saved chain |
| `Progress` | one undisturbed round of many engines |
| `EngineReplica` | the economic laws for the replica inside an engine |
| `Consensus` | the `ConsensusEngine` object, updated in place, proved equal to `EngineSpec` |

The code changes objects in place, and so do the classes `Ledger.Blockchain`,
`Replica.Network` and `Consensus.ConsensusEngine`. Each of their methods is
proved to leave exactly the state, and return exactly the answer, that a
function on values prescribes; runs, invariants and agreement are then proved
about those functions. A failing operation is modelled with the state it leaves
behind, since the code reclaims leases before it reports most errors.

Hashing, signing, signature checking, encryption and the execution of payloads
are function-valued parameters. So is the order in which a hash map is
enumerated, chosen anew at every step; where the order matters to nothing, that
is a theorem. Addition on `u64` wraps, as in a build without overflow checks.

What the theorems about the engine assume is always spelled out:

* `SignsWell`: a signature one makes verifies. Runs of one engine assume this and
  `AllAllowed`, that restored blocks carry their certificates (as every block of an
  engine's own chain does, `ChainCertified`). Nothing at all is assumed about the
  messages received.
* `Setting` and `Legal`, for runs of many engines: a fixed validator set, some
  members of which are faulty; an operation-block hash without collisions; only
  validators produce valid signatures, those of a correct node only on hashes it
  voted for; blocks ask for at least `threshold` signatures, and correct nodes
  propose only while the validators they hold active make up that many
  (`ProposalGenuineExactly`). Where `hashing` is set, committed blocks and partial
  responses carry their own hash, which their receivers do not check; proposals and
  responses from genesis may always carry any. Messages may be lost, repeated,
  reordered and made up within these limits, and links may drop.
* `Assumptions`, for agreement: moreover `hashing`, and twice the threshold exceeds
  the number of validators plus that of faulty ones, as it does when blocks ask for a
  quorum and at most `floor((n-1)/3)` are faulty (`StandardAssumptions`). Short of a
  threshold nobody can reach, this is exactly what agreement takes
  (`AgreementExactly`).
* `Fits`, for the money invariants: participant ids and transfer endpoints are not
  project accounts, and the tokens minted and the summed weights of one task's
  reporters fit in 64 bits. Equality of fields and balance needs room for the
  products of amounts and reputations besides.

Where the code does less than its comments say, the theorem gives the exact
condition:

* `src/network.rs:185-188` says errors leave state unchanged. A failing request or
  report first reclaims due leases; it is harmless exactly when none is due, which
  holds in every run that stays one timeout away from the end of the clock, and
  fails at the end of it (`FailureExactly`, `FailureAtClockEnd`).
* Nothing keeps participants' addresses apart from project accounts, present or
  future. `TransferKeepsBackedExactly`, `DonateKeepsBackedExactly`,
  `ReclaimKeepsBackedExactly`, `SettleKeepsBackedExactly` and
  `NewProjectKeepsBackedExactly` say when each operation keeps the quota fields equal
  to the balance, whoever takes part. While no participant is registered at such an
  address, `BooksKeptExactly` gives one exact condition for each of the nine
  operations, and `BooksThroughoutExactly` for whole runs. `EarlyMintUnbacks` and
  `DonorUnbacks` are runs in which a project's account is somebody's own.
* A reward times a weight can saturate, and then part of the reward may stay unpaid:
  it is paid in full exactly when it exceeds the winners' floor shares by at most one
  token each (`PaidOut`, `SettleKeepsBackedExactly`). Saturation alone decides
  nothing (`SaturationUnderpays`, `SaturationMayPayAll`).
* Weights are added modulo 64 bits. Past that, a digest with enough support can be
  missed (`ConsensusExactly`, `MissedInRun`), more than the reward can be paid
  (`PaidWithinExactly`, `OverpaidInRun`), and a total that wraps to zero releases a
  reward twice (`LockedKeptExactly`).
* A batch of slashes reads every balance before the batch, so a worker losing two
  leases at once can go below zero, which `balance_of` hides
  (`ReclaimNonNegativeExactly`, `TwoLeasesOverdraw`).
* The number of signatures a block needs is the one written in the block, and a
  proposer counts only the validators it holds active. Agreement has an exact
  threshold (`AgreementExactly`), and two correct nodes that lose the link between
  them divide, in a run that is legal only if one signature is enough
  (`LostLinkDivides`).
* A committed block and a partial response are not hashed again. Such a block keeps a
  chain well hashed exactly if it carries its own hash (`HashedKeptExactly`); where it
  need not, one block with altered operations divides two correct nodes while their
  head hashes stay equal (`AlteredDivides`).
* A restart forgets the votes cast. It is safe exactly when all of them lie below the
  restored height, for a worker that restores nothing as for one that restores all
  (`RestartOfPrefixExactly`, `RestartSafeIfIdle`, `RestartVotesAgain`).
* Restoring a saved chain reproduces it exactly when it starts from the standard
  genesis block, which an adopted chain need not do (`RestoreRoundTrip`).

## Model

| member | source | states |
|---|---|---|
| Agreement.Agreement | src/consensus.rs:379-436 | over every legal run the chains of two correct nodes are prefixes of one another in content; the node behind holds the state the one ahead had at that height; equal heights give equal replicas |
| Agreement.Finality | src/consensus.rs:503-553 | what a correct node has committed, every correct node that gets as far has committed, at all later times: fork choice only ever extends a correct node's chain |
| Agreement.CertifiedAgree | src/consensus.rs:656-673 | two genuine, certified blocks of one height are the same block |
| Agreement.Quorate | src/consensus.rs:656-673 | behind a certified block stand as many validators as the threshold says, every correct one of which voted for it |
| Agreement.VotedAtItsHeight | src/consensus.rs:557-575 | a correct node that signed a block's hash voted at that block's own height, although a signature does not cover the height |
| Agreement.RunOk | src/consensus.rs:346-375 | in every legal run all correct nodes keep the engine invariant and hold only genuine blocks and votes |
| Agreement.SentIsDeliverable | src/consensus.rs:320-342 | whatever a correct node sends is genuine then and ever after, so it may be delivered at any later time, any number of times |
| Agreement.CorrectNodesCanCatchUp | src/consensus.rs:464-473 | a correct node behind another becomes its exact copy on receiving all its blocks, in any order |
| Agreement.LaggingCorrectNodeCatchesUp | src/consensus.rs:438-493 | over every legal run a correct node behind another that hears of its newest block ends, after asking if need be, with the same contents and replica, whatever certificates either holds |
| Agreement.ProposalGenuineExactly | src/consensus.rs:320-342 | an engine's proposal asks for enough signatures if and only if its active set makes up the threshold |
| Agreement.StandardAssumptions | src/consensus.rs:108-112 | asking for a quorum meets the threshold for agreement with the tolerated number of faulty validators |
| Division.AgreementExactly | src/consensus.rs:577-596 | no legal run divides two correct nodes if and only if unchecked hashes can be relied on and twice the threshold exceeds validators plus faulty ones, or the threshold is out of reach |
| Division.AlteredDivides | src/consensus.rs:438-462 | where they cannot, a legal run without any forged signature ends with incomparable contents under equal head hashes |
| Division.GroupsDivide | src/consensus.rs:379-462 | two groups of enough signers that share no correct one: a legal run that ends with incomparable chains |
| Division.LostLinkDivides | src/consensus.rs:283-287 | two correct nodes that mark each other inactive and propose end with incomparable chains, in a run legal if and only if the threshold is at most one |
| Restart.RestartSafeExactly | src/consensus.rs:222-237 | the invariant with the old ballots survives a restart from any certified blocks if and only if they all lie below the restored height |
| Restart.RestartOfPrefixExactly | src/consensus.rs:222-237 | from the first k blocks of a chain: if and only if no ballot is at height k or above |
| Restart.RestartSafeIfIdle | src/consensus.rs:222-237 | on a chain from the standard genesis, if and only if no vote was out at the working height |
| Restart.NextVoteSafeExactly | src/consensus.rs:557-575 | the next vote keeps one hash per height if and only if no old ballot there names another |
| Restart.RestartVotesAgain | src/consensus.rs:222-237 | a proposer that votes, restarts from its saved chain and signs a different hash at the same height |
| Progress.UndisturbedRound | src/consensus.rs:15-21 | engines in step, the proposal and a quorum of votes delivered in any order and number: every node ends with the proposer's block and its operations executed |
| Progress.RoundCompletes | src/consensus.rs:379-436 | one engine shown the block in turn and told of enough votes, in any order, holds it |
| Progress.ProposerStarts | src/consensus.rs:320-342 | the proposer sends its block and its own vote |
| Progress.ShownVotes | src/consensus.rs:379-413 | an engine shown the block in turn that has not voted sends its vote |
| EngineInvariants.ReactKeeps | src/consensus.rs:310-436 | every step of an engine, on any input, keeps the whole invariant, never shortens the chain, forgets no validator and announces only what it appended |
| EngineInvariants.CastKeeps | src/consensus.rs:557-575 | casting at the next height keeps one hash per height over the whole voting history |
| EngineInvariants.SealKeeps | src/consensus.rs:577-617 | sealing appends a block whose certificate verifies, or changes and announces nothing |
| EngineInvariants.SealVerifies | src/consensus.rs:598-614 | a certificate put together from the recorded votes, in any order, verifies and names exactly the voters |
| EngineInvariants.AppendKeeps | src/consensus.rs:620-633 | appending a certified block keeps replica, mempool, tables and history in step and leaves no stored proposal; what stays in the mempool is `Mempool.BlockTakesItsOwn` |
| EngineInvariants.AdoptKeeps | src/consensus.rs:503-553 | adopting a chain, which erases the record of votes, keeps one vote per height all the same |
| EngineInvariants.SyncEachKeeps | src/consensus.rs:475-485 | a partial response only extends the chain and keeps the invariant |
| EngineInvariants.RestoreKeeps | src/consensus.rs:222-237 | restoring blocks that carry their certificates keeps the invariant and does not touch the active set |
| EngineInvariants.NewEngine | src/consensus.rs:163-185 | the invariant holds of a new engine with an empty voting history |
| EngineRuns.RunKeeps | src/consensus.rs:310-375 | the invariant holds after every run, over the votes actually sent |
| EngineRuns.NeverVotesTwice | src/consensus.rs:557-575 | over a whole run no two votes an engine sends for one height name different hashes |
| EngineRuns.ReplicaIsReplay | src/consensus.rs:620-628 | after any run the replica equals the execution of the present chain from a fresh state |
| EngineRuns.ChainCertified | src/consensus.rs:656-673 | every chain block verifies against the validators the engine knows and against its own voters |
| EngineRuns.NothingLeftWaiting | src/consensus.rs:577-596 | between steps every stored proposal extends the head and has fewer votes than it needs |
| EngineRuns.RecordedVotesValid | src/consensus.rs:415-436 | every recorded vote is a valid signature of a known validator |
| EngineRuns.PoolStaysNew | src/consensus.rs:642-652 | the mempool never holds an operation twice nor one that is on the chain |
| EngineRuns.ProposalNeverRepeats | src/consensus.rs:320-342 | a proposed block extends the head, asks for the quorum of the active set and repeats no operation of itself or its chain |
| EngineRuns.AnnouncedIsAppended | src/consensus.rs:615-616 | an announced block is the one just appended, with a certificate that verifies |
| EngineRuns.ChainNeverShrinks | src/consensus.rs:532-534 | the chain never gets shorter and validators are never forgotten |
| EngineRuns.VotesAreOwn | src/consensus.rs:561-574 | the votes an engine originates are its own and carry its signature |
| Mempool.NothingPendingIsLost | src/consensus.rs:310-375 | on any engine and input, an operation pending or just offered is afterwards pending or on the chain; nothing else pends, and the order is kept |
| Mempool.PendingExactly | src/consensus.rs:620-652 | an operation pends if and only if it did, or was just offered, and is not on the chain as it now is |
| Mempool.BlockTakesItsOwn | src/consensus.rs:620-633 | a block that is appended takes its own operations out of the pool and no other; the rest keep their order |
| Mempool.OffersExactly | src/consensus.rs:310-351 | gossip adds what is neither pending nor on the chain, behind everything else, and is not answered; a submission does the same and is announced if and only if it was new |
| Mempool.SafeForGood | src/consensus.rs:620-652 | over every legal run what once pends at a correct node, or is on its chain, stays in one of the two |
| Mempool.AnnouncedIsKept | src/consensus.rs:310-351 | what one correct node announces and another receives pends at both, or is on their chains, at all later times |
| Mempool.RoundExecutesPending | src/consensus.rs:320-342 | an undisturbed round appends exactly what the proposer has pending, in its order, to every chain and leaves none of it in a pool |
| Replies.AsksExactly | src/consensus.rs:379-493 | an engine asks for blocks, and from which height, if and only if a block is ahead, a committed one conflicts, or a partial response reaches beyond the head and does not link |
| Replies.AnswersExactly | src/consensus.rs:359-371 | a request is answered by the blocks from its height on, if there are any |
| Replies.ProposesExactly | src/consensus.rs:320-342 | a block is proposed if and only if it is the engine's turn, something pends and nothing of its own is stored; it carries the whole pool |
| Replies.VotesExactly | src/consensus.rs:379-413 | a vote is sent if and only if a proposal in turn, or the engine's own, is considered at a height not yet voted at; it is for that block |
| Replies.AnnouncesExactly | src/consensus.rs:577-617 | a block is announced if and only if it has just been sealed |
| Membership.ActiveExactly | src/consensus.rs:263-287 | who is active after an input: whoever it introduces, and everyone active before, save the one disconnected unless that is the engine itself |
| Membership.KnownExactly | src/consensus.rs:503-553 | nobody known is forgotten; only those introduced, and all whom a response that claims to be a whole chain names, adopted or not, become known |
| Membership.CertificateExactly | src/consensus.rs:656-673 | a certificate verifies if and only if at least one known validator, and as many as the block asks for, signed the block's hash, or the block is the first |
| Membership.StartsExactly | src/consensus.rs:163-185 | a new engine knows those it is told of and itself, holds the genesis block that is the same for all, and nothing else |
| Membership.ConfiguredThroughout | src/consensus.rs:186-194 | after any run the replica has the engine's configuration, number by number |
| CatchUp.AdoptsExactly | src/consensus.rs:503-553 | a chain is adopted if and only if it is linked, hashed, certified by its own voters and strictly longer; otherwise only known validators change |
| CatchUp.FullSync | src/consensus.rs:464-473 | a donor's whole chain, in any order, makes a shorter joiner its copy, chain and replica, without the joiner knowing any validator |
| CatchUp.NotLongerIgnored | src/consensus.rs:498-502 | a response from genesis that is not longer changes neither chain nor replica |
| CatchUp.PartialSync | src/consensus.rs:475-485 | a joiner with the same first blocks up to certificates gains exactly the donor's further blocks up to the first it cannot certify, and that state |
| CatchUp.LaggingNodeCatchesUp | src/consensus.rs:450-452 | the exchange of hearing a newer block, asking and being answered gives a joiner alongside the donor all it lacks |
| CatchUp.OneBehindCatchesUp | src/consensus.rs:453-461 | a joiner one block behind has it on hearing of it |
| CatchUp.HashedKeptExactly | src/consensus.rs:438-485 | a well hashed chain stays so under a committed block or a partial response if and only if the block appended carries its own hash |
| CatchUp.ForkedNodeCatchesUp | src/consensus.rs:441-449 | the exchange started by a conflicting block ends in a copy of the longer donor |
| CatchUp.RestoreRoundTrip | src/consensus.rs:215-237 | saving and restoring gives back chain and replica if and only if the chain starts from the standard genesis |
| EngineReplica.TasksOfEngine | src/consensus.rs:186-194 | in every engine tasks, leases and queue agree and no task is ever rejected |
| EngineReplica.MoneyOfEngine | src/consensus.rs:620-628 | in every engine whose operations fit, locked fields are exact and fields covered by balances, equal with room for the products; without double lease losses no account is overdrawn |
| Quorum.QuorumLeavesOutTolerated | src/consensus.rs:108-112 | the quorum of n is n less the tolerated number of faulty validators |
| Quorum.QuorumsIntersect | src/consensus.rs:108-112 | two quorums of n share more than a third of n |
| Quorum.QuorumsShareCorrect | src/consensus.rs:108-112 | two quorums share a validator that is not faulty |
| Quorum.GroupsMeetExactly | src/consensus.rs:108-112 | any two groups of q validators share a correct one if and only if 2q exceeds validators plus faulty ones |
| Quorum.QuorumSuffices | src/consensus.rs:108-112 | a quorum is that large for every tolerated number of faulty validators |
| Quorum.QuorumLeastExactly | src/consensus.rs:108-112 | one signature less is still enough if and only if three divides the number of validators |
| Quorum.RotationFair | src/consensus.rs:295-302 | any n consecutive heights give each active validator exactly one slot |
| Consensus.ConsensusEngine.constructor | src/consensus.rs:163-185 | a new engine: genesis, fresh replica, everyone known is active; the invariant holds |
| Consensus.ConsensusEngine.AddValidatorKey | src/consensus.rs:268-271 | known and active |
| Consensus.ConsensusEngine.MarkKeyInactive | src/consensus.rs:283-287 | removes any key but the engine's own from the active set |
| Consensus.ConsensusEngine.AppendBlock | src/consensus.rs:620-633 | the in-place append computes `AppendAndApply`, with the voting history untouched; `Mempool.BlockTakesItsOwn` is about that function |
| Consensus.ConsensusEngine.AddOp | src/consensus.rs:642-652 | scans pool and chain, adds the operation exactly when it is in neither |
| Consensus.ConsensusEngine.CastBallot | src/consensus.rs:557-575 | votes at most once per height on record and enters the ballot in the history |
| Consensus.ConsensusEngine.SealIfPossible | src/consensus.rs:577-617 | the in-place sealing computes `MaybeCommit` for any map order |
| Consensus.ConsensusEngine.SubmitOp | src/consensus.rs:310-316 | new operations are announced, known ones are not |
| Consensus.ConsensusEngine.ProposeBlock | src/consensus.rs:320-342 | the in-place proposal computes `TryPropose`; the history gains exactly the vote sent |
| Consensus.ConsensusEngine.HandlePropose | src/consensus.rs:379-413 | the in-place handler computes `OnPropose`; the history gains exactly the vote sent |
| Consensus.ConsensusEngine.HandleVote | src/consensus.rs:415-436 | the in-place handler computes `OnVote` and casts nothing |
| Consensus.ConsensusEngine.HandleCommitted | src/consensus.rs:438-462 | the in-place handler computes `OnCommitted` and casts nothing |
| Consensus.ConsensusEngine.ChecksOut | src/consensus.rs:508-519 | the scan accepts if and only if every index, link and hash is right |
| Consensus.ConsensusEngine.Rebuild | src/consensus.rs:536-541 | the rebuilt replica is the replay of the adopted chain |
| Consensus.ConsensusEngine.TryAdoptChain | src/consensus.rs:503-553 | the in-place fork choice computes `TryAdopt` on a new replica object |
| Consensus.ConsensusEngine.HandleSyncResponse | src/consensus.rs:464-493 | the in-place handler computes `ApplySyncBlocks` |
| Consensus.ConsensusEngine.RestoreBlocks | src/consensus.rs:222-237 | the in-place loop computes `RestoreChain` |
| Consensus.ConsensusEngine.HandleMessage | src/consensus.rs:346-375 | dispatches every message to its handler and computes `OnMessage`; `Mempool.OffersExactly` and `Replies` are about that function |
| Consensus.ConsensusEngine.Handle | src/consensus.rs:310-375 | one input of any kind computes `React` and keeps the invariant over the object's own voting history |
| TaskInvariants.ReachableConsistent | src/network.rs:189-264 | in every reachable state, under any configuration, status, lease and queue agree, each worker reported once and open tasks have free slots |
| TaskInvariants.ThreeViews | src/network.rs:418-481 | the equivalences: assigned if and only if leased, pending if and only if queued, once; settled tasks are in neither |
| TaskInvariants.ReclaimOrderIndependent | src/network.rs:912-957 | every enumeration of the lease map gives the same state and the same slash block |
| TaskInvariants.ReclaimConsistent | src/network.rs:912-957 | a reclaim keeps the three views and leaves no lease due |
| Requests.RequestServesBest | src/network.rs:418-424 | a known worker is turned away if and only if no task waits for it once due leases are taken back; else it gets, under a new lease, a waiting task whose project has the most available and locked together, the oldest among equals |
| Requests.HeartbeatExactly | src/network.rs:426-441 | a heartbeat renews the caller's lease if and only if it holds one that is not due |
| TaskInvariants.BestTaskIsBest | src/network.rs:679-698 | the scan finds nothing if and only if nothing is eligible, and otherwise an eligible entry maximal in its order of keys, which `Requests.RequestServesBest` spells out |
| TaskInvariants.ReachableUnexpired | src/network.rs:483-486 | in runs that stay a timeout away from the end of the clock no lease is due between operations |
| TaskInvariants.FailureChangesNothing | src/network.rs:185-188 | with no lease due, a failed operation leaves the whole state unchanged |
| TaskInvariants.FailureExactly | src/network.rs:418-481 | a failing request or report is harmless if and only if the reclaim on its way has nothing to do |
| TaskInvariants.AssignmentUnexpiredExactly | src/network.rs:700-716 | an assignment keeps leases undue if and only if the timeout is positive and the expiry does not wrap |
| FailingRuns.FailureAtClockEnd | src/network.rs:700-716 | a literal log that ends near the end of the clock, after which a failed report changes the state |
| TaskOutcomes.ConsensusExactly | src/network.rs:883-904 | for all weights: a digest is found if and only if, at some report, its support so far reaches the requirement modulo 64 bits; the one returned does have the support |
| TaskOutcomes.ConsensusComplete | src/network.rs:883-904 | where no running weight can wrap past the requirement: if and only if some digest's total weight reaches it |
| TaskOutcomes.WrapMissesConsensus | src/network.rs:883-904 | two reports whose joint weight reaches the requirement and is missed |
| WrappedRuns.MissedInRun | src/network.rs:883-904 | a literal log after which a task stays pending although its digest has more than the support it needs |
| TaskOutcomes.AcceptedReportUsesSlot | src/network.rs:443-481 | every accepted report is kept verbatim in one of the limited slots, by the lease holder, and the answer says whether the task is settled |
| TaskOutcomes.TaskEvolves | src/network.rs:189-264 | the only ways one operation changes a task record |
| TaskOutcomes.SettledForeverInRuns | src/network.rs:735-868 | a settled task is frozen over any continuation of a run |
| TaskOutcomes.QuorumOneSettles | src/consensus.rs:186-194 | with quorum one the first accepted report settles its task, by payment or by burning |
| TaskOutcomes.QuorumOneNeverRejects | src/network.rs:853-868 | with quorum one no run ever rejects a task |
| Reward.PaidOut | src/network.rs:1023-1053 | never more than the reward is paid, and exactly the reward if and only if it exceeds the floor shares by at most one token per winner |
| Reward.PaidExactly | src/network.rs:1038-1053 | for any divisor under which the floor shares stay within the reward: what is paid, and when it is all |
| Reward.PaidInClosedForm | src/network.rs:1023-1053 | what distinct winners are paid for every divisor and all weights: floor shares plus what the tokens add or wrap away |
| Reward.PaidWithinExactly | src/network.rs:1023-1053 | for every divisor, wrapped to one included: no more than the reward is paid if and only if that comes to no more |
| Reward.WrappedOneBalances | src/network.rs:770-804 | weights whose sum wraps to one and for which tokens wrap the payout back to the reward |
| Reward.WrappedTotalOverpays | src/network.rs:770-804 | three weights whose sum wraps to two and share out more than the reward |
| WrappedRuns.OverpaidInRun | src/network.rs:770-804 | a literal log with four tokens minted that ends with one worker holding almost half the 64-bit range |
| Reward.SaturationUnderpays | src/network.rs:1029-1036 | a concrete saturating reward of which half is paid |
| Reward.SaturationMayPayAll | src/network.rs:1029-1036 | a concrete saturating reward that is paid in full |
| Reward.FairShares | src/network.rs:1023-1053 | distinct winners get their floor share or one token more, and heavier winners never less |
| Reward.DistributeReward | src/network.rs:1023-1053 | the loop over winners and remainder computes `Distribute` |
| QuotaRuns.ReachableQuotas | src/network.rs:629-648 | over every run that fits, the locked part is what open tasks are due and no project's fields exceed its balance; with room for the products they equal it |
| QuotaRuns.QuotaWithinBalance | src/network.rs:629-648 | available plus locked does not wrap and is covered by the balance, locked is the sum of open rewards, and no release saturates |
| QuotaRuns.QuotaIsBalance | src/blockchain.rs:197-223 | with room for the products `balance_of` a project is available plus locked |
| QuotaInvariants.CloseQuotas | src/network.rs:735-868 | closing a task by payment, burn or return keeps locked exact and fields covered, and equal to the balance if the whole reward is accounted for |
| QuotaInvariants.FinalizeQuotas | src/network.rs:735-822 | settling a task keeps locked exact and fields covered, whichever branch is taken, and equal where products have room |
| QuotaRuns.TransferKeepsBackedExactly | src/network.rs:353-378 | a transfer keeps fields and balances in step, for present and future projects, if and only if it moves nothing or names no project account |
| Books.DonateKeepsBackedExactly | src/network.rs:329-351 | a donation keeps them in step if and only if it moves nothing, or its sender is no project account and the field does not wrap |
| Books.ReclaimKeepsBackedExactly | src/network.rs:912-957 | a reclaim does if and only if it slashes no project account |
| Books.RegisterFits | src/network.rs:158-183 | a registration keeps the books, accounts apart included, if and only if the id is known or names no project, whatever the balance |
| QuotaRuns.NewProjectKeepsBackedExactly | src/network.rs:312-327 | a new project is in step if and only if its account is empty |
| Effects.OnlyOwnersFund | src/network.rs:380-388 | funding by anyone but the owner is answered `NotTaskOwner` and changes nothing; by the owner it is a donation |
| Effects.DonationsExactly | src/network.rs:329-351 | when a donation is refused and why; otherwise the one transfer recorded and the project's field, and nothing else |
| Effects.TransfersExactly | src/network.rs:353-378 | a transfer is refused if and only if the balance is short; otherwise one ledger entry and nothing else |
| Effects.OpeningsExactly | src/network.rs:158-183 | registration is idempotent, newcomers start at reputation one; projects are opened by participants only, empty |
| Effects.StrangersCannotSpend | src/network.rs:390-416 | nor can anyone but the owner submit a task for a project |
| Effects.OwnersSpend | src/network.rs:390-416 | the owner can, up to what is available: the whole new task and what moves in the project |
| Effects.NothingIsRewritten | src/network.rs:189-264 | no operation removes, renames or hands over a participant, project or task, or touches earlier ledger entries |
| Journal.MemosNameTheirSubject | src/network.rs:612-627 | the digits of a memo read back as the number of its project or task |
| Journal.NothingEmptyRecorded | src/network.rs:924-956 | no operation records an empty entry, nor a slash, reward, burn or mint of nothing |
| Effects.TasksAsConfigured | src/network.rs:390-416 | over every run each task asks for the weight and allows the reports its configuration says, two and five by default |
| Verdicts.AvailableExactly | src/network.rs:189-264 | what each operation makes of a project's available quota |
| Verdicts.OnlyOwnersDraw | src/network.rs:629-642 | it falls by a task of the owner, by its reward, or because a sum wraps |
| Verdicts.QuotaFallsOnlyByOwner | src/network.rs:596-610 | over every continuation of a run that fits, a project keeps its owner and its available quota falls by no more than that owner's tasks ask for |
| Verdicts.VerdictFollowsReports | src/network.rs:735-868 | which way a reported task is decided and what its record says: digest, backers in report order, the earliest backer's result |
| Verdicts.ExhaustedExactly | src/network.rs:1055-1057 | a digest counts as exhausted if and only if it is written around the marker |
| Reputations.ReclaimReputations | src/network.rs:912-957 | a reclaim takes one penalty per due lease from each participant, never below one, for every penalty |
| Reputations.SubmitReputations | src/network.rs:805-812 | an accepted report that settles its task rewards each backer and penalises each dissenter once; one that has it rejected penalises each reporter; nobody else moves |
| Reputations.OtherReputations | src/network.rs:959-968 | every other operation moves reputations by the penalties of due leases only |
| FailingRuns.EarlyMintUnbacks | src/network.rs:158-183 | a literal log that mints on the account of a project to come |
| Books.SettleFlowExactly | src/network.rs:770-804 | for all winners and weights, a settlement keeps them in step if and only if the reward leaves the project and no project is paid |
| Books.SettleKeepsBackedExactly | src/network.rs:770-804 | in terms known beforehand, any winners: the reward exceeds the floor shares by at most one token each and every winner at a project account has a zero share |
| Books.FinalizeKeepsExactly | src/network.rs:735-822 | each way of deciding a task keeps the books if and only if its amounts fit, a weight total of zero included |
| Books.BooksKeptExactly | src/network.rs:189-264 | for each of the nine operations, whatever the weights, the exact condition under which it keeps the books |
| Books.BooksThroughoutExactly | src/network.rs:189-264 | the books hold throughout a run if and only if every operation fits where it is applied |
| Books.LockedKeptExactly | src/network.rs:629-648 | the locked part stays exact, wherever accounts are, unless a field wraps or a zero weight total releases a reward twice |
| FailingRuns.DonorUnbacks | src/network.rs:329-351 | a literal log after which a project's own account donates and its fields exceed its balance |
| Solvency.BatchTakes | src/network.rs:924-956 | a batch takes from each worker a full slash per lease lost, computed from the balance before the batch |
| Solvency.ReclaimNonNegativeExactly | src/network.rs:912-957 | a reclaim overdraws nobody if and only if everyone can pay for all leases lost |
| FailingRuns.TwoLeasesOverdraw | src/network.rs:924-956 | a literal log after which a worker with one token loses two leases and stands at minus one |
| Solvency.ClampNeverActs | src/blockchain.rs:197-223 | in runs where nobody loses two leases at once, `balance_of` is the plain fold of the ledger |
| Solvency.BalancesAddUp | src/blockchain.rs:197-223 | in such runs the reported balances of all accounts add up to minted less burned |
| Ledger.Conservation | src/blockchain.rs:197-223 | for every ledger the raw balances add up to minted less burned |
| Ledger.SpendableBounded | src/blockchain.rs:197-223 | spendable balances of any accounts never exceed what was minted, whatever was slashed |
| Ledger.BalanceTruncates | src/blockchain.rs:197-223 | `balance_of` reports the spendable balance if and only if it fits in 64 bits; two mints are enough to report zero |
| Ledger.TamperEvident | src/blockchain.rs:225-247 | a block changed under its old hash passes the scan if and only if its contents still hash to it and its link is the same |
| Ledger.HeadCommitsToAll | src/blockchain.rs:89-106 | without collisions, ledgers that pass the scan with equal length and head hash are equal but for signatures |
| Ledger.Blockchain.constructor | src/blockchain.rs:146-151 | a new ledger is its genesis block and passes its own scan |
| Ledger.Blockchain.CommitBlock | src/blockchain.rs:153-160 | appends one linked and hashed block; integrity is kept |
| Ledger.Blockchain.AppendCommitted | src/blockchain.rs:176-195 | appends if and only if index, link and hash are right; integrity is kept |
| Ledger.Blockchain.BalanceOf | src/blockchain.rs:197-223 | the nested loops compute the clamped fold over all transactions |
| Ledger.Blockchain.VerifyIntegrity | src/blockchain.rs:225-247 | the scan accepts if and only if every hash and link is right |
| Replica.Network.constructor | src/network.rs:109-123 | a fresh replica over a new ledger |
| Replica.Network.RegisterParticipantWithId | src/network.rs:158-183 | idempotent registration and its mint, in place |
| Replica.Network.CreateProject | src/network.rs:312-327 | allocates the next project id, in place |
| Replica.Network.DonateToProject | src/network.rs:329-351 | the four outcomes of a donation, in place |
| Replica.Network.TransferTokens | src/network.rs:353-378 | the two outcomes of a transfer, in place |
| Replica.Network.FundProjectFromOwner | src/network.rs:380-388 | computes `Fund`, in place; `Effects.OnlyOwnersFund` is about that function |
| Replica.Network.SubmitTask | src/network.rs:390-416 | computes `NewTask`, in place; `Effects.StrangersCannotSpend` and `OwnersSpend` are about that function |
| Replica.Network.TakeNextTaskFor | src/network.rs:679-698 | the scan removes the entry `BestTask` finds from the queue and no other; `Requests.RequestServesBest` says which that is |
| Replica.Network.RequestTask | src/network.rs:418-424 | reclaim, choice and assignment, in place, with the state each error leaves |
| Replica.Network.SendHeartbeat | src/network.rs:426-441 | renews the caller's lease after a reclaim, in place |
| Replica.Network.Tick | src/network.rs:483-486 | advances the saturating clock and reclaims, in place |
| Replica.Network.CollectExpired | src/network.rs:912-923 | from any enumeration of the leases the sorted expired ids are the same |
| Replica.Network.ReclaimExpiredLeases | src/network.rs:912-957 | the loop over expired leases and the one block of slashes compute `Reclaim`, in place; `Reputations.ReclaimReputations` and `Solvency.BatchTakes` are about that function |
| Replica.Network.FindConsensusDigest | src/network.rs:883-904 | the running weight table finds the digest the specification finds |
| Replica.Network.FinalizeTask | src/network.rs:735-822 | the four ways a task is finalised, in place: `Finalize`, which `Reputations`, `Verdicts` and `Books` are about |
| Replica.Network.RejectTask | src/network.rs:853-868 | computes `Reject`, in place: the reward returns to the available quota and reporters lose reputation, as `Verdicts` and `Reputations` state independently |
| Replica.Network.SubmitResult | src/network.rs:443-481 | a report through all its branches, in place, with the state each error leaves |
| Replica.Network.ApplyOp | src/network.rs:189-264 | every operation, errors discarded, in place |
| ExecutorLoop.LeaseLostExactly | src/executor.rs:84-151 | a worker loses its lease if and only if the computation lasts a timeout and no heartbeat comes sooner, or the last expiry passes the end of the clock |
| ExecutorLoop.ComputeOutcome | src/executor.rs:91-117 | the loop keeps the lease to its end unless some tick finds it due; then it is gone for good |
| ExecutorLoop.OverrunsExactly | src/executor.rs:91-98 | when such a tick exists, in closed form |
| ExecutorLoop.DeliverOutcome | src/executor.rs:119-151 | delivery reports a lost lease if and only if the lease is gone |
| Workers.TurnExactly | src/executor.rs:84-164 | the event of a turn and what it records: the digest and cost of running the task's payload within its reward, the output encrypted for the owner's key; or a lost lease, noticed by the loop or by the submission |
| Workers.IdleExactly | src/executor.rs:85-89 | a turn is idle if and only if no task waits for the worker |
| ExecutorLoop.ProcessNextTask | src/executor.rs:84-165 | the loop of ticks and heartbeats on the replica object computes `Process` |

## Left out

- Agreement.Agreement: assumes a fixed validator set without restarts, the exact threshold, genuine signatures and reliable unchecked hashes; the code leaves changing sets, view change and proposer failover out (`src/consensus.rs:22-23`).
- EngineRuns.NeverVotesTwice: speaks of one engine object; `Restart` says what a restart adds.
- QuotaRuns.ReachableQuotas: under `Fits`; the exact conditions beside it say what each part of `Fits` is for.
- Identifiers, counters, block heights and list lengths are unbounded; token amounts, ticks, weights and reputations are 64-bit.
- SHA-256, JSON bytes and `state_fingerprint`: hashes are functions and states are compared directly. No freedom from collisions is assumed of the ledger's block hash.
- Ed25519, X25519 and ChaCha20: signatures are abstract and encrypted results opaque.
- Liveness beyond one undisturbed round: there is no failover, and equal operations such as two ticks of the same length count once in the mempool.
- `register_participant`, `set_config`, `set_participant_reputation`, getters, `history_for` and `completed_task_results`: they would only add easy members.
- Payload parsing, digests of output, cost estimation and simulated corruption in `src/executor.rs`: one function-valued parameter.
- `src/actor.rs`, `src/app.rs`, `src/bin`, `src/sandbox.rs`, `src/pyenv.rs`, `src/estimator.rs`: sockets, timers, user interface, processes and floating-point heuristics.
