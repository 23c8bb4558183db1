# TRINCI consensus engine: verified model

A Dafny model of the TRINCI node's consensus engine and of the arithmetic, encoding and index code
beside it. `dafny verify dfyconfig.toml` checks everything.

* **Voting and quorum.** `Voting` is one node's consensus state as a value, with a handler for each message
  that changes it: the proposal table is a map from (height, hash, round), the exit poll a set.
  `ConsensusService` is the service itself: a class that searches, pushes, retains and sorts nested vectors
  in place, each handler proved to take the step of `Voting` its message stands for (`ProposalTable` relates
  vectors and map). `VotingAnswers` says what each message stores, announces and starts, and `VotingSafety` what
  every handled message keeps. `Network` runs any number of
  nodes with FIFO inboxes and proves what holds over every run; `Disagreement` builds the runs that show where
  these guarantees end, and states agreement and one start per height as exact conditions for every roster.
* **Blocks and pool.** `TransactionService` and `BlockService` are the two services as classes;
  `BlockProtocol` is their conversation through the transaction service's queue, with theorems over every
  run. `Alignment` finds the height to catch up with and catches up.
* **Leader draw.** `Seed` folds the seed source, `LeaderDraw` serves random numbers and draws the leader by weight.
* **Fuel**, **Multihash**, **TransactionIndex**: the bitbell/fuel price lines, the hash encoding, and the
  transaction and attachment indexes.

What comes from outside is a parameter or an assumption stated where it is used. Signing and verifying are
foreign: a signature carries the outcome of checking it, and a fresh one is a parameter. A block carries its
hash; the hash of transaction payloads and of whole transactions is any function without collisions. The PCG
generator is a pair of arbitrary functions. The wrap-around of i64 in the fuel lines is written out as in a
release build. Heights, rounds, sizes and counters are unbounded. A step on which the service
would panic (an executed block without a proposal in the current round, an empty batch) is not taken.

The network assumes what the engine itself does not check: a confirmation that reaches a node was cast by
some node, a batch of confirmations belongs to one proposal, repeats nothing and fits the block sent with it,
the players in charge depend on the height only, and the block service adopts blocks of rising height. That a
locally built block is never proposed too early is not assumed but derived from message order. Runs start
after genesis: each node starts from a stored block with the players in charge after it, so the first message
of a freshly bootstrapped node, the `BlockConsolidated` for height 0 that replaces its one-player list, is in no
run. Player lists may change from height to height and may repeat ids. In the runs of `Disagreement` votes travel
by alignment, which makes a node adopt their round even while it is consolidating.

The block protocol takes any reply that passes the service's own check. A collection remembers whether its block
was built here and whether its transactions were complete; `ReplyCompleteIff` says which replies are, and
`CollectWitness` is a run with one that is not. The shape of the chain is promised if a consolidated block has the
height and previous hash of one that was sent for execution at the tip.

The generator's queue is shared with contracts, which may draw between the update for a block and the draw of its
leader; the leader is then a function of how many did (`DrawBetweenMatters` shows that this cannot be dropped), and
with none in between a restarted node elects the same one.

Where the code and its comments differ, the model follows the code: `reset_proposals` keeps the exit polls *up
to* the consolidated height (`PollsKeptIff` says when that loses nothing), and `wm_fuel_to_bitbell` prices the
saturation range with the inverse line (`AdjointIff`, `NeverOverchargedIff` say what follows). A transaction's
own hash covers its payload, but genesis transactions are also stored, and listed at height 0, under the hash of
the whole transaction: by `FullBlockMatches` the loaded transactions have the listed hashes exactly above height 0,
and `Bootstrap` shows that at height 0 none has, while the block still loads as it was stored.

## Model

| member | source | states |
|---|---|---|
| `Network.Agreement` | trinci-core-new/src/services/consensus_service.rs:995-1055 | in every run, any two consolidations ever started on any nodes at one height with votes of one round are for the same block |
| `Network.VoteUniqueness` | trinci-core-new/src/services/consensus_service.rs:1113-1186 | in every run a node votes at most once per (height, round) over all voting paths, and its exit poll is exactly the set of slots it ever voted in |
| `Network.OneConsolidationPerHeight` | trinci-core-new/src/services/consensus_service.rs:1012-1034 | in every run the heights a node starts to consolidate never fall, and a height is started twice only if its players are one |
| `Network.ProposalsAreTimely` | trinci-core-new/src/services/block_service.rs:464-471 | FIFO order guarantees that a locally built block is proposed at most one above the consensus height and that consolidations move forward |
| `Network.StartHasMajority` | trinci-core-new/src/services/consensus_service.rs:1013-1033 | a started consolidation rests on cast votes of more than half of the players in charge, each counted once |
| `Network.SentStays` | trinci-core-new/src/services/consensus_service.rs:1036-1049 | what a node has sent stays sent for the rest of the run |
| `Network.RunKeeps` | trinci-core-new/src/services/consensus_service.rs:173-476 | the network invariant (tables, votes, quorums, message order) holds in every reachable state |
| `Disagreement.AgreementIffSameRound` | trinci-core-new/src/services/consensus_service.rs:1125-1131 | for every roster, starts at one height on votes of rounds r1 and r2 must be for the same block iff r1 == r2 or no height ever has enough different players for a quorum |
| `Disagreement.RoundsCanDisagree` | trinci-core-new/src/services/consensus_service.rs:1125-1131 | for every roster and height where a quorum is possible, any two candidate blocks and any two rounds, there is a run in which both blocks are consolidated at that height |
| `Disagreement.RoundStarts` | trinci-core-new/src/services/consensus_service.rs:278-291 | in a run where a quorum of players can still vote in a round, one builds a block, the others vote, and the last, told of all votes by alignment, starts consolidating it |
| `Disagreement.VoteOnBatch` | trinci-core-new/src/services/consensus_service.rs:451-464 | a node that takes over the round and the votes of an alignment block votes for it after execution, and starts it if these votes and its own make a quorum |
| `Disagreement.OncePerHeightIff` | trinci-core-new/src/services/consensus_service.rs:419-425 | for every roster and height, no run starts the height twice on one node iff the height is not left to a lone player |
| `Disagreement.LoneStartsTwice` | trinci-core-new/src/services/consensus_service.rs:419-425 | a run in which a lone player starts two given blocks at one height |
| `VotingSafety.StepKeeps` | trinci-core-new/src/services/consensus_service.rs:173-476 | every message keeps the invariant, and keeps consolidations in order except exactly when a lone player proposes a second block, while consolidating, at a height that must not repeat |
| `VotingSafety.UpdateKeepsTable` | trinci-core-new/src/services/consensus_service.rs:934-991 | an update keeps every proposal non-empty, without repeats, matching its key, and with a block that has the key's hash and height; it touches one key and stores exactly old and new confirmations |
| `VotingSafety.AddAllContents` | trinci-core-new/src/services/consensus_service.rs:953-960 | storing a batch keeps the stored prefix, repeats nothing and holds exactly both contents |
| `VotingSafety.TryKeeps` | trinci-core-new/src/services/consensus_service.rs:1012-1050 | a quorum check keeps the invariant; a start it makes has a quorum of players, and keeps the order of starts when nothing is being consolidated |
| `VotingSafety.VotesAreJustified` | trinci-core-new/src/services/consensus_service.rs:1113-1156 | whichever message triggers it, an announced confirmation is for an executed block that extends the tip, built by a player, in the current round, in an unused slot |
| `VotingSafety.ConsolidatedKeeps` | trinci-core-new/src/services/consensus_service.rs:915-929 | a consolidation at a higher height keeps the invariant, the order of starts and every poll |
| `VotingSafety.PollsKeptIff` | trinci-core-new/src/services/consensus_service.rs:922-925 | the reset forgets no vote iff the node is no player or no poll lies above the consolidated height |
| `VotingSafety.BuildKeeps` | trinci-core-new/src/services/consensus_service.rs:376-450 | proposing a locally built block keeps the invariant, so it votes only in unused slots |
| `VotingSafety.BuildOrdered` | trinci-core-new/src/services/consensus_service.rs:419-425 | proposing a built block breaks the order of starts iff a lone player is still consolidating the same height, no stranger confirmed the new block, and the height must not repeat |
| `VotingAnswers.ConfirmationAnswer` | trinci-core-new/src/services/consensus_service.rs:210-231 | an unverified or outdated confirmation changes nothing; any other is stored in its proposal, which is started iff nothing is being consolidated, it is for the next height, its block is known, only players confirmed it and at least half of them plus one |
| `VotingAnswers.LastVoteStarts` | trinci-core-new/src/services/consensus_service.rs:216-229 | the vote that completes a quorum appends exactly the start with block, votes in order and transactions; an earlier one is only stored |
| `VotingAnswers.FromPeerAnswer` | trinci-core-new/src/services/consensus_service.rs:296-362 | a peer's block leaves its confirmation, and only if it verifies, is ahead of the tip, not of a passed round, and its height is not being consolidated |
| `VotingAnswers.ExecutionAnswer` | trinci-core-new/src/services/consensus_service.rs:253-294 | an executed block is stored in its proposal; an eligible player confirms it once, and it is started iff nothing is and it then has enough |
| `VotingAnswers.VerifyAnswer` | trinci-core-new/src/services/consensus_service.rs:1058-1110 | a batch with a stranger's or bad confirmation, of another height or a passed round changes nothing; any other is stored and, without a retrieved block, started iff nothing is and it then has enough |
| `VotingAnswers.ElectionAnswer` | trinci-core-new/src/services/consensus_service.rs:175-209 | a failed election enters the round unless its height is being consolidated; a most confirmed proposal of that round with its block gets an eligible player's vote and is started iff it then has enough |
| `VotingAnswers.BuildAnswer` | trinci-core-new/src/services/consensus_service.rs:376-450 | a built block in a used slot changes nothing; any other is signed, confirmed, stored and announced with its transactions, and started by a lone player iff it has enough |
| `VotingAnswers.AlignmentAnswer` | trinci-core-new/src/services/consensus_service.rs:451-464 | stores the batch and enters its round, whatever the current one |
| `VotingAnswers.ConsolidationAnswer` | trinci-core-new/src/services/consensus_service.rs:232-252 | block, height and players of the consolidation, round zero, nothing being consolidated; exactly the proposals above it stay, and the polls up to it or all |
| `VotingAnswers.CheckOldAnswer` | trinci-core-new/src/services/consensus_service.rs:676-702 | exactly the passed rounds of the next height leave the table, unless something is being consolidated |
| `VotingAnswers.AddAllLaws` | trinci-core-new/src/services/consensus_service.rs:953-960 | confirmations are stored one by one, in order, each only if it is not stored yet |
| `ConsensusService.ConsensusService.HandleMessages` | trinci-core-new/src/services/consensus_service.rs:173-476 | refinement: for every message, changing the nested vectors in place is the step of the abstract machine on the map, with the given signatures on vote and proposed block, so the theorems about runs are about this class |
| `ConsensusService.ConsensusService.constructor` | trinci-core-new/src/services/consensus_service.rs:98-118 | starts from a block, or from height zero, with nothing pending |
| `ConsensusService.ConsensusService.UpdateProposals` | trinci-core-new/src/services/consensus_service.rs:934-991 | the in-place vector update is the update of the map, and the batch's key is then present |
| `ConsensusService.ConsensusService.AddConfirmations` | trinci-core-new/src/services/consensus_service.rs:952-966 | the loop appends exactly the missing confirmations, keeps the count equal to their number and fills in a missing block |
| `ConsensusService.ConsensusService.ShouldPlayerVote` | trinci-core-new/src/services/consensus_service.rs:1113-1156 | true iff all voting conditions hold |
| `ConsensusService.ConsensusService.VoteProposal` | trinci-core-new/src/services/consensus_service.rs:1162-1186 | records the slot, announces the confirmation and returns it |
| `ConsensusService.ConsensusService.VerifyBlockProposalQuorum` | trinci-core-new/src/services/consensus_service.rs:995-1055 | with the key present (so the lookup never fails) starts consolidation iff the quorum is reached |
| `ConsensusService.ConsensusService.OnBlockElectionFailed` | trinci-core-new/src/services/consensus_service.rs:175-209 | takes the abstract step, for a proposal that is a most confirmed one of the new round |
| `ConsensusService.ConsensusService.CheckNextRoundProposals` | trinci-core-new/src/services/consensus_service.rs:629-669 | sorting, finding, voting, storing and checking the quorum amount to the abstract step |
| `ConsensusService.ConsensusService.SortedFirst` | trinci-core-new/src/services/consensus_service.rs:631-647 | the first proposal of a round after the sort is a most confirmed one, and there is none iff the round has no proposal |
| `ConsensusService.ConsensusService.OnBlockConfirmationFromPeer` | trinci-core-new/src/services/consensus_service.rs:210-231 | takes the abstract step |
| `ConsensusService.ConsensusService.OnBlockConsolidated` | trinci-core-new/src/services/consensus_service.rs:232-252 | takes the abstract step: new players, new tip, round zero, nothing being consolidated |
| `ConsensusService.ConsensusService.ResetProposals` | trinci-core-new/src/services/consensus_service.rs:915-929 | drops proposals up to the new height and, on a player, polls above it |
| `ConsensusService.ConsensusService.OnBlockExecutionEnded` | trinci-core-new/src/services/consensus_service.rs:253-294 | takes the abstract step when the block has a proposal in the current round |
| `ConsensusService.ConsensusService.OnBlockFromPeer` | trinci-core-new/src/services/consensus_service.rs:296-362 | takes the abstract step |
| `ConsensusService.ConsensusService.OnCheckOldBlockProposals` | trinci-core-new/src/services/consensus_service.rs:363-371 | unless consolidating, forgets passed rounds at the next height and leaves the rest sorted by falling count |
| `ConsensusService.ConsensusService.DropPassedRounds` | trinci-core-new/src/services/consensus_service.rs:676-702 | exactly the passed rounds of the next height leave the table; the rest is sorted |
| `ConsensusService.ConsensusService.OnProposalAfterBuild` | trinci-core-new/src/services/consensus_service.rs:376-450 | takes the abstract step: one vote and one announcement, unless the slot is used |
| `ConsensusService.ConsensusService.OnProposalFromAlignmentBlock` | trinci-core-new/src/services/consensus_service.rs:451-464 | takes the abstract step: adopts the round and stores the batch |
| `ConsensusService.ConsensusService.OnVerifyConfirmations` | trinci-core-new/src/services/consensus_service.rs:1058-1110 | takes the abstract step: strangers, bad signatures, other heights and passed rounds are ignored |
| `ProposalTable.NewProposal` | trinci-core-new/src/artifacts/models.rs:76-92 | a new proposal is named by its first confirmation and counts what it holds |
| `ProposalTable.LookupIsMap` | trinci-core-new/src/services/consensus_service.rs:1001-1010 | finding the bucket, then the proposal, succeeds iff the key is in the map, and yields its entry |
| `ProposalTable.UpdateRepresents` | trinci-core-new/src/services/consensus_service.rs:942-990 | replacing or pushing a proposal keeps one bucket per height, one proposal per name, and the correspondence with the map |
| `ProposalTable.RetainRepresents` | trinci-core-new/src/services/consensus_service.rs:927-928 | dropping buckets up to a height corresponds to restricting the map |
| `ProposalTable.CheckOldRepresents` | trinci-core-new/src/services/consensus_service.rs:701-702 | dropping passed rounds and sorting corresponds to restricting the map |
| `ProposalTable.SortContents` | trinci-core-new/src/services/consensus_service.rs:636-636 | sorting by count is a permutation |
| `ProposalTable.SortKeeps` | trinci-core-new/src/services/consensus_service.rs:636-636 | sorting yields falling counts and keeps names distinct |
| `BlockProtocol.CollectAlwaysFinds` | trinci-core-new/src/services/transaction_service.rs:215-231 | in every run, when a block's transactions are collected each is in the pool: always for a locally built block, and for a peer's block if nothing was missing or its own reply brought as many different hashes as were asked for |
| `BlockProtocol.CollectWitness` | trinci-core-new/src/services/transaction_service.rs:223-231 | a run in which a repeated reply leaves the collection of its block, as the oldest message, without a transaction |
| `BlockProtocol.FetchedIff` | trinci-core-new/src/services/block_service.rs:519-533 | the collection behind an accepted reply will find everything in its turn iff each missing hash is in the reply or already on its way in the queue |
| `BlockProtocol.FoundKeeps` | trinci-core-new/src/services/block_service.rs:547-602 | no step, whatever peers reply, makes a local or completely supplied collection miss a transaction in its turn |
| `BlockProtocol.RunFound` | trinci-core-new/src/services/block_service.rs:130-254 | in every run all queued local and completely supplied collections will find their transactions |
| `BlockProtocol.LocalBlockComplete` | trinci-core-new/src/services/block_service.rs:558-583 | a locally built block never misses a transaction at its second listing |
| `BlockProtocol.ChainGrowth` | trinci-core-new/src/services/block_service.rs:607-616 | blocks are offered only on top of the tip, and consolidated blocks form one hash-linked chain of consecutive heights, if each matches a block offered at the tip |
| `BlockProtocol.StepKeeps` | trinci-core-new/src/services/block_service.rs:547-602 | every step of either service, whatever peers reply, keeps the queue and chain invariant: nothing is removed from the pool behind an awaited listing, and blocks under way extend the tip |
| `BlockProtocol.RunKeeps` | trinci-core-new/src/services/block_service.rs:130-254 | the invariant holds in every reachable state |
| `BlockProtocol.BlockServiceAnswers` | trinci-core-new/src/services/block_service.rs:547-626 | a block whose transactions are all pooled is queued for collection at once, else exactly the missing ones are asked for; a reply is queued in front of its collection, an adopted block's hashes for removal |
| `BlockProtocol.PoolAnswers` | trinci-core-new/src/services/transaction_service.rs:143-214 | added transactions that verify enter the pool under their hashes, consolidated ones leave it, nothing else changes |
| `BlockService.PackBlock` | trinci-core-new/src/services/block_service.rs:441-462 | the block takes, from the end, at most 500 hashes of the longest suffix of the listing below 1048465 bytes |
| `BlockService.PackedInPool` | trinci-core-new/src/services/block_service.rs:448-471 | a packed block repeats nothing and takes only pooled hashes |
| `BlockService.ReplyCompleteIff` | trinci-core-new/src/services/block_service.rs:519-525 | an accepted reply is complete iff it brings as many different hashes as were asked for; for a request without repeats iff it repeats nothing |
| `BlockService.RepeatedReplyWitness` | trinci-core-new/src/services/block_service.rs:519-525 | a reply that repeats one transaction and leaves another out is accepted |
| `BlockService.CollectMissingTxs` | trinci-core-new/src/services/block_service.rs:489-539 | returns the first acceptable of at most six replies, and fails iff none is acceptable |
| `BlockService.MissingContents` | trinci-core-new/src/services/block_service.rs:575-579 | missing are exactly the requested hashes that are not listed |
| `BlockService.MissingLaws` | trinci-core-new/src/services/block_service.rs:575-579 | what is missing is decided hash by hash, in order and with repetitions |
| `BlockService.BlockService.BuildBlock` | trinci-core-new/src/services/block_service.rs:416-471 | the built block extends the tip, names this node as builder and is packed from the listing |
| `BlockService.BlockService.VerifyExtBlock` | trinci-core-new/src/services/block_service.rs:848-950 | accepts iff the block verifies, extends the tip, both requests for the players are answered with the builder among them, and no confirmation of this round or later is a stranger's; says which check failed |
| `BlockService.BlockService.FinalizeConsolidation` | trinci-core-new/src/services/block_service.rs:607-656 | adopts the block as tip, resets round and build flag, reports the height to a running alignment, and tells the consensus and the transaction service once each |
| `Alignment.BestLastBlock` | trinci-core-new/src/services/block_service.rs:665-731 | the target is reported at the most positions, the highest among those; trusted are exactly the neighbours at its positions, in order, without repeats if the neighbours are; there is none iff a request failed or nobody reported |
| `Alignment.ReportersAt` | trinci-core-new/src/services/block_service.rs:684-708 | the reporters of a block are the neighbours at exactly the positions that reported it, in rising order |
| `Alignment.Tally` | trinci-core-new/src/services/block_service.rs:684-708 | the candidates are exactly the reported blocks with their reporters in order |
| `Alignment.CatchUp` | trinci-core-new/src/services/block_service.rs:290-326 | sends at most target minus start requests, exactly that many when heights arrive one by one, stops with the first height that reaches the target, and reaches it iff one arrives |
| `TransactionService.TransactionService.OnAddTx` | trinci-core-new/src/services/transaction_service.rs:143-160 | inserts a verified transaction under its hash; a new one outside alignment makes the service ask for a timer iff it is the only one and for a block iff there are three and none was pending, so three pooled always have a request pending; anything else asks for nothing |
| `TransactionService.TransactionService.OnAddTxs` | trinci-core-new/src/services/transaction_service.rs:161-181 | inserts the verified ones in order; outside alignment asks for a timer iff the batch brings the first transaction and for one block iff it brings a new one, there are then three and none was pending |
| `TransactionService.TransactionService.Admit` | trinci-core-new/src/services/transaction_service.rs:149-153 | keeps each pool key listed exactly once in the collector |
| `TransactionService.TransactionService.OnAlignment` | trinci-core-new/src/services/transaction_service.rs:182-187 | sets the alignment flag and keeps the rest |
| `TransactionService.TransactionService.OnBlockConsolidated` | trinci-core-new/src/services/transaction_service.rs:190-214 | removes exactly the executed hashes, then asks for a timer iff one or two are left, and for a block iff three are left and no alignment runs |
| `TransactionService.TransactionService.DropExecuted` | trinci-core-new/src/services/transaction_service.rs:192-195 | removal keeps pool and collector in step |
| `TransactionService.TransactionService.PaceNextBlock` | trinci-core-new/src/services/transaction_service.rs:196-213 | forgets the pending request and asks for a timer iff one or two transactions are pooled, for a block iff three and no alignment runs |
| `TransactionService.TransactionService.OnCollectBlockTxs` | trinci-core-new/src/services/transaction_service.rs:215-242 | sends exactly the pooled transactions of the given hashes, in order |
| `TransactionService.TransactionService.OnCheckOldTxs` | trinci-core-new/src/services/transaction_service.rs:243-288 | unless an alignment runs, sends exactly the due transactions in collector order and renews exactly their ages |
| `TransactionService.WaitingLaws` | trinci-core-new/src/services/transaction_service.rs:258-281 | due is decided entry by entry, in order: pooled and at least 60 seconds old |
| `TransactionService.FoundLaws` | trinci-core-new/src/services/transaction_service.rs:322-327 | entries are found hash by hash, in order, with nothing for a hash that is not pooled |
| `TransactionService.InsertLaws` | trinci-core-new/src/services/transaction_service.rs:161-181 | a batch is inserted one by one, the last entry under a hash stays, and what does not verify is left out |
| `TransactionService.TransactionService.GetTxs` | trinci-core-new/src/services/transaction_service.rs:317-335 | returns exactly the requested entries that are pooled, in order |
| `TransactionService.TransactionService.FoundInOrder` | trinci-core-new/src/services/transaction_service.rs:322-327 | when all requested hashes are pooled, one entry per hash comes back, in order and under its hash |
| `TransactionService.TransactionService.GetUnconfirmedHashes` | trinci-core-new/src/services/transaction_service.rs:336-355 | lists every pooled hash once with its size |
| `TransactionService.TransactionService.CheckWhetherToBuildBlock` | trinci-core-new/src/services/transaction_service.rs:368-397 | requests a block iff not aligning, enough transactions and no request pending |
| `TransactionService.PaceRequest` | trinci-core-new/src/services/transaction_service.rs:387-396 | a request made while none is pending keeps a consolidation between any two requests and is itself pending |
| `TransactionService.PaceConsolidation` | trinci-core-new/src/services/transaction_service.rs:196-196 | a consolidation settles every earlier request |
| `TransactionService.RetainKeeps` | trinci-core-new/src/services/transaction_service.rs:194-194 | retaining other hashes leaves each remaining key listed exactly once |
| `TransactionService.RetainLaws` | trinci-core-new/src/services/transaction_service.rs:194-194 | retaining is decided entry by entry, in order |
| `Seed.GetSeed` | trinci-core-new/src/artifacts/models.rs:310-383 | the padded, combined and chunked XOR equals the XOR of the separate eight-byte folds of the fields and the previous seed |
| `Seed.FoldChunks` | trinci-core-new/src/artifacts/models.rs:366-374 | the chunk loop computes the fold of every byte position |
| `Seed.FoldXor` | trinci-core-new/src/artifacts/models.rs:336-356 | folding is linear |
| `Seed.FoldZeros` | trinci-core-new/src/artifacts/models.rs:358-364 | trailing zeros do not change a fold |
| `Seed.FieldOrderIrrelevant` | trinci-core-new/src/artifacts/models.rs:336-356 | exchanging neighbouring fields gives the same seed |
| `Seed.PaddingIrrelevant` | trinci-core-new/src/artifacts/models.rs:323-334 | trailing zero bytes of any of the five fields give the same seed |
| `Seed.FieldByteChanges` | trinci-core-new/src/artifacts/models.rs:336-381 | replacing byte i of any of the five fields changes the seed at byte i mod 8 alone, by XOR with the old and the new byte |
| `Seed.EmptySeed` | trinci-core-new/src/artifacts/models.rs:376-382 | with all five fields empty the seed is the previous one |
| `Seed.FoldReplaced` | trinci-core-new/src/artifacts/models.rs:366-374 | one replaced byte changes one byte of the fold |
| `LeaderDraw.DRandService.constructor` | trinci-core-new/src/services/drand_service.rs:55-73 | starts from the given source |
| `LeaderDraw.DRandService.OnUpdateSeedSource` | trinci-core-new/src/artifacts/models.rs:128-138 | replaces the three hashes and clears the previous seed |
| `LeaderDraw.DRandService.OnGetDRandNum` | trinci-core-new/src/services/drand_service.rs:127-150 | the number depends only on the source; only the previous seed changes |
| `LeaderDraw.HistoryIndependence` | trinci-core-new/src/services/drand_service.rs:98-150 | after the same update and k draws, source and next raw draw are equal on two nodes of one network, whatever was served before and whatever maxima were asked |
| `LeaderDraw.DrawNewLeader` | trinci-core-new/src/services/consensus_service.rs:857-911 | the leader is a player and a function of network, block, players and the number of draws the generator serves between the update and this one, so nodes that serve equally many elect the same; if the generator does not answer, the old leader stays |
| `LeaderDraw.DrawBetweenMatters` | trinci-core-new/src/services/drand_service.rs:127-150 | for two equal players and any block some generator elects another leader once any number is drawn in between |
| `LeaderDraw.ElectedOwner` | trinci-core-new/src/services/consensus_service.rs:888-903 | with no draw in between the leader is the player in whose interval of weights the number drawn from the block's three hashes falls |
| `LeaderDraw.ValueLaws` | trinci-core-new/src/artifacts/models.rs:148-153 | a drawn word is read as a number with its most significant byte first |
| `LeaderDraw.Players.GetWeightedPlayerIds` | trinci-core-new/src/artifacts/models.rs:240-249 | the nested loops compute the expansion of ids by weights |
| `LeaderDraw.Players.PushPlayer` | trinci-core-new/src/artifacts/models.rs:253-258 | ids stay distinct, earlier players keep their weights, the total grows by a new player's weight only |
| `LeaderDraw.EntryOwner` | trinci-core-new/src/artifacts/models.rs:240-249 | entry k belongs to the player whose prefix-sum interval contains k |
| `LeaderDraw.EntryHasOwner` | trinci-core-new/src/artifacts/models.rs:240-249 | every index below the total lies in such an interval |
| `LeaderDraw.OwnedDraws` | trinci-core-new/src/artifacts/models.rs:240-249 | a distinct id owns exactly its weight in entries, a stranger none |
| `LeaderDraw.ExpandLength` | trinci-core-new/src/services/consensus_service.rs:888-903 | the expansion has as many entries as the total weight, so a drawn index is in bounds |
| `Fuel.AdjointIff` | trinci-node/src/utils.rs:55-79 | bitbell b buys at most f iff f costs at least b, exactly outside the mispriced pairs |
| `Fuel.FuelAdjointIff` | trinci-node/src/utils.rs:129-156 | a fuel amount is priced consistently with every bitbell amount iff it lies from 500000 to 100000000 |
| `Fuel.BitbellAdjointIff` | trinci-node/src/utils.rs:55-79 | a bitbell amount is consistent with the price of every fuel amount iff it is at most 4691000 and not 1000 |
| `Fuel.RoundTripIff` | trinci-node/src/utils.rs:129-156 | of all u64 amounts, bitbell survives conversion to fuel and back iff it lies in the growth ranges or is 9731165292141666368, which wraps around on both ways |
| `Fuel.SaturationWraps` | trinci-node/src/utils.rs:158-161 | for every argument the wrapped machine computation is the saturation line modulo 2^64 |
| `Fuel.OneWrapped` | trinci-node/src/utils.rs:146-161 | exactly one u64 is a fixed point of the saturation line taken twice modulo 2^64 |
| `Fuel.NeverOverchargedIff` | trinci-node/src/utils.rs:104-110 | for every amount, no burn within the granted limit costs more than was granted iff the amount is in the growth ranges or at least 995409000000 |
| `Fuel.Monotone` | trinci-node/src/utils.rs:129-156 | both conversions are monotone across all ranges |
| `Fuel.SaturationJump` | trinci-node/src/utils.rs:146-150 | 100000000 fuel costs 4691000 bitbell, one unit more costs 95409001000 |
| `Fuel.BitbellClosed` | trinci-node/src/utils.rs:55-79 | up to the bound the machine computation equals the exact piecewise line |
| `Fuel.FuelClosed` | trinci-node/src/utils.rs:129-156 | up to the bound the machine computation equals the exact piecewise line |
| `Fuel.SaturationExact` | trinci-node/src/utils.rs:158-161 | no intermediate leaves i64 and no negative value is cast, up to 9223372036854775 |
| `Fuel.RetrieveYExact` | trinci-node/src/utils.rs:163-166 | in its ranges the direct line is exact and not negative |
| `Fuel.CalculateWmFuelLimit` | trinci-node/src/utils.rs:85-113 | the maximum before activation, then nothing without an asset, else what the smaller of limit and balance buys, capped |
| `Multihash.New` | trinci-core-new/src/crypto/hash.rs:77-101 | succeeds iff the value has at most 36 bytes, or 32 for SHA-256; the 38 bytes are then 0x00 or 0x12, the length, the value, and zeros |
| `Multihash.FromBytes` | trinci-core-new/src/crypto/hash.rs:115-138 | accepts exactly the byte strings with a known first byte, the right length byte and an allowed length, and the result encodes back to the input |
| `Multihash.AsBytes` | trinci-core-new/src/crypto/hash.rs:154-156 | the bytes of a constructible hash are an encoding |
| `Multihash.RoundTrip` | trinci-core-new/src/crypto/hash.rs:115-156 | reading back the bytes of a constructible hash gives that hash |
| `Multihash.EncodingDetermines` | trinci-core-new/src/crypto/hash.rs:40-41 | equality of the 38-byte arrays is equality of the encodings |
| `Multihash.Default` | trinci-core-new/src/crypto/hash.rs:47-50 | the default is the empty identity hash |
| `TransactionIndex.Db.StoreTransaction` | trinci-node/src/artifacts/rocks_db.rs:308-325 | for a transaction stored under its own or its primary hash, each attachment keeps pointing to a stored payload that carries it, every key stays one of those two hashes, and storing a key again never changes its payload |
| `TransactionIndex.StoreKeeps` | trinci-node/src/artifacts/rocks_db.rs:308-325 | storing keeps keys and attachment index consistent, and the payload under a stored key is the new one's |
| `TransactionIndex.SameKey` | trinci-node/src/artifacts/models.rs:776-809 | since hashes do not collide, equal keys mean equal payloads, equal primary hashes the same transaction, and no key is both kinds of hash |
| `TransactionIndex.PutAllContents` | trinci-node/src/artifacts/rocks_db.rs:316-321 | the node loop points exactly the nodes to the bulk |
| `TransactionIndex.Db.StoreBlock` | trinci-node/src/artifacts/rocks_db.rs:334-350 | appends the block with its confirmations and its hash list, and touches no other height |
| `TransactionIndex.Db.StoreExecuted` | trinci-node/src/services/wasm_service.rs:380-467 | stores each executed transaction under its own hash and lists primary hashes at height zero, own hashes above, so every list keeps its kind; no stored payload changes |
| `TransactionIndex.Db.Bootstrap` | trinci-node/src/services/wasm_service.rs:242-272 | after genesis, loading block 0 gives back exactly the bootstrap transactions, although none of them has the hash listed for it |
| `TransactionIndex.Db.StoreCopies` | trinci-node/src/services/wasm_service.rs:265-272 | every genesis transaction is afterwards stored under its primary hash |
| `TransactionIndex.Db.Replay` | trinci-node/src/services/wasm_service.rs:366-467 | round trip of a whole chain: after genesis and any further blocks each height loads the block, confirmations and payloads stored for it, unless the block has no transaction, and the largest height loads the last block |
| `TransactionIndex.Db.StoreChain` | trinci-node/src/services/wasm_service.rs:366-467 | storing further blocks keeps at every position what was stored there |
| `TransactionIndex.Db.StoreNext` | trinci-node/src/services/wasm_service.rs:366-467 | the next block is appended with its list, and every earlier position keeps what was stored there |
| `TransactionIndex.Db.StoreGenesis` | trinci-node/src/services/wasm_service.rs:242-272 | after genesis in an empty database its transactions are stored under their listed primary hashes |
| `TransactionIndex.Db.ChainLoads` | trinci-node/src/artifacts/rocks_db.rs:174-203 | a stored chain is remembered height by height |
| `TransactionIndex.Db.StoredBlockLoads` | trinci-node/src/artifacts/rocks_db.rs:183-203 | round trip: the block at a position whose listed transactions are stored loads, unless it has none, with its confirmations and their payloads in order, and at height zero with the very transactions |
| `TransactionIndex.Db.LoadsSelected` | trinci-node/src/artifacts/rocks_db.rs:165-187 | a height loads the block and the confirmations at its own position, the largest u64 the last ones |
| `TransactionIndex.Db.LoadedFrom` | trinci-node/src/artifacts/rocks_db.rs:122-151 | what loads is the stored transaction itself, or else the parent's first node with that hash, signature included, wrapped as a unit |
| `TransactionIndex.Db.LoadedHash` | trinci-node/src/artifacts/rocks_db.rs:122-151 | what is loaded under a hash has that hash iff the hash is not the key of a stored transaction with another hash, that is, not the primary hash of a genesis copy |
| `TransactionIndex.Db.NodeLoads` | trinci-node/src/artifacts/rocks_db.rs:128-150 | a hash last stored as a node loads, whatever was stored since, iff it is itself stored or its parent is wrapped as a bulk |
| `TransactionIndex.Db.LoadsIff` | trinci-node/src/artifacts/rocks_db.rs:110-151 | a contained hash fails to load iff it is not itself a stored transaction and its parent is wrapped as a unit or has no such node, in which case it is the bulk's root |
| `TransactionIndex.Db.RootWitness` | trinci-node/src/artifacts/rocks_db.rs:316-316 | after storing a bulk in an empty database its root is contained, and loads iff one of its nodes has the root's payload |
| `TransactionIndex.Db.UnitWitness` | trinci-node/src/artifacts/rocks_db.rs:129-133 | storing a bulk's payload again in a unit, under the same hash, leaves its nodes contained but not loadable |
| `TransactionIndex.Db.LoadAllComplete` | trinci-node/src/artifacts/rocks_db.rs:188-195 | loading gives as many transactions as hashes iff each loads, and then in order |
| `TransactionIndex.Db.FullBlockMatches` | trinci-node/src/artifacts/rocks_db.rs:183-212 | a full block is returned iff nothing is missing, with the block and confirmations at the selected position and one loaded transaction per listed hash in order; these hash to the stored list iff the block's height is above zero |
| `TransactionIndex.Db.ListedMatchesIff` | trinci-node/src/services/wasm_service.rs:446-463 | what loads under a listed hash has that hash iff the height of the list is above zero |

## Left out

- ConsensusService.ConsensusService.HandleMessages: covers the state that decides votes and the messages that carry votes, proposals and starts; other outputs (round notices, misalignment notices, requests and forwarded blocks) and the collector of early blocks are not modelled.
- ConsensusService.ConsensusService.OnBlockElectionFailed: the round notice to the block service and the delayed attempt to build in the leader's place are not modelled; a later build may happen at any time.
- ConsensusService.ConsensusService.OnBlockConsolidated: the leader draw is modelled apart in LeaderDraw; the collector of early blocks and its re-sending to the block service are not modelled, so a block may be executed at any time.
- ConsensusService.ConsensusService.OnBlockFromPeer: does not model the collector of early blocks or the forwarding to the block service.
- ConsensusService.ConsensusService.OnCheckOldBlockProposals: does not model proposal timestamps, the misalignment notice, or asking peers for confirmations of old proposals.
- ConsensusService.ConsensusService.DropPassedRounds: models the part of the check that changes the table.
- ConsensusService.ConsensusService.OnVerifyConfirmations: does not model forwarding a retrieved block to the block service.
- BlockService.BlockService.BuildBlock: the header's hash, signature and roots, filled in by signing and execution, are parameters.
- TransactionService.TransactionService.OnCheckOldTxs: the clock is a parameter and does not run backwards.
- Heights, rounds and sizes are unbounded numbers; the u64 and u8 limits are not modelled.
- The hash and signature algorithms, key pairs and TPM are foreign code.
- Sleeping threads and timeouts appear as messages that may arrive at any time.
- The WASM machine and its service are a relay that keeps a block's height and previous hash; what it stores is in TransactionIndex.
- Answering requests for players, leader and pool length, and confirming a build in the leader's place, only read state.
- The contents of the set of pooled attachments, which nothing reads, carry no property.
- Receipts, accounts, configuration, forks and merges of the database.
- P2P, REST, socket, Kafka, indexer, playground, command line and the mining tool.
- A crash that loses the exit poll.
