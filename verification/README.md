# Verified model of the Horizen sidechain protocols

This project models, in Dafny, the protocols by which a Zendoo sidechain node follows its mainchain,
and proves what they promise for every input, every run and every reachable state.

The centre is the forger that follows the mainchain through reorganisations. A sidechain block carries
mainchain headers, mainchain reference data and ommers, that is, sidechain blocks that had to be
abandoned because the mainchain blocks they referenced are no longer active. The model takes any
sequence of mainchain extensions, reorganisations and forging attempts with any mix of delays.

| files | what they hold |
|---|---|
| `Mainchain`, `Sidechain` | mainchain branches, sidechain blocks, ommers, scores, withdrawal epochs |
| `OmmersValidation`, `ReferenceValidation` | the checks on received ommers and reference data |
| `Forger`, `ForgerSteps`, `ForgerRuns` | choosing a branch point, forging, adoption, and what every run keeps |
| `ForkChoice` | the choice between the active chain and a received block's, whoever forged it |
| `ForgerDelay`, `ForgerCatchUp` | the reference delay, catching up in batches |
| `RewriteLimit`, `HeaderlessLimit` | the limits on rewriting history and on blocks without mainchain headers, and the runs in which a node refuses its own block |
| `MainchainSync`, `CommitmentHashes`, `ForgerNode` | the locator search, the recorded commitment hashes, and the node as an object proved against the step function |
| `Scenarios` | traces of the functional tests as statements about the model |
| `KeyRotation` | certificate signing and master keys, and the contract that rotates them |
| `LogSubscription`, `LogServer` | the `logs` subscription of the account websocket with its `removed` events |
| `BackwardTransferLimit`, `WithdrawalStall` | slots for withdrawal requests per mainchain reference, and how they can stop the forger for good |
| `Boxes`, `Mempool` | unspent boxes and the repair of the mempool after a chain switch |
| `Ceasing`, `CeasedWithdrawal` | ceasing and what can be claimed afterwards |
| `CertificateSubmission` | collecting signatures and submitting certificates |
| `Collections` | shared facts about sequences, sets and maps |
| `FeePayments` | redistribution of block fees |
| `ConsensusTime` | consensus epochs and slots under parameter forks |
| `ForgerList` | the vote that opens the closed forger list |

`dafny verify dfyconfig.toml` checks everything.

## Reading the model

A mainchain block value contains its parent, as a block hash commits to its parent hash, so two blocks
are equal exactly when their hashes are; the block with the sidechain creation is the root of every
branch and is never disconnected. Hashes are free constructors, a signature is valid for a key and a
message exactly when it was made with that key over that message. Block identifiers are numbers given in
the order of forging. Integers are unbounded, except where the width matters: the forger list of the EVM
contract is summed up in bytes and the model wraps.

Clocks, randomness, the network and the mainchain node become parameters: the slot of an attempt, how
much reference data fits and can be fetched in time, the mainchain's answers. The mainchain node's reply
to a locator is the first entry on its active branch.

## Properties that hold only under a condition

Each of these is stated for the code as it is, with the condition under which it holds and, where it can
fail, an input or a run that shows it.

- The tip's score equals the number of forged blocks exactly when no forged block was refused. The node
  refuses its own block exactly when more than `maxHistoryRewritingLength` blocks would be replaced, or when
  the limit on blocks without mainchain headers is active, the block brings no reference data and the blocks
  before it already end in as many blocks without headers as allowed. Every value of the limit has runs of
  both kinds (`RewriteLimit.TooDeepIsRefused`, `HeaderlessLimit.SingleOrphanCanBeRefused`). This is about
  the history's own rules; the checks on transactions are apart, and the one on withdrawal requests can refuse
  a node's own block as well (`WithdrawalStall`, below).
- The forger checks the limit on blocks without headers on the new block's headers, the node that applies the
  block checks it on the reference data. A block with ommers has headers and never has reference data. So even
  the switch after a single orphaned header can be refused, and then, while the mainchain only grows, every
  later attempt is refused as well (`HeaderlessLimit.StuckForGood`). A single orphaned header is adopted
  exactly when the block brings reference data or the blocks it extends do not end in that many without
  headers (`ForgerDelay.SingleOrphanAdoptedIff`).
- A forger whose chain holds at least 49 - d orphaned headers never forges again on a growing mainchain.
- The first block of a withdrawal epoch is checked against the previous epoch's counter and with all slots
  open, so an epoch can start above its open slots. The maximum of 3999 is never exceeded. While more requests
  are stored than slots are open, every block with a transaction is refused, and the aggregated transaction of a
  reference with forward transfers is one: what the forger chose passes exactly when no reference of the block
  brings a transfer or the stored requests are within the slots open with the block's references
  (`BackwardTransferLimit.ChoiceAllowedIff`, with a counterexample). A block brings at most 49 new references.
  So when nothing is missed, the next reference brings a transfer and 49 references would not open enough
  slots, no reference, header or transaction is ever included again on a growing mainchain
  (`WithdrawalStall.StalledForGood`), every epoch length above 50 has such runs (`WithdrawalStall.StallRun`),
  and otherwise the forger gets on (`WithdrawalStall.GetsOnIff`).
- Opening the list takes a strict majority. On the UTXO chain the votes of one block are not counted
  against each other, so at most half plus one vote in a run exactly when the opening block carries exactly
  the missing votes; in the EVM contract the byte sum can never pass 127, so with 254 or more listed forgers
  the list cannot be opened.
- Log events are exact as long as no switch goes more than 100 blocks below the highest tip; otherwise the
  `removed` events of blocks that dropped out of the cache are missing and clients keep stale logs.
- The epoch of a timestamp is right at every instant exactly when it is right within one slot of the first fork
  after the start of each fork, where the node still counts on with the fork before. In closed form: if no fork
  comes after genesis, or every epoch since genesis is longer than one slot of the first fork, it is right; if
  some of these epochs are longer and some are not, it is wrong.
- A certificate beats every known one when its proof is ready exactly when no certificate of at least its
  quality came from elsewhere and stayed known while the proof was made; an overtaken certificate is still sent
  if another signature arrived in between. The qualities sent increase strictly exactly when no proof that was
  started with no more signatures than the last certificate had is confirmed. Such a start takes an error reply,
  or a best quality below one that was sent because the mainchain turned it down or forgot it. Qualities fall
  at most once each time the window is left, and are repeated at most once each time it is left or the
  submitter switched on.

Where the code and the test scripts differ the model follows the code: the certificate submission window is
max(2, L/5) mainchain blocks (`sdk/src/main/scala/io/horizen/utils/WithdrawalEpochUtils.scala` line 100)
where the scripts use int(L/5), and slots are opened as 3999 * references / (L - 1), rounded once, so two
references of an epoch of length 11 open 799 slots where a script counts 798.

## Model

| member | source | states |
|---|---|---|
| Sidechain.ChainScoreIsFlattenLength | sdk/src/main/scala/io/horizen/block/OmmersContainer.scala:17 | a chain's score is the number of blocks it remembers, on the chain or as an ommer at any depth |
| Sidechain.NextEpochAligned | sdk/src/main/scala/io/horizen/utils/WithdrawalEpochUtils.scala:11-52 | inside an epoch references are counted on, after a full epoch counting restarts |
| Sidechain.EpochCountsReferences | sdk/src/main/scala/io/horizen/utils/WithdrawalEpochUtils.scala:11-52 | epoch number and index together count every reference of the chain exactly once |
| OmmersValidation.ValidityIsKept | sdk/src/main/scala/io/horizen/block/Ommer.scala:90-117 | turning a block into an ommer does not change the verdict on its headers and ommers |
| OmmersValidation.ValidBlockIff | sdk/src/main/scala/io/horizen/block/OmmersContainer.scala:19-76 | a block is valid if and only if its headers are linked, its score counts all blocks its ommers remember, and its ommers are valid, consecutive siblings in growing earlier slots whose headers start on the same mainchain block, part from the block's own within the first ommer and are fewer |
| OmmersValidation.ValidRefDataKeepsPrefix | sdk/src/main/scala/io/horizen/history/validation/MainchainBlockReferenceValidator.scala:85-113 | a block passes the reference-data check if and only if the chain's reference data stays a prefix of its headers |
| ReferenceValidation.MissedByWalkingBack | sdk/src/main/scala/io/horizen/history/validation/MainchainBlockReferenceValidator.scala:53-83 | the loop back through history finds exactly the headers whose data is missing |
| ReferenceValidation.ValidateReferences | sdk/src/main/scala/io/horizen/history/validation/MainchainBlockReferenceValidator.scala:53-113 | the whole check accepts exactly the blocks that keep reference data a prefix of headers |
| ForgerSteps.CommonPart | sdk/src/main/scala/io/horizen/forge/AbstractForgeMessageBuilder.scala:232-249 | the headers kept from an orphaned block are those still on the active branch |
| ForgerSteps.BranchPointFollowsMainchain | sdk/src/main/scala/io/horizen/forge/AbstractForgeMessageBuilder.scala:192-250 | parent's headers and the new headers together are a first part of the active branch, whether the tip is extended or a branch left |
| ForgerSteps.OmmersContainerIsValid | sdk/src/main/scala/io/horizen/block/OmmersContainer.scala:19-76 | the abandoned suffix passes every rule for ommers: order, slots, common origin, fewer headers than the container |
| ForgerSteps.ForgedIsAttachable | sdk/src/main/scala/io/horizen/forge/AbstractForgeMessageBuilder.scala:257-375 | every forged block passes the checks on parent, slot, header link, reference data, epoch end, header order and ommers of a node that receives it; size limits are not modelled |
| ForgerSteps.ForgedContents | sdk/src/main/scala/io/horizen/forge/AbstractForgeMessageBuilder.scala:272-298 | the block's headers continue the active branch and its ommers are the blocks left behind, unchanged |
| ForgerSteps.Extended | sdk/src/main/scala/io/horizen/history/AbstractHistory.scala:63-91 | attaching a block that passes those checks, the header link among them, gives a chain every node accepts |
| ForgerSteps.StretchAttaches | sdk/src/main/scala/io/horizen/chain/ActiveChain.scala:91-107 | headers that continue the active branch after the parent's headers pass the link check |
| ForgerSteps.AssembledTakesAllItMay | sdk/src/main/scala/io/horizen/forge/AbstractForgeMessageBuilder.scala:208-224 | a block on the tip takes reference data until the budget is used up, the epoch ends or nothing is missed any more |
| ForgerDelay.TransactionsCarriedIff | sdk/src/main/scala/io/horizen/forge/AbstractForgeMessageBuilder.scala:337-348 | in every run the offered transactions go into the block if and only if all headers of the chain are active and the block does not complete its withdrawal epoch; otherwise it carries none |
| ForgerRuns.AttachRemembers | sdk/src/main/scala/io/horizen/history/AbstractHistory.scala:131-136 | whatever was left behind, the new chain remembers the same blocks and the new one, and scores one more |
| ForgerRuns.AdoptedIff | sdk/src/main/scala/io/horizen/AbstractSidechainNodeViewHolder.scala:442-454 | fork choice always prefers a forged block; it is refused exactly when too many blocks would be replaced, or when the limit is active, it has no reference data and too many blocks before it have no headers |
| ForkChoice.ReceivedIff | sdk/src/main/scala/io/horizen/history/AbstractHistory.scala:63-129 | any received block replaces the active chain if and only if the chain it makes has a higher score, or an equal one and more blocks, and neither limit stands against it; otherwise the chain stays |
| ForkChoice.ScoreNeverFalls | sdk/src/main/scala/io/horizen/history/AbstractHistory.scala:121-129 | whatever blocks are received and forged, from any state, the active chain changes only to a better one and its score never falls |
| ForgerRuns.StepKeepsInv | sdk/src/main/scala/io/horizen/history/AbstractHistory.scala:63-119 | every step keeps the chain good and keeps what it remembers equal to the adopted blocks in order |
| ForgerRuns.RunKeepsInv | qa/mc_sc_forging3.py:90-173 | the same over every run |
| ForgerRuns.ScoreCountsForgedBlocks | qa/mc_sc_forging1.py:143-201 | in every run the score counts each adopted block once, and equals the number of forged blocks if and only if none was refused |
| ForgerRuns.ForgeRaisesScoreByOne | qa/mc_sc_forging1.py:194-201 | an attempt raises the score by exactly one, or leaves the chain alone when one of the two limits refuses the block |
| ForgerRuns.RememberedOnce | qa/mc_sc_forging3.py:167-173 | no block is remembered twice |
| ForgerRuns.ForgedIsWellPlaced | qa/mc_sc_forging2.py:128-142 | the parent is the last block with only active headers behind it, ommers are the suffix after it in order, and blocks with ommers carry neither reference data nor transactions |
| ForgerRuns.EveryForgedBlockIsAccepted | qa/mc_sc_forging2.py:91-148 | in every run every forged block passes the checks of every other node, and is accepted unless it has no reference data after too many blocks without headers |
| ForgerRuns.EveryForgeRaisesScoreByOne | qa/mc_sc_forging1.py:143-145 | in every run every forging step raises the score by one, or is refused by one of the two limits |
| ForgerRuns.EveryForgedBlockIsWellPlaced | qa/mc_sc_forging1.py:186-201 | in every run the parent is the deepest block with only active headers and the ommers are the abandoned suffix with sub-ommers intact |
| ForgerRuns.HeadersFormOnePath | qa/mc_sc_forging1.py:153-165 | in every run the headers are one contiguous mainchain path without repetition and the reference data is a prefix of it |
| ForgerRuns.AdoptionFollowsActiveBranch | qa/mc_sc_forging_different_delay.py:142-193 | an adopted block brings the headers back to a first part of the active branch, whatever delays the forgers before it used |
| ForgerDelay.OmmersIffOrphaned | qa/mc_sc_forging1_with_mc_block_delay.py:114-132 | a block has ommers if and only if the chain holds a header that is no longer active |
| ForgerDelay.EveryOmmerIsOrphaned | qa/mc_sc_forging1_with_mc_block_delay.py:114-132 | the same for every block of every run |
| ForgerDelay.DelayPreventsOmmers | qa/mc_sc_forging3_with_mc_block_delay.py:101-119 | with reorganisations of at most d blocks and delays of at least d, no block of the run ever has an ommer, and without the limit on blocks without headers none is refused |
| ForgerDelay.DelayIsSharp | sdk/src/main/scala/io/horizen/forge/AbstractForgeMessageBuilder.scala:206 | for every delay d up to 47 a reorganisation of d + 1 blocks does produce ommers |
| ForgerDelay.LongDelayNeverLeavesBlocks | sdk/src/main/scala/io/horizen/forge/AbstractForgeMessageBuilder.scala:225-230 | with a delay of 48 or more no block ever has ommers |
| ForgerDelay.NoSenseIff | sdk/src/main/scala/io/horizen/forge/AbstractForgeMessageBuilder.scala:225-230 | forging is refused exactly when there are orphaned headers and no more new ones than those |
| ForgerDelay.StoppedForGoodIff | sdk/src/main/scala/io/horizen/forge/AbstractForgeMessageBuilder.scala:192-230 | on a growing mainchain the forger is stopped for good exactly when the orphaned headers reach 49 minus the delay |
| ForgerDelay.HeaderlessBounded | sdk/src/main/scala/io/horizen/storage/AbstractHistoryStorage.scala:142-168 | with the limit active a chain never ends in more than max(1, maxHistoryRewritingLength - 1) blocks without headers |
| ForgerDelay.SkipIff | sdk/src/main/scala/io/horizen/forge/AbstractForgeMessageBuilder.scala:331-335 | a slot is skipped if and only if nothing new can be included and that many blocks without headers end the chain |
| ForgerDelay.SingleOrphanAdoptedIff | sdk/src/main/scala/io/horizen/AbstractSidechainNodeViewHolder.scala:442-454 | with the limit active the switch after a single orphaned header is adopted if and only if it brings reference data or the blocks it extends do not end in too many without headers |
| ForgerCatchUp.AttemptAdvances | sdk/src/main/scala/io/horizen/forge/AbstractForgeMessageBuilder.scala:195-224 | on an active chain one attempt covers exactly the next portion that request and delay allow, unless the node refuses its block for lack of reference data |
| ForgerCatchUp.CatchUpStepsExact | qa/mc_sc_forging4_with_mc_block_delay.py:72-102 | everything but the last d pending blocks is included, once and in order, after exactly as many accepted attempts as portions are needed, and not earlier |
| ForgerCatchUp.CatchUpStepsDivision | qa/mc_sc_forging4_with_mc_block_delay.py:72-102 | the number of accepted attempts is (n - d) / (49 - d) rounded up |
| ForgerCatchUp.CatchUpSteps | qa/mc_sc_forging4.py:67-88 | without the limit on blocks without headers, or with room for reference data in every block, that many attempts are needed and suffice |
| ForgerCatchUp.TooLongDelayNeverAdvances | sdk/src/main/scala/io/horizen/forge/AbstractForgeMessageBuilder.scala:206 | a delay of 49 or more never includes anything |
| RewriteLimit.TooDeepIsRefused | sdk/src/main/scala/io/horizen/history/AbstractHistory.scala:195-207 | for every limit there is a run in which the node refuses its own block and the score is smaller than the number of forged blocks |
| HeaderlessLimit.RefusedIffStuck | sdk/src/main/scala/io/horizen/account/history/AccountHistory.scala:46-62 | a block with ommers is refused for lack of reference data exactly when what the forger goes back to ends in too many blocks without headers |
| HeaderlessLimit.StuckForGood | sdk/src/main/scala/io/horizen/AbstractSidechainNodeViewHolder.scala:442-454 | while the mainchain only grows, a chain in that state never changes again |
| HeaderlessLimit.SingleOrphanCanBeRefused | sdk/src/main/scala/io/horizen/forge/AbstractForgeMessageBuilder.scala:331-335 | for every limit there is a run after which one header is orphaned, the forger makes a block that replaces one block, and its own node refuses it |
| MainchainSync.LocatorIndexes | sdk/src/main/scala/io/horizen/history/AbstractHistory.scala:531-549 | the locator descends from the best header to the creation block, the first ones in a row, and has logarithmic length |
| MainchainSync.CommonPoint | sdk/src/main/scala/io/horizen/forge/MainchainSynchronizer.scala:26-49 | the two-phase search finds the last common block although the locator skips most heights |
| MainchainSync.DivergentSuffix | sdk/src/main/scala/io/horizen/forge/MainchainSynchronizer.scala:17-23 | the suffix starts with the last common block and is cut only by the request limit |
| CommitmentHashes.RecordHeaders | sdk/src/main/scala/io/horizen/chain/MainchainHeaderBaseInfo.scala:33-44 | the loop over a block's headers chains their commitments |
| CommitmentHashes.FindLastRecorded | sdk/src/main/scala/io/horizen/storage/AbstractHistoryStorage.scala:133-140 | the walk back finds the last recorded hash |
| CommitmentHashes.RecordedMatches | sdk/src/main/scala/io/horizen/history/AbstractHistory.scala:142-149 | however headers are spread over blocks, each is recorded with the mainchain's own cumulative hash |
| CommitmentHashes.RecordedInEveryRun | qa/sc_cum_comm_tree_hash.py:74-106 | the same in every run of the forger |
| ForgerNode.CollectRefData | sdk/src/main/scala/io/horizen/forge/AbstractForgeMessageBuilder.scala:304-329 | size limit and timeout only shorten the reference data, nothing is taken after time is up but a first one, and nothing that fits is left out before |
| ForgerNode.TakeRefData | sdk/src/main/scala/io/horizen/forge/AbstractForgeMessageBuilder.scala:208-224 | reference data is a first part of what is missing, within the epoch, and stops only at its end, at the size limit or when time is up |
| ForgerNode.CollectOmmers | sdk/src/main/scala/io/horizen/forge/AbstractForgeMessageBuilder.scala:291-298 | walking back from the tip collects the suffix after the parent in chain order |
| ForgerNode.MissedReferences | sdk/src/main/scala/io/horizen/history/AbstractHistory.scala:568-578 | the heights between the last data and the last header give the missing headers |
| ForgerNode.BranchPointInfo | sdk/src/main/scala/io/horizen/forge/AbstractForgeMessageBuilder.scala:192-250 | network search, delay and case split together compute the specified branch point |
| ForgerNode.TooManyWithoutHeaders | sdk/src/main/scala/io/horizen/storage/AbstractHistoryStorage.scala:142-168 | the backward count with its early exits decides whether the limit is reached |
| ForgerNode.MakeBlock | sdk/src/main/scala/io/horizen/forge/AbstractForgeMessageBuilder.scala:257-375 | the assembled block is the specified one; on the tip its reference data continues the chain's along the headers and takes all that size, time and epoch allow, elsewhere it has none |
| ForgerNode.TryToForge | sdk/src/main/scala/io/horizen/forge/AbstractForgeMessageBuilder.scala:63-77 | the attempt with all its loops yields the specified result, and a block on the tip takes all reference data that size, time and epoch allow |
| ForgerNode.Node.Attempt | sdk/src/main/scala/io/horizen/forge/AbstractForgeMessageBuilder.scala:63-125 | the node's state after an attempt is the specified next state, the invariant of all runs holds, and a block on the tip takes all reference data that size, time and epoch allow |
| ForgerNode.Node.Receive | sdk/src/main/scala/io/horizen/history/AbstractHistory.scala:79-113 | the chain becomes the block's if and only if that has a higher score, or an equal one and more blocks, and neither the rewriting limit nor the limit on blocks without headers (`sdk/src/main/scala/io/horizen/AbstractSidechainNodeViewHolder.scala` lines 442-454) stands against it |
| ForgerNode.Node.MainchainSwitches | qa/mc_sc_forging1.py:101-211 | a switch to a strictly longer branch is the specified step and keeps the invariant |
| ForgerRuns.SwitchesIfLonger | qa/mc_sc_forging1.py:101-211 | the mainchain's branch gives way exactly to a longer one |
| ForgerNode.Node.MainchainMines | qa/mc_sc_forging1.py:101-211 | mining is the specified step and keeps the invariant |
| Scenarios.CatchUpPortions | qa/mc_sc_forging4.py:67-88 | 200 pending blocks come in four portions of 49 and one of 4; with delay 1, 201 come in four of 48 and one of 8 |
| Scenarios.NestedOmmers | qa/mc_sc_forging3.py:90-173 | when two branches overtake each other in turn, after n laps the tip holds n - 1 blocks nested in each other as ommers and the score counts all, for n up to 49 |
| Scenarios.RaceEnds | sdk/src/main/scala/io/horizen/forge/AbstractForgeMessageBuilder.scala:225-230 | after 49 laps no forger can follow the next switch, whatever its delay |
| KeyRotation.KeysFixedWithinEpoch | qa/sc_cert_key_rotation.py:387-458 | rotations of an epoch do not touch the keys that authorise in that epoch |
| KeyRotation.EpochOverlay | qa/sc_cert_key_rotation.py:387-458 | the keys after an epoch are the keys before it overlaid with the last rotation of each slot |
| KeyRotation.OrderOfSlotsIsIrrelevant | qa/sc_cert_key_rotation.py:469-485 | keys depend on the accepted rotations of their own slot alone |
| KeyRotation.ReorderingIsIrrelevant | qa/sc_cert_key_rotation.py:469-485 | reordering the requests of one epoch, with the order within each slot kept, accepts the same requests and gives the same keys |
| KeyRotation.EveryKeyIsCertified | sdk/src/main/scala/io/horizen/account/state/CertificateKeyRotationMsgProcessor.scala:122-147 | every key in force is the never rotated genesis key or comes from a rotation signed by itself and by the two keys in force when its epoch started, which are certified in turn |
| KeyRotation.EveryRunIsCertified | qa/sc_cert_key_rotation.py:302-344 | the same for every run of requests and epochs |
| KeyRotation.StoredIsKeyAt | sdk/src/main/scala/io/horizen/account/state/CertificateKeyRotationMsgProcessor.scala:64-78 | searching the slot's history and then the epoch's entry finds the key in force |
| KeyRotation.KeyInForce | sdk/src/main/scala/io/horizen/account/state/CertificateKeyRotationMsgProcessor.scala:64-78 | the key in force is that of the slot's latest rotation of an earlier epoch, or without one the genesis signing or master key |
| KeyRotation.SubmitTakesEffectIff | sdk/src/main/scala/io/horizen/account/state/CertificateKeyRotationMsgProcessor.scala:122-177 | a request takes effect if and only if its index is in range and it is signed by the slot's signing key, its master key and the new key for this epoch: then its key, of either kind, is the slot's key of the next epoch and no other key changes; otherwise nothing changes |
| KeyRotation.EveryKeyCanBeRotated | qa/sc_cert_key_rotation.py:302-344 | in every state of every run the holders of the keys can rotate each key of either kind |
| KeyRotation.EpochIsCounted | qa/sc_cert_key_rotation_across_epoch.py:294-339 | the epoch counts the epochs passed, and accepted rotations are never lost |
| KeyRotation.StepKeepsGoodLedger | sdk/src/main/scala/io/horizen/account/state/CertificateKeyRotationMsgProcessor.scala:149-177 | every accepted rotation was authorised by the keys in force when it was accepted |
| KeyRotation.AcceptedInOneEpochOnly | qa/sc_cert_key_rotation_across_epoch.py:294-339 | a request can be accepted only in the epoch it was signed for |
| KeyRotation.PastKeysAreFinal | qa/sc_cert_key_rotation_across_epoch.py:360-369 | nothing done later changes the keys of the current or an earlier epoch |
| KeyRotation.Contract.LatestKey | sdk/src/main/scala/io/horizen/account/state/CertificateKeyRotationMsgProcessor.scala:64-78 | the search in storage returns the key in force |
| KeyRotation.Contract.CertifiersKeys | sdk/src/main/scala/io/horizen/account/state/CertificateKeyRotationMsgProcessor.scala:52-62 | the certifiers' keys of an epoch are those in force when the next one starts |
| KeyRotation.Contract.SubmitRotation | sdk/src/main/scala/io/horizen/account/state/CertificateKeyRotationMsgProcessor.scala:149-184 | a request is accepted if and only if index and all three signatures are right; storage then stands for the extended log and the new key is the slot's key of the next epoch; otherwise nothing changes |
| KeyRotation.Contract.AdvanceEpoch | qa/sc_cert_key_rotation.py:387-458 | a new epoch changes no stored key |
| LogSubscription.TestLog | sdk/src/main/scala/io/horizen/account/api/rpc/service/RpcFilter.scala:65-70 | a log matches when its address is asked for and every topic rule, by position, is empty or contains the topic |
| LogSubscription.AddressAlone | sdk/src/main/scala/io/horizen/account/api/rpc/service/RpcFilter.scala:65-70 | without topic rules a log matches exactly when its address is in the list or the list is empty |
| LogSubscription.OneMoreRule | sdk/src/main/scala/io/horizen/account/api/rpc/service/RpcFilter.scala:65-70 | one more rule matches if and only if the old ones do, the log has a topic at that position, and the rule is empty or names it |
| LogSubscription.MoreTopicsStillMatch | sdk/src/main/scala/io/horizen/account/api/rpc/service/RpcFilter.scala:65-70 | a match is kept when a log has further topics |
| LogSubscription.ScriptFilters | qa/account_websocket_server.py:482-560 | the script's filters: the first two of three topics find the log, a fourth rule or an unused topic does not |
| LogSubscription.PopsAbandoned | sdk/src/main/scala/io/horizen/account/websocket/WebSocketAccountServerEndpoint.scala:187-195 | exactly the cached blocks after the new block's parent are taken back |
| LogSubscription.StepKeepsInv | sdk/src/main/scala/io/horizen/account/websocket/WebSocketAccountServerEndpoint.scala:178-252 | the cache mirrors the end of the chain and holds all that any subscription received of it |
| LogSubscription.ExactIff | qa/account_websocket_server.py:557-611 | after a block the client's view equals the matching logs of the active chain since subscription, if and only if no abandoned block with delivered logs had dropped out of the cache |
| LogSubscription.ViewsAreExact | qa/account_websocket_server.py:479-611 | all views are exact in every run whose switches stay within 100 blocks of the highest tip |
| LogSubscription.AppliedBecomesTip | sdk/src/main/scala/io/horizen/account/websocket/WebSocketAccountServerEndpoint.scala:178-252 | an applied block becomes the tip on its parent, and every subscription covers it |
| LogSubscription.OthersUntouched | sdk/src/main/scala/io/horizen/account/websocket/WebSocketAccountServerEndpoint.scala:275-305 | subscribing and unsubscribing concern one subscription and not the chain |
| LogSubscription.ClientHolds | qa/account_websocket_server.py:479-611 | after every run with such switches a client holds exactly the matching logs of those blocks applied since its subscription that are still active |
| LogSubscription.DeepSwitchLeavesStaleLog | sdk/src/main/scala/io/horizen/account/websocket/WebSocketAccountServerEndpoint.scala:249-251 | after 101 blocks a switch to the start makes an exact view inexact: it keeps a log of an abandoned block |
| LogServer.FoldPicked | sdk/src/main/scala/io/horizen/account/websocket/WebSocketAccountServerEndpoint.scala:187-244 | sending a filter's logs, removed or not, changes the client's view by exactly the matching logs, repetitions included |
| LogServer.Server.AddSubscription | sdk/src/main/scala/io/horizen/account/websocket/WebSocketAccountServerEndpoint.scala:275-277 | a new subscription is the specified step of the run, with an empty view |
| LogServer.Server.RemoveSubscription | sdk/src/main/scala/io/horizen/account/websocket/WebSocketAccountServerEndpoint.scala:283-305 | removing one is the specified step, and tells whether there was one |
| LogServer.Server.Announce | sdk/src/main/scala/io/horizen/account/websocket/WebSocketAccountServerEndpoint.scala:235-244 | every client gets its matching logs in block order, and one copy per matching subscription is kept for withdrawal |
| LogServer.Server.TakeBack | sdk/src/main/scala/io/horizen/account/websocket/WebSocketAccountServerEndpoint.scala:187-195 | the loop removes the abandoned cached logs from every client's view and nothing else |
| LogServer.Server.NotifyBlock | sdk/src/main/scala/io/horizen/account/websocket/WebSocketAccountServerEndpoint.scala:178-252 | the server's queues fold to the views of the specified next state |
| LogServer.Server.ClientsHoldExpected | qa/account_websocket_server.py:557-611 | after every run whose switches stay within 100 blocks of the highest tip, what each client has received folds to the matching logs of the active chain since it subscribed |
| BackwardTransferLimit.CheckAllowed | sdk/src/main/scala/io/horizen/utxo/state/SidechainState.scala:279-290 | the running check accepts exactly the blocks whose every partial count stays within the open slots |
| BackwardTransferLimit.SlotsAreAFloor | sdk/src/main/scala/io/horizen/utxo/state/SidechainState.scala:296-299 | references open their share of 3999 slots, rounded down once for all references so far |
| BackwardTransferLimit.AllOpenAtLastButOne | qa/sc_bt_limit.py:251-301 | all 3999 slots are open one reference before the end of the epoch and not earlier |
| BackwardTransferLimit.RunNeverAboveMaximum | sdk/src/main/scala/io/horizen/utxo/state/SidechainState.scala:279-299 | no stored count of a run is above 3999 |
| BackwardTransferLimit.CountsTheEpoch | sdk/src/main/scala/io/horizen/utxo/storage/SidechainStateStorage.scala:315-323 | in every run the stored count is the number of requests that all blocks of the current epoch brought |
| BackwardTransferLimit.NoEpochAboveMaximum | qa/sc_bt_limit.py:225-248 | no epoch of a run gets more than 3999 requests from its blocks |
| BackwardTransferLimit.EpochStaysWithin | qa/sc_bt_limit.py:202-248 | with fair starts the blocks of an epoch bring no more requests than their references opened slots |
| BackwardTransferLimit.WithinIff | sdk/src/main/scala/io/horizen/utxo/state/SidechainState.scala:279-299 | a block keeps the count within the open slots, except for a first block of an epoch whose own requests exceed what its own references open |
| BackwardTransferLimit.RunStaysWithin | qa/sc_bt_limit.py:202-248 | over a run without such blocks the count is always within the open slots and restarts with each epoch |
| BackwardTransferLimit.AnyTransactionRestoresLimit | sdk/src/main/scala/io/horizen/utxo/state/SidechainState.scala:279-299 | inside an epoch every accepted block with a transaction leaves the count within the open slots, from any state |
| BackwardTransferLimit.RunWithinIff | sdk/src/main/scala/io/horizen/utxo/state/SidechainState.scala:279-299 | all states of a run are within the open slots if and only if every first block of an epoch stays within what its own references open |
| BackwardTransferLimit.BoundaryCounterexample | qa/sc_bt_limit.py:317-325 | an epoch can start with all slots used, by transactions that each stay within 1000 boxes |
| BackwardTransferLimit.OverfullBlocksAllTransactions | sdk/src/main/scala/io/horizen/utxo/state/SidechainState.scala:284-289 | while more requests are stored than slots are open, no transaction of any kind is accepted |
| BackwardTransferLimit.TakeWithLimit | sdk/src/main/scala/io/horizen/utxo/mempool/SidechainMemoryPool.scala:64-75 | each transaction is chosen if and only if it fits after those chosen before it in the pool's order; the choice fits the limit and no transaction left out would fit on top of it |
| BackwardTransferLimit.ChoiceAllowedIff | sdk/src/main/scala/io/horizen/utxo/forge/ForgeMessageBuilder.scala:146-182 | with the aggregated transactions of its references first, the block with the forger's choice passes the check if and only if there are none of those or the stored requests are within the open slots |
| BackwardTransferLimit.TransferCounterexample | sdk/src/main/scala/io/horizen/utxo/block/SidechainBlock.scala:43-46 | with 3999 requests stored in an epoch of length 10, a block with a forward transfer is refused unless it has nine references |
| WithdrawalStall.ForgedOnCaughtUp | sdk/src/main/scala/io/horizen/forge/AbstractForgeMessageBuilder.scala:192-224 | on a chain that misses nothing a block takes at most 49 headers next on the branch, and reference data for a first part of them |
| WithdrawalStall.PassesIff | sdk/src/main/scala/io/horizen/utxo/state/SidechainState.scala:279-290 | the check of a block with its aggregated transactions is the running check |
| WithdrawalStall.OverfullPassesIff | sdk/src/main/scala/io/horizen/utxo/state/SidechainState.scala:279-290 | when 49 references would not open enough slots, a block passes exactly when it has no transaction of either kind |
| WithdrawalStall.StalledForGood | sdk/src/main/scala/io/horizen/utxo/state/SidechainState.scala:279-299 | if moreover the next reference brings a transfer, then while the mainchain only grows only empty blocks are ever added |
| WithdrawalStall.GetsOnIff | sdk/src/main/scala/io/horizen/forge/AbstractForgeMessageBuilder.scala:192-224 | with 49 blocks ahead the best attempt includes that reference if and only if 49 references, or what is left of the epoch, open enough slots |
| WithdrawalStall.StallRun | sdk/src/main/scala/io/horizen/utxo/state/SidechainState.scala:279-299 | for every epoch length above 50 a run leads from the start to such a state |
| Boxes.BlockConserves | sdk/src/main/scala/io/horizen/utxo/state/SidechainState.scala:478-489 | a block changes the total value by deposits, withdrawals, fees and fee payments alone |
| Boxes.ChainInputsDisjoint | sdk/src/main/scala/io/horizen/utxo/state/SidechainState.scala:228-237 | two transactions of a chain never spend the same box |
| Boxes.UnspentIff | sdk/src/main/scala/io/horizen/utxo/state/SidechainState.scala:228-237 | along a valid chain a box is unspent if and only if it was there at first or some block made it, and no transaction spent it |
| Mempool.MakeRoom | sdk/src/main/scala/io/horizen/utxo/mempool/SidechainMemoryPool.scala:147-168 | as few of the cheapest transactions as needed are dropped, and none that pays more than the newcomer |
| Mempool.AddWithSizeCheck | sdk/src/main/scala/io/horizen/utxo/mempool/SidechainMemoryPool.scala:147-172 | the pool stays sorted and within its size |
| Mempool.KeepLastHasNoConflicts | sdk/src/main/scala/io/horizen/utxo/mempool/SidechainMemoryPool.scala:179-185 | leaving out what conflicts with a later transaction leaves no conflict |
| Mempool.RolledBackFitPool | qa/mc_sc_forging5.py:123-178 | transactions of abandoned blocks conflict neither with each other nor with the pool |
| Mempool.SurvivorsComplete | sdk/src/main/scala/io/horizen/AbstractSidechainNodeViewHolder.scala:253-273 | exactly the transactions that are valid on the new state and not in the new blocks survive |
| Mempool.PutAll | sdk/src/main/scala/io/horizen/utxo/mempool/SidechainMemoryPool.scala:198-203 | transactions are added one by one, the pool stays good, and with room for all, all are in it |
| Mempool.UpdateMempool | sdk/src/main/scala/io/horizen/AbstractSidechainNodeViewHolder.scala:253-276 | after a switch every pooled transaction is valid on the new state and no two conflict, and with enough room the pool is exactly the survivors of the old pool and of the abandoned blocks |
| Mempool.RepairedIsGood | sdk/src/main/scala/io/horizen/AbstractSidechainNodeViewHolder.scala:253-276 | the repaired pool is valid on the new state, free of conflicts, sorted and within its size |
| Mempool.Put | sdk/src/main/scala/io/horizen/utxo/mempool/SidechainMemoryPool.scala:99-114 | a new transaction goes in if and only if it is valid, pays the minimum, conflicts with nothing in the pool and finds room once cheaper ones are dropped; a refused one changes nothing |
| Mempool.PoolIsAlwaysGood | qa/mc_sc_forging5.py:123-178 | in every run of offered transactions and chain switches the pool is valid on the current state, free of conflicts, sorted and within its size |
| Mempool.PoolSpendsOnce | qa/mc_sc_forging5.py:123-178 | spelled out: pooled transactions spend unspent boxes, no box twice, and balance |
| Mempool.OfferedIsPooled | sdk/src/main/scala/io/horizen/utxo/mempool/SidechainMemoryPool.scala:99-114 | a transaction that spends unspent boxes nobody in the pool spends, balances, pays the minimum and finds room is pooled |
| Mempool.SwitchedPool | sdk/src/main/scala/io/horizen/AbstractSidechainNodeViewHolder.scala:253-276 | a switch to a valid chain takes place, and with room the pool then holds exactly the survivors of the old pool and of the abandoned blocks |
| Ceasing.BlockKeepsInv | sdk/src/main/scala/io/horizen/utxo/state/SidechainState.scala:594-599 | however references are grouped into blocks, the sidechain has ceased exactly when a window closed without a certificate |
| Ceasing.AliveIff | qa/sc_ceased.py:69-110 | in every run the sidechain is alive if and only if every window closed so far had a certificate |
| Ceasing.CeasedIff | qa/sc_ceased.py:69-110 | however references are spread over blocks, after n references the sidechain has ceased if and only if a window ending among the first n mainchain blocks passed without a certificate |
| Ceasing.WindowIsAFifth | sdk/src/main/scala/io/horizen/utils/WithdrawalEpochUtils.scala:95-101 | the window is a fifth of the epoch rounded down, and at least two blocks |
| Ceasing.CeasesAtWindowEnd | sdk/src/main/scala/io/horizen/utils/WithdrawalEpochUtils.scala:60-74 | the ceasing block is the one that references the last block of a window |
| Ceasing.CeasedForever | sdk/src/main/scala/io/horizen/utxo/state/SidechainState.scala:170-172 | nothing is applied after ceasing |
| CeasedWithdrawal.PartsAreDisjoint | sdk/src/main/scala/io/horizen/utxo/csw/CswManager.scala:357-392 | the snapshot of the last active certificate and the later forward transfers have no box in common |
| CeasedWithdrawal.ClaimableIff | sdk/src/main/scala/io/horizen/utxo/csw/CswManager.scala:357-392 | a box can be claimed if and only if a forward transfer of the last three epochs made it, or it was unspent at the end of the epoch before; without an active certificate forward transfers alone count |
| CeasedWithdrawal.ClaimableTotal | qa/sc_csw_ceased_at_epoch_3.py:429-464 | when finished epochs pay out the fees computed for their blocks, what can be claimed is exactly what came in minus what was withdrawn up to the snapshot |
| CeasedWithdrawal.ClaimableWithoutCertificate | qa/sc_csw_ceased_at_epoch_1.py:237-265 | without an active certificate all forward transfers can be claimed and nothing else |
| CeasedWithdrawal.PaidOnce | qa/sc_csw_ceased_at_epoch_3.py:492-535 | for any row of claims every claimable box is paid at most once and the total never exceeds the claimable value |
| CeasedWithdrawal.FinishedEpochsConserve | sdk/src/main/scala/io/horizen/utxo/state/SidechainState.scala:791-836 | the payments at the end of each finished epoch sum to the fees of its blocks |
| CeasedWithdrawal.PayoutIsBounded | qa/sc_csw_ceased_at_epoch_3.py:429-535 | for any row of claims the payout never exceeds the coins that came in minus those withdrawn |
| CertificateSubmission.FewCertificates | qa/sc_cert_submission_decentralization.py:186-229 | when proofs are started without error replies and no certificate is turned down or forgotten, qualities increase strictly, each with signatures of at least threshold different keys, and at most keys - threshold + 1 are ever sent, whatever visits to the window |
| CertificateSubmission.KnownIff | sdk/src/main/scala/io/horizen/certificatesubmitter/AbstractCertificateSubmitter.scala:318-360 | in every run the known signatures are exactly the genuine ones of the signers' keys that arrived since the window was entered |
| CertificateSubmission.Progress | sdk/src/main/scala/io/horizen/certificatesubmitter/AbstractCertificateSubmitter.scala:362-442 | from an idle, enabled submitter inside the window a new signature that makes a certificate worthwhile leads to it step by step, and any other leads to none |
| CertificateSubmission.EnableTries | sdk/src/main/scala/io/horizen/certificatesubmitter/AbstractCertificateSubmitter.scala:455-466 | switching on schedules exactly what is worthwhile |
| CertificateSubmission.TimerBuildsIff | sdk/src/main/scala/io/horizen/certificatesubmitter/AbstractCertificateSubmitter.scala:383-396 | the timer starts a proof of what is then known exactly when it is worthwhile |
| CertificateSubmission.ReadyIsSentIff | sdk/src/main/scala/io/horizen/certificatesubmitter/AbstractCertificateSubmitter.scala:425-436 | a finished proof is sent, with the quality it was started with, exactly when a certificate is worthwhile by the signatures and the best certificate known then |
| CertificateSubmission.LeftIsSentIff | sdk/src/main/scala/io/horizen/certificatesubmitter/AbstractCertificateSubmitter.scala:241-249 | if the window was left meanwhile, the signatures known at that moment count |
| CertificateSubmission.DisabledSendsNoMore | sdk/src/main/scala/io/horizen/certificatesubmitter/AbstractCertificateSubmitter.scala:362-366 | a submitter switched off sends at most what is under way |
| CertificateSubmission.OutsideSendsNoMore | sdk/src/main/scala/io/horizen/certificatesubmitter/AbstractCertificateSubmitter.scala:241-249 | and so does one outside the window |
| CertificateSubmission.SentNeverDecreases | sdk/src/main/scala/io/horizen/certificatesubmitter/AbstractCertificateSubmitter.scala:212-254 | qualities never decrease if and only if no certificate falls below the last one, and so while the window is not left |
| CertificateSubmission.FallsAndRepeatsBounded | sdk/src/main/scala/io/horizen/certificatesubmitter/AbstractCertificateSubmitter.scala:212-254 | whatever the mainchain does, qualities fall at most once per leaving of the window, and falls and repetitions together are no more than leavings and switchings on |
| CertificateSubmission.IncreasingIff | sdk/src/main/scala/io/horizen/certificatesubmitter/strategies/CeasingSidechain.scala:29-63 | in every run qualities increase strictly if and only if no proof started with no more signatures than the last certificate had is confirmed |
| CertificateSubmission.StaleStartNeedsFailure | sdk/src/main/scala/io/horizen/certificatesubmitter/strategies/CeasingSidechain.scala:29-63 | such a start takes an error reply or a best quality below one already sent |
| CertificateSubmission.CertificatesBounded | qa/sc_cert_submission_decentralization.py:186-229 | in every run at most keys - threshold + 1 certificates are sent, as many again for each leaving of the window, and one for each leaving or switching on |
| CertificateSubmission.BeatsKnownIffNotOvertaken | sdk/src/main/scala/io/horizen/certificatesubmitter/AbstractCertificateSubmitter.scala:383-442 | a certificate still beats every known one when its proof is ready if and only if none of at least its quality came from elsewhere and stayed known meanwhile |
| CertificateSubmission.OvertakenIsSent | sdk/src/main/scala/io/horizen/certificatesubmitter/AbstractCertificateSubmitter.scala:425-433 | an overtaken certificate is sent all the same when another signature arrived in between |
| CertificateSubmission.QualityCanRepeat | sdk/src/main/scala/io/horizen/certificatesubmitter/AbstractCertificateSubmitter.scala:428-436 | with error replies, or with a certificate that was turned down, the same quality can be sent twice |
| CertificateSubmission.QualityCanFall | sdk/src/main/scala/io/horizen/certificatesubmitter/AbstractCertificateSubmitter.scala:241-249 | with error replies a lower quality is sent after the window was left and entered again |
| CertificateSubmission.MatchesRequests | sdk/src/main/scala/io/horizen/utxo/state/SidechainState.scala:310-334 | a certificate is accepted only if its transfers are the epoch's requests in order, so totals agree |
| FeePayments.PoolPartIsCeiling | qa/mc_sc_forging_fee_payments.py:198-203 | what the forger does not get of a fee is three tenths rounded up |
| FeePayments.SharesAreEven | sdk/src/main/scala/io/horizen/utxo/state/SidechainState.scala:808-819 | pool shares of two blocks differ by at most one and the earlier block has the larger |
| FeePayments.RewardIsOwnPartAndShare | sdk/src/main/scala/io/horizen/utxo/state/SidechainState.scala:799-819 | each block's reward goes to its forger: seven tenths of its own fee rounded down and an even share of the pool |
| FeePayments.RewardsConserveFees | sdk/src/main/scala/io/horizen/utxo/state/SidechainState.scala:799-819 | the rewards of all blocks sum to all fees |
| FeePayments.FeePaymentsOf | sdk/src/main/scala/io/horizen/utxo/state/SidechainState.scala:791-836 | every forger gets one payment, the sum of its blocks' rewards, and zero payments are dropped |
| FeePayments.PaymentsConserveFees | sdk/src/main/scala/io/horizen/utxo/state/SidechainState.scala:821-835 | grouping by forger loses nothing: payments sum to the epoch's fees |
| FeePayments.FeesByDictionary | qa/mc_sc_forging_fee_payments.py:198-215 | the script's dictionary holds the same payments |
| ConsensusTime.AbsoluteSlotIsMonotone | qa/sc_evm_consensus_parameters_fork.py:110-136 | slot numbers order slots as time does and differ for different slots, for any slots per epoch |
| ConsensusTime.NextIsSuccessor | qa/sc_evm_consensus_parameters_fork.py:110-136 | past the last slot comes slot 1 of the next epoch, with the next number |
| ConsensusTime.AbsoluteSlotNumber | sdk/src/main/scala/io/horizen/utils/TimeToEpochUtils.scala:31-59 | the loop over forks counts all slots of all epochs before |
| ConsensusTime.ForkSlotsInOrder | qa/sc_evm_consensus_parameters_fork.py:22-25 | under any increasing list of forks slot numbers are strictly monotone and one to one |
| ConsensusTime.EveryNumberHasASlot | qa/sc_evm_consensus_parameters_fork.py:110-136 | and every positive number belongs to a slot |
| ConsensusTime.TimestampOf | sdk/src/main/scala/io/horizen/utils/TimeToEpochUtils.scala:61-96 | the timestamp of a slot is the sum of all epochs before and the slots before it |
| ConsensusTime.GenesisInLastSlot | sdk/src/main/scala/io/horizen/utils/TimeToEpochUtils.scala:11-12 | with forks after epoch 1 the genesis block stands in the last slot of epoch 1 |
| ConsensusTime.EpochOf | sdk/src/main/scala/io/horizen/utils/TimeToEpochUtils.scala:104-112 | the fork used is the last one active a slot earlier |
| ConsensusTime.ActivationTimes | sdk/src/main/scala/io/horizen/AbstractSidechainApp.scala:157-159 | the activation time of a fork is the timestamp of slot 1 of its epoch, and the virtual genesis time for the first |
| ConsensusTime.FindActive | sdk/src/main/scala/io/horizen/utils/TimeToEpochUtils.scala:114-130 | the loop finds the last fork activated before an instant |
| ConsensusTime.SlotOfTime | sdk/src/main/scala/io/horizen/utils/TimeToEpochUtils.scala:20-28 | the slot is computed from the fork active at the instant itself |
| ConsensusTime.EpochsRightIff | sdk/src/main/scala/io/horizen/utils/TimeToEpochUtils.scala:104-137 | if there are long epochs since genesis at all, or no forks to come, epoch numbers are right at every instant if and only if, with forks to come, all epochs since genesis are longer than a slot of the first fork |
| ConsensusTime.EpochsRightAtForksIff | sdk/src/main/scala/io/horizen/utils/TimeToEpochUtils.scala:104-137 | for any forks, epoch numbers are right at every instant if and only if they are right within one slot of the first fork after each fork's start, where the epochs of the fork before are counted on |
| ConsensusTime.LaterForksRightIff | sdk/src/main/scala/io/horizen/utils/TimeToEpochUtils.scala:104-137 | with all forks after the genesis epoch, this holds without any other condition |
| ConsensusTime.ShortEpochIsWrong | sdk/src/main/scala/io/horizen/utils/TimeToEpochUtils.scala:109-137 | the instant at which an epoch is numbered wrongly when long epochs follow short ones or short ones long ones |
| ConsensusTime.SlotIsRight | sdk/src/main/scala/io/horizen/utils/TimeToEpochUtils.scala:20-28 | slot numbers are right without that condition |
| ConsensusTime.RoundTrip | sdk/src/main/scala/io/horizen/utils/TimeToEpochUtils.scala:14-96 | the timestamp of a slot leads back to that slot |
| ForgerList.EvmOpenIffMajority | sdk/src/main/scala/io/horizen/account/state/ForgerStakeMsgProcessor.scala:508-520 | the list is open exactly with a strict majority and fewer than 254 forgers |
| ForgerList.EvmRunIsGood | qa/sc_evm_closed_forger.py:255-323 | in every run each forger votes at most once, at most half plus one vote, and a stake outside the list needs a strict majority before |
| ForgerList.EvmVoteCountsIff | sdk/src/main/scala/io/horizen/account/state/ForgerStakeMsgProcessor.scala:397-449 | a vote counts if and only if it is signed with the key of a listed forger who has not voted and there is no majority yet |
| ForgerList.EvmStakeCountsIff | sdk/src/main/scala/io/horizen/account/state/ForgerStakeMsgProcessor.scala:508-520 | a stake outside the list is accepted exactly with a majority |
| ForgerList.EvmRunOpenIff | qa/sc_evm_closed_forger.py:255-323 | in every run the list is open if and only if more than half of the listed forgers have signed a vote |
| ForgerList.MajorityIsPermanent | qa/sc_evm_closed_forger.py:255-323 | opening is permanent |
| ForgerList.Contract.OpenStake | sdk/src/main/scala/io/horizen/account/state/ForgerStakeMsgProcessor.scala:397-449 | the contract sets one flag in place, or none |
| ForgerList.BlockRunIsGood | sdk/src/main/scala/io/horizen/utxo/state/SidechainState.scala:434-524 | the same for votes and stakes in blocks |
| ForgerList.OneBallotIff | sdk/src/main/scala/io/horizen/utxo/state/SidechainState.scala:434-462 | a ballot is accepted if and only if there is no majority yet and it comes from the listed forger it names, who has not voted |
| ForgerList.OneStakeIff | sdk/src/main/scala/io/horizen/utxo/state/SidechainState.scala:490-524 | a stake is accepted if and only if it is for a listed forger or there is a majority |
| ForgerList.BlockIsItsParts | sdk/src/main/scala/io/horizen/utxo/state/SidechainState.scala:239-252 | a block is accepted if and only if each of its parts alone would be and no two ballots name the same forger |
| ForgerList.VotesBoundedIff | sdk/src/main/scala/io/horizen/utxo/state/SidechainState.scala:434-452 | in every run at most half vote before the list opens, and at most half plus one in the end if and only if the opening block carries exactly the missing votes |
| ForgerList.BlockCanExceedMajority | qa/sc_closed_forger.py:225-341 | five forgers can all vote in one block |

## Left out

- Stake lottery, VRF and block signatures: an attempt stands for an eligible forger; the rule that a whole consensus epoch must not be missed is not part of the model.
- Snark proofs, Schnorr and ed25519 signatures, Merkle trees and hashing: replaced by free constructors.
- Mainchain proof of work, timestamps and difficulty in header checks: only parent links are checked.
- Node start-up, HTTP, RPC and peer-to-peer code: plumbing around the protocols.
- Non-ceasing sidechains: certificates without a submission window have rules of their own.
- The EVM: execution, gas, receipts and blooms; a log's membership in a block is given.
- Forks of the sidechain made by other forgers at the same height: the runs hold one chain and the blocks forged on it, by any number of forgers in turn.
- Open-stake and key-rotation transactions in the mempool: only conflicts over boxes are modelled.
- Stored rotation proofs and events of the key contract: the storage of keys and histories is modelled. Both genesis key lists are taken to have the same length.
- Restricting forgers switched off: the list is then open from the start.
- Withdrawal requests before the fork that introduced the slot limit: runs start with the limit active.
- Fee payments of the account model: the UTXO computation is modelled.
- Wallets: the claimable set is that of all wallets together.
- The two-epoch stake lag and base-fee decay: each is close to one formula.
- ConsensusTime.EpochsRightIff: the closed form leaves out schedules with forks after genesis in which no epoch since genesis is longer than one slot of the first fork, where the two numberings can agree by coincidence of their lengths; EpochsRightAtForksIff covers them.
- ForgerSteps.ForgedIsAttachable: block sizes, the rule on skipped consensus epochs and the state's checks on transactions are not among the checks.
- ForgerRuns.EveryForgedBlockIsAccepted: the same checks are missing; the one on withdrawal requests is modelled in WithdrawalStall.
- Transactions forced into a block by an API call: the forger's choice is what it takes from the pool.
- Block size and overhead limits (`sdk/src/main/scala/io/horizen/block/SidechainBlockBase.scala` lines 143-165): the forger does not check headers and ommers against them, so a block with very many ommers could be refused for its size; the model has no sizes of headers and ommers.
- The one testnet block for which the limit on blocks without headers is switched off (`sdk/src/main/scala/io/horizen/account/history/AccountHistory.scala` lines 51-54).
- Order of the `removed` events of one block: the node iterates over a set, so only their multiplicity and effect are stated.
- Short first forks: the first fork has at least three slots per epoch; the node's default has 720.
