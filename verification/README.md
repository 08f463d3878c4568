# Verification of the Alt-DA state, the batcher pipeline and the pre-image protocol

This project models three parts of the repository in Dafny and proves properties of whole runs of them.

**Alt-DA** (`op-alt-da`): the challenge and commitment state that a rollup node keeps about data stored
off-chain. It has four queues and a string-keyed index, two origins that advance separately, a look-ahead
for missing data, two kinds of reset, and pruning on L1 finality. Results: the challenge state is a
function of the L1 event stream, and so are the answers to requests, the expiry of commitments and the exact
length of a stall; no challenge causes two reorgs, returned bytes are preimages of the commitment, expired
commitments are settled, every commitment requested is tracked until it is pruned, and both calls that name a
finalized head stay behind L1 finality by a window.

**Batcher** (`op-batcher/batcher`): L2 blocks flow into channels, channels into frames, frames into
transactions, which fail, confirm and time out in any order. Results: no block and no frame is lost or
duplicated, blocks stay in order across timeouts, the transaction index agrees with the channels, a channel
is dropped as submitted exactly if it is completely on L1 in time, channels close exactly at their deadlines,
nothing that can be sent is held back, what is sent is read back from L1 as the same frames, every refused
transaction starts one recovery of the transaction pool in every interleaving of two goroutines, and the batcher
publishes exactly in the slots it won, once on each tip.

**Pre-image and hint protocol** (`op-preimage`): two parties over byte pipes. Results: for every chunking
of reads and writes the exchange cannot deadlock, is bounded, and delivers the right bytes.

## How the files fit together

Code that changes objects is written as classes whose methods are proved equal to functions on values; the
results are lemmas about those functions and about runs of them.

- Alt-DA: `bytes`, `commitment` and `challenge_state` hold the values; `dastate` and `damgr` are the
  classes; `da_spec` holds the functions of the manager; `da_runs` (invariant), `da_fold`, `da_status`,
  `da_pruned`, `da_stall`, `da_verdict`, `da_progress`, `da_reorg`, `da_integrity`, `key_collisions`,
  `da_expiry`, `da_windows`, `da_order`, `da_finality`, `da_heads`, `da_start` and `da_generic` hold the
  results.
- Batcher: `tx_data`, `builder_spec`, `channel_spec` and `manager_spec` hold the functions;
  `channel_builder`, `channel` and `channel_manager` are the classes; `segmentation`,
  `deadlines`, `frame_conservation`, `channel_runs`, `channel_close`, `channel_bytes`, `manager_close`,
  `manager_index`, `manager_runs`, `manager_blocks`, `manager_order`, `manager_done`, `manager_results`,
  `manager_verdicts`, `manager_requests`, `manager_duration`, `manager_idle`, `manager_drain` and
  `manager_dropped` hold the results, and `parse_frames` how the data is read back on L1. `txpool`, `pool_runs`,
  `slots` and `driver` are the driver's transaction pool recovery and slot selection.
- Pre-image: `lockstep` is the exchange over two pipes for any framing of messages, `preimage` the two
  protocols as instances of it, `filepoller` the polling loops.

`dafny verify dfyconfig.toml` checks everything.

## Conventions

- Block numbers, windows and lengths are unbounded; sums of them are taken to stay in range. Where the
  width matters it is written out: 16-bit frame numbers wrap, a hint length is cut to 32 bits, and the
  search for the lowest inclusion block starts at the largest 64-bit number.
- Hashes are numbers or uninterpreted functions. Answers of L1 nodes, storage servers, the compression
  pipeline, election results and the configuration provider are parameters of the call, and may be errors.
- A Go slice is a sequence. Two slices share an array in two places where this matters. The loop of
  `channelManager.Close` is modelled on the array; for `channelManager.TxConfirmed` see "Left out".
- Ghost fields record history (challenges since the last reset, frames made, deadlines contributed, blocks
  accepted, channels opened); methods read none of it.
- Methods that stand for one iteration of a loop, or for one call on a shared object, are named in
  their comments and have no row below.

## Assumptions of the results

- Alt-DA: `ChallengesAreEventFold` is about runs on one chain that process consecutive blocks without
  pruning or a full reset, and allows re-challenges; `StatusSurvivesPruning` allows pruning, and assumes
  that no key is challenged twice. `InputIntegrity` assumes keccak mode, keccak events and a client that
  verifies what it reads. The results on expired commitments assume keccak events and challenges within
  their window. `FinalitySignals` and `FinalizeBound` assume requests in inclusion order and challenges
  not before inclusion, between resets. The reorg results assume that Reset follows a required reorg at
  once.
- Batcher: a configuration passes `Check`, leaves room for one byte beside the frame overhead, and has a
  sequencing window of at least the safety margin. Channel ids are distinct and not zero, and no channel
  reaches 65536 frames. "Fully submitted" is sound unless creating frames failed; exact block order holds
  unless a channel timed out or adding a block failed.
- Slots: head time and epoch do not go back.
- Pre-image: keys have 32 bytes, the getter does not fail, hints in a run are shorter than 2^32 bytes.

## When the code keeps what one might expect

Some statements hold only under a condition; each has a lemma that gives it exactly.

- Close drops every idle channel if and only if no two idle channels are neighbours before the last one of
  the queue, because the queue shrinks while it is ranged over (`ManagerIdle.CloseDropsIdleOnEveryRun`, and
  `CloseKeepsIdleNeighbour` for a run).
- Close tells of pending channels exactly when frames wait if and only if frames do not wait in other
  channels than the current one alone, because it only looks at that one, although its comment promises it
  for any remaining channel (`ManagerDrain.CloseTellsIffOnEveryRun`, and `CloseIsSilent` for a run).
- After Close the waiting frames are out if and only if `TxData` was called as often as they need
  transactions (`ManagerDrain.RequestsDrainClosed`). The driver calls it once before it clears the state,
  although its comment speaks of publishing all pending state.
- The key of the challenge index determines block number and commitment if and only if the encoded lengths
  are equal (`KeyCollisions.KeysDetermineIffSameLength`); `DaIntegrity.GenericEventBreaksIntegrity` shows
  what a collision does.
- Expired commitments stay settled, however often a key is challenged within its window, if and only if
  the resolve window is at least the challenge window (`DaWindows.ExpiredStayResolvedIffWindowsNest`). In
  the order of calls of the data source, a challenge window of one block will do as well
  (`DaOrder.CallersKeepExpiredResolvedIff`). With shorter resolve windows they do as long as no key is
  challenged twice (`DaExpiry.ExpiredCommitmentsAreResolved`).
- The order of the blocks survives a timeout if and only if the channel has no blocks, or times out for the
  first time and no later live channel has any (`ManagerOrder.TimeoutKeepsOrderIff`). The other cases do come
  about in the code: a second confirmation of a timed-out channel puts its blocks back again.
- A finalization takes the finalized head back if and only if the commitment pruned last was included before
  it (`DaHeads.FinalizationGoesBackIff`, and `HeadGoesBack` for a run), because it always signals that one.
- The output loops end if and only if a frame has room for a byte, or, on closing, none is left
  (`Segmentation.ReadyLoopEndsIff`, `CloseLoopEndsIff`); the configuration check allows frames of the
  overhead alone.
- The timeout of a channel is its earliest deadline if and only if no deadline is zero or the last one is
  (`Deadlines.TimeoutIsEarliestIff`); with windows of at least the safety margin, only a block of epoch 0
  or an inclusion in block 0 can give a zero deadline (`ChannelRuns.PositiveIffDated`).
- A hint arrives unchanged if and only if its length fits 32 bits (`Preimage.HintUnchangedIffShort`).
- `FilePoller.Read` returns at the end of the file if and only if the buffer is full
  (`FilePollers.EndOfFileReturnsIffFull`).
- The batcher sees every slot it won if and only if no winning time comes after a later one, repetitions
  aside (`Slots.AllSlotsSeenIff`).

## Model

| member | source | states |
|---|---|---|
| `Commitments.DecodeEncode` | `op-alt-da/commitment.go:72-86` | decoding an encoded commitment gives it back if and only if it is a 32-byte hash or a non-empty opaque string |
| `Commitments.EncodeDecode` | `op-alt-da/commitment.go:94-158` | whatever decodes re-encodes to the very bytes that were read, and is well formed |
| `Commitments.ChallengeKeyInjective` | `op-alt-da/dastate.go:44-46` | the index key, which has no separator, determines block number and commitment among commitments of one encoded length |
| `KeyCollisions.LongerKeyCollides` | `op-alt-da/dastate.go:44-46` | every commitment shares its key with one of any greater encoded length, for suitable block numbers |
| `KeyCollisions.KeysDetermineIffSameLength` | `op-alt-da/dastate.go:44-46` | for all kinds of well-formed commitments, the key determines block number and commitment if and only if their encoded lengths are equal |
| `ChallengeState.FirstOpen` | `op-alt-da/dastate.go:188-196` | the queue boundary: everything before it has its resolve window over at block n, the challenge at it has not |
| `ChallengeState.Challenges.DuePrefix` | `op-alt-da/dastate.go:153-169` | the longest prefix of commitments whose deadlines are at or before block n |
| `DaState.State.ClearCommitments` | `op-alt-da/dastate.go:81-84` | drops both commitment queues and keeps every challenge |
| `DaState.State.Reset` | `op-alt-da/dastate.go:87-93` | drops everything but the last pruned commitment |
| `DaState.State.CreateChallenge` | `op-alt-da/dastate.go:97-106` | appends one active challenge with the resolve window counted from the L1 block of the event, and makes its key lead to it |
| `DaState.State.ResolveChallenge` | `op-alt-da/dastate.go:109-117` | resolves the challenge the key leads to and stores the input; reports an untracked challenge and then changes nothing |
| `DaState.State.TrackCommitment` | `op-alt-da/dastate.go:120-127` | appends the commitment with its challenge window; nothing else changes |
| `DaState.State.GetChallengeStatus` | `op-alt-da/dastate.go:136-142` | the status of the entry the key leads to, or uninitialized |
| `DaState.State.NoCommitments` | `op-alt-da/dastate.go:145-147` | true if and only if all four queues are empty |
| `DaState.State.ExpireCommitments` | `op-alt-da/dastate.go:153-182` | moves exactly the longest due prefix to the expired queue, and requires a reorg if and only if that prefix holds a challenged, unresolved commitment |
| `DaState.State.ExpireChallenges` | `op-alt-da/dastate.go:188-207` | moves the queue boundary to the first open resolve window and expires exactly the active challenges passed |
| `DaState.State.Prune` | `op-alt-da/dastate.go:210-214` | prunes commitments first, then challenges |
| `DaState.State.PruneCommitments` | `op-alt-da/dastate.go:218-241` | drops exactly the longest due prefix of the expired commitments and records the inclusion block of its last element |
| `DaState.State.PruneChallenges` | `op-alt-da/dastate.go:245-258` | drops the expired challenges before the first one still in its window, together with the index entries of their keys |
| `DaManager.DA.Finalize` | `op-alt-da/damgr.go:117-157` | records L1 finality, prunes, and signals the last pruned commitment |
| `DaManager.DA.Reset` | `op-alt-da/damgr.go:172-189` | after a required reorg it keeps challenges and challenge origin, otherwise it starts over at the base |
| `DaManager.DA.LoadChallengeEvents` | `op-alt-da/damgr.go:330-394` | applies the logs of one block in order, skipping logs that do not decode, unknown statuses, and resolves that cannot be fetched, decoded, verified or matched to a challenge |
| `DaManager.DA.AdvanceChallengeOrigin` | `op-alt-da/damgr.go:263-282` | does nothing for an old block; otherwise applies its events, expires challenges and moves the origin, or fails without any change |
| `DaManager.DA.LookAhead` | `op-alt-da/damgr.go:162-169` | processes the block after the challenge origin |
| `DaManager.DA.AdvanceCommitmentOrigin` | `op-alt-da/damgr.go:285-305` | expires commitments; a required reorg sets the resetting flag and leaves the origin |
| `DaManager.DA.UpdateFinalizedFromL1` | `op-alt-da/damgr.go:127-138` | with no commitments the finalized head is the L1 finalized block minus the challenge window, once there is one |
| `DaManager.DA.AdvanceL1Origin` | `op-alt-da/damgr.go:311-327` | challenge side, commitment side, then the finalized head, each only if the one before succeeded |
| `DaManager.DA.GetInput` | `op-alt-da/damgr.go:193-260` | every outcome by commitment type, challenge status, storage answer and window; the second look-up of the resolved case always finds its entry |
| `DaRuns.NextKeeps` | `op-alt-da/damgr.go:159-327` | in every reachable state the table is in the order in which resolve windows end, the two queues split exactly at the challenge origin, and no expired challenge is still active |
| `DaRuns.NextView` | `op-alt-da/damgr.go:162-282` | of all calls only look-ahead and advance change the challenge view, by the events of one block each |
| `DaEventFold.ChallengesAreEventFold` | `op-alt-da/damgr.go:262-282` | however GetInput, look-ahead, AdvanceL1Origin and resetting Resets interleave, the challenge state at origin n is the fold of the event blocks base+1 to n |
| `DaStatus.FoldReflectsStream` | `op-alt-da/damgr.go:330-394` | the index leads from a key exactly to its last challenge in the stream of events, with its deadline and status |
| `DaStatus.StatusIsDictatedByEvents` | `op-alt-da/dastate.go:188-207` | after any run on a chain a key is resolved if a verified resolve followed its last challenge at block s, otherwise expired if and only if s plus the resolve window has been reached, otherwise active, and uninitialized without a challenge |
| `DaStatus.IndexCoversQueues` | `op-alt-da/dastate.go:97-106` | where no key is challenged twice, the index leads to every challenge in the two queues and nowhere else |
| `DaPruned.StatusSurvivesPruning` | `op-alt-da/dastate.go:210-258` | with L1 finality arriving at any points and no key challenged twice, a key still indexed has the status its events dictate, and a challenged key that is not had its resolve window end at or before a finalized block |
| `DaStall.StallIsBounded` | `op-alt-da/damgr.go:220-241` | look-aheads during a stall are at most the rest of the challenge window or resolve window, plus one resolve window for every time the commitment is challenged on the way |
| `DaStall.WorkingAttemptsAdvance` | `op-alt-da/damgr.go:162-169` | each stalled attempt with working L1 and storage moves the challenge origin by exactly one block |
| `DaStall.StallEnds` | `op-alt-da/damgr.go:193-260` | more attempts than max(0, n + ChallengeWindow + 1 - challengeOrigin) + ResolveWindow cannot all end in a pending challenge |
| `DaVerdict.AnswerIsDictatedByEvents` | `op-alt-da/damgr.go:193-260` | the answer to a request at challenge origin n, from the events of blocks base+1 to n: skipped if and only if the type is wrong or the challenge has expired; with data not found, given up if and only if the key is not challenged and n > block + ChallengeWindow, or it is a resolved generic commitment; waited for, with the origin at n+1, while the key is not challenged up to that n or its challenge is active |
| `DaVerdict.StallFollowsEvents` | `op-alt-da/damgr.go:220-241` | working attempts stay stalled if and only if the events leave hope at every block they look at, and each reads one block |
| `DaVerdict.UnchallengedStall` | `op-alt-da/damgr.go:226-236` | a commitment that is not challenged stays stalled for exactly max(0, block + ChallengeWindow + 1 - challengeOrigin) working attempts |
| `DaVerdict.StallEndsInLoss` | `op-alt-da/damgr.go:226-229` | and the attempt after those gives the data up |
| `DaProgress.AdvanceExpiresWhatIsDue` | `op-alt-da/damgr.go:285-327` | an advance to block n on the chain moves exactly the longest prefix of waiting commitments whose deadline, set by the events, is at most n, and requires a reorg if and only if one of them is challenged and not resolved; then alone the commitment origin stays. If the events cannot be read nothing changes |
| `DaProgress.AdvanceAfterRun` | `op-alt-da/damgr.go:172-189` | the same after any run on the chain for a block beyond the last advance or reset: after a reset what is due expires again from the base on |
| `DaProgress.OriginFollowsPipeline` | `op-alt-da/damgr.go:172-189` | on every run in pipeline order the commitment origin is at most the block of the last advance or reset |
| `DaProgress.TrackedIsRequested` | `op-alt-da/damgr.go:204-206` | between resets the tracked commitments are those tracked before and those of all requests not skipped, in order, without a prefix that only finalizations have pruned |
| `DaReorg.BlamedOnce` | `op-alt-da/damgr.go:285-305` | between two full resets no challenge contributes to two required reorgs |
| `DaReorg.ReorgsAtMostChallenges` | `op-alt-da/damgr.go:172-207` | the number of required reorgs is at most the number of challenges, with no assumption on re-challenges |
| `DaReorg.ReorgHasBlame` | `op-alt-da/dastate.go:176-179` | a required reorg is always due to some challenge that is tracked and unresolved |
| `DaIntegrity.InputIntegrity` | `op-alt-da/damgr.go:193-260` | with keccak commitments and verification on read, all bytes any run returns hash to the commitment requested, and every resolved entry carries a preimage of its own commitment |
| `DaIntegrity.ClientAnswers` | `op-alt-da/daclient.go:40-69` | a verifying client hands on exactly the bytes that hash to the commitment; only a missing entry is not found, and wrong bytes are an error |
| `DaIntegrity.GenericKeyCollides` | `op-alt-da/dastate.go:44-46` | for every hash there is a generic commitment of another block with the key of the keccak commitment |
| `DaIntegrity.GenericEventBreaksIntegrity` | `op-alt-da/damgr.go:330-394` | a run of a new manager: after it has advanced to block 1, whose logs open and resolve one generic commitment, and to block 10145, GetInput there returns arbitrary bytes for an unrelated keccak commitment |
| `DaWindows.ExpiredStayResolvedIffWindowsNest` | `op-alt-da/dastate.go:153-182` | for any configuration with 32-byte keccak hashes: over all runs of a new manager, in any order of calls, in which challenges arrive within their window, however often a key is challenged, no expired commitment has an indexed challenge that is not resolved unless a reset is due, if and only if ResolveWindow >= ChallengeWindow |
| `DaWindows.NestedWindowsKeepExpiredResolved` | `op-alt-da/damgr.go:285-327` | the first half, from any state that satisfies the invariant, for the whole run |
| `DaWindows.ReopeningRunBreaks` | `op-alt-da/dastate.go:95-106` | the second half: with ResolveWindow < ChallengeWindow, a request before the advance to its block, a challenge and resolve in block 1 and a second challenge in block 2 + ResolveWindow leave an expired commitment unresolved, although every call succeeds |
| `DaOrder.CallersKeepExpiredResolvedIff` | `op-node/rollup/derive/altda_data_source.go:35-73` | the same over all runs in the order of the data source, which requests a commitment only after a successful advance to its block: if and only if ChallengeWindow is at most ResolveWindow or at most 1 |
| `DaOrder.AdvanceAllowsRequests` | `op-node/rollup/derive/altda_data_source.go:40-73` | a successful advance to a block allows the requests of that block in this order |
| `DaOrder.CallersRunKeepsExpiredResolved` | `op-alt-da/damgr.go:285-327` | the first half, from any state that satisfies the invariant and tracks nothing beyond the commitment origin |
| `DaOrder.CallersRunBreaks` | `op-alt-da/dastate.go:95-106` | the second half: otherwise a run of four calls in this order, all of which succeed, ends with an expired commitment whose challenge is not resolved |
| `DaExpiry.ExpiredCommitmentsAreResolved` | `op-alt-da/dastate.go:153-182` | for any two windows the same holds on every run that challenges no key twice |
| `DaFinality.FinalitySignals` | `op-alt-da/damgr.go:117-122` | with requests in inclusion order and challenges after inclusion, pruned commitments have non-decreasing block numbers |
| `DaFinality.FinalizeBound` | `op-alt-da/dastate.go:218-241` | the block number of a pruned commitment plus the smaller of the two windows is at most the finalized L1 block |
| `DaFinality.DeadlineHasMargin` | `op-alt-da/dastate.go:161-164` | no commitment is due earlier than the smaller window after its inclusion |
| `DaHeads.AdvanceSetsHead` | `op-alt-da/damgr.go:127-138` | at the end of any run an advance that succeeds and leaves nothing tracked, with the last L1 block finalized in the run at or after the challenge window, calls the L1 block a challenge window before that one final; any other advance leaves the finalized head |
| `DaHeads.AdvancedHeadIsWindowBehind` | `op-alt-da/damgr.go:127-138` | an advance that changes the finalized head puts it exactly a challenge window behind the last finalization of the run |
| `DaHeads.HeadIsBehindFinality` | `op-alt-da/damgr.go:117-157` | over all runs of a new manager, resets included, the finalized head, whichever call wrote it, is unset or lies the smaller of the two windows behind the highest L1 block finalized |
| `DaHeads.RemembersLastPruned` | `op-alt-da/damgr.go:117-122` | each finalization signals the inclusion block of the commitment pruned last in the run, also across resets |
| `DaHeads.FinalizationGoesBackIff` | `op-alt-da/damgr.go:117-122` | a finalization takes the finalized head back if and only if the commitment pruned last was included before it |
| `DaHeads.HeadGoesBack` | `op-alt-da/damgr.go:117-138` | a run in which it does: with nothing tracked an advance calls a block final and the next finalization unsets the head |
| `DaStart.NewIsFresh` | `op-alt-da/damgr.go:86-94` | a new manager satisfies the hypotheses the run results start from |
| `DaStart.FullResetIsFresh` | `op-alt-da/damgr.go:182-187` | so does every manager after a full reset, whatever it was before |
| `DaStart.SoftResetKeepsChallenges` | `op-alt-da/damgr.go:178-181` | the reset after a required reorg changes nothing about challenges, empties the commitments, and the next reset is a full one |
| `TxDatas.MarshalDetermines` | `op-batcher/batcher/channel_builder.go:367-393` | a frame on the wire is its payload and 23 bytes of overhead, and determines the frame |
| `TxDatas.TxIdString` | `op-batcher/batcher/tx_data.go:86-103` | the loop over frame ids prints the grouped text defined by recursion on the ids |
| `TxDatas.CallData` | `op-batcher/batcher/tx_data.go:36-43` | version byte 0 followed by the frames in order |
| `TxDatas.Len` | `op-batcher/batcher/tx_data.go:59-64` | the length of all frames without the version byte |
| `TxDatas.RenderInjective` | `op-batcher/batcher/tx_data.go:86-103` | grouping runs of one channel with "+" and "|" loses nothing: frame lists of non-zero channels with equal text are equal |
| `TxDatas.KeyDeterminesFrames` | `op-batcher/batcher/tx_data.go:25-32` | transaction keys are equal if and only if the frame ids are, and empty if and only if there are no frames |
| `Builder.ChannelBuilder.CheckTimeout` | `op-batcher/batcher/channel_builder.go:273-283` | marks an open channel as full when the head has reached the timeout |
| `Builder.ChannelBuilder.AddBlock` | `op-batcher/batcher/channel_builder.go:175-219` | every outcome of adding a block: full before, conversion error, full by rejection, other error, accepted and perhaps full |
| `Builder.ChannelBuilder.OutputFrame` | `op-batcher/batcher/channel_builder.go:367-393` | one frame of what is ready, up to the room, with the next number; end of file exactly on the last frame; the largest number marks the channel as full |
| `Builder.ChannelBuilder.OutputReadyFrames` | `op-batcher/batcher/channel_builder.go:337-348` | frames as long as a full one is ready, and the loop ends |
| `Builder.ChannelBuilder.CloseAndOutputAllFrames` | `op-batcher/batcher/channel_builder.go:350-362` | closing once, then all frames up to the last, and the loop ends; a second close is an error |
| `Builder.ChannelBuilder.OutputFrames` | `op-batcher/batcher/channel_builder.go:321-330` | chooses between the two by whether the channel is full |
| `Builder.ChannelBuilder.NextFrame` | `op-batcher/batcher/channel_builder.go:427-435` | pops the front of a queue that must not be empty |
| `Builder.ChannelBuilder.PushFrames` | `op-batcher/batcher/channel_builder.go:439-446` | appends frames that must be of this channel |
| `Segmentation.ReadyFramesSegmented` | `op-batcher/batcher/channel_builder.go:337-348` | after pulling ready frames less than one frame of bytes is left and the channel is still open |
| `Segmentation.OutputToEndSegmented` | `op-batcher/batcher/channel_builder.go:350-362` | closing sends all of the stream, and the last frame is empty only if nothing was left for it |
| `Segmentation.OutputFramesSegmented` | `op-batcher/batcher/channel_builder.go:321-362` | on any channel: payloads in number order are the compressed stream cut into full frames, an open channel is not closed, and a full one that is closed without error is complete, with an empty last frame only if no byte was left |
| `Segmentation.ClosingRoundsUp` | `op-batcher/batcher/channel_builder.go:350-362` | closing with a byte left makes the number of frames the length of the stream divided by the room, rounded up; closing with none adds one empty frame |
| `Segmentation.AddBlockSegmented` | `op-batcher/batcher/channel_builder.go:175-219` | adding blocks never disturbs the frames made, and a closed channel takes none |
| `Segmentation.FrameCount` | `op-batcher/batcher/channel_builder.go:350-362` | all frames of a complete channel but the last are full, so that their number is the length of the stream divided by the room, rounded up |
| `Segmentation.FitsIffWithinMaxDataSize` | `op-batcher/batcher/channel_config.go:132-137` | a complete channel takes at most n frames if and only if its stream is within MaxDataSize of n |
| `Segmentation.OverheadSizedFramesNeverEnd` | `op-batcher/batcher/channel_builder.go:337-348` | with a frame size equal to the overhead, which the configuration check allows, the loop over ready frames never ends |
| `Segmentation.ReadyLoopEndsIff` | `op-batcher/batcher/channel_builder.go:337-348` | for every frame size the check allows, the loop over ready frames ends if and only if a frame has room for a byte |
| `Segmentation.CloseLoopEndsIff` | `op-batcher/batcher/channel_builder.go:350-362` | the loop that outputs the rest of a closed channel ends if and only if a frame has room for a byte or none is left |
| `Deadlines.TimeoutIsEarliestIff` | `op-batcher/batcher/channel_builder.go:264-269` | for any deadlines, the timeout is the earliest if and only if none of them is zero or the last one is; likewise for timeout and reason |
| `Deadlines.BuilderTimeoutIsEarliestIff` | `op-batcher/batcher/channel_builder.go:264-269` | the same for every builder, and with the first reason to reach the minimum when no deadline is zero |
| `Deadlines.UpdateTimeoutTimed` | `op-batcher/batcher/channel_builder.go:264-269` | each contribution keeps timeout and reason those of the deadlines so far |
| `Deadlines.AddBlockTimed` | `op-batcher/batcher/channel_builder.go:254-257` | every block in a channel has contributed its sequencing-window deadline |
| `Deadlines.OpenMeansInTime` | `op-batcher/batcher/channel_builder.go:273-283` | a channel without a zero deadline that is still open after a head was registered has all its deadlines ahead of the head |
| `Deadlines.ZeroDeadlineForgets` | `op-batcher/batcher/channel_builder.go:254-269` | a block at epoch 0 does contribute a zero deadline when the sequencing window equals the safety margin, and the next block then replaces all earlier deadlines |
| `Segmentation.AddBlockLatestOrigin` | `op-batcher/batcher/channel_builder.go:195-200` | the recorded latest L1 origin is the highest among the blocks of the channel |
| `ChannelClosing.ClosesForAReason` | `op-batcher/batcher/channel_builder.go:273-283` | an open channel closes on a head only if the head has reached a deadline, of the reason it gives, that comes from the opening, a block or a confirmed transaction of the channel |
| `ChannelClosing.ClosesExactlyAtDeadline` | `op-batcher/batcher/channel_builder.go:273-283` | with no zero deadline it closes if and only if the head has reached one of these |
| `ChannelClosing.ReasonStays` | `op-batcher/batcher/channel_builder.go:289-318` | the reason why a channel is full is never replaced, except by the highest frame number |
| `ChannelClosing.ClosesOnce` | `op-batcher/batcher/channel_builder.go:350-362` | after a full channel was output once, with success or not, the next attempt is an error and changes nothing |
| `ChannelBytes.FramesCarryWhatWasReady` | `op-batcher/batcher/channel_builder.go:321-393` | over every run of a channel the frames carry, in order, the beginning of all bytes that the pipeline made ready, and all of them once the channel is complete; the output bytes are the size of the frames on the wire; a channel that used the highest frame number is full |
| `Channels.Channel.TxFailed` | `op-batcher/batcher/channel.go:55-69` | gives the frames of a pending transaction back to the builder; ignores an unknown one |
| `Channels.Channel.UpdateInclusionBlocks` | `op-batcher/batcher/channel.go:111-129` | brings the cached range up to date |
| `Channels.Channel.RangeOf` | `op-batcher/batcher/channel.go:115-126` | the loop finds the lowest and the highest inclusion block of the confirmed transactions |
| `Channels.Channel.IsTimedOut` | `op-batcher/batcher/channel.go:134-141` | the cached range decides: true if and only if two confirmed blocks differ by at least the channel timeout |
| `Channels.Channel.RangeDecides` | `op-batcher/batcher/channel.go:134-141` | two blocks lie a timeout apart if and only if the lowest and the highest do |
| `Channels.Channel.IsFullySubmitted` | `op-batcher/batcher/channel.go:144-148` | full, with nothing pending and nothing queued |
| `Channels.Channel.TxConfirmed` | `op-batcher/batcher/channel.go:74-103` | moves the transaction, contributes its deadline, and tells timed out (with the blocks) from done and from ongoing |
| `Channels.Channel.NextTxData` | `op-batcher/batcher/channel.go:164-177` | takes frames from the front up to the limit and records them as pending under their key |
| `FrameConservation.NextKeyIsNew` | `op-batcher/batcher/channel.go:164-177` | the next transaction has a key that no pending or confirmed transaction has |
| `FrameConservation.NextTxDataConserves` | `op-batcher/batcher/channel.go:164-177` | sending moves frames from the queue into one transaction and nowhere else |
| `FrameConservation.TxFailedConserves` | `op-batcher/batcher/channel.go:55-69` | a failure puts exactly the frames of the transaction back |
| `FrameConservation.OutputFramesConserves` | `op-batcher/batcher/channel_builder.go:367-393` | creating frames adds each new number to the queue once |
| `ChannelRuns.NextKeeps` | `op-batcher/batcher/channel.go:55-177` | every step of a channel, in any order, keeps frames, segmentation, deadlines and bookkeeping consistent |
| `ChannelRuns.ExactlyOnePlace` | `op-batcher/batcher/channel.go:55-103` | each frame ever created is in the queue, in one pending or in one confirmed transaction, and in no two |
| `ChannelRuns.TotalIsSum` | `op-batcher/batcher/channel_builder.go:405-407` | TotalFrames is the sum over the three places |
| `ChannelRuns.FullySubmittedIsSound` | `op-batcher/batcher/channel.go:144-148` | a fully submitted channel has every frame number in a confirmed transaction, unaltered |
| `ChannelRuns.PositiveIffDated` | `op-batcher/batcher/channel_builder.go:236-269` | in every consistent channel no deadline is zero if and only if no block and no confirmed transaction gives one; with windows of at least the safety margin only an origin or an inclusion in block 0 can |
| `ChannelRuns.OpenChannelInTime` | `op-batcher/batcher/channel.go:74-86` | an open channel without such a block or transaction is ahead of the deadline of each of its blocks and each of its confirmed transactions |
| `ChannelRuns.TxSize` | `op-batcher/batcher/channel.go:164-185` | a calldata transaction carries exactly one frame; a blob transaction carries the target number, or the rest of a full channel; never none |
| `ChannelManagers.ChannelManager.Clear` | `op-batcher/batcher/channel_manager.go:64-75` | forgets everything and takes over the L1 origin |
| `ChannelManagers.ChannelManager.AddL2Block` | `op-batcher/batcher/channel_manager.go:339-351` | appends a block that extends the tip, or reports a reorg and changes nothing |
| `ChannelManagers.ChannelManager.TxFailed` | `op-batcher/batcher/channel_manager.go:79-93` | by the printed id: passes the failure to its channel, and after Close drops a channel without any submission |
| `ChannelManagers.ChannelManager.TxConfirmed` | `op-batcher/batcher/channel_manager.go:99-115` | by the printed id: passes the confirmation on, puts the blocks of a timed-out channel in front, and drops a channel that is done |
| `ChannelManagers.ChannelManager.RemovePendingChannel` | `op-batcher/batcher/channel_manager.go:118-134` | removes the first occurrence from the queue, and the current channel if it is the one |
| `ChannelManagers.ChannelManager.NextTx` | `op-batcher/batcher/channel_manager.go:137-145` | hands out the next transaction of a channel and indexes it |
| `ChannelManagers.ChannelManager.FirstWithTxData` | `op-batcher/batcher/channel_manager.go:155-161` | the first queued channel with data |
| `ChannelManagers.ChannelManager.EnsureChannelWithSpace` | `op-batcher/batcher/channel_manager.go:201-229` | keeps a current channel that has space, opens one at the end of the queue otherwise, or fails without any change |
| `ChannelManagers.ChannelManager.ProcessBlocks` | `op-batcher/batcher/channel_manager.go:243-289` | moves blocks from the queue into the channel until it is full; after an error the queue keeps them all |
| `ChannelManagers.ChannelManager.OutputFrames` | `op-batcher/batcher/channel_manager.go:291-335` | creates frames, and on closing a channel records its latest L1 origin if that is later |
| `ChannelManagers.ChannelManager.TxData` | `op-batcher/batcher/channel_manager.go:152-196` | the whole decision: pending data, closed, no blocks, open, fill, register, output, hand out |
| `ChannelManagers.ChannelManager.SweepQueue` | `op-batcher/batcher/channel_manager.go:384-391` | the loop over the queue while it shrinks, on the shared backing array |
| `ChannelManagers.ChannelManager.Close` | `op-batcher/batcher/channel_manager.go:373-416` | drops idle channels, terminates an open one, and reports pending work |
| `ManagerSpec.FirstWithData` | `op-batcher/batcher/channel_manager.go:155-161` | no channel before the chosen one has data, and none has if none is chosen |
| `ManagerClose.CloseDropsIdle` | `op-batcher/batcher/channel_manager.go:384-391` | Close keeps every channel with a transaction in flight or confirmed, and drops all the others if and only if no two of them are neighbours before the last channel of the queue |
| `ManagerIdle.CloseDropsIdleOnEveryRun` | `op-batcher/batcher/channel_manager.go:373-391` | the same for Close itself at the end of any run |
| `ManagerIdle.CloseKeepsIdleNeighbour` | `op-batcher/batcher/channel_manager.go:384-391` | a run of three channels, after which the transactions of the first two have failed: Close keeps the second of them |
| `ManagerDrain.RequestsDrainClosed` | `op-batcher/batcher/channel_manager.go:370-371` | at the end of any run that has closed the manager, the TxData calls that follow hand out the waiting frames, channel by channel in queue order, each once; and nothing waits any more if and only if there were at least as many calls as the channels need transactions, each its frames divided by the frames per transaction, rounded up |
| `ManagerDrain.RequestsPossible` | `op-batcher/batcher/channel_manager.go:152-166` | such calls are always possible, any number of them |
| `ManagerDrain.CloseTellsIffOnEveryRun` | `op-batcher/batcher/channel_manager.go:372-416` | Close, unless it fails, tells of pending channels exactly when frames wait, if and only if frames do not wait in other channels than the current one alone |
| `ManagerDrain.CloseIsSilent` | `op-batcher/batcher/channel_manager.go:411-416` | a run after which Close reports no pending work while a frame waits |
| `ManagerIndex.KnownTx` | `op-batcher/batcher/channel_manager.go:83-84` | a transaction found in the index is always pending in its channel, so that the channel never meets an unknown one from the manager |
| `ManagerIndex.KeysDiffer` | `op-batcher/batcher/channel_manager.go:141-144` | keys of transactions of different channels differ |
| `ManagerRuns.BuildKeeps` | `op-batcher/batcher/channel_manager.go:180-195` | building keeps the manager consistent, and frames are only created for a channel that was never closed before |
| `ManagerRuns.NextKeeps` | `op-batcher/batcher/channel_manager.go:64-416` | every operation keeps channels, ids, index and queue consistent |
| `ManagerBlocks.AddBlocksTakes` | `op-batcher/batcher/channel_manager.go:249-276` | the channel gets exactly the blocks that leave the queue, in order |
| `ManagerBlocks.OpenTakesAll` | `op-batcher/batcher/channel_manager.go:243-268` | no block waits while the channel has space |
| `ManagerBlocks.FullTakesNone` | `op-batcher/batcher/channel_manager.go:249-276` | a full channel takes no block, which is not an error |
| `ManagerOrder.OrderAcrossTimeouts` | `op-batcher/batcher/channel_manager.go:99-115` | across any number of timeouts, each of the newest channel and for the first time, and unless adding a block failed: the channels that have not timed out, in opening order, and then the queue hold exactly the accepted blocks, in the order of the chain |
| `ManagerOrder.TimeoutKeepsOrderIff` | `op-batcher/batcher/channel_manager.go:105-106` | a timeout keeps that order if and only if the channel has no blocks, or it has not timed out before and no later channel that has not timed out has any |
| `ManagerOrder.ReturnedAreTakenFirst` | `op-batcher/batcher/channel_manager.go:106` | after a timeout a channel that takes blocks takes those of the timed-out channel before every block that waited |
| `ManagerDuration.DurationOnEveryRun` | `op-batcher/batcher/channel_manager.go:201-229` | at the end of any run, unless creating frames failed: the manager knows the highest L1 origin of its full channels, and the maximal duration of each channel counts from the highest origin of the full channels opened before it, or the one the manager was cleared with |
| `ManagerBlocks.NextKept` | `op-batcher/batcher/channel_manager.go:99-351` | every operation keeps every accepted block |
| `ManagerDone.NextSound` | `op-batcher/batcher/channel_manager.go:291-297` | every operation keeps full channels complete and done channels fully confirmed |
| `ManagerResults.IndexAgreesOnEveryRun` | `op-batcher/batcher/channel_manager.go:64-145` | the index maps an id to a channel if and only if it is pending there; the current channel is queued, and every other queued channel is full |
| `ManagerResults.FramesConservedOnEveryRun` | `op-batcher/batcher/channel.go:55-103` | frame conservation for every channel of every run |
| `ManagerResults.BlocksConservedOnEveryRun` | `op-batcher/batcher/channel_manager.go:99-289` | before Close every accepted block is in the queue, in a queued or in a fully submitted channel; with no timeout and no conversion error the channels in opening order and then the queue hold exactly the accepted blocks, a parent-hash chain ending at the tip |
| `ManagerResults.DoneIsOnL1` | `op-batcher/batcher/channel.go:74-103` | a channel dropped as fully submitted is complete, each of its frames from 0 on is in a confirmed transaction, together they carry its stream, and inclusion blocks are pairwise less than the channel timeout apart |
| `ManagerResults.FilledChannelInTime` | `op-batcher/batcher/channel_manager.go:152-196` | at the end of any run, a TxData call that fills the current channel leaves it full or ahead of the deadlines of all its blocks and confirmed transactions, unless one of these deadlines is zero |
| `Drivers.BatchSubmitter.CheckTxpool` | `op-batcher/batcher/driver.go:797-812` | a blocked pool becomes cancel-pending and yields one cancellation, of the type that was not refused |
| `Drivers.BatchSubmitter.OnReceipt` | `op-batcher/batcher/driver.go:354-367` | a refused transaction blocks a good pool; a cancellation receipt makes a waiting pool good |
| `Drivers.BatchSubmitter.GenerateTargetTimestamps` | `op-batcher/batcher/driver.go:825-849` | the winning times of this batcher, in order |
| `Drivers.BatchSubmitter.PopMissed` | `op-batcher/batcher/driver.go:903-906` | the loop that pops missed slots |
| `Drivers.BatchSubmitter.ShouldPublish` | `op-batcher/batcher/driver.go:851-920` | the whole decision, with each failing request |
| `Drivers.BatchSubmitter.PublishState` | `op-batcher/batcher/driver.go:492-511` | remembers the tip as submitted on if and only if a transaction was handed over |
| `Drivers.BatchSubmitter.Loop` | `op-batcher/batcher/driver.go:400-431` | the turns of the main loop: each is decided in the state after the turns before it |
| `TxPool.ActKeepsPool` | `op-batcher/batcher/driver.go:349-375` | in every interleaving of main loop and receipt goroutine a cancellation is outstanding if and only if the pool waits for it, and never two |
| `TxPool.CancellationIsSingle` | `op-batcher/batcher/driver.go:349-375` | the same for whole runs from the start of the loop, where the empty id is never in the index |
| `PoolRuns.PoolIsDictatedByActions` | `op-batcher/batcher/driver.go:349-378` | at the end of every interleaving, from the actions alone: the pool is good if and only if no transaction was refused since the last cancellation came back; after the first such refusal it is blocked until the next check and waits from there on, with one cancellation of the type that was not refused to send or in the queue |
| `PoolRuns.RefusalIsAnswered` | `op-batcher/batcher/driver.go:356-359` | a refusal received by a good pool, then any actions but a check: the next check decides on exactly one cancellation of the other type |
| `PoolRuns.ReceiptIsPassedOn` | `op-batcher/batcher/driver.go:748-757` | an included transaction of the manager becomes confirmed in its block, any other receipt gives all its frames back to the queue of its channel, and no other channel changes |
| `TxPool.CancellationKeepsManager` | `op-batcher/batcher/driver.go:748-757` | the receipt of a cancellation, whatever its outcome, leaves the channel manager unchanged |
| `TxPool.RequestedDataHasFrames` | `op-batcher/batcher/driver.go:553-565` | transaction data from the manager always has frames, so that no real transaction is taken for a cancellation |
| `TxPool.RecoveryIsPossible` | `op-batcher/batcher/driver.go:319-378` | from every state in which the pool is not usable, also while the goroutine is handling another receipt, at most four actions are possible one after the other that leave it usable, whatever becomes of the cancellation |
| `TxPool.RecoveryIsReachable` | `op-batcher/batcher/driver.go:319-378` | this holds at the end of every interleaving from the start of the loop |
| `Slots.WonIsMembership` | `op-batcher/batcher/driver.go:842-846` | the targets are exactly the slots won, ascending if the winners are |
| `Slots.PopDropsThePast` | `op-batcher/batcher/driver.go:903-906` | popping discards exactly the targets before the slot |
| `Slots.PollPublishesLeader` | `op-batcher/batcher/driver.go:851-920` | for any election results, a poll that passes the checks publishes for the next slot if and only if that slot is among the winning times with only earlier ones before it |
| `Slots.AllSlotsSeenIff` | `op-batcher/batcher/driver.go:842-846` | every slot won is seen if and only if no winning time comes after a later one, repetitions aside |
| `Slots.PollIsMembership` | `op-batcher/batcher/driver.go:851-920` | with ascending winners, a poll that passes the checks publishes for the next slot if and only if this batcher won it |
| `Slots.SlotsFromStart` | `op-batcher/batcher/driver.go:851-920` | both for every poll of every run, and no poll publishes on the tip last submitted on |
| `Slots.LoopPublishesWonSlots` | `op-batcher/batcher/driver.go:400-431` | the decisions of the main loop are these: an answered turn publishes exactly in a slot that leads the winning times, which is a slot won if the winners are ascending, and no other turn publishes |
| `Slots.NotTwiceOnOneTip` | `op-batcher/batcher/driver.go:510` | in the main loop, from any state: after a turn that handed a transaction over, no turn with the same tip publishes until one was handed over on another tip |
| `Slots.LoopPublishesOncePerTip` | `op-batcher/batcher/driver.go:851-920` | with epochs and head times that do not go back, a turn whose requests are all answered publishes if and only if no transaction was handed over on its tip since one on another, and its slot leads the winning times |
| `Slots.UnorderedWinnersHideASlot` | `op-batcher/batcher/driver.go:903-916` | a concrete list out of order that hides a slot won |
| `Slots.OtherPollsAreIdle` | `op-batcher/batcher/driver.go:852-897` | a poll that fails a check or request publishes nothing and loses no target |
| `Lockstep.NextKeeps` | `op-preimage/oracle.go:22-74` | whatever the chunks, the bytes of the message under way are split in order between writer, pipe and reader, and nothing else is anywhere |
| `Lockstep.NoDeadlock` | `op-preimage/oracle.go:22-74` | until the last reply is in, one of the parties can move |
| `Lockstep.StepsAreBounded` | `op-preimage/oracle.go:22-74` | every step uses up some of a number of byte movements fixed by the messages |
| `Lockstep.LockstepIsCorrect` | `op-preimage/oracle.go:22-74` | for every run: replies are those to the requests in order, runs are bounded, and one that cannot go on is complete with both pipes empty |
| `Preimage.NumberOfBigEndian` | `op-preimage/hints.go:24` | a number survives its fixed-width encoding if and only if it fits |
| `Preimage.GetReturnsThePreimage` | `op-preimage/oracle.go:22-74` | for any keys, any getter that does not fail and any chunking, the i-th Get returns the value of the i-th key, and both pipes end empty |
| `Preimage.HintsReachTheRouter` | `op-preimage/hints.go:21-71` | hints below 2^32 bytes reach the router unchanged and in order, and Hint returns only after the router is done |
| `Preimage.HintUnchangedIffShort` | `op-preimage/hints.go:21-26` | a hint of any length is read back unchanged with nothing left over if and only if its length fits 32 bits |
| `FilePollers.Read` | `op-preimage/filepoller.go:26-44` | the buffer is filled with the bytes delivered, in order, and the loop ends at the first round that ends it |
| `FilePollers.Write` | `op-preimage/filepoller.go:46-64` | the file has received the beginning of the buffer, and all of it if the loop ends without the context having ended |
| `FilePollers.ReadIsFull` | `op-preimage/filepoller.go:33-42` | a read that is not cut short by the context fills the whole buffer |
| `FilePollers.EndOfFileReturnsIffFull` | `op-preimage/filepoller.go:33-42` | rounds that meet the end of the file keep the loop polling, however many there are, if and only if the buffer is not full; with a full one it returns at the first |
| `DaGeneric.ContractIsIgnored` | `op-alt-da/damgr.go:397-403` | with generic commitments, two runs of a new node that differ in the logs of the challenge contract alone end in the same state, in which no challenge is known, no advance asks for a reorg and only a commitment of the other type is told that it expired |
| `ManagerVerdicts.ChannelsAreJudged` | `op-batcher/batcher/channel.go:74-103` | at the end of any run, for every channel: it was dropped as timed out if and only if two of its confirmed transactions are a channel timeout apart; unless creating frames failed, it was dropped as done if and only if otherwise it is full with no frame waiting or in flight; and before Close it is queued in exactly all other cases |
| `ManagerDropped.OnlyUnsentGivenUp` | `op-batcher/batcher/channel_manager.go:383-392` | on every run a channel that is given up without a verdict has no transaction in flight or confirmed |
| `ManagerDropped.ClosedStaysBusy` | `op-batcher/batcher/channel_manager.go:86-89` | once every queued channel of a closed manager has a transaction in flight or confirmed, this stays so: a channel whose last one fails is dropped |
| `ManagerRequests.AcceptsIffExtends` | `op-batcher/batcher/channel_manager.go:339-351` | on every run a block is accepted if and only if it is the first one, extends the one accepted last, or that one has the zero hash; otherwise nothing changes |
| `ManagerRequests.SendableGoesFirst` | `op-batcher/batcher/channel_manager.go:155-169` | on every run, when a queued channel can send, TxData hands out the first frames of the first such channel, of the right number and type, and changes nothing else |
| `ManagerRequests.NothingIsHeldBack` | `op-batcher/batcher/channel_manager.go:171-196` | on every run, when none can: a closed manager or one without blocks answers that there is nothing; otherwise a channel is opened if and only if the current one takes no blocks, and without an error of the pipeline the answer is a transaction of the right size from that channel, or every block is in a channel and none could send |
| `FrameParsing.ParseIff` | `op-node/rollup/derive/frame.go:74-107` | data is read as some frames if and only if these have numbers and payloads within the limits and the data is their wire forms in order |
| `FrameParsing.ParseFrames` | `op-node/rollup/derive/frame.go:129-152` | the data of a transaction is accepted if and only if it is the version byte and one or more such frames, and these are returned |
| `FrameParsing.SentDataIsReadBackIff` | `op-batcher/batcher/tx_data.go:36-43` | at the end of any run, the data of every transaction in flight or confirmed is read back as the frames it was made of if and only if no payload exceeds the limit, as when the frame size is at most a million bytes and the overhead |
| `Preimage.FirstByteIsHighest` | `op-preimage/hints.go:24` | the first byte of a length has the highest place value |
| `FilePollers.CountIsExactIff` | `op-preimage/filepoller.go:26-44` | the count a read returns is that of the bytes put into the buffer unless the deadline could not be set after some had been |
| `FilePollers.TimeoutsDoNotMatter` | `op-preimage/filepoller.go:34-37` | a deadline that passes while the context goes on never ends a read, and makes no difference to what it does later |
| `FilePollers.WriteTimeoutsDoNotMatter` | `op-preimage/filepoller.go:54-57` | the same for writes |
## Left out

- HTTP servers and clients, RPC, ABI decoding, compression, batch and blob encoding, keccak, metrics, logs, tickers and contexts: foreign code or plumbing, represented by parameters.
- Mutexes of the channel manager: its public methods are atomic steps. The transaction pool state is modelled as interleaved critical sections.
- Callbacks: the finalized-head handler is the value of the finalized head after the call.
- Wrap-around of 64-bit block numbers and sums.
- Errors while a frame is written: `OutputFrame` of the channel out either succeeds or, when closing, fails as a whole.
- Errors of the storage that are neither "not found" nor temporary: all are one temporary outcome.
- `oldestL1Origin`, `latestL2`, `oldestL2` and `InputBytes` of the builder: only logged.
- The pull of blocks from L2 (`loadBlocksIntoState`), `waitNodeSync`, `clearState` retries and the posting of data to an Alt-DA server by the batcher: a failed or refused post is a failed transaction of the pool model.
- A transaction whose blob candidate cannot be built stays pending in its channel; the pool model has no such error.
- The transaction queue: each transaction handed over comes back as one receipt, in any order.
- op-alt-da bindings, generated code, deploy configuration checks, foundry and solc JSON, and op-chain-ops/script: independent of the parts modelled.
- DaEventFold.ChallengesAreEventFold: says nothing of runs with pruning; `DaPruned.StatusSurvivesPruning` does.
- DaStall.StallEnds: for commitments challenged at most once; `DaStall.StallIsBounded` gives the bound with re-challenges.
- ManagerResults.BlocksConservedOnEveryRun: after Close a dropped channel takes its blocks with it, as the code intends; exactly-once holds only without a timeout.
- ChannelManagers.ChannelManager.TxConfirmed: value sequences hide that `append` can make the block queue share the array of the timed-out channel's blocks, so that blocks added later overwrite them and a second confirmation of that same channel puts the overwritten ones back; the first confirmation, and every channel still queued, are as modelled.
- Builder.ChannelBuilder.OutputReadyFrames: requires room for a byte beside the frame overhead, because without it the loop does not end (`Segmentation.ReadyLoopEndsIff`) and no method can model it.
- Constructors and methods that only assign a field or call `updateTimeout` are proved equal to their functions in the classes and have no row.
