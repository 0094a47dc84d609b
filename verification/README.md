# Partage, verified

A model of the core of Partage, a decentralised social network: the consensus protocol that orders blocks,
the gossip that carries its messages, the social feeds that are derived from the blocks, and the data layer
that stores and finds files. To verify it, use
`dafny verify dfyconfig.toml`.

## What is modelled

**Consensus.** `Clocks`, `Acceptors` and `Proposers` hold one node of a Paxos instance with threshold logical
clocks: classes with the fields of the program and, for every handler, a function on values that says what the
handler means. `PaxosSystem` runs N such nodes over a network of envelopes that are delivered in any order, at
most once per node, or never; an action is one handler call or one turn of a proposer. Time-outs, lost messages
and the choice of responses that a proposer collects are free choices of the run. `PaxosInvariants`,
`PaxosAgreement`, `PaxosCounting`, `PaxosChains` and `PaxosTallies` prove what every reachable state satisfies;
`PaxosAnnouncements` and `PaxosOutcomes` prove what nodes must do: when a chain grows and who is told, how a
proposal is answered, and exactly when it fails or succeeds. `TLCOrder` shows that catching up does not depend on
the order of delivery; `ProposerRuns` looks at one proposer alone.

The code falls short of its own comments in two places, which the model keeps as they are:

* The loop at `proposerstates.go:117-124` means to take the value accepted under the highest ID, but it never
  updates the ID that it compares with, so it takes the last value reported. `SelectionHighestIff` says exactly
  when that value is one reported under the highest ID, and `SelectionBreaksAgreement` is a run that breaks
  agreement because it is not. Agreement is proved for all runs in which every choice takes such a value.
* `NotifyAcceptance` counts accepts by the UniqID of the value, over ballots and steps. `TallyBreaksChains` is a
  run that forks the chains for this reason. Chain safety is proved for all runs in which a node that announces
  a block counted enough accepts of the block's own ballot; `PaxosTallies` shows that this is the same as
  counting one ballot only, and the same as counting the votes of a quorum.

**Gossip.** Rumors may be lost, repeated, reordered and forged; the signature check is taken to find the forged
ones. `GossipViews` and `Gossip` hold the view of a node, its handlers and the answer to a status message;
`GossipNetwork` and `GossipAntiEntropy` prove prefix delivery, at-most-once processing (which the consensus
model takes for granted) and the progress of anti-entropy; `GossipDrops` says what the drop of a blocked origin's
view costs. Blocking is part of the verdict on a rumor; taking addresses off the blocked ones is an action.

**Feeds.** `FeedContents`, `UserStates`, `Reactions`, `Feeds` and `FeedStores` hold the in-memory feeds with the
in-place updates of the program and the checks on new blocks. `FeedRuns`, `FeedFolds`, `FeedIndexes` and
`FeedCredits` prove over all interleavings of blocks that memory agrees with the stored chains, that the indexes
that span feeds stay true, and where credits come from; `FeedChecks` proves what the check of a block guarantees
although other feeds grow before the block is appended, and `FeedVerdicts` when the check would still pass then.
`FeedRounds` and `FeedAdmissions` read rounds and verdicts off the blocks alone. `FeedInterleavings` separates
what the order of blocks between users decides from what it does not.

**Storage and data.** `BlockStore` is the blockchain in its key-value store. `Budgets` and `SearchFlood` are the
budgeted flood of a search, `Chunks` is upload and download, `Downloads` what a download gives when chunks are spread over
nodes, `Recipients` is the byte format of the recipients of an encrypted post.

Parameters of the model: the hash functions, the marshalling of blocks (lossless, and longer than a hash), the
parser of feed metadata, the verdicts of the signature check and of the proposal checker, the current time, the
deliveries of a reader, and what remote nodes hold. Users, contents and block hashes are compared only as names.

## Model

| member | source | states |
|---|---|---|
| `Clocks.Frontier` | Partage-Client/peer/impl/consensus/protocol/paxos/clock.go:87-112 | the first step from the given one on without enough TLC messages; all steps before it are complete |
| `Clocks.Clock.NotifyAcceptance` | Partage-Client/peer/impl/consensus/protocol/paxos/clock.go:59-70 | counts an accept under the value's UniqID and reports that the count now reached the threshold |
| `Clocks.Clock.NotifyTLC` | Partage-Client/peer/impl/consensus/protocol/paxos/clock.go:73-83 | one more TLC message for the step; the first block reported for a step is the one kept |
| `Clocks.Clock.CatchUp` | Partage-Client/peer/impl/consensus/protocol/paxos/clock.go:87-112 | returns the blocks of all consecutively complete steps in order, moves to the first incomplete one, forgets the promise and the accepted pair only if it moved, and deletes the counters of the completed steps |
| `Clocks.Clock.UpdateMaxID` | Partage-Client/peer/impl/consensus/protocol/paxos/clock.go:114-117 | raises the promised ID, never lowers it, and changes nothing else |
| `Clocks.Clock.MarkBroadcasted` | Partage-Client/peer/impl/consensus/protocol/paxos/clock.go:125-127 | marks the step as announced and changes nothing else |
| `Clocks.Clock.Accept` | Partage-Client/peer/impl/consensus/protocol/paxos/clock.go:129-132 | stores the accepted pair and nothing else |
| `Acceptors.Acceptor.HandlePrepare` | Partage-Client/peer/impl/consensus/protocol/paxos/acceptor.go:25-63 | the handler refines OnPrepare: it promises only a higher ID in its own step, reports the accepted pair to the preparer, and changes only the promised ID |
| `Acceptors.Acceptor.HandlePropose` | Partage-Client/peer/impl/consensus/protocol/paxos/acceptor.go:65-103 | the handler refines OnPropose: it answers only its own step and promised ID; a valid value is stored and accepted, an invalid one is answered with a rejection and not stored |
| `Acceptors.Acceptor.HandleTLC` | Partage-Client/peer/impl/consensus/protocol/paxos/acceptor.go:105-156 | the handler refines OnTLC: it ignores old steps, counts the message, catches up and appends the completed blocks; if there were any it passes the message on unless the node announced that step before, and ticks its proposer |
| `Acceptors.Acceptor.HandleAccept` | Partage-Client/peer/impl/consensus/protocol/paxos/acceptor.go:158-193 | the handler refines OnAccept: it ignores rejections and every step or ID other than its own step and promised ID, counts the accept, and announces a new block at the threshold unless it announced one for the step before |
| `Acceptors.Acceptor.UpdateBlockchain` | Partage-Client/peer/impl/consensus/protocol/paxos/acceptor.go:125-133 | the completed blocks are appended in step order |
| `Proposers.Raised` | Partage-Client/peer/impl/consensus/protocol/paxos/proposerstates.go:54-64 | the catch-up loop ends at an ID that is below neither the last nor the promised one, and if it moved, less than one system size above the promised one |
| `Proposers.Proposer.NextBegin` | Partage-Client/peer/impl/consensus/protocol/paxos/proposerstates.go:49-73 | gives up beyond the trial limit; otherwise raises its ID, reserves the following one and prepares |
| `Proposers.Proposer.SelectValue` | Partage-Client/peer/impl/consensus/protocol/paxos/proposerstates.go:114-127 | the loop returns the value of the last promise that reports one, since the ID it compares with is never updated |
| `Proposers.Proposer.TallyResponses` | Partage-Client/peer/impl/consensus/protocol/paxos/proposerstates.go:169-190 | counts accepts and rejections of the chosen value, passing over other values |
| `Proposers.Proposer.NextState` | Partage-Client/peer/impl/consensus/protocol/paxos/proposerstates.go:49-254 | one turn of the machine refines Next in all four states |
| `Proposers.Proposer.Run` | Partage-Client/peer/impl/consensus/protocol/paxos/statemachine.go:21-40 | the driving loop passes from state to state until one exits, sending what every state sends |
| `Proposers.Proposer.UpdateSystemSize` | Partage-Client/peer/impl/consensus/protocol/paxos/paxos.go:96-115 | refuses exactly a smaller size and then changes nothing; otherwise shifts the next ID by the growth times its round |
| `PaxosInvariants.RaisedKeepsSlot` | Partage-Client/peer/impl/consensus/protocol/paxos/proposerstates.go:54-64 | raising an ID keeps its owner |
| `PaxosInvariants.RaisedIsFirst` | Partage-Client/peer/impl/consensus/protocol/paxos/proposerstates.go:54-64 | no ID of the same owner that is below neither bound comes before the raised one |
| `PaxosInvariants.IDsNeverReused` | Partage-Client/peer/impl/consensus/protocol/paxos/proposerstates.go:49-73 | in every run no two prepare messages of the system share an ID, across nodes, rounds and steps |
| `PaxosInvariants.LaterPreparesHigher` | Partage-Client/peer/impl/consensus/protocol/paxos/proposerstates.go:49-73 | in every run the prepares of one node carry IDs in the order in which they were sent, over all its rounds, retries and steps |
| `PaxosInvariants.NextIDAboveMaxID` | Partage-Client/peer/impl/consensus/protocol/paxos/proposerstates.go:54-64 | in every run the ID after the catch-up loop is strictly above the node's promised ID although the loop only guarantees that it is not below |
| `PaxosInvariants.PromisesNeverBroken` | Partage-Client/peer/impl/consensus/protocol/paxos/acceptor.go:25-103 | in every run a node that promised an ID reports in that promise every vote it cast under a lower ID of the step, or a later one; after the promise it casts none |
| `PaxosAgreement.ChosenSticks` | Partage-Client/peer/impl/consensus/protocol/paxos/proposerstates.go:83-139 | where every proposal was backed by a quorum of promises and a top report of theirs, once a quorum accepted a value, every proposal of the step with an equal or higher ID carries that value |
| `PaxosAgreement.Agreement` | Partage-Client/peer/impl/consensus/protocol/paxos/acceptor.go:65-103 | two values accepted by a quorum each, under whatever IDs of one step, are equal, in every run in which each choice made from enough promises takes the value of some highest report |
| `PaxosWitness.SelectionBreaksAgreement` | Partage-Client/peer/impl/consensus/protocol/paxos/proposerstates.go:114-127 | a run of three nodes, within all other rules, in which quorums accept two different values in one step because the loop takes the last report |
| `ProposerRuns.SelectionHighestIff` | Partage-Client/peer/impl/consensus/protocol/paxos/proposerstates.go:114-127 | the value that the loop takes was reported under the highest ID, as its comment promises, if and only if the last report is under that ID or an earlier one reports the same value under it |
| `ProposerRuns.SelectionLastIff` | Partage-Client/peer/impl/consensus/protocol/paxos/proposerstates.go:114-127 | when different IDs report different values, the value taken is one reported under the highest ID if and only if the last report is the highest |
| `ProposerRuns.TakesTopIff` | Partage-Client/peer/impl/consensus/protocol/paxos/proposerstates.go:114-127 | the condition on runs under which agreement is proved is exactly that the loop takes a value reported under the highest ID |
| `ProposerRuns.NothingToTake` | Partage-Client/peer/impl/consensus/protocol/paxos/proposerstates.go:128-133 | without any report the proposer keeps its own value |
| `ProposerRuns.SelectionTakesLower` | Partage-Client/peer/impl/consensus/protocol/paxos/proposerstates.go:114-127 | with the reports in falling order of ID the loop takes the lower one |
| `PaxosCounting.MovesOnOwnStep` | Partage-Client/peer/impl/consensus/protocol/paxos/acceptor.go:105-156 | a clock that is not behind moves only on a TLC message for its own step |
| `PaxosCounting.OneAnnouncementPerStep` | Partage-Client/peer/impl/consensus/protocol/paxos/acceptor.go:134-193 | in every run a node announces at most one block for a step, over both announcing paths |
| `PaxosAnnouncements.MarkedIffAnnounced` | Partage-Client/peer/impl/consensus/protocol/paxos/acceptor.go:134-193 | in every run a node marks a step as broadcast if and only if an announcement of that step by the node is in the network |
| `PaxosAnnouncements.FullCountIsAnnounced` | Partage-Client/peer/impl/consensus/protocol/paxos/acceptor.go:158-193 | in every run a node that counted enough accepts under a UniqID, one of them in its current step, has announced a block of that step |
| `PaxosAnnouncements.ChainReachesFrontier` | Partage-Client/peer/impl/consensus/protocol/paxos/acceptor.go:105-133 | in every run a chain ends exactly at the first step of which the node saw announcements of fewer nodes than the threshold, and no counter of an earlier step is left |
| `PaxosAnnouncements.ChainGrowsIff` | Partage-Client/peer/impl/consensus/protocol/paxos/acceptor.go:105-156 | in every run a delivery makes a chain longer if and only if it is an announcement of the node's own step with which enough were seen; then the step is announced by this node, the very message is passed on unless it was announced before, and exactly this message goes to the proposer as a tick |
| `PaxosChains.ChainSafety` | Partage-Client/peer/impl/consensus/protocol/paxos/acceptor.go:105-193 | in every run each chain is as long as its node's step, and of any two chains one is a prefix of the other, provided that highest reports are taken and that a node which announces a block counted enough accepts of its ballot |
| `PaxosChains.BlocksBacked` | Partage-Client/peer/impl/consensus/protocol/paxos/acceptor.go:158-193 | under the same conditions block k of a chain has index k, refers to the hash of its predecessor, carries the hash of its contents and a value chosen by a quorum in step k, and was announced by a quorum |
| `PaxosChains.DecidedOwnValue` | Partage-Client/peer/impl/consensus/protocol/paxos/proposerstates.go:230-254 | under the same conditions a proposal that succeeds returns the hash of a block in the own chain whose value a quorum accepted and which is the caller's own |
| `PaxosOutcomes.ProposalAnswered` | Partage-Client/peer/impl/consensus/protocol/paxos/acceptor.go:65-103 | in every run a delivered proposal leads to a vote if and only if it is for the node's step and promised ID and the checker accepts it, to a rejection under its UniqID sent to its proposer if and only if only the checker refuses it, and otherwise to nothing |
| `PaxosOutcomes.ProposalEnds` | Partage-Client/peer/impl/consensus/protocol/paxos/proposerstates.go:49-254 | in every run a turn of a proposer ends the proposal in failure exactly beyond the trials or when a quorum of nodes rejected and no quorum accepted, goes on exactly when a quorum of distinct nodes answered, succeeds exactly on a tick for its own value, and otherwise begins again with the value of the caller |
| `PaxosOutcomes.SuccessIsOwnBlock` | Partage-Client/peer/impl/consensus/protocol/paxos/proposerstates.go:230-254 | in runs that meet both conditions a finished proposal succeeds if and only if a tick of its step is found and its own value went through; the result is the hash of that step's block in the own chain |
| `PaxosWitness.TallyBreaksChains` | Partage-Client/peer/impl/consensus/protocol/paxos/clock.go:59-70 | a run of three nodes in which two nodes append different first blocks because accepts are counted by UniqID across ballots |
| `PaxosTallies.TalliesOneBallotIff` | Partage-Client/peer/impl/consensus/protocol/paxos/clock.go:59-70 | in every run of two nodes or more, the accepts counted for a block that a node announces belong to one step and ID if and only if those of the block's own step and ID are enough |
| `PaxosTallies.BallotQuorumIff` | Partage-Client/peer/impl/consensus/protocol/paxos/acceptor.go:158-175 | in every run, the accepts that a node counted of the ballot that it announces come from a quorum of distinct voters for the value if and only if they are enough in number |
| `PaxosWitness.CarefulRunBuildsChain` | Partage-Client/peer/impl/consensus/protocol/paxos/acceptor.go:105-193 | a run of three nodes that meets both conditions of chain safety, appends a block and ends the proposal with the hash of that block |
| `ProposerRuns.ResizeKeepsSlotAndRound` | Partage-Client/peer/impl/consensus/protocol/paxos/paxos.go:96-115 | growing the system keeps the owner and the round of the next ID |
| `ProposerRuns.SixRounds` | Partage-Client/peer/impl/consensus/protocol/paxos/proposerstates.go:49-139 | when promises always stay below the threshold, a proposal fails after exactly six prepare messages with strictly rising IDs |
| `TLCOrder.CatchUpConfluent` | Partage-Client/peer/impl/consensus/protocol/paxos/clock.go:73-112 | every delivery order of the same TLC messages, one block per step, ends in the same step, chain and later counts; the final step is the first with too few messages |
| `GossipViews.PeerView.SaveRumor` | Partage-Client/peer/impl/gossip/view.go:71-81 | adds the rumor under its origin and number and keeps everything else |
| `GossipViews.PeerView.IsExpected` | Partage-Client/peer/impl/gossip/view.go:38-43 | only the number after the saved ones is expected |
| `GossipViews.PeerView.GetSavedRumor` | Partage-Client/peer/impl/gossip/view.go:83-96 | finds exactly the saved rumors |
| `GossipViews.PeerView.Compare` | Partage-Client/peer/impl/gossip/view.go:100-126 | the two difference maps, for every order in which the maps are walked |
| `Gossip.GossipLayer.HandleRumors` | Partage-Client/peer/impl/gossip/handlers.go:20-77 | the loop refines AdmitAll: only expected rumors are looked at, forged ones skipped, the first one of a newly blocked origin drops its view, genuine ones are saved and processed in order; the message is relayed exactly when something was processed |
| `Gossip.ForgedIgnored` | Partage-Client/peer/impl/gossip/handlers.go:36-43 | handling a list of rumors gives the same state and processes the same rumors as handling it without the ones with a bad signature |
| `Gossip.OnlyGenuineAdmitted` | Partage-Client/peer/impl/gossip/handlers.go:36-66 | every processed rumor of a list was judged genuine, and every entry that the view gains is one of them, under its own origin and number |
| `Gossip.GossipLayer.BroadcastAway` | Partage-Client/peer/impl/gossip/broadcast.go:31-53 | a broadcast takes the next number of the node's own log and is saved at once |
| `Gossip.GossipLayer.AnswerStatus` | Partage-Client/peer/impl/gossip/handlers.go:124-161 | the answer holds, per origin and in order, exactly the rumors that the status lacks; it fails exactly when some announced number below zero is not the blocking mark |
| `GossipNetwork.PrefixDelivery` | Partage-Client/peer/impl/gossip/handlers.go:29-77 | over lossy, duplicating, reordering and forging delivery, when the signature check finds the forged ones, what a node saved of an origin is a gap-free prefix of that origin's broadcast log |
| `GossipNetwork.AdmittedOnce` | Partage-Client/peer/impl/gossip/handlers.go:29-77 | without view drops a node processes every rumor at most once, none of its own, and each origin's rumors in rising order |
| `GossipDrops.AgainOnlyAfterDrop` | Partage-Client/peer/impl/gossip/handlers.go:45-66 | in every run, with users blocked and unblocked at will, a node processes a rumor twice, or a lower number of an origin after a higher one, only if it dropped the view of that origin in between |
| `GossipDrops.AgainAfterDrop` | Partage-Client/peer/impl/gossip/handlers.go:48-58 | a run in which a node drops a view and processes the same rumor twice |
| `GossipAntiEntropy.StatusAnswerable` | Partage-Client/peer/impl/gossip/handlers.go:140-156 | the missing-rumor error cannot occur for a status that a node sends |
| `GossipAntiEntropy.BlockedUnanswered` | Partage-Client/peer/impl/gossip/handlers.go:98-161 | the answer to a status that a node built holds nothing of the origins that the node blocked, and of every other origin exactly what it lacks |
| `GossipAntiEntropy.AnswerLevels` | Partage-Client/peer/impl/gossip/handlers.go:124-161 | the receiver of an answer, possibly further on than its status said, ends with the longer of both logs for every origin |
| `GossipAntiEntropy.AnswerCatchesUp` | Partage-Client/peer/impl/gossip/handlers.go:124-161 | an answer consists of genuine rumors and brings the asking node level with the answering one for every origin |
| `GossipAntiEntropy.AnswerProgress` | Partage-Client/peer/impl/gossip/handlers.go:124-161 | delivering the answer narrows the summed gap of the two nodes exactly when Compare found news for the asking node, and never widens it |
| `GossipAntiEntropy.NothingToExchangeIff` | Partage-Client/peer/impl/gossip/view.go:100-126 | Compare returns two empty maps exactly when both logs are equally long for every origin; news from the other side is news in its comparison |
| `GossipAntiEntropy.ExchangeProgress` | Partage-Client/peer/impl/gossip/handlers.go:124-222 | after every run without view drops, handling a status narrows the gap of the two nodes: by the answer if the handler has news, otherwise by the answer to the status sent back if the remote side has news, and otherwise they are level |
| `BlockStore.NewBlock` | Partage-Client/peer/impl/consensus/layer.go:101-128 | the generated block refers to the hash of the block that the store names as last, or to 32 zero bytes |
| `BlockStore.UpdateBlockchain` | Partage-Client/peer/impl/consensus/layer.go:130-138 | the block becomes the last one and is stored under its hash; the naming store gets the metahash under the file name |
| `BlockStore.LoadBlockchain` | Partage-Client/peer/impl/utils/utils.go:131-156 | walks back from the last block and returns the blocks found, oldest first; it stops at the end marker or at an unreadable entry |
| `BlockStore.GeneratorFollowsChain` | Partage-Client/peer/impl/consensus/layer.go:101-128 | the generator that reads the store makes the same block as the one that sees the chain |
| `BlockStore.UnreadableLastCutsChain` | Partage-Client/peer/impl/consensus/layer.go:101-128 | when the last block cannot be read, the generated block has an empty previous hash, and loading finds that block alone from then on |
| `BlockStore.LoadsChainIff` | Partage-Client/peer/impl/utils/utils.go:131-156 | loading ends and returns exactly the appended blocks in order if and only if their hashes are distinct and none is zero |
| `FeedContents.NamedIff` | Partage-Client/peer/impl/content/types.go:228-234 | a follow or endorsement names a user, and an undo a block, exactly by the bytes of that hash |
| `FeedContents.AtoiOfWritten` | Partage-Client/peer/impl/content/types.go:220-232 | the reaction of a block is read back from every spelling of a 64-bit number, with sign and leading zeros, and out of range it is refused |
| `UserStates.EndorsementHandler.Request` | Partage-Client/peer/impl/social/feed/userstate.go:38-45 | a request opens a new round unless one is running |
| `UserStates.EndorsementHandler.ReceiveEndorsement` | Partage-Client/peer/impl/social/feed/userstate.go:68-104 | counts a valid endorsement once per endorser; the one that reaches the requirement completes and closes the round |
| `UserStates.UserState.Update` | Partage-Client/peer/impl/social/feed/userstate.go:158-183 | the effect of a user's own block on credits, name, followees and round |
| `UserStates.UserState.Undo` | Partage-Client/peer/impl/social/feed/userstate.go:145-155 | takes a follow back and refunds nothing |
| `Reactions.ReactionHandler.AlreadyReacted` | Partage-Client/peer/impl/social/feed/reactionhandler.go:28-39 | whether the list of the content holds an entry of the user |
| `Reactions.ReactionHandler.SaveReaction` | Partage-Client/peer/impl/social/feed/reactionhandler.go:42-61 | appends an entry for a user without one and changes nothing otherwise |
| `Reactions.ReactionHandler.UndoReaction` | Partage-Client/peer/impl/social/feed/reactionhandler.go:64-83 | removes the user's first entry and keeps the others in order |
| `Reactions.SaveKeepsOne` | Partage-Client/peer/impl/social/feed/reactionhandler.go:42-61 | saving keeps one entry per user and touches only the reacting user's entry, and only if there was none |
| `Reactions.UndoRemovesOne` | Partage-Client/peer/impl/social/feed/reactionhandler.go:64-83 | undoing keeps one entry per user and removes only the given user's entry |
| `Feeds.Feed.GetContents` | Partage-Client/peer/impl/social/feed/feed.go:73-87 | all contents in order, those taken back without their ID |
| `Feeds.Feed.Append` | Partage-Client/peer/impl/social/feed/feed.go:101-113 | the block joins the contents and the hash index, and the user state is updated |
| `Feeds.Feed.Undo` | Partage-Client/peer/impl/social/feed/feed.go:116-129 | takes back a follow, or hides the ID of a text or comment |
| `Feeds.Feed.ReceiveEndorsement` | Partage-Client/peer/impl/social/feed/feed.go:132-141 | the endorsement updates the round; one that completes it earns the reward |
| `FeedStores.FeedStore.LoadUser` | Partage-Client/peer/impl/social/feed/feedstore.go:138-145 | the user becomes known, and the blocks of the stored chain are replayed one after the other into a new feed |
| `FeedStores.FeedStore.AppendToFeed` | Partage-Client/peer/impl/social/feed/feedstore.go:163-243 | the method refines WithAppended: own feed, metadata store, followed or endorsed feed, reactions and undo, and nothing else |
| `FeedRuns.KnownUsersLoaded` | Partage-Client/peer/impl/social/feed/feedstore.go:138-145 | in every run the known users are exactly those with a feed in memory |
| `FeedFolds.MemoryIsFold` | Partage-Client/peer/impl/social/feed/feedstore.go:163-243 | in every run contents, hash index, hidden IDs, name and followees of a feed are the fold of that user's own blocks, whatever else was interleaved |
| `FeedFolds.ReplayIsFold` | Partage-Client/peer/impl/social/feed/feedstore.go:36-53 | replaying a stored chain, whatever else is in memory, rebuilds the fold of that chain |
| `FeedFolds.StoredChainIsFeed` | Partage-Client/peer/impl/social/feedconsensus.go:15-31 | folding what loading the stored chain returns gives the feed in memory |
| `FeedIndexes.EntryIff` | Partage-Client/peer/impl/social/feed/reactionhandler.go:42-83 | a user has an entry for a content exactly when one of the user's reaction blocks was not followed by an undo of a reaction to that content |
| `FeedIndexes.ReactionsAreFold` | Partage-Client/peer/impl/social/feed/feedstore.go:199-242 | in every run every reaction list holds at most one entry per user, namely the one that the user's own blocks leave |
| `FeedIndexes.FollowersAreFollowees` | Partage-Client/peer/impl/social/feed/feedstore.go:181-237 | in every run w is a followee of v exactly when v is a follower of w |
| `FeedCredits.CreditsAccounted` | Partage-Client/peer/impl/social/feed/userstate.go:158-183 | in every run credits are 15 less 5, 2 and 1 for each of the user's texts, comments and reactions plus 30 for every completed round |
| `FeedCredits.RewardsEarned` | Partage-Client/peer/impl/social/feed/userstate.go:38-104 | every reward follows a request at some time t, since which two different other users endorsed with timestamps below t + 3600 and no other reward was paid |
| `FeedCredits.RoundsGrounded` | Partage-Client/peer/impl/social/feed/userstate.go:92-104 | in every run the counter of a round equals the number of its endorsers, stays below the requirement, and each endorser did endorse since the request |
| `FeedRounds.RoundsAreRead` | Partage-Client/peer/impl/social/feed/userstate.go:38-104 | in every run the round in memory is the one that can be read off the blocks: opened by the last request that came when no round ran, with the users who endorsed it in time since then, and closed by the second of them |
| `FeedRounds.RewardedIff` | Partage-Client/peer/impl/social/feed/userstate.go:68-104 | in every run a block is rewarded if and only if it is the second endorsement in time, by a second other user, since the last request that opened a round |
| `FeedAdmissions.AcceptedIff` | Partage-Client/peer/impl/social/feed/validation.go:11-82 | in every run a block of any kind passes the check if and only if the blocks so far say so: joined users, credits from counts and rewards, no standing reaction or follow, the round that is open, the last block with the hash to undo |
| `FeedAdmissions.ReactionCounts` | Partage-Client/peer/impl/social/feed/validation.go:17-22 | in checked runs an appended reaction becomes the user's entry for the content, and there was none before |
| `FeedAdmissions.FollowCounts` | Partage-Client/peer/impl/social/feed/validation.go:38-49 | in checked runs an appended follow adds a followee that was none, and its user as a follower |
| `FeedAdmissions.RequestCounts` | Partage-Client/peer/impl/social/feed/validation.go:27-37 | in checked runs an appended request opens a round, although rewards may come between check and append |
| `FeedAdmissions.UndoCounts` | Partage-Client/peer/impl/social/feed/validation.go:60-76 | in checked runs an appended undo takes back the last block with the named hash: the entry, the follow, or the sight of the content |
| `FeedInterleavings.FeedsAgree` | Partage-Client/peer/impl/social/feed/feedstore.go:163-243 | two interleavings of the same blocks per user agree on the contents, hidden contents, block index, name, followees and followers of every user |
| `FeedInterleavings.ReactionsAgree` | Partage-Client/peer/impl/social/feed/reactionhandler.go:42-83 | two interleavings of the same blocks per user agree on the entry that each user has for each content |
| `FeedInterleavings.CreditsAgreeIff` | Partage-Client/peer/impl/social/feed/userstate.go:158-183 | the credits of a user agree in two interleavings of the same blocks exactly when as many rewards were paid to the user in both |
| `FeedInterleavings.InterleavingMatters` | Partage-Client/peer/impl/social/feed/userstate.go:38-104 | two runs of the same blocks, every one checked before it was appended, that end with different credits and a different round of one user |
| `FeedChecks.ChecksSuffice` | Partage-Client/peer/impl/social/feed/validation.go:11-82 | when every block passed the check before it was appended, with only other feeds growing in between, every feed that a block reaches for exists and no credits become negative |
| `FeedVerdicts.VerdictStandsIff` | Partage-Client/peer/impl/social/feed/validation.go:11-82 | the verdict on a checked block of any kind stands when the block is appended if and only if, for a request, no reward was paid to the user since and, for an endorsement, a round of the endorsed user runs; no other kind can lose it |
| `FeedVerdicts.RequestStandsIff` | Partage-Client/peer/impl/social/feed/validation.go:27-37 | a request passes still if and only if the credits are those of the check, which is if and only if no reward was paid since |
| `FeedVerdicts.EndorsementStandsIff` | Partage-Client/peer/impl/social/feed/validation.go:50-59 | while no request of the endorsed user opened a round since the check, an endorsement passes still if and only if no reward was paid to that user since |
| `FeedVerdicts.EndorsementAfterRequestIff` | Partage-Client/peer/impl/social/feed/validation.go:50-59 | after the last request that opened a round since the check, an endorsement passes still if and only if that round is in time and no reward was paid since the request |
| `FeedVerdicts.RequestVerdictFalls` | Partage-Client/peer/impl/social/feed/validation.go:27-37 | a checked run in which a late endorsement of the old round pays between the check of a request and its append, so that the request passes no more |
| `FeedChecks.CreditsBounded` | Partage-Client/peer/impl/social/feed/validation.go:27-37 | in checked runs credits stay between 0 and 65 for ever, although requests are checked before and not when they are appended |
| `FeedRuns.MetadataIsLast` | Partage-Client/peer/impl/social/feed/feedstore.go:163-176 | in every run the metadata store holds exactly the content IDs that some block carried, each with the metadata of the last such block |
| `Budgets.DistributeBudget` | Partage-Client/peer/impl/utils/utils.go:63-87 | with the 64-bit conversions, for every budget, who gets how much; the shares sum up to the budget if and only if it fits a signed integer or there is one neighbour, and in the first case the split is fair |
| `SearchFlood.SearchNode.HandleSearchRequest` | Partage-Client/peer/impl/data/handlers.go:71-96 | a known request is dropped; a new one is remembered and forwarded with the rest of the budget split over the neighbours other than the sender |
| `SearchFlood.SearchNode.StartSearch` | Partage-Client/peer/impl/data/layer.go:193-223 | the search is remembered and the whole budget split over all neighbours |
| `SearchFlood.SearchFloodBound` | Partage-Client/peer/impl/data/handlers.go:71-96 | over every topology, schedule, loss and duplication a search sends at most as many requests as its budget, every one with a budget of at least one, so the subtraction never wraps |
| `SearchFlood.EffectiveArrivals` | Partage-Client/peer/impl/data/handlers.go:71-96 | at most as many arrivals are acted on as the budget has units, one per node, and all others change nothing, so the flood dies out |
| `Chunks.Chunkify` | Partage-Client/peer/impl/utils/datautils.go:24-55 | for every pattern of reads the chunks and the metafile of the pieces delivered, in spite of the reused buffer; nothing when reading fails |
| `Chunks.SplitJoin` | Partage-Client/peer/impl/utils/datautils.go:53-66 | splitting the metafile gives the chunk hashes back, and one empty part when there was none |
| `Chunks.DataLayer.Upload` | Partage-Client/peer/impl/data/layer.go:78-87 | all chunks and the metafile are in the store, and the rest of the store is as before |
| `Chunks.DataLayer.AcquireData` | Partage-Client/peer/impl/data/layer.go:106-135 | local data is returned without change; remote data is stored |
| `Chunks.DataLayer.Download` | Partage-Client/peer/impl/data/layer.go:89-104 | the chunks named by the metafile one after the other, up to the first that cannot be acquired |
| `Chunks.DataLayer.IsFullMatchLocally` | Partage-Client/peer/impl/utils/datautils.go:69-103 | whether the metafile and every chunk that it names are in the store |
| `Chunks.FullMatchIff` | Partage-Client/peer/impl/utils/datautils.go:97-103 | a full local match is exactly a download that looks nothing up remotely |
| `Chunks.DownloadUploaded` | Partage-Client/peer/impl/data/layer.go:78-104 | downloading what was uploaded gives the content back if and only if it is not empty, and then without remote help |
| `Downloads.MetahashIdentifies` | Partage-Client/peer/impl/utils/datautils.go:24-55 | with a hash without collisions the metahash of an upload is that of no other list of chunks |
| `Downloads.DownloadOffered` | Partage-Client/peer/impl/data/layer.go:89-135 | when every uploaded entry is in the store or served by other nodes, a content that is not empty comes back from any mixture of the two, and the file is complete on this node then |
| `Downloads.DownloadFailsIff` | Partage-Client/peer/impl/data/layer.go:89-135 | a download fails if and only if the metafile, or a chunk that it names, is neither in the store nor served |
| `Downloads.DownloadGives` | Partage-Client/peer/impl/data/layer.go:89-135 | otherwise it returns the local or served bytes of the chunks in the order of the metafile, and the store gains exactly what was asked for |
| `Downloads.SecondDownload` | Partage-Client/peer/impl/data/layer.go:89-135 | after a successful download the file is a full local match, and a second download gives the same without any remote lookup |
| `Downloads.FailedDownloadKeeps` | Partage-Client/peer/impl/data/layer.go:89-104 | a failed download leaves in the store exactly what it asked for before the first key out of reach |
| `Recipients.Encode` | Partage-Client/types/partage.go:175-187 | 160 bytes an entry, the entries in an arbitrary order |
| `Recipients.RecipientsTable.Decode` | Partage-Client/types/partage.go:189-204 | adds the entries of the bytes; fails exactly on a length that is no multiple of 160 and then changes nothing |
| `Recipients.DecodeEncode` | Partage-Client/types/partage.go:175-204 | decoding any encoding of a map adds exactly that map, and gives it back from an empty table |

## Left out

- PaxosAgreement.Agreement: conditional on choices taking the value of some highest report, because the code breaks agreement otherwise. A choice that does not need not break it, since the value may never reach a quorum, so the converse holds choice by choice (SelectionHighestIff, TakesTopIff) and not run by run.
- PaxosAgreement.ChosenSticks: stated on states whose proposals are backed, which the same runs reach.
- PaxosChains.ChainSafety: conditional on the same and on announcements with enough accepts of one ballot, because the code forks chains otherwise. An announcement without them need not fork a chain, so the converse holds announcement by announcement (TalliesOneBallotIff, BallotQuorumIff) and not run by run.
- PaxosChains.BlocksBacked: conditional in the same way.
- PaxosChains.DecidedOwnValue: conditional in the same way; equality of the caller's value is equality of UniqID, as the code compares it.
- PaxosOutcomes.SuccessIsOwnBlock: conditional in the same way; ProposalEnds covers all runs, without saying which block the tick carries.
- Acceptors.Acceptor.HandleAccept: generates the block in the same atomic step, while the code releases the lock just before.
- Gossip.GossipLayer.HandleRumors: leaves out the processing of the admitted rumors, whose failure makes the code return before it relays and acknowledges.
- FeedStores.FeedStore.LoadUser: asks that the replayed blocks find the feeds that they reach for; the code dereferences nil otherwise.
- FeedChecks.ChecksSuffice: assumes that every appended block passed the check of this node; a node that catches up by TLC messages appends blocks that it did not check.
- GossipNetwork.PrefixDelivery: takes for granted that the signature check finds every rumor that its origin did not broadcast; which bytes a signature covers is not part of this model.
- GossipNetwork.AdmittedOnce: excludes view drops, after which a blocked origin's numbers start again; AgainOnlyAfterDrop covers the runs with drops.
- Consensus on top of view drops: the network of PaxosSystem hands every message to a node at most once, while a node that drops the view of a blocked origin may process that origin's messages again.
- Chunks.DownloadUploaded: assumes that no two chunks, and no chunk and the metafile, share a hash.
- Downloads.DownloadOffered: assumes the same, and that other nodes serve for a key only what was uploaded under it.
- Changing the system size during a run, beyond the arithmetic of UpdateSystemSize: quorums of different sizes need not meet.
- Integer widths of IDs, steps, sequence numbers and credits are unbounded here; widths are modelled where wrap-around decides something, in time differences and search budgets.
- Liveness of Paxos: an accept phase or a tick that times out starts again with a fresh trial counter.
- Responses reach a proposer as a free choice among messages its node handled; channels and time-outs of the notification handler are not part of the model.
- Random relaying, the routing table and acknowledgement time-outs of gossip: which node a rumor reaches is a free choice.
- Feeds with GLOBAL_FEED set. In runs, users join with an empty stored chain.
- Filters, queries and copies of feeds, user name validation, the stored list of blocked users.
- Cryptography, TLS, the certificate authority, transport, JSON, the user interface and the tools around the client.
