# Gatecoin payment channels: a verified model

The project models the parts of the repository that decide who is owed what, and proves that they do.

* **Receiver** (`microcoin/channel_manager`). A receiver keeps channels in two SQLite tables, is told about
  channels by a watcher that polls the chain, accepts signed cumulative balances off chain, and closes channels
  with the last balance it holds a signature for. `ReceiverSpec` gives every operation as a function on the map of
  stored channels; `StateTables`, `ChannelManagers` and `Blockchains` are the classes, with their tables, loops and
  in-place updates, proved to compute these functions. `ReceiverSafety`, `HeadSync`, `LogAgreement`,
  `AbortedPolls`, `UnconfirmedEvents`, `CloseAnswers`, `NodeRuns` and `PollLaws` prove what holds over every run;
  `ReceiverLaws` says what each operation answers after any run.
* **Sender** (`microcoin/client`). Channel objects that sign balances, the client that rebuilds them from the log,
  and the session that answers the server. `JointProtocol` runs a sender against a receiver, over a network and
  against a server that may send any balance with any signature it did not forge.
* **Encodings** (`microcoin/utils/crypto.py`, `gatecoin_contracts/utils/proofs.py`). What is hashed and signed, and
  that equal bytes mean equal messages.
* **Locks** (`gatecoin/gatcoin_event_handler.py`): where each hash time lock goes before an on-chain unlock.
* **Tools**: the Solidity joiner, the ordering of requirement files, the log filter.

`dafny verify dfyconfig.toml` checks everything.

## How to read the results

Runs are sequences of steps of any length. A receiver step is any event, payment, close or signature request with any
arguments, successful or not; a node action is a whole poll of the chain, a call or a restart. Every poll brings its
own view of the chain: the height, the hashes, which hashes are known, and the log. The main theorems:

* `ReachableStatesAreBacked`, `EveryRunIsBacked`: in every reachable state of the receiver every stored balance is
  within the deposit and carried by a signature that proves it.
* `ReceivedIsConserved`: what payments have brought in is what is locked in stored channels plus what settled
  channels took with them.
* `ConfirmedBlocksRelayedOnce`: each confirmed block is relayed exactly once by completed polls, through every
  reorganisation, aborted poll and restart.
* `DepositsAgreeWithLog`, `NoAssertionFails`: deposits are what the confirmed log says, no assertion of the event
  handlers can fail, and a poll completes exactly when its forced closes can be paid for.
* `StoredHashesAreOfOneChain`, `ReorganisationIsForgotten`, `UnconfirmedPartIsStored`: which chain the stored hashes and
  unconfirmed events belong to.
* `PaymentAcceptedIff`, `ClosingSignedIff`: exactly when the receiver takes a payment and agrees to a close.
* `SignedBalancesAreCovered`: the sender never has a balance signed that its deposit does not cover, and the receiver
  holds only balances the sender signed.
* `PaymentGoesThrough`, `RequestedCloseGoesThrough` and their like in `JointSessions`: exchanges between parties that
  both behave succeed.
* `SyncTwiceIff`, `RecoversUnsettled`: what the client rebuilds from the log.
* `JoinSources`, `ImportsComeFirstIff`: the joined contract file, in terms of the raw lines, and its order.
* `PackInjective`, `SignedBytesDetermineMessage`: no two proofs share their signed bytes.

Some properties one would expect do not hold of the code. The code is modelled as it is; each has an input on which it
fails and the exact condition under which it holds.

* A close request that the receiver disputes is answered with a closing transaction, after which the channel read
  before the dispute is written back. An open channel so stays open, and takes further payments
  (`PaymentAcceptedAfterChallenge`). The stored channel is closed exactly as `CloseRequestCloses` says.
* Blocks can be delivered again (`TwoConfirmationsDeliverTwice`). Whatever the number of confirmations, the chunk size
  and the start block, every run delivers each block exactly once if and only if one confirmation is required or the
  configuration never accepts a head at all, and no run delivers a block twice under the same condition
  (`ExactlyOnceIff`); the confirmed head never moves back under the same
  condition, or without confirmations (`ConfirmedHeadNeverFallsIff`). For any number of confirmations a run is safe
  if every poll that reads on reads at least up to the confirmed head (`SteadyDeliversOnce`).
* A forced close that cannot be paid for aborts a poll after top-ups are stored and before the heads are, and its error
  is not caught there, unlike that of a disputed close request. The first poll after a restart counts the top-ups again
  (`AbortedPollCountsTwice`). A poll of a trusted chain completes if and only if no close request it reads is for a
  channel that is gone from the contract, still stored and not settled in the same stretch, has a balance, and cannot
  be paid for. The stored deposits agree with the log after a poll if and only if it completes, or the channels opened
  in what it read are those settled in it and it added nothing to an open channel (`UpdateKeeps`).
* The documentation of integer packing promises the width given with the integer. Negative integers are not filled up
  with zeros, and large ones not cut (`WidthsThatFail`): `FormatWidthIff`, `FormatNegativeIff`.
* Synchronising the client twice is not the same as once when a channel was closed cooperatively and the log does not
  say so: the channel is forgotten, then created again as open (`SyncTwiceDiffers`): `SyncTwiceIff`.
* Closing with an explicit balance signs it whatever it is (`ExplicitCloseUncovered`): `ExplicitCloseCoveredIff`. The
  session only ever passes 0.
* In a cyclic import the joiner puts a line before lines of a file that is imported above it (`CyclesBreakTheOrder`).
  Two files f and g clash when f imports g above one of its body lines, and g has a body line below an import that
  leads to f without passing through g. The joins from a root and from every file it leads to have all body lines after
  those of the other files imported above them if and only if no two of these files clash (`ImportsComeFirstIff`,
  `AllJoinsInOrderIff`).
* A mapped import prefix is replaced wherever it occurs in the name (`PrefixComesBack`, `EveryOccurrenceIsMapped`). The
  rest of the name is left alone exactly as `PrefixIsMappedIff` says.

Assumptions. A call runs to its end before the next one starts. Hashes and signatures are functions: `Env.recover`
gives the signer of a message, and keccak is any function to 32 bytes: where hashes are compared, the result names the
bytes on which it would have to collide. Whether the receiver can pay for a transaction, what the node answers, token
balances, and whether an awaited event arrives are arguments of the operation that asks. Addresses are compared as
given. `NoAssertionFails` and `DepositsAgreeWithLog` take a log as the contract produces it (`WellFormed`: channels
are opened once, topped up and settled only after that, and not topped up after settlement), in which blocks up to the
confirmed head do not change; blocks above it may change at will between polls. In the runs they speak of, each poll
can pay for its forced closes or reads nothing that counts, which is exactly when it keeps the agreement. They require
one confirmation and a start block of at least 1, since `set_head` refuses a confirmed head of 0. The start block
itself is never read (ranges start one block later), so it must not hold events. `SignedBalancesAreCovered` takes the
log that the client synchronises with to show at least the deposit the client knows of, and close requests only at
balances it has signed.

## Model

| member | source | states |
|---|---|---|
| `ReceiverSafety.StepKeepsInv` | microcoin/microcoin/channel_manager/manager.py:135-409 | each of the eleven operations, whatever its arguments and outcome, keeps the invariant: 0 <= balance <= deposit, a signature is held exactly when the balance is positive and it proves that balance, unconfirmed channels are open and unpaid, pending closes hold a signature |
| `ReceiverSafety.ReachableStatesAreBacked` | microcoin/microcoin/channel_manager/manager.py:135-409 | the invariant holds in every state reachable from an empty store |
| `ReceiverSafety.StepExtends` | microcoin/microcoin/channel_manager/manager.py:135-409 | no step but its settlement removes a confirmed channel, lowers its balance or deposit, or changes balance, deposit or signature of a closed one |
| `ReceiverSafety.ClosingIsFinal` | microcoin/microcoin/channel_manager/manager.py:162-337 | over every run without the settlement of a channel: it stays stored and confirmed, and once closed its balance, deposit and signature are frozen |
| `ReceiverSafety.CloseRequestCloses` | microcoin/microcoin/channel_manager/manager.py:181-195 | in every reachable state a close request leaves the channel closed if and only if it was closed before, the request does not understate the balance, or the challenge could not be paid for |
| `ReceiverSafety.PaymentAcceptedAfterChallenge` | microcoin/microcoin/channel_manager/manager.py:182-195 | a run in which balance 5 is submitted against an understated close and a payment to balance 8 is accepted afterwards |
| `ReceiverSafety.GainRaisesBalance` | microcoin/microcoin/channel_manager/manager.py:385-409 | a step raises a channel's balance by exactly the amount it reports as received for that channel |
| `ReceiverSafety.BalanceIsEarned` | microcoin/microcoin/channel_manager/manager.py:385-409 | after every run a channel's balance is the sum of the amounts reported as received since it was opened |
| `ReceiverSafety.ReceivedIsConserved` | microcoin/microcoin/channel_manager/manager.py:339-409 | after every run the total ever received is the locked balance plus the balances of channels at their settlement |
| `ReceiverSafety.ChallengeSubmitsAllReceived` | microcoin/microcoin/channel_manager/manager.py:182-294 | an understated close is answered with one transaction carrying everything ever received on the channel with its proof and the receiver's closing signature, or the channel waits as pending |
| `ReceiverSafety.EverySubmissionIsProved` | microcoin/microcoin/channel_manager/manager.py:244-294 | every closing transaction of every run carries a positive balance, a signature that proves it and a closing signature for the same channel and balance |
| `ReceiverSafety.OnlyItsChannelChanges` | microcoin/microcoin/channel_manager/manager.py:135-409 | an operation on one channel leaves every other channel as it was |
| `ReceiverLaws.PaymentAcceptedIff` | microcoin/microcoin/channel_manager/manager.py:352-409 | after every run a payment is accepted if and only if the channel is confirmed and open, the signature is its sender's over that balance, block, receiver and contract, and the balance is more than was received and within the deposit; it reports the difference and changes nothing else |
| `ReceiverLaws.PaymentRefused` | microcoin/microcoin/channel_manager/manager.py:352-409 | after every run, exactly which refused payment gets which error |
| `ReceiverLaws.ClosingSignedIff` | microcoin/microcoin/channel_manager/manager.py:307-337 | after every run the receiver signs a close if and only if the channel is confirmed, open and paid and the sender asks for exactly the sum received; the signature is over that sum and the channel is closed |
| `ReceiverLaws.CloseSubmits` | microcoin/microcoin/channel_manager/manager.py:244-294 | after every run a close sends one transaction over the sum received with its proof and the agreement to it, leaves the close pending, or fails for want of a payment |
| `ReceiverLaws.ForceCloseCloses` | microcoin/microcoin/channel_manager/manager.py:296-305 | after every run a forced close does the same, and closes a channel without a payment locally |
| `ReceiverLaws.UndisputedCloseIsNoted` | microcoin/microcoin/channel_manager/manager.py:162-195 | after every run a close request that does not understate the sum received closes the channel and stores the settle timeout |
| `ReceiverLaws.UnconfirmedTopupIsNoted` | microcoin/microcoin/channel_manager/manager.py:204-220 | an unconfirmed top-up of a confirmed channel is stored under its transaction; every other entry, field and channel stays |
| `ReceiverLaws.UnconfirmedOpeningIsStored` | microcoin/microcoin/channel_manager/manager.py:146-160 | an unconfirmed opening of an unknown channel is stored open, unpaid and unconfirmed with its deposit; known channels stay |
| `ReceiverLaws.ResetKeepsConfirmed` | microcoin/microcoin/channel_manager/manager.py:411-418 | exactly the confirmed channels are kept, each as it was but for its pending top-ups |
| `ReceiverLaws.SettlementRemoves` | microcoin/microcoin/channel_manager/manager.py:197-202 | a settlement removes exactly its channel if it is stored, and fails an assertion otherwise |
| `ReceiverLaws.TopupIsCounted` | microcoin/microcoin/channel_manager/manager.py:222-240 | a top-up raises an open channel's deposit, strikes its transaction off and changes nothing else; it leaves a closed channel, and fails an assertion if the channel is not confirmed |
| `ReceiverLaws.OpeningIsConfirmed` | microcoin/microcoin/channel_manager/manager.py:135-144 | an opening stores a confirmed, open, unpaid channel with its deposit, unless it is confirmed already; block 0 fails an assertion |
| `StateTables.RepresentsOneMap` | microcoin/microcoin/channel_manager/state.py:249-298 | a pair of tables represents at most one map of channels |
| `StateTables.AddChannelRefines` | microcoin/microcoin/channel_manager/state.py:330-357 | insert-or-replace under a new row id followed by writing the top-ups is an update of the represented map, whatever orphaned top-up rows exist |
| `StateTables.DeleteRowsRefines` | microcoin/microcoin/channel_manager/state.py:370-397 | deleting channel rows, with top-up rows left behind, removes exactly their channels from the represented map |
| `StateTables.RowidReuseMeetsOrphans` | microcoin/microcoin/channel_manager/state.py:330-357 | a row id can be reused, and until its top-ups are rewritten the new channel shows those of the deleted one |
| `StateTables.ChannelManagerState.constructor` | microcoin/microcoin/channel_manager/state.py:121-134 | a new store holds no channel and no head |
| `StateTables.ChannelManagerState.UpdateSyncState` | microcoin/microcoin/channel_manager/state.py:207-227 | each given head field is stored, each field not given stays |
| `StateTables.ChannelManagerState.GetChannelRowid` | microcoin/microcoin/channel_manager/state.py:300-307 | the row found is stored under the key asked for |
| `StateTables.ChannelManagerState.SetUnconfirmedTopups` | microcoin/microcoin/channel_manager/state.py:330-335 | the top-up rows of one row id are replaced, all others stay |
| `StateTables.ChannelManagerState.AddChannel` | microcoin/microcoin/channel_manager/state.py:337-357 | the tables represent the old map updated at the channel's key, so writing and reading back is the identity |
| `StateTables.ChannelManagerState.ResultsToChannels` | microcoin/microcoin/channel_manager/state.py:256-298 | the rows selected are turned into exactly the channels stored under their keys |
| `StateTables.ChannelManagerState.GetChannels` | microcoin/microcoin/channel_manager/state.py:249-262 | exactly the confirmed (unconfirmed) channels, as stored |
| `StateTables.ChannelManagerState.PendingChannels` | microcoin/microcoin/channel_manager/state.py:272-282 | exactly the channels whose close is pending, as stored |
| `StateTables.ChannelManagerState.ChannelExists` | microcoin/microcoin/channel_manager/state.py:318-328 | true exactly for the stored keys |
| `StateTables.ChannelManagerState.DelChannel` | microcoin/microcoin/channel_manager/state.py:370-375 | the represented map loses that key and nothing else |
| `StateTables.ChannelManagerState.DelUnconfirmedChannels` | microcoin/microcoin/channel_manager/state.py:395-397 | exactly the confirmed channels are left |
| `ChannelManagers.ChannelManager.constructor` | microcoin/microcoin/channel_manager/manager.py:47-88 | the manager takes over a stored state as it is, or starts from an empty one, with no transaction sent |
| `ChannelManagers.ChannelManager.SetHead` | microcoin/microcoin/channel_manager/manager.py:119-131 | both heads and hashes are stored if 0 < confirmed < unconfirmed, otherwise an assertion fails and nothing is stored |
| `ChannelManagers.ChannelManager.EventChannelOpened` | microcoin/microcoin/channel_manager/manager.py:135-144 | on the tables it does what the value-level operation of the run theorems does: state and outcome agree in every branch |
| `ChannelManagers.ChannelManager.UnconfirmedEventChannelOpened` | microcoin/microcoin/channel_manager/manager.py:146-160 | same, for an unconfirmed opening, which never touches a stored channel |
| `ChannelManagers.ChannelManager.EventChannelCloseRequested` | microcoin/microcoin/channel_manager/manager.py:162-195 | same, for a close request: state, transactions sent and outcome, including the write-back after a dispute |
| `ChannelManagers.ChannelManager.EventChannelSettled` | microcoin/microcoin/channel_manager/manager.py:197-202 | same, for a settlement, which asserts that the channel is stored |
| `ChannelManagers.ChannelManager.UnconfirmedEventChannelTopup` | microcoin/microcoin/channel_manager/manager.py:204-220 | same, for an unconfirmed top-up, noted only on confirmed channels |
| `ChannelManagers.ChannelManager.EventChannelTopup` | microcoin/microcoin/channel_manager/manager.py:222-240 | same, for a confirmed top-up, ignored on closed channels |
| `ChannelManagers.ChannelManager.CloseChannel` | microcoin/microcoin/channel_manager/manager.py:244-294 | same, for a close: nothing, an error without signature, one transaction, or a pending close |
| `ChannelManagers.ChannelManager.ForceCloseChannel` | microcoin/microcoin/channel_manager/manager.py:296-305 | same, for a forced close, which closes without transaction when no payment was received |
| `ChannelManagers.ChannelManager.SignClose` | microcoin/microcoin/channel_manager/manager.py:307-337 | same, for a cooperative close: a closing signature over the stored balance, only if the sender asks for that balance |
| `ChannelManagers.ChannelManager.GetLockedBalance` | microcoin/microcoin/channel_manager/manager.py:339-341 | the sum of the balances of all confirmed channels |
| `ChannelManagers.ChannelManager.VerifyBalanceProof` | microcoin/microcoin/channel_manager/manager.py:352-383 | returns the stored channel exactly when it is confirmed, open and the signature proves the balance, otherwise the error the order of checks prescribes |
| `ChannelManagers.ChannelManager.RegisterPayment` | microcoin/microcoin/channel_manager/manager.py:385-409 | stores balance and signature and reports the difference exactly when the proof verifies and old balance < balance <= deposit |
| `ChannelManagers.ChannelManager.ResetUnconfirmed` | microcoin/microcoin/channel_manager/manager.py:411-418 | only confirmed channels are left, without unconfirmed top-ups, and the unconfirmed head falls back to the confirmed one |
| `ChannelManagers.ChannelManager.ClosePendingChannels` | microcoin/microcoin/channel_manager/manager.py:486-491 | the result is a run of close steps on pending channels; it succeeds exactly when all of them can be paid for, and then none is pending |
| `HeadSync.OneConfirmationAdvances` | microcoin/microcoin/channel_manager/blockchain.py:101-128 | with one confirmation, a poll that reads on produces heads that `set_head` accepts, one block apart, with the old unconfirmed head confirmed |
| `HeadSync.ReadsAChunk` | microcoin/microcoin/channel_manager/blockchain.py:105-112 | a poll that reads on reads to the chain's head or a whole chunk, whichever is less, and confirms all of it but the required number of blocks |
| `HeadSync.ReadsNewBlocksOnly` | microcoin/microcoin/channel_manager/blockchain.py:105-112 | on every run a poll reads on if and only if it comes to a new block |
| `HeadSync.CatchesUp` | microcoin/microcoin/channel_manager/blockchain.py:75-128 | with one confirmation, k polls of a chain that stays as it is come to its head or at least k blocks further |
| `HeadSync.EachBlockDeliveredOnce` | microcoin/microcoin/channel_manager/blockchain.py:75-128 | with one confirmation and any start block, over every sequence of polls and fall-backs: each block after the start block up to the confirmed head is delivered as confirmed exactly once, every other block never, and the confirmed head never falls |
| `HeadSync.SteadyDeliversOnce` | microcoin/microcoin/channel_manager/blockchain.py:75-128 | for any number of confirmations, a run in which every poll that reads on reads at least up to the confirmed head delivers each block exactly once |
| `HeadSync.ExactlyOnceIff` | microcoin/microcoin/channel_manager/blockchain.py:75-128 | for every configuration, all runs deliver every block exactly once if and only if one confirmation is required or no head is ever accepted; otherwise some run delivers a block twice |
| `HeadSync.LowersConfirmedHeadIff` | microcoin/microcoin/channel_manager/blockchain.py:105-112 | for any number of confirmations and any heads, exactly when one poll lowers the confirmed head |
| `HeadSync.ConfirmedHeadNeverFallsIff` | microcoin/microcoin/channel_manager/blockchain.py:75-128 | for every configuration, no poll of any run lowers the confirmed head if and only if at most one confirmation is required or no head is ever accepted |
| `HeadSync.TwoConfirmationsDeliverTwice` | microcoin/microcoin/channel_manager/blockchain.py:105-128 | a run with two confirmations that delivers one block twice |
| `ChainLog.BetweenHas` | microcoin/microcoin/channel_manager/blockchain.py:114-136 | a log filter returns exactly the entries after the first and up to the last block |
| `ChainLog.RelayAppend` | microcoin/microcoin/channel_manager/blockchain.py:138-271 | relaying two lists of events one after the other is relaying their concatenation, errors and transactions included |
| `Blockchains.Blockchain.RelayCloseRequest` | microcoin/microcoin/channel_manager/blockchain.py:264-271 | a challenge that cannot be paid for sets the flag and does not stop the poll |
| `Blockchains.Blockchain.RelayEvents` | microcoin/microcoin/channel_manager/blockchain.py:138-271 | handler calls one by one up to the first error reach the state, transactions, flag and result of the relayed list |
| `Blockchains.Blockchain.RelayLogs` | microcoin/microcoin/channel_manager/blockchain.py:138-271 | the six loops over the log reach the state, transactions, flag and result of the six passes in order |
| `Blockchains.Blockchain.CheckReorganisation` | microcoin/microcoin/channel_manager/blockchain.py:78-92 | the node falls back to its confirmed part when the chain is shorter or the head's hash is gone |
| `Blockchains.Blockchain.CurrentHeads` | microcoin/microcoin/channel_manager/blockchain.py:101-104 | missing heads are set to the start block, and stored |
| `Blockchains.Blockchain.MoveHeads` | microcoin/microcoin/channel_manager/blockchain.py:273-291 | heads and hashes are stored or refused, and the first arrival at the chain's head marks the node as synchronised |
| `Blockchains.Blockchain.Poll` | microcoin/microcoin/channel_manager/blockchain.py:75-291 | one update of the objects is one update of the node as a value, so the run theorems hold of the objects |
| `Blockchains.Blockchain.InsufficientBalanceRecover` | microcoin/microcoin/channel_manager/blockchain.py:293-305 | below the limit nothing happens; otherwise the flag is cleared exactly when every pending close could be paid for, and then none is pending |
| `LogAgreement.UnconfirmedOpeningsPass` | microcoin/microcoin/channel_manager/blockchain.py:138-155 | the pass succeeds, keeps agreement with the confirmed log, and leaves every channel it saw stored |
| `LogAgreement.OpeningsPass` | microcoin/microcoin/channel_manager/blockchain.py:157-171 | the pass succeeds and the store then agrees with the log extended by these openings |
| `LogAgreement.UnconfirmedAdditionsPass` | microcoin/microcoin/channel_manager/blockchain.py:173-197 | the pass succeeds and keeps agreement; no top-up already counted is noted again |
| `LogAgreement.AdditionsPass` | microcoin/microcoin/channel_manager/blockchain.py:199-218 | the pass succeeds and the store agrees with the log extended by these top-ups |
| `LogAgreement.SettlementsPass` | microcoin/microcoin/channel_manager/blockchain.py:220-233 | the pass succeeds and the store agrees with the log extended by these settlements |
| `LogAgreement.CloseRequestsPass` | microcoin/microcoin/channel_manager/blockchain.py:235-271 | the pass keeps agreement and fails at most for lack of funds |
| `LogAgreement.CloseRequestsCompleteIff` | microcoin/microcoin/channel_manager/blockchain.py:235-271 | the last loop completes if and only if no request in it is a forced close of a channel with a balance that cannot be paid for, and changes no balance |
| `LogAgreement.PassesCompleteIff` | microcoin/microcoin/channel_manager/blockchain.py:138-271 | all six loops complete if and only if no such request is for a channel that had a balance before and is not settled in the same stretch |
| `LogAgreement.UpdateKeepsAgreement` | microcoin/microcoin/channel_manager/blockchain.py:114-271 | reading on from a confirmed to a new confirmed head completes if and only if the forced closes can be paid for, fails at most for lack of funds, and carries agreement with the log from the one head to the other |
| `AbortedPolls.DepositAfter` | microcoin/microcoin/channel_manager/blockchain.py:138-271 | after the six loops, finished or stopped, an unsettled channel has its deposit plus, if it was open, the top-ups read |
| `AbortedPolls.AgreesStillIff` | microcoin/microcoin/channel_manager/blockchain.py:138-271 | the store still agrees with the old part of the log afterwards if and only if the channels opened in the new part are those settled in it and nothing was added to an open channel |
| `UnconfirmedEvents.PassesNote` | microcoin/microcoin/channel_manager/blockchain.py:173-271 | after a completed update a top-up read as unconfirmed only is noted with the amount logged last for its transaction |
| `UnconfirmedEvents.PassesStore` | microcoin/microcoin/channel_manager/blockchain.py:138-271 | after an update, finished or stopped, an opening of an unknown channel read as unconfirmed only is stored with its deposit |
| `UnconfirmedEvents.PassesTraced` | microcoin/microcoin/channel_manager/blockchain.py:138-271 | after an update, finished or stopped, every unconfirmed channel and pending top-up was there before or is in what it read as unconfirmed |
| `CloseAnswers.RequestsAreAnswered` | microcoin/microcoin/channel_manager/blockchain.py:235-271 | the last loop sends one transaction over the whole balance for each request that must and can be answered, nothing else, and notes a lack of funds if and only if a dispute could not be paid for |
| `CloseAnswers.PassesAnswer` | microcoin/microcoin/channel_manager/blockchain.py:138-271 | the earlier loops send nothing, so this holds of the whole update |
| `CloseAnswers.RequestsClose` | microcoin/microcoin/channel_manager/blockchain.py:235-271 | after the last loop a channel is closed if and only if it was or one of the requests closes it |
| `CloseAnswers.PassesClose` | microcoin/microcoin/channel_manager/blockchain.py:138-271 | the same of the whole update, in terms of the balances before it |
| `NodeRuns.DepositsAgreeWithLog` | microcoin/microcoin/channel_manager/manager.py:135-240 | after every run, through reorganisations, payments, closes, restarts and aborted polls that keep agreement: the confirmed channels are those opened and not settled in the confirmed log, and an open one's deposit is its opening deposit plus all its top-ups there |
| `NodeRuns.NoAssertionFails` | microcoin/microcoin/channel_manager/manager.py:197-240 | after every such run the next poll completes if and only if its forced closes can be paid for, and otherwise stops for lack of funds: no assertion of a handler or of the heads fails |
| `NodeRuns.UpdateKeeps` | microcoin/microcoin/channel_manager/blockchain.py:75-291 | one poll of a trusted chain by a node in agreement fails no assertion, completes if and only if its forced closes can be paid for, and leaves the node in agreement if and only if they can or nothing counts in what it read |
| `NodeRuns.FaithfulPollsComplete` | microcoin/microcoin/channel_manager/blockchain.py:75-291 | in such a run exactly the polls that can pay for their forced closes are completed |
| `NodeRuns.AbortedPollCountsTwice` | microcoin/microcoin/channel_manager/blockchain.py:199-260 | from any state, synchronised or not, in which a poll reads a top-up of an open channel and an unpaid forced close of another: it stops, and after a restart the next poll of the same chain adds the top-up a second time |
| `NodeRuns.EveryRunIsBacked` | microcoin/microcoin/channel_manager/blockchain.py:75-291 | whatever the polls see, even when they are aborted, every stored balance stays backed by a valid proof and the deposit |
| `NodeRuns.UpdateAdvancesHeads` | microcoin/microcoin/channel_manager/blockchain.py:75-291 | every poll of the full node, aborted or not, moves the heads as the head arithmetic alone says |
| `NodeRuns.ConfirmedBlocksRelayedOnce` | microcoin/microcoin/channel_manager/blockchain.py:75-291 | over every run of the full node with one confirmation, with aborted polls and restarts, the completed polls relay each block after the start block up to the confirmed head as confirmed exactly once |
| `PollLaws.CompletedPollStoresHashes` | microcoin/microcoin/channel_manager/blockchain.py:273-291 | a completed poll that reads on stores beside each head the hash of that block on the chain it saw, and the node is synchronised once its unconfirmed head is the chain's |
| `PollLaws.StoredHashesAreOfOneChain` | microcoin/microcoin/channel_manager/blockchain.py:75-291 | over every run, no hash is stored yet or both are those of the stored heads on a chain that one completed poll of the run saw |
| `PollLaws.ReorganisationIsForgotten` | microcoin/microcoin/channel_manager/blockchain.py:78-92 | when the unconfirmed head of that chain has been replaced and its confirmed head has not, everything unconfirmed that is stored after the next poll is on the new chain |
| `PollLaws.OtherwiseNothingIsForgotten` | microcoin/microcoin/channel_manager/blockchain.py:78-92 | when it has not been replaced the poll reads on from all that is stored |
| `PollLaws.AssertionFailsIff` | microcoin/microcoin/channel_manager/blockchain.py:84-98 | after every faithful run the next poll fails an assertion if and only if the node is synchronised and the confirmed head of that chain has been replaced |
| `PollLaws.UnconfirmedPartIsStored` | microcoin/microcoin/channel_manager/blockchain.py:138-197 | after every faithful run and a completed poll, the chain between the new heads is stored: openings with their deposits, and top-ups of confirmed channels with the amount logged last |
| `PollLaws.PollAnswers` | microcoin/microcoin/channel_manager/blockchain.py:235-271 | a completed poll sends what the close requests it reads call for and no more, and notes a lack of funds if and only if a dispute could not be paid for |
| `PollLaws.PollCloses` | microcoin/microcoin/channel_manager/blockchain.py:235-271 | after a completed poll a confirmed channel is closed if and only if it was before or a close request between the old and the new confirmed head closes it |
| `PollLaws.NewUnconfirmedIsRead` | microcoin/microcoin/channel_manager/blockchain.py:138-197 | what a poll, complete or not, stores as unconfirmed was stored before or is in the blocks after the unconfirmed head it started from |
| `PollLaws.HeadsAreStored` | microcoin/microcoin/channel_manager/blockchain.py:101-128 | a completed poll leaves both heads stored, those of the start block if nothing was read yet |
| `SenderChannels.SenderChannel.constructor` | microcoin/microcoin/client/channel.py:25-49 | a new channel object has signed its initial balance |
| `SenderChannels.SenderChannel.UpdateBalance` | microcoin/microcoin/client/channel.py:59-61 | the balance is replaced and its signature recomputed |
| `SenderChannels.SenderChannel.TopUp` | microcoin/microcoin/client/channel.py:76-130 | the deposit grows exactly when the channel is open, tokens suffice and the event arrives; else nothing changes |
| `SenderChannels.SenderChannel.RequestClose` | microcoin/microcoin/client/channel.py:132-180 | an explicit balance is signed before anything else, and stays signed even when no event arrives |
| `SenderChannels.SenderChannel.CooperativeClose` | microcoin/microcoin/client/channel.py:182-238 | the channel closes exactly when the closing signature is the receiver's and the event arrives |
| `SenderChannels.SenderChannel.SettleChannel` | microcoin/microcoin/client/channel.py:240-295 | only a settling channel whose settle block has been reached is closed |
| `SenderChannels.SenderChannel.Transfer` | microcoin/microcoin/client/channel.py:297-320 | a signature over the increased balance exactly when the channel is not closed and its capacity suffices; else nothing changes |
| `SenderChannels.SenderChannel.IsValid` | microcoin/microcoin/client/channel.py:322-323 | true exactly when the deposit covers the balance, given that the signature is kept in step |
| `SenderChannels.TransferTakesRoom` | microcoin/microcoin/client/channel.py:297-320 | a transfer is signed if and only if the room covers it and the channel is not closed, and takes its value out of the room |
| `SenderChannels.OnlyRequestedChannelsSettle` | microcoin/microcoin/client/channel.py:132-295 | an open channel cannot be settled; after a close request it is settling or closed, exactly as the request and the settlement were confirmed and the block reached |
| `SenderChannels.ClosedTakesNothing` | microcoin/microcoin/client/channel.py:76-180 | a channel whose close was requested takes no top-up and no second request, a closed one no transfer |
| `SenderChannels.CooperativeCloseCloses` | microcoin/microcoin/client/channel.py:182-238 | a cooperative close closes from any state if and only if the signature is the receiver's and the event arrives |
| `JointProtocol.SenderStepCovered` | microcoin/microcoin/client/channel.py:59-320 | no step of the sender, synchronising with the log included, signs a balance its deposit does not cover |
| `JointProtocol.SignedBalancesAreCovered` | microcoin/microcoin/client/channel.py:297-320 | over every run of sender, receiver and an adversarial server without forgeries, with synchronisations in between: every balance ever signed is within the sender's deposit, and the receiver stores only signed balances |
| `JointProtocol.ReceiverNeverExceedsDeposit` | microcoin/microcoin/channel_manager/manager.py:385-409 | over every such run the receiver's balance is within the deposit as the sender knows it |
| `JointProtocol.ExplicitCloseCoveredIff` | microcoin/microcoin/client/channel.py:132-146 | a close with an explicit balance keeps everything signed covered if and only if that balance is covered |
| `JointProtocol.ExplicitCloseUncovered` | microcoin/microcoin/client/channel.py:132-146 | from every initial state, closing with one more than the deposit leaves a signed balance uncovered |
| `JointProtocol.ResyncMeetsReceiver` | microcoin/microcoin/client/session.py:212-255 | after an honest rejection sender and receiver hold the same balance, and the session gives up exactly when they already held the same positive one |
| `JointProtocol.ResyncedPaymentIsAccepted` | microcoin/microcoin/client/session.py:212-296 | the payment computed after an honest rejection, which the session makes unless it gave up, is registered for exactly the price if and only if the receiver's confirmed deposit covers it, and is not signed for lack of deposit otherwise |
| `JointProtocol.PriceIsPaidIff` | microcoin/microcoin/client/session.py:283-290 | on an open channel the deposit grows by exactly the top-up if and only if the room was too small, the tokens sufficed and the event arrived, and the price is signed if and only if the room then covers it |
| `JointSessions.PaymentGoesThrough` | microcoin/microcoin/client/channel.py:297-320 | a transfer that both deposits cover, followed by its payment, raises the balance on both sides by its value |
| `JointSessions.TopupGoesThrough` | microcoin/microcoin/client/channel.py:76-130 | a top-up that the sender can afford and that is confirmed raises the deposit on both sides |
| `JointSessions.CooperativeCloseGoesThrough` | microcoin/microcoin/client/channel.py:182-238 | the receiver agrees to close at the common balance and both sides end closed with it; a foreign signature changes nothing |
| `JointSessions.RequestedCloseGoesThrough` | microcoin/microcoin/client/channel.py:132-295 | a close requested at the common balance is not disputed, cannot be settled early, and after settlement the sender has it closed and the receiver has forgotten it |
| `JointSessions.ResyncGoesThrough` | microcoin/microcoin/client/session.py:212-255 | a sender that has lost its balance gets it back from an honest receiver |
| `JointSessions.SyncGoesThrough` | microcoin/microcoin/client/client.py:92-138 | synchronising gives the sender the deposit, the closing balance and the state recorded in the log |
| `ClientSync.SyncAt` | microcoin/microcoin/client/client.py:92-138 | which channel survives a synchronisation and with which deposit, balance and state, from the log alone and not loop by loop |
| `ClientSync.SyncedObjectIs` | microcoin/microcoin/client/client.py:104-133 | what the loops make of a channel object that was held, kept afterwards or not; this is the sender's synchronisation step |
| `ClientSync.SyncTwiceIff` | microcoin/microcoin/client/client.py:92-138 | synchronising again changes nothing if and only if no channel was held closed that the log shows as neither close-requested nor settled |
| `ClientSync.SyncTwiceDiffers` | microcoin/microcoin/client/client.py:92-138 | a channel held as closed of which the log has only the creation is forgotten by one synchronisation and open again after two |
| `ClientSync.RecoversUnsettled` | microcoin/microcoin/client/client.py:92-138 | a client that has lost everything recovers exactly the created and unsettled channels with their full deposits and states |
| `Clients.Client.FileChannels` | microcoin/microcoin/client/client.py:101-102 | every channel is found under its own receiver and block |
| `Clients.Client.OnCreated` | microcoin/microcoin/client/client.py:104-118 | a known channel gets the deposit, an unknown one becomes a new object, all other channels stay |
| `Clients.Client.OnToppedUp` | microcoin/microcoin/client/client.py:120-122 | exactly the channel named grows; an unknown one fails |
| `Clients.Client.OnCloseRequested` | microcoin/microcoin/client/client.py:124-129 | exactly the channel named changes: it is settling and has signed the balance of the close request; an unknown one fails |
| `Clients.Client.OnSettled` | microcoin/microcoin/client/client.py:131-133 | exactly the channel named is closed; an unknown one fails |
| `Clients.Client.Collect` | microcoin/microcoin/client/client.py:135-138 | every channel that is not closed is kept, once |
| `Clients.Client.SyncChannels` | microcoin/microcoin/client/client.py:64-140 | updating the objects in place ends in the synchronised views, and fails exactly when an event names a channel that was never created |
| `Clients.Client.GetOpenChannels` | microcoin/microcoin/client/client.py:219-229 | exactly the open channels to the receiver |
| `Clients.Client.PickByCapacity` | microcoin/microcoin/client/client.py:262-283 | a channel of least (most) remaining capacity |
| `Clients.Client.GetSuitableChannel` | microcoin/microcoin/client/client.py:231-291 | a result is open and can carry the value: the tightest suitable channel untouched, else the roomiest open one topped up to exactly the larger of value and callable, else a new one; no other channel changes; the client stays well filed unless it held a channel created in the same block to the same receiver |
| `Clients.Client.FundChannel` | microcoin/microcoin/client/client.py:270-291 | there is no result exactly when the roomiest channel could not be topped up or no new one created |
| `Sessions.Session.OnPaymentRequested` | microcoin/microcoin/client/session.py:257-296 | an open channel is kept, grows by the top-up exactly when it is short and the top-up succeeds, and signs the price exactly when its room then covers it; a channel obtained from the client has always signed the price; a price that is not positive changes nothing |
| `Sessions.Session.OnInvalidAmount` | microcoin/microcoin/client/session.py:212-255 | gives up exactly when the server proves the balance already held, otherwise adopts a proved balance or 0 and pays again; a channel that was not open any more adopts it too and is left for one the client finds or funds, which then has signed the price |
| `Sessions.Session.OnCooperativeCloseDenied` | microcoin/microcoin/client/session.py:330-334 | without the receiver's signature a close is requested at balance 0 |
| `ContractJoiner.JoinFileCovers` | contracts/gatecoin_contracts/utils/join_contracts.py:30-66 | joining a file outputs, of all lines of the files newly visited, every body line once and each pragma not seen before once, and no import |
| `JoinerGraph.JoinMarksReachable` | contracts/gatecoin_contracts/utils/join_contracts.py:30-66 | joining succeeds if and only if every file reachable through imports exists, and then visits exactly the reachable ones, cyclic or not |
| `JoinerGraph.JoinOutputsEachLineOnce` | contracts/gatecoin_contracts/utils/join_contracts.py:30-66 | the output has no line twice, every body line of exactly the reachable files, and each of their pragmas exactly once |
| `JoinerOrder.JoinIsOrdered` | contracts/gatecoin_contracts/utils/join_contracts.py:36-66 | on any import graph, a line that no import above it leads back to comes after every body line of everything imported above it, directly or not; any line comes after the body lines of each other file imported above it that has no body line below an import leading to the line's file |
| `JoinerOrder.JoinImportsFirst` | contracts/gatecoin_contracts/utils/join_contracts.py:36-66 | without a clash among the files a root leads to, its join has every body line after all body lines of the other files imported above it |
| `JoinerOrder.ClashBreaksTheOrder` | contracts/gatecoin_contracts/utils/join_contracts.py:36-66 | of any two files that clash, the join from the imported one has a body line of the importing one before a body line it needs |
| `JoinerOrder.ImportsComeFirstIff` | contracts/gatecoin_contracts/utils/join_contracts.py:36-66 | the joins from a root and from all files it leads to are in order if and only if no two of these files clash |
| `JoinerOrder.AllJoinsInOrderIff` | contracts/gatecoin_contracts/utils/join_contracts.py:36-66 | all joins that succeed are in order if and only if no file that can be joined clashes with another |
| `JoinerOrder.ImportsComeFirst` | contracts/gatecoin_contracts/utils/join_contracts.py:36-66 | without cycles among the files the root leads to, every output line, pragmas included, comes after every body line of everything imported above it, directly or not |
| `JoinerOrder.CyclesBreakTheOrder` | contracts/gatecoin_contracts/utils/join_contracts.py:36-66 | two files importing each other whose join is out of order |
| `JoinContracts.Joiner.constructor` | contracts/gatecoin_contracts/utils/join_contracts.py:25-28 | nothing is seen, and the files are those on disk with every line classified |
| `JoinContracts.Joiner.Join` | contracts/gatecoin_contracts/utils/join_contracts.py:30-50 | the recursion over shared sets returns the texts of the joined lines and leaves the sets the value-level join prescribes, also when a file is missing |
| `JoinContracts.Joiner.OnLine` | contracts/gatecoin_contracts/utils/join_contracts.py:39-66 | one line contributes exactly the head of the join of the lines from it on |
| `JoinedSources.JoinSources` | contracts/gatecoin_contracts/utils/join_contracts.py:30-79 | joining files on disk fails if and only if a file the root leads to is missing; otherwise the output is, in terms of the raw lines, every line of these files without its line end that is neither import nor pragma nor licence, once for each time it stands there, every pragma and licence line once, and no import |
| `JoinedSources.ClassifiedAs` | contracts/gatecoin_contracts/utils/join_contracts.py:40-49 | a raw line is kept once, imported or kept as it is, by how its stripped text starts |
| `JoinedSources.ReachesAreRaw` | contracts/gatecoin_contracts/utils/join_contracts.py:57-66 | one file leads to another if and only if lines of the import syntax do, through the import map |
| `JoinedSources.LineEndsGo` | contracts/gatecoin_contracts/utils/join_contracts.py:40 | what is kept of a raw line is the line without the line ends around it |
| `ImportLines.StripTakesBothEnds` | contracts/gatecoin_contracts/utils/join_contracts.py:40-41 | stripping removes a run of such characters at either end and leaves none at the ends |
| `ImportLines.SpacesAre` | contracts/gatecoin_contracts/utils/join_contracts.py:41 | the characters that count as white space, by code point |
| `ImportLines.NamesArePatterns` | contracts/gatecoin_contracts/utils/join_contracts.py:10 | the names captured are those of the pattern: no quotes, a character that ends no line, and the extension |
| `ImportLines.MatchImportIff` | contracts/gatecoin_contracts/utils/join_contracts.py:10-60 | a line yields an imported name if and only if it has the import syntax with that name |
| `ImportLines.ReplaceKeepsIff` | contracts/gatecoin_contracts/utils/join_contracts.py:62-64 | replacing leaves a text as it is if and only if the pattern does not occur or is replaced by itself |
| `ImportLines.PrefixIsMappedIff` | contracts/gatecoin_contracts/utils/join_contracts.py:62-64 | after any other mappings, a mapping turns its prefix into its path and leaves the rest alone if and only if the prefix does not occur in the rest, is its own path, or the name is empty |
| `ImportLines.EveryOccurrenceIsMapped` | contracts/gatecoin_contracts/utils/join_contracts.py:62-64 | the name is cut at the prefix into pieces without it, and the path comes into every cut |
| `ImportLines.PrefixComesBack` | contracts/gatecoin_contracts/utils/join_contracts.py:62-64 | a prefix that stands twice at the front is replaced twice |
| `ResolveDeps.Resolve` | src/tools/pip-compile-wrapper.py:158-182 | the result lists each requested known source once, with everything it needs among the requested names before it; an error is raised if and only if the dependencies are cyclic or incomplete |
| `ResolveDeps.TakeLayers` | src/tools/pip-compile-wrapper.py:170-181 | what is taken is ordered, and of what is left every source waits for another one |
| `ResolveDeps.StrikeOff` | src/tools/pip-compile-wrapper.py:178-179 | every remaining set loses exactly the satisfied names, in place |
| `ResolveDeps.OrderedIsAcyclic` | src/tools/pip-compile-wrapper.py:158-182 | only graphs without cycles and gaps have a complete order |
| `ResolveDeps.StuckIsBad` | src/tools/pip-compile-wrapper.py:172-174 | when nobody is satisfied there is a cycle or a missing source |
| `Packing.FormatsBigEndian` | microcoin/microcoin/utils/crypto.py:60-66 | a number that fits is packed as its big-endian bytes, through hex digits, zero filling and decoding |
| `Packing.FormatWidthIff` | microcoin/microcoin/utils/crypto.py:63-64 | a non-negative number is packed in its declared width if and only if it fits |
| `Packing.FormatNegativeIff` | microcoin/microcoin/utils/crypto.py:65-66 | a negative number of any size is packed in its declared width if and only if its two's complement needs all hex digits, and is then that two's complement |
| `Packing.WidthsThatFail` | microcoin/microcoin/utils/crypto.py:60-66 | 256 and -255 in 8 bits cannot be packed |
| `Packing.Pack` | microcoin/microcoin/utils/crypto.py:51-87 | the loop yields the concatenation of the packed arguments, or fails exactly when one of them cannot be packed |
| `Packing.DataIsPacked` | microcoin/microcoin/utils/crypto.py:162-204 | the data of both messages is text, 20, 4, 24 and 20 bytes in this order |
| `Packing.DataDetermines` | microcoin/microcoin/utils/crypto.py:162-204 | equal packed data means equal counterparty, block, balance and contract |
| `Packing.BalanceProofIsNotClosing` | microcoin/microcoin/utils/crypto.py:162-204 | a balance proof and a closing agreement never have the same packed data |
| `Packing.PlainArgs` | microcoin/microcoin/utils/crypto.py:71-79 | bytes are packed as they are and flags as one byte |
| `Packing.NumberArgs` | microcoin/microcoin/utils/crypto.py:80-81 | a number without a width is packed as 32 big-endian bytes |
| `Packing.TextArgs` | microcoin/microcoin/utils/crypto.py:73-77 | text is packed character by character, or decoded two digits to a byte after a prefix |
| `TypedData.TypedMessageIs` | microcoin/microcoin/utils/crypto.py:138-142 | typed data is hashed as the hash of its schema followed by the hash of its values |
| `TypedData.BalanceHashDetermines` | microcoin/microcoin/utils/crypto.py:162-171 | equal hashes of two balance messages mean equal receivers, blocks, balances and contracts, unless the hash collides on the bytes named |
| `TypedData.BalanceHashIsNotClosing` | microcoin/microcoin/utils/crypto.py:162-204 | the hash of a balance message is not that of a closing message, unless the hash collides on the bytes named |
| `Bytes.ValueOfBigEndian` | microcoin/microcoin/utils/crypto.py:60-66 | reading big-endian bytes gives back the number written |
| `Bytes.DecodeHexDigits` | microcoin/microcoin/utils/crypto.py:60-66 | decoding the hex digits of a number gives its big-endian bytes |
| `Bytes.DigitsAre` | microcoin/microcoin/utils/crypto.py:60-66 | digits of both cases are read at their value, and nothing else is a digit |
| `SignedMessages.LengthTellsKind` | contracts/gatecoin_contracts/utils/proofs.py:41-264 | the length of each packed message |
| `SignedMessages.TypeAtFixedPlace` | contracts/gatecoin_contracts/utils/proofs.py:41-264 | contract, chain and message type stand at the same place in every message |
| `SignedMessages.BalanceProofLayout` | contracts/gatecoin_contracts/utils/proofs.py:41-82 | each field of a balance proof at its byte offset; the message is the proof followed by the closing signature |
| `SignedMessages.CooperativeSettleLayout` | contracts/gatecoin_contracts/utils/proofs.py:85-103 | each field of a cooperative settlement at its byte offset, with type id 4 |
| `SignedMessages.WithdrawLayout` | contracts/gatecoin_contracts/utils/proofs.py:106-122 | each field of a withdrawal at its byte offset, with type id 3 |
| `SignedMessages.RewardProofLayout` | contracts/gatecoin_contracts/utils/proofs.py:125-141 | each field of a reward proof at its byte offset, with type id 6 |
| `SignedMessages.IouLayout` | contracts/gatecoin_contracts/utils/proofs.py:245-264 | each field of an IOU at its byte offset, with type id 5 |
| `SignedMessages.DifferentTypesDiffer` | contracts/gatecoin_contracts/constants.py:94-102 | messages of different type ids never have the same bytes |
| `SignedMessages.PackInjective` | contracts/gatecoin_contracts/utils/proofs.py:41-264 | equal bytes mean the same kind of message with the same fields, for all six kinds |
| `SignedMessages.PrefixInjective` | contracts/gatecoin_contracts/utils/proofs.py:32-38 | the length prefix in decimal is unambiguous |
| `SignedMessages.SignedBytesDetermineMessage` | contracts/gatecoin_contracts/utils/proofs.py:32-264 | what is hashed for signing determines the message |
| `LockInfo.UpdateLockInfo` | src/gatecoin/gatcoin_event_handler.py:114-155 | updating the old state in place gives the prescribed three tables |
| `LockInfo.EachLockGoesToOnePlace` | src/gatecoin/gatcoin_event_handler.py:114-155 | each formerly locked or unlocked lock ends on-chain, locked or dropped, exactly one of them, decided by its secret hash; on-chain ones stay |
| `LockInfo.AmountsAreConserved` | src/gatecoin/gatcoin_event_handler.py:114-155 | amounts moved on-chain, still locked and dropped add up to the amounts before |
| `LockInfo.OwnUnlockIff` | src/gatecoin/gatcoin_event_handler.py:769-772 | we unlock our side if and only if a lock of positive amount is not unlocked on-chain and its payment still runs |
| `LockInfo.PartnerUnlockIff` | src/gatecoin/gatcoin_event_handler.py:722-731 | we unlock the partner's side if and only if a lock of positive amount was revealed on-chain |
| `LogFilter.JoinSplit` | src/gatecoin/log_config.py:48-78 | splitting a logger name at dots loses nothing |
| `LogFilter.NoDotInParts` | src/gatecoin/log_config.py:48-78 | no part of a split logger name has a dot |
| `LogFilter.PartsAreUnique` | src/gatecoin/log_config.py:48-78 | a name can be written as parts without dots in one way only |
| `LogFilter.MostSpecificUnique` | src/gatecoin/log_config.py:80-90 | at most one rule is the most specific match |
| `LogFilter.OrderDoesNotMatter` | src/gatecoin/log_config.py:80-90 | the level does not depend on the order of the rules |
| `LogFilter.Filter.constructor` | src/gatecoin/log_config.py:66-78 | the default level is the configured one of the empty logger, if any |
| `LogFilter.Filter.GetLogLevel` | src/gatecoin/log_config.py:80-90 | the level of the most specific rule whose modules are a prefix of the logger's, or the default |
| `LogFilter.Filter.ShouldLog` | src/gatecoin/log_config.py:92-101 | the answer compares against the prescribed level, cached or not, and a cached answer never changes |
| `LogFilter.Filter.AnswerUnique` | src/gatecoin/log_config.py:92-101 | there is only one right answer, so the cache cannot differ from a fresh computation |

## Left out

- LogFilter.Filter.GetLogLevel: logger names of more than `sys.maxsize` parts, for which an exact match would not be preferred.
- LockInfo.AmountsAreConserved: takes the amounts of one secret hash to agree in the old and the new state, as they belong to the same lock.
- The callback by which a settled channel object removes itself from its client's list.
- Concurrency inside one call: greenlets are taken to switch only between calls, and an aborted poll stays where it stopped, with its error returned.
- The HTTP server and client loops around these operations: requests, headers, retries, waiting, cookies and prices.
- web3: building, signing and sending transactions, gas, log filters and waiting for events; their outcomes are arguments.
- keccak256, secp256k1 and the v value of signatures, with the errors of decoding malformed signatures.
- Checks that text is a checksummed address, and the comparison of addresses in different spelling.
- Text outside ASCII in packed messages.
- SQLite storage classes, file permissions, locking, schema versions and the conversion of channels to dictionaries.
- Creation and modification times of channels, and channel states that are declared and never used.
- Starting and stopping: command lines, exits when the chain or contract does not match, and logging.
- The rest of the Gatecoin node, its transfer state machines, services, transport, deployment and the contracts themselves.
