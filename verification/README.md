# Kasia console: verified model of its money-carrying logic

This Dafny project models the parts of the Kasia console that decide about money and about state
that must not be lost, and proves what they guarantee:

- the prediction-offer escrow protocol (`Sompi`, `Relay`, `EscrowContract`, `OfferProtocol`,
  `OfferHandlers`, `OfferRuns`, `OfferTheorems`, `OfferParties`, `OfferDesk`): one offer row, the
  ledger of chain payments, retry loops, the refund handler split at its relay call, and the on-chain
  script the offer is locked in;
- the first version of publishing (`PublishSaga`), variant acceptance (`Variants`) and simulated
  positions (`Positions`);
- the refund-evidence check and the operator's refund batch (`RefundEvidence`, `DedupBatch`);
- the adapter health cache (`AdapterHealth`), backup and restore (`Backup`, `BackupDatabase`), the
  maker's reports (`MakerPnl`, with `Sums`), and the polling subscription (`ChannelFeed`);
- the Base58 key decoder (`Base58Key`) and the UTF-16 guard (`EncodingGuard`).

Handlers that update rows in place are classes whose methods are proved equal to a step function;
the properties are lemmas about that function over all runs.  What a step accepts and writes is also
stated of requests and rows alone (`OfferHandlers`, and the `...Iff` lemmas of the other modules).
`Common` holds `Option`, `Result`, a search and hexadecimal digits.
`dafny verify dfyconfig.toml` checks everything.

## Assumptions

- Handlers of one offer run one after another, because the code takes no lock; only refund handlers
  are split at their relay call, and anything may happen while any number of them waits there.
  The settler's reading of an offer's metadata and its later writing of it are separate steps as well.
  Checks of one adapter port, requests of one market and decisions on one position are serial too.
- A relay attempt that returns no transaction id may still have landed, and a relay pays from the
  key of its own wallet address.  A script address is an injective function of the script's
  arguments, and text that decodes to a wallet address determines its key.
- Other services change an offer row only as their code does: along the status table, by the sweep of
  stale matches and by timeout messages (both take `matched` back to `open` and clear the taker), by
  accept messages of the general exchange, by delivery messages, and by the resolution of a dispute.
  No broker order refers to a prediction offer, so only the refund handler moves one to `refunded`.
- Relation states are unique by their two addresses and agents by theirs, as the schema has it
  (kasia-console/src/db/migrate.js:1038 and 4238-4242); identities are not.
- Clocks, table lookups, compilation, relay replies and database failures are parameters, so every
  theorem quantifies over them.  Database statements are atomic.
- JSON encoding and decoding are inverse to each other; dates are millisecond integers.

## Where the code departs from its documentation

- A taker whose lock is recorded while the parameter broadcast fails is left in
  `open_awaiting_taker_stake`; only a second payment can match the offer
  (`OfferTheorems.UnannouncedStakeIsPaidAgain`).
- `refund_txid` can stand beside `completed`: a status change outside the table is dropped in
  silence after the id was written (`OfferTheorems.RefundMarksIff`, `CompletedOfferCanShowARefund`).
- The sweep of stale matches and the timeout message make no exception for prediction offers.  A
  matched offer that is reopened keeps both stakes in its script but loses its taker, and no refund or
  vote is accepted for it (`OfferTheorems.ReopenedOfferIsStranded`); matched again without a taker, it
  is told that the taker had not locked a stake (`OfferTheorems.RematchWithoutTakerHitsTheGuard`,
  `TakerLockGuardIff`); matched again with somebody else, its settlements and refunds would pay an
  address the script does not accept (`OfferTheorems.SettlementAcceptedIff`, `CorrectedRefundAcceptedIff`).
- An `outcome_end_date` sent as a number is accepted, but the text column then holds no readable date:
  the deadline test is skipped and the refund's lock time becomes 0.  Refunds keep the deadline exactly
  for offers whose date reads (`OfferTheorems.RefundOrdersAreTimely`, `UnreadableDateRefundsAtOnce`).
- The settler writes back metadata it read before its relay call, which erases a vote recorded meanwhile.
  Both votes of the row stand behind every dispatched outcome, but the latest vote of a side does exactly
  when none of its votes was displaced so (`OfferTheorems.DispatchesHaveBothVotes`, `DisplacedVoteIsDispatched`).
- No refund the console sends is ever accepted by its script: the branch numbers select other entries
  than the intended ones (`OfferTheorems.NoRefundIsEverAccepted`).  Were they corrected, a refund of
  both stakes would still need an even miner fee within the pot, and a one-sided refund a baked fee of
  exactly 100 000 sompi.
- A consensual settlement needs a non-zero broker fee or a tiny pot, and a dispute settlement a large
  enough pot and rates of at most the whole (`EscrowContract`).
- The first publish names every irreversible effect in its reply exactly when no acknowledgement was
  lost (`PublishSaga.RepliesNameEveryEffectIff`).
- A subscription is meant to start at the latest message, but the first fetch returns the oldest one,
  so history is replayed unless the log has at most one message (`ChannelFeed.StartsAtLatestIff`);
  and messages with the stamp of the cursor's message are skipped (`ChannelFeed.FetchIsNextIff`,
  `TiedMessageIsLost`): a run is gap-free exactly when no poll stepped over such a tie
  (`ChannelFeed.DeliveryIsSegmentIff`).
- Importing one's own export writes an empty list into an agent's principles where there was no text
  (`BackupDatabase.AgentIsRestored`, `OwnImportKeepsAgentIff`).
- Re-importing one's own export leaves the export unchanged exactly when rows that share a key agree in
  what they export (`Backup.Keeps`, for each mode; identities may share an address on two networks) and no agent's stored overrides
  decode to `false`, `0` or `""` (`BackupDatabase.OwnImportKeepsExportIff`).
- The merge mode does not protect the agents' fields: the last entry to give a field replaces what it
  held (`BackupDatabase.ImportOverwritesAgentIff`, `MergeOverwritesAVision`).
- Market metadata consisting of the text `null` aborts a whole refund batch (`DedupBatch.AnswersIff`).
- The Base58 decoder does not reject foreign characters (`Base58Key.ForeignTextCollides`).

## Model

| member | source | states |
|---|---|---|
| Sompi.ParseOfPrint | kasia-relay/src/lib/transaction.mjs:100-115 | Printing an amount with eight places and parsing the text gives the amount back; only zero is refused |
| Sompi.ParseOfShortText | kasia-relay/src/lib/transaction.mjs:107-112 | With fewer than eight places the missing ones count as zeros after those given |
| Sompi.ParseOfWholeText | kasia-relay/src/lib/transaction.mjs:107-112 | Text without a point counts whole coins |
| Sompi.ParseAcceptsAmounts | kasia-relay/src/lib/transaction.mjs:105-112 | Whatever is accepted is digits, perhaps with a point and one to eight places |
| Sompi.MovesIff | kasia-console/src/api/bettor.js:1389-1394 | Below 2^52 sompi the relay may move the amount asked for, and nothing else |
| Sompi.TransferExact | kasia-console/src/api/bettor.js:1389-1394 | For every positive amount below 2^52 sompi, dividing by 1e8 in double precision, printing and parsing returns the same integer |
| Sompi.TransferExactIff | kasia-console/src/api/bettor.js:1586-1593 | The transfer equals the baked amount exactly for doubles within half a sompi of it |
| Sompi.MovesExactly | kasia-console/src/api/bettor.js:1586-1593 | Whatever double the division returns, the relay moves exactly the amount asked for below 2^52 |
| Sompi.BoundIsTight | kasia-console/src/api/bettor.js:1389-1394 | At 2^52 sompi the permitted rounding error already moves one sompi more |
| Sompi.FlooringLosesASompi | kasia-console/src/api/bettor.js:1389-1394 | Flooring the stake into sompi, instead of rounding, would disagree with the amount transferred for a concrete stake |
| Relay.Send | kasia-console/src/api/bettor.js:1411-1424 | The retry loop adds one copy of the effect per landed try and returns an id naming such a copy exactly when a try was acknowledged |
| Relay.SendWithRetry | kasia-console/src/api/bettor.js:1411-1424 | The three-try loop, up to the first acknowledged try, refines Send |
| EscrowContract.ValidIff | kasia-console/src/lib/prediction-escrow-ss.mjs:46-100 | The compiler accepts exactly eight different keys of 64 hexadecimal digits, a miner fee of at most ten million sompi, rates below the whole, and a deadline and stakes that are positive safe integers |
| EscrowContract.RefundBothWouldBeAcceptedIff | kasia-console/src/api/bettor.js:1880-1919 | The entry intended for it, if the branch number selected it, would accept the handler's refund of both stakes exactly when it pays the script's taker and the miner fee is even and within the pot |
| EscrowContract.RefundBothConserves | kasia-console/src/api/bettor.js:1880-1919 | Both refunds and the miner fee, less one sompi when it is odd, add up to the two stakes |
| EscrowContract.RefundBothSplitsEvenly | kasia-console/src/lib/PredictionEscrowUnanimous5.sil:144-161 | Whatever refund of both stakes the script accepts is signed by the maker after the deadline and splits what the fee leaves between the two parties, to within one sompi |
| EscrowContract.ConsensualAcceptedIff | kasia-console/src/services/bettor-prediction-settler.js:535-556 | The script accepts the consensual settlement exactly when it pays the script's winner and a broker fee was baked or one percent of the pot is no sompi |
| EscrowContract.ConsensualConserves | kasia-console/src/services/bettor-prediction-settler.js:535-556 | The consensual outputs and the miner fee add up to the two stakes |
| EscrowContract.DisputeAcceptedIff | kasia-console/src/services/bettor-prediction-settler.js:276-320 | The script accepts the dispute settlement exactly when it pays the script's winner, the pot meets the oracle floor and the two rates are at most the whole |
| EscrowContract.DisputeConserves | kasia-console/src/services/bettor-prediction-settler.js:276-320 | The seven outputs, the miner fee and at most four sompi of rounding add up to the two stakes |
| EscrowContract.UnjoinedWouldBeAcceptedIff | kasia-relay/src/lib/p2sh.mjs:230-260 | The entry intended for it, if the branch number selected it, would accept the relay's one-sided refund exactly when the baked miner fee is the relay's own constant |
| EscrowContract.UnjoinedTakesAnyInputIff | kasia-console/src/lib/PredictionEscrowUnanimous5.sil:165-176 | The one-sided refund entry does not say whose input it spends: after the deadline the maker's signature alone claims any one payment into the script that covers the fee |
| EscrowContract.RefundBranchesMissTheirEntries | kasia-relay/src/lib/p2sh.mjs:273-275 | At the positions the refund branch numbers select, the script wants two signers or two inputs |
| OfferHandlers.DraftIff | kasia-console/src/api/bettor.js:1494-1529 | A draft is made exactly for a named maker relay and a working database, and waits between five and sixty minutes for its taker, by default thirty |
| OfferHandlers.LegacyIff | kasia-console/src/api/bettor.js:1195-1240 | The older route inserts an open row without a script |
| OfferHandlers.HandshakeIff | kasia-console/src/api/bettor.js:1533-1561 | A handshake binds a waiting draft, in time, to the key of the calling wallet; every refusal has its condition and writes nothing |
| OfferHandlers.CompiledIsRequested | kasia-console/src/api/bettor.js:1313-1404 | The script is compiled from the requested keys, rates, fee (a million when zero), stake rounded to the nearest sompi and date in whole seconds, with the handshake's taker |
| OfferHandlers.RequestDetermines | kasia-console/src/api/bettor.js:1396-1404 | A request and a taker leave one script |
| OfferHandlers.TargetIff | kasia-console/src/api/bettor.js:1269-1407 | Publishing reaches its transfer exactly for a sound request on a bound offer whose requested script is valid and compiles |
| OfferHandlers.PublishIff | kasia-console/src/api/bettor.js:1408-1490 | Then the maker's stake goes to the address of that script, and the row records the script and a new payment exactly when the transfer was acknowledged and the update succeeds |
| OfferHandlers.UnpublishableIsRefused | kasia-console/src/api/bettor.js:1269-1407 | Any other request is refused without a payment or a write |
| OfferHandlers.StakeIff | kasia-console/src/api/bettor.js:1596-1685 | The handshake's key pays into the recorded address; the row records a new payment once it is acknowledged and is matched exactly when the broadcast and the update succeed too |
| OfferHandlers.UnstakeableIsRefused | kasia-console/src/api/bettor.js:1567-1595 | Any other stake is refused, each refusal with its condition, without a payment or a write |
| OfferHandlers.VoteIff | kasia-console/src/api/bettor.js:1766-1789 | A call is the maker's vote exactly when it comes from the row's maker relay, the taker's exactly when another relay calls whose address is in the taker column, and any other is refused and changes nothing |
| OfferHandlers.VoteRefusals | kasia-console/src/api/bettor.js:1769-1786 | The conditions of the other refusals |
| OfferHandlers.VoteEffect | kasia-console/src/api/bettor.js:1791-1816 | A vote replaces the caller's own and no other; exactly when the other side's is the same, the outcome is dispatched once and the row moves to the status the dispatch reached |
| OfferHandlers.RefundIff | kasia-console/src/api/bettor.js:1837-1919 | A refund is sent exactly for an escrowed, unrefunded offer awaiting its taker's stake, or matched or in verification with a recorded taker and lock, once its end date has come; every refusal has its condition; the order names the row's script, payments, payees and halves of the fee |
| OfferHandlers.ResumeIff | kasia-console/src/api/bettor.js:1920-1945 | The second half writes the id it was given, once, and changes the status exactly where the table has the edge |
| OfferHandlers.EdgesInto | kasia-console/src/services/exchange-machine.js:28-67 | The status table read by target |
| OfferHandlers.AcceptIff | kasia-console/src/api/bettor.js:1949-2007 | An open, verified offer is matched with whoever accepts, exactly with an owner's ack or below the threshold |
| OfferHandlers.RemoteAcceptIff | kasia-console/src/services/exchange-machine.js:295-383 | An accept message matches an open offer that passes its checks |
| OfferHandlers.ReopenIff | kasia-console/src/services/exchange-machine.js:684-737 | A reopening takes a matched offer back to open and clears its taker |
| OfferHandlers.MoveIff | kasia-console/src/services/exchange-machine.js:54-116 | Another service moves an offer along the table or by a direct write, never to a status of the handlers |
| OfferRuns.StepFrame | kasia-console/src/api/bettor.js:1269-2007 | No step other than a vote and the settler's writing shrinks the ledger, drops the row, changes a written refund id, or alters votes and script outside publishing |
| OfferRuns.ConfirmFrame | kasia-console/src/api/bettor.js:1766-1828 | A vote leaves ledger, refund id and script alone, and changes nothing at all outside matched and verifying |
| OfferRuns.OutsideEdges | kasia-console/src/services/exchange-machine.js:28-67 | The moves of other services along the table, and the two direct writes, enter no state before matching, none past it from before it, and never refunded; reopening and accepting are steps of their own |
| OfferRuns.ReopenKeeps | kasia-console/src/services/exchange-machine.js:684-737 | Taking a stale match back to open, without a taker, keeps the invariant: both locks stay recorded and paid |
| OfferRuns.SettlerWriteKeeps | kasia-console/src/services/bettor-prediction-settler.js:575-576 | Writing back metadata read at any earlier moment of the run keeps the invariant: it can only disturb votes and flags |
| OfferRuns.AcceptanceKeeps | kasia-console/src/services/exchange-machine.js:295-383 | An accept, by the handler or by a message, keeps the invariant, also on a reopened offer |
| OfferRuns.StepKeeps | kasia-console/src/api/bettor.js:1494-2007 | Every handler and every step of the other services, reopening and the settler's stale writes included, for any request and any failure, keeps the protocol invariant and that whatever metadata was read still agrees with the row's script |
| OfferRuns.RunKeeps | kasia-console/src/api/bettor.js:1494-2007 | The invariant holds after every run |
| OfferTheorems.MatchedOffersAreFullyLocked | kasia-console/src/api/bettor.js:1567-1655 | In every run an escrowed offer that was ever matched records a maker and a taker payment of the baked amounts into the one script address, the taker's by the handshake key; reopening and matching anew do not change that |
| OfferTheorems.MatchOfMeans | kasia-console/src/services/exchange-machine.js:728-737 | What the history of matches and reopenings means in terms of the events of a run |
| OfferTheorems.TakerColumnIff | kasia-console/src/services/exchange-machine.js:684-737 | The taker column of such an offer names the script's taker exactly when the offer was never reopened or was last matched with that taker |
| OfferTheorems.ReopenedOfferIsStranded | kasia-console/src/services/trade-protocol-filter.js:2414-2431 | While a once-matched offer is reopened, both stakes are in the script and no refund and no vote is accepted |
| OfferTheorems.SuccessfulCallsMatch | kasia-console/src/api/bettor.js:1269-1685 | When every check passes and every call succeeds, the four handlers bring an offer to matched |
| OfferTheorems.UnannouncedStakeHappens | kasia-console/src/api/bettor.js:1611-1655 | When only the broadcast after the taker's lock fails, the lock is recorded, the offer stays unmatched, and the retry that matches it pays again |
| OfferTheorems.PublishPaysOnlyWhenChecked | kasia-console/src/api/bettor.js:1269-1475 | Publishing moves money only after all its checks, only the maker's stake, and only into the script it records |
| OfferTheorems.TakerLockGuardIff | kasia-console/src/api/bettor.js:1860-1869 | The refund handler reports a missing taker lock exactly for an offer its end date no longer holds back whose last match, after a reopening, named no taker; the lock and the script themselves are never missing |
| OfferTheorems.RematchWithoutTakerHitsTheGuard | kasia-console/src/api/bettor.js:1994-2004 | Reopening a matched offer and accepting it without naming a taker leads to that report |
| OfferTheorems.PublishedScriptsAreValid | kasia-console/src/lib/prediction-escrow-ss.mjs:84-150 | Every script recorded in a run satisfies the compiler's conditions |
| OfferTheorems.SettlementAcceptedIff | kasia-console/src/services/bettor-prediction-settler.js:486-675 | On every matched offer a settlement is accepted exactly when the row's address of the winner is the script's and the baked fees and the pot allow it; the address can only differ for the taker of a reopened offer |
| OfferTheorems.RefundIsWrittenAtMostOnce | kasia-console/src/api/bettor.js:1837-1945 | With any number of refund handlers at their relay call, the refund id is written at most once, and refunded implies it is set |
| OfferTheorems.RefundNeverChanges | kasia-console/src/api/bettor.js:1920-1945 | Once written, the refund id is the same after every run |
| OfferTheorems.RefundOrdersAreTimely | kasia-console/src/api/bettor.js:1849-1919 | A refund sent in a run has a lock time not before the baked deadline exactly when the row's end date reads as a date, and the lock time is then the deadline and not in the future, otherwise 0; an order of both stakes spends the two recorded locks and, unless the offer was reopened, pays the script's taker |
| OfferTheorems.UnreadableDateRefundsAtOnce | kasia-console/src/api/bettor.js:1849-1919 | In every run, an offer awaiting its taker's stake whose end date does not read is refunded at any time, with lock time 0 |
| OfferTheorems.NoRefundIsEverAccepted | kasia-relay/src/lib/p2sh.mjs:770-779 | No transaction that realizes a refund order of any run satisfies the entry its branch number selects |
| OfferTheorems.CorrectedRefundAcceptedIff | kasia-console/src/api/bettor.js:1880-1919 | With corrected branch numbers, a refund would be accepted exactly when the row's end date reads and, for both stakes, the row names the script's taker and the miner fee is even and within the pot, or, for one side, the baked fee is the relay's own |
| OfferTheorems.RefundMarksIff | kasia-console/src/services/exchange-machine.js:54-116 | A resumed refund marks the offer refunded exactly when its present status has that edge |
| OfferTheorems.CompletedOfferCanShowARefund | kasia-console/src/services/exchange-machine.js:54-116 | A settlement finishing during the relay call leaves completed beside both transaction ids |
| OfferTheorems.DispatchesHaveBothVotes | kasia-console/src/api/bettor.js:1766-1816 | Over all votes, re-votes and writes of the settler, an outcome is dispatched only when both votes of the row name it, it is a side's latest vote exactly when that vote was not displaced by an older reading, and likewise the row shows a side's latest vote at the end |
| OfferTheorems.RowShowsVoteIff | kasia-console/src/services/bettor-prediction-settler.js:575-576 | The vote of a side that the row's history leaves is its latest one exactly when no write since put back another |
| OfferTheorems.UndisturbedDispatches | kasia-console/src/api/bettor.js:1766-1816 | In a run where the settler wrote nothing back, a dispatched outcome is the latest vote of both sides |
| OfferTheorems.DisplacedVoteIsDispatched | kasia-console/src/services/bettor-prediction-settler.js:338-339 | From any matched offer without votes: the maker votes 0, the settler reads, the maker votes 1, the settler writes, the taker votes 0, and 0 is dispatched against the maker's latest vote |
| OfferTheorems.UnannouncedStakeIsPaidAgain | kasia-console/src/api/bettor.js:1611-1655 | From a recorded but unannounced taker lock, every run to matched contains a second payment of the same key into the same script |
| OfferTheorems.UnannouncedLockGoesToTheMaker | kasia-console/src/lib/PredictionEscrowUnanimous5.sil:165-176 | After the deadline the script's one-sided refund lets the maker alone claim such a lock |
| OfferTheorems.StakesPay | kasia-console/src/api/bettor.js:1596-1609 | Over any number of taker-stake calls, every try that landed is one more payment of the taker into the script |
| OfferTheorems.OnePaymentEachIff | kasia-console/src/api/bettor.js:1269-1655 | From draft to match the ledger gains exactly one maker and one taker payment exactly when no attempt landed unacknowledged and the first recorded lock was announced |
| OfferParties.ScriptsAreRequested | kasia-console/src/api/bettor.js:1313-1475 | In every run the recorded script was compiled from the arguments of one publish of the run, and the address is that script's |
| OfferParties.SettlementsPayAsRequested | kasia-console/src/lib/PredictionEscrowUnanimous5.sil:48-139 | Whatever settlement the script accepts pays the broker, and in a dispute the five oracles, the rates requested when the offer was published, at the requested addresses, and the winner the rest |
| OfferParties.DispatchNeedsBothParties | kasia-console/src/api/bettor.js:1787-1816 | In every run a dispatched outcome was named by a call from the maker's relay and by one from another relay with the address of a matched taker, which without a reopening is the script's taker |
| OfferParties.RefundIsSentFromTheDeadline | kasia-console/src/api/bettor.js:1849-1863 | In every run, for an unrefunded escrowed offer with a readable end date and, if matched, a named taker, a refund is sent exactly from the end date on and refused as too early exactly before |
| OfferParties.PossibleIff | kasia-console/src/api/bettor.js:1389-1394 | Below 2^52 sompi the runs considered are exactly those in which the relay moves the stake |
| OfferParties.WholeRunCompletes | kasia-console/src/api/bettor.js:1269-1828 | When every check passes and every call succeeds, draft, handshake, publish, stake and two agreeing votes complete the offer |
| OfferDesk.Desk.PostPendingOffer | kasia-console/src/api/bettor.js:1494-1529 | The handler does exactly its protocol step, with the reply; what that is, says `OfferHandlers.DraftIff` |
| OfferDesk.Desk.PostTakerHandshake | kasia-console/src/api/bettor.js:1533-1561 | The handler does exactly its protocol step, with the reply; what that is, says `OfferHandlers.HandshakeIff` |
| OfferDesk.Desk.LockStake | kasia-console/src/api/bettor.js:1411-1424 | The lock transfer refines the protocol's payment |
| OfferDesk.Desk.PostPublishV2 | kasia-console/src/api/bettor.js:1269-1490 | The handler does exactly its protocol step, with the reply; what that is, say `OfferHandlers.PublishIff` and `UnpublishableIsRefused` |
| OfferDesk.Desk.PostTakerStake | kasia-console/src/api/bettor.js:1567-1685 | The handler does exactly its protocol step, with the reply; what that is, say `OfferHandlers.StakeIff` and `UnstakeableIsRefused` |
| OfferDesk.Desk.PostConsensualConfirm | kasia-console/src/api/bettor.js:1766-1828 | The handler does exactly its protocol step, with the reply; what that is, say `OfferHandlers.VoteIff` and `VoteEffect` |
| OfferDesk.Desk.PostRefund | kasia-console/src/api/bettor.js:1837-1919 | The refund handler up to its relay call does exactly its protocol step; what that is, says `OfferHandlers.RefundIff` |
| OfferDesk.Desk.ResumeRefund | kasia-console/src/api/bettor.js:1920-1945 | The refund handler after its relay call does exactly its protocol step on the row it then finds; what that is, says `OfferHandlers.ResumeIff` |
| OfferDesk.Desk.PostAccept | kasia-console/src/api/bettor.js:1949-2007 | The handler does exactly its protocol step, with the reply; what that is, says `OfferHandlers.AcceptIff` |
| PublishSaga.RowsAreAlwaysBacked | kasia-console/src/api/bettor.js:1098-1254 | No sequence of publishes leaves a row without an escrow payment and a broadcast naming it |
| PublishSaga.SuccessIff | kasia-console/src/api/bettor.js:1098-1254 | Success is reported exactly when all three stages succeeded, and a failure leaves the rows alone |
| PublishSaga.RepliesNameEveryEffectIff | kasia-console/src/api/bettor.js:1098-1254 | A reply names every irreversible effect of its run exactly when no attempt landed without acknowledgement |
| PublishSaga.RepliesSayHowFar | kasia-console/src/api/bettor.js:1098-1254 | A reply names the escrow payment and the broadcast of its own offer exactly as far as they were acknowledged |
| PublishSaga.ChainAfter | kasia-console/src/api/bettor.js:1098-1254 | What a publish puts on chain at each stage it can stop at |
| PublishSaga.PublishDesk.PostPublish | kasia-console/src/api/bettor.js:1098-1254 | The handler with its three retry loops does exactly the saga's step |
| RefundEvidence.HasVerifiedEvidence | kasia-console/src/api/admin-dedup.js:23-43 | Evidence is accepted exactly when its header is final and its refunds are a permutation of the bettor sides by lower-cased key and exact amount, with no key repeated; the check throws exactly on the metadata text null; on the texts themselves, see `AcceptsIff` |
| RefundEvidence.AcceptsIff | kasia-console/src/api/admin-dedup.js:14-43 | On the texts as they stand: accepted exactly when the header is complete with 64 hexadecimal digits, no two sides have the same key, and refunds and sides match one to one, keys equal up to ASCII case and amounts equal |
| RefundEvidence.LowerSameIff | kasia-console/src/api/admin-dedup.js:31-35 | Two keys are the same to the check exactly when they have one length and each pair of characters is equal or one letter in two cases |
| RefundEvidence.TxidIff | kasia-console/src/api/admin-dedup.js:14-14 | The pattern accepts exactly 64 hexadecimal digits |
| RefundEvidence.KeysCount | kasia-console/src/api/admin-dedup.js:31-42 | There are as many keys as entries exactly when no key repeats |
| RefundEvidence.StakeByKey | kasia-console/src/api/admin-dedup.js:31-31 | The map has the entries' keys and holds an amount some entry has |
| RefundEvidence.AllMatchedCovers | kasia-console/src/api/admin-dedup.js:31-42 | As many distinct refunds as sides, each of them a side, leave no side out |
| Sums.SumIgnoresOrder | kasia-console/src/api/kanet-maker.js:53-109 | An accumulated sum does not depend on the order of the rows |
| RefundEvidence.CoveringRefundsTheStakes | kasia-console/src/api/admin-dedup.js:23-43 | Accepted evidence refunds in total exactly what was staked |
| DedupBatch.DedupDesk.PostDedupRefund | kasia-console/src/api/admin-dedup.js:47-88 | The endpoint refuses a missing or empty list, aborts without results at the first market whose evidence check throws, and otherwise returns one result per id in order, each id meeting the database the earlier ones left |
| DedupBatch.DedupDesk.Handle | kasia-console/src/api/admin-dedup.js:55-85 | One id is refused with its reason, or its market is dispatched and the status found afterwards reported, or the evidence check throws and nothing changes |
| DedupBatch.DispatchIff | kasia-console/src/api/admin-dedup.js:53-83 | A market is dispatched exactly when it is in a standard status without bettors, or refunded with accepted evidence; every other finding has its condition |
| DedupBatch.LoneMarketIsRefunded | kasia-console/src/api/admin-dedup.js:53-83 | A lone market in verification without bettors is refunded |
| DedupBatch.AnswersIff | kasia-console/src/api/admin-dedup.js:23-27 | A batch answers at all exactly when no refunded market with sides that it meets has the metadata text null |
| DedupBatch.ResultsAccountForDispatches | kasia-console/src/api/admin-dedup.js:54-86 | The results name the ids in order and account for every dispatch made |
| DedupBatch.EveryDispatchIsSafe | kasia-console/src/api/admin-dedup.js:69-78 | Over all sequences of batches, a maker is refunded only for a market without bettors or with all bettors verifiably refunded |
| DedupBatch.RepeatedIdIsRefundedOnce | kasia-console/src/api/admin-dedup.js:61-80 | While nothing leaves refunding, an id repeated in a batch after a success is refused |
| AdapterHealth.FailRun | kasia-console/src/api/adapter.js:49-50 | The failing suffix: maximal and without a success |
| AdapterHealth.HealthCache.InvalidateApiCheckCache | kasia-console/src/api/adapter.js:35-37 | Invalidation removes the entry of one port |
| AdapterHealth.HealthCache.DeepCheckAdapter | kasia-console/src/api/adapter.js:41-88 | A check does exactly the cache step of one port and returns its entry |
| AdapterHealth.NextExtendsHistory | kasia-console/src/api/adapter.js:49-87 | Updating an entry after a probe gives the entry of the longer history |
| AdapterHealth.StepIsHistory | kasia-console/src/api/adapter.js:33-88 | One check or invalidation of any port keeps a port's entry equal to that of its own history |
| AdapterHealth.CacheIsHistory | kasia-console/src/api/adapter.js:18-88 | After every run each port holds the verdict, failing-suffix length and flags of its probes since its last invalidation |
| AdapterHealth.ServedAnswer | kasia-console/src/api/adapter.js:43-48 | A served answer is the verdict of the history, within its TTL class or fresh, and other ports are unaffected |
| AdapterHealth.ErrorIsClipped | kasia-console/src/api/adapter.js:67-75 | The text of an HTTP error is kept up to its hundredth character |
| AdapterHealth.InvalidatedPortForgets | kasia-console/src/api/adapter.js:33-37 | A reused port starts from nothing |
| AdapterHealth.VerdictsPartition | kasia-console/src/api/adapter.js:63-87 | Green and red exclude each other, and neither holds only for a single first probe without reply |
| Backup.FieldAfter | kasia-console/src/api/backup.js:103-160 | Closed form of every field after an import over a list with repeated keys, in both modes |
| Backup.OneEntryIff | kasia-console/src/api/backup.js:115-160 | One entry changes a column of the first row with its key exactly where it has a value and the mode is replace or the column holds null, "", normal, or for relations seen_candidate or 0 |
| Backup.OneEntryCounts | kasia-console/src/api/backup.js:126-163 | It counts as an update exactly when some column was open to it |
| Backup.ExportedIff | kasia-console/src/api/backup.js:52-66 | Every relation state is exported, and an identity once a name, tags, notes or a trust level other than normal was set |
| Backup.SettledStep | kasia-console/src/api/backup.js:115-120 | The closed form extended by one entry is one application of the update rule |
| Backup.ImportIsIdempotent | kasia-console/src/api/backup.js:103-160 | Importing the same list twice is importing it once |
| Backup.CountersAddUp | kasia-console/src/api/backup.js:103-160 | Updated and skipped entries add up to the entries with a key |
| Backup.Export | kasia-console/src/api/backup.js:53-66 | The export holds exactly the rows the query selects |
| Backup.ImportsOfExport | kasia-console/src/api/backup.js:52-73 | What an exported list says about a field, read off the rows of the table |
| Backup.OwnExportChangesNothingIff | kasia-console/src/api/backup.js:52-160 | Importing a table's own export leaves every row as it is exactly when, in replace mode, the last exported row to fill a column agrees with the first row of its key, and in merge mode it does so where the first row has a default and no exported row has more than a default there |
| Backup.OwnExportIsStableIff | kasia-console/src/api/backup.js:52-160 | And exactly then the table's export is the same afterwards |
| Backup.DistinctKeysKeep | kasia-console/src/api/backup.js:52-160 | Where no key repeats, the condition holds |
| Backup.ReplaceBringsExportOver | kasia-console/src/api/backup.js:52-160 | After a replace import a field is what the last row with that key to fill it exported, or else as before; where the source's keys are distinct, that is the field of its one exported row |
| Backup.SharedAddressBreaksOwnImport | kasia-console/src/api/backup.js:112-112 | With one address on two networks, a replace import of one's own export changes a name, and a merge import does not |
| BackupDatabase.Database.BuildExportSnapshot | kasia-console/src/api/backup.js:52-100 | The export fails exactly when a JSON column does not parse, and otherwise is the snapshot of the three tables; what that brings back, see `AgentIsRestored` and `Backup.ReplaceBringsExportOver` |
| BackupDatabase.Database.ApplyImportSnapshot | kasia-console/src/api/backup.js:103-199 | The import of the three lists, with four counters that add up to the keyed entries |
| BackupDatabase.ImportRows | kasia-console/src/api/backup.js:109-166 | The loops over identities and relation states refine the import function |
| BackupDatabase.MergeRow | kasia-console/src/api/backup.js:115-129 | The column updates of one row, and whether there was any |
| BackupDatabase.ImportAgents | kasia-console/src/api/backup.js:168-193 | The loop over agents refines the import function |
| BackupDatabase.OwnImportKeepsExportIff | kasia-console/src/api/backup.js:52-199 | Importing a database's own export leaves its export unchanged, in either mode, exactly when rows that share a key agree in what they export and no agent's stored overrides decode to a falsy value other than null |
| BackupDatabase.AgentIsRestored | kasia-console/src/api/backup.js:69-193 | Importing exported agents gives the first agent with an address the plain columns the source had set, its decoded principles (an empty list where it had no text), and its overrides, cleared where it had none or one that counts as false |
| BackupDatabase.OtherAgentsStay | kasia-console/src/api/backup.js:168-193 | Every other agent stays as it is |
| BackupDatabase.OwnImportKeepsAgentIff | kasia-console/src/api/backup.js:69-193 | Importing one's own export leaves an agent's stored columns as they are exactly when its principles have text and its overrides are null or a value that counts as true |
| BackupDatabase.OwnImportKeepsDatabaseIff | kasia-console/src/api/backup.js:52-199 | And the stored rows of all three tables, in either mode, exactly when that holds of every agent and rows that share a key agree |
| BackupDatabase.AgentAfter | kasia-console/src/api/backup.js:168-193 | Closed form of every agent field after an import over a list with repeated addresses |
| BackupDatabase.AgentImportIsIdempotent | kasia-console/src/api/backup.js:168-193 | Importing the same agents twice is importing them once |
| BackupDatabase.ImportOverwritesAgentIff | kasia-console/src/api/backup.js:174-186 | Whatever the mode and the present value, an agent field changes exactly when the last entry to give it gives something else |
| BackupDatabase.MergeOverwritesAVision | kasia-console/src/api/backup.js:174-186 | A merge import replaces a vision that was set |
| MakerPnl.ComputePnl | kasia-console/src/api/kanet-maker.js:45-119 | Realized net is payouts minus stakes over settled rows, the other sums and counts are those of their statuses, and every line shows its market's status and result |
| MakerPnl.OneStatus | kasia-console/src/api/kanet-maker.js:82-105 | Every market is in exactly one of the five statuses |
| MakerPnl.RowBooks | kasia-console/src/api/kanet-maker.js:82-105 | Status, payout, stake and stake at risk of one row, case by case |
| MakerPnl.TotalsAgree | kasia-console/src/api/kanet-maker.js:27-31 | The pending and refunded counts equal the totals of the markets endpoint, and its three totals overcount by the markets both settled and refunded |
| MakerPnl.ReportIgnoresOrder | kasia-console/src/api/kanet-maker.js:45-119 | Sums, counts and totals do not depend on the order of the rows |
| Base58Key.DecodeBase58 | qclaude-gen.js:23-29 | The accumulation loop, hexadecimal text and buffer refine Decode |
| Base58Key.DecodeIsValue | qclaude-gen.js:23-29 | Text over the alphabet whose value fits decodes to exactly that many bytes of that value |
| Base58Key.DecodeOfLargeValue | qclaude-gen.js:27-28 | Text whose value does not fit decodes to the bytes of the value, or of the value without its last hexadecimal digit when their number is odd |
| Base58Key.DecodeEncode | qclaude-gen.js:23-29 | Every 82-byte payload survives Base58 encoding and decoding, leading zero bytes included |
| Base58Key.KeyIsSer256 | qclaude-gen.js:31-32 | Bytes 46 to 78 are (value div 256^4) mod 256^32, which is ser256(k) in the section Serialization format of BIP 32 |
| Base58Key.KeySurvivesTheText | qclaude-gen.js:23-32 | From the text of any payload the generator takes the payload's own key bytes |
| Base58Key.ForeignTextCollides | qclaude-gen.js:24-26 | Whenever text with a foreign character has no negative value, another text over the alphabet decodes to the same bytes |
| Base58Key.ForeignCharacterCollides | qclaude-gen.js:24-26 | A concrete such pair |
| EncodingGuard.PassesIffDecodes | kasia-console/src/index.js:157-157 | The local test passes a text exactly when it decodes under section 2.2 of RFC 2781 without error and has no replacement character |
| EncodingGuard.EncodeDecode | kasia-console/src/index.js:157-157 | Encoding (section 2.1 of RFC 2781) what a text decodes to gives the text back |
| EncodingGuard.DecodeEncode | kasia-console/src/index.js:157-157 | Every sequence of scalar values survives encoding and decoding |
| EncodingGuard.SendCommandIff | kasia-console/src/index.js:156-156 | The path test holds exactly for a non-empty relay id without a slash |
| EncodingGuard.GuardedIff | kasia-console/src/index.js:163-176 | Guarded is the message of a POST to the reply path or below, or of a send_message or send_broadcast command to one relay |
| EncodingGuard.PreHandler | kasia-console/src/index.js:163-181 | A request is refused exactly when the message it guards does not decode or has a replacement character |
| ChannelFeed.FetchIsNextIff | kasia-console/src/api/dev-channel-v1.js:234-277 | A fetch returns the next messages exactly when the message after the cursor has a later stamp |
| ChannelFeed.Subscription.FirstFetched | kasia-console/sdk/dev-channel-sdk.js:93-97 | The first reply sets the cursor and schedules the ticks; a failed one ends the subscription |
| ChannelFeed.Subscription.Tick | kasia-console/sdk/dev-channel-sdk.js:77-78 | A tick after stop does nothing more |
| ChannelFeed.Subscription.Fetched | kasia-console/sdk/dev-channel-sdk.js:79-91 | A reply is delivered message by message, then moves the cursor; a failure changes neither |
| ChannelFeed.Subscription.Stop | kasia-console/sdk/dev-channel-sdk.js:99-99 | stop only marks the subscription |
| ChannelFeed.DeliveryIsSegmentIff | kasia-console/sdk/dev-channel-sdk.js:73-100 | In every run the callbacks are a gap-free, duplicate-free segment of the log in order, ending at the cursor, exactly when no poll handed over something while the message after the cursor carried the cursor's stamp |
| ChannelFeed.StepIsFaithfulIff | kasia-console/src/api/dev-channel-v1.js:234-277 | Only such a poll opens a gap |
| ChannelFeed.StepKeepsGap | kasia-console/sdk/dev-channel-sdk.js:77-91 | No later step closes it |
| ChannelFeed.TiedMessageIsLost | kasia-console/src/api/dev-channel-v1.js:234-277 | With three messages of which the second has the first one's stamp, the first poll delivers the third alone |
| ChannelFeed.FirstReplyIff | kasia-console/sdk/dev-channel-sdk.js:93-97 | The first reply sets the cursor to the oldest message then seen, if any, and starts the ticks; a failed one ends everything |
| ChannelFeed.PollReplyIff | kasia-console/sdk/dev-channel-sdk.js:77-91 | A poll hands over up to fifty messages after every tie with the cursor, whose place the last of them takes; failed or not, the next tick follows unless the subscription was stopped |
| ChannelFeed.PollsDrainTheLog | kasia-console/sdk/dev-channel-sdk.js:77-91 | While nothing is appended, each successful poll of a log without equal stamps takes fifty messages off what is left, until none is |
| ChannelFeed.StopEndsDelivery | kasia-console/sdk/dev-channel-sdk.js:77-99 | After stop at most the batch of a poll already out is delivered |
| ChannelFeed.EndedIsFinal | kasia-console/sdk/dev-channel-sdk.js:93-97 | After a failed first fetch nothing is ever delivered |
| ChannelFeed.StartsAtLatestIff | kasia-console/sdk/dev-channel-sdk.js:93-97 | The subscription starts at the end of the log exactly when the log had at most one message |
| Variants.VariantDesk.PostAccept | kasia-console/src/api/bettor.js:534-578 | The handler refuses unknown and decided variants, and otherwise promotes one and supersedes the pending others of its parent |
| Variants.RunsStayGood | kasia-console/src/api/bettor.js:567-574 | In every run at most one variant per parent is accepted, every superseded one names an accepted sibling, and promotions are the accepted variants |
| Variants.PromotionsMatchAcceptances | kasia-console/src/api/bettor.js:541-574 | There are as many promoted recommendations as accepted variants |
| Variants.AcceptIff | kasia-console/src/api/bettor.js:534-578 | When an accept is refused and why, and that it otherwise accepts the one variant and supersedes exactly the pending ones of its parent |
| Variants.ExpandIff | kasia-console/src/services/bettor-variant-expander.js:62-91 | A parent without variants gets exactly the new ones, all pending |
| Variants.AcceptSucceedsIff | kasia-console/src/api/bettor.js:536-539 | Accepting a variant succeeds exactly when its parent is still undecided |
| Variants.DecisionIsFinal | kasia-console/src/api/bettor.js:569-574 | An accepted variant stays accepted |
| Variants.ExpandKeeps | kasia-console/src/services/bettor-variant-expander.js:62-91 | Expanding parents without variants keeps all of this |
| Positions.PositionDesk.PostDecide | kasia-console/src/api/bettor.js:740-773 | A decision is made once, and an approval closes its position at the latest mark if it is open |
| Positions.PositionDesk.PostCloseAll | kasia-console/src/api/bettor.js:796-835 | All open active positions of the relay are closed at their marks and the reply sums them |
| Positions.DecideIff | kasia-console/src/api/bettor.js:740-773 | When a decision is taken and why not; it changes its adjustment, and on approval closes the adjustment's position if it is open, at its mark |
| Positions.CloseAllIff | kasia-console/src/api/bettor.js:796-835 | A close-all closes exactly the relay's open active positions, each at its mark, and lists them in order |
| Positions.ClosedStaysAsItIs | kasia-console/src/api/bettor.js:766-770 | In every run a closed position never changes again |
| Positions.StepBooks | kasia-console/src/api/bettor.js:740-835 | A close-all raises the total realized result by exactly the total it returns, an approval by the position's mark |
| Positions.BooksBalance | kasia-console/src/api/bettor.js:740-835 | After every run the total realized result is what replies and approvals booked |
| Positions.CloseAllLeavesNothing | kasia-console/src/api/bettor.js:802-814 | An immediate second close-all closes nothing |

## Left out

- The collection of oracle signatures; the settlement modelled is the one the oracles signed, which is what the relay submits.
- Recovery of offer parameters from chain data and the retry-path-a handler, which refuses in the states studied here.
- Concurrent runs of one handler other than refunds, and a crash between two database statements.
- Relay internals, key handling, script compilation and hashing: their results are parameters.
- Direct-message pushes, HTTP, SQL text, page rendering, translations and price fetches.
- The reason text, fee quotes and order placement of variants and recommendations: only statuses and links are modelled.
- The other services that close simulated positions (the resolver and the automatic valve).
- Positions use exact reals; rounding of sums is not modelled, nor is the printing of report amounts with eight places.
- Evidence keys and hexadecimal digits are lower-cased in ASCII only.
- Messages whose visibility changes after they were stored: the channel log is append-only.
- Values a backup cannot bind to a column (booleans, objects), which abort the whole import, and SQLite's conversions between column types.
- The checksum of an extended key, which the generator does not verify either.
- Base58Key.ForeignTextCollides: says nothing about text whose value is negative, which decodes to zero bytes up to the minus sign.
- The vendored style bundle and the operator scripts.
