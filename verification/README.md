# Pactum backend: a verified model

The Pactum backend serves multi-party agreements on Solana. Several workers and any number of request handlers
share one PostgreSQL store and change the same rows in small steps. This project models that shared state in
Dafny and proves what holds in every interleaving of those steps, together with the codecs and the fee
arithmetic they depend on.

`dafny verify dfyconfig.toml` checks the whole project.

## How it is modelled

A table is a map (or a sequence, for payments); one SQL statement, one transaction submission or one
compare-and-swap is one atomic step. Each protocol has a `State`, a `Step`, an `Enabled` condition, an `Apply`
function, and `Legal` runs that interleave the steps of any number of actors. A statement's reply is `Done`,
`Failed`, or `Lost` when it took effect but its caller was told of an error. Beside each protocol stands a class
whose methods are the handlers statement after statement. For each handler or cycle of more than one statement a
lemma shows that, uninterrupted, it is a run (or, for drafts, a history) of the protocol; the others are one step.

| file | what it covers |
|---|---|
| `Common.dfy` | options, replies of the database, duplicate-free lists |
| `ExpiryLock.dfy` | the expiry worker's lock, kept in the status column, against the event listener |
| `Payments.dfy` | the payment life cycle, its unguarded updates, and what the treasury pays |
| `Fees.dfy` | fee and refund arithmetic at its machine widths |
| `Drafts.dfy` | drafts, party slots, invitations, and concurrent acceptances under row locks |
| `Borsh.dfy`, `SolanaTypes.dfy` | the Borsh codec for any schema; accounts, instructions, sizes |
| `Utf8.dfy` | what text is, in Unicode scalar values |
| `Layout.dfy` | the bytes of the account and of every instruction's data, field by field |
| `SolanaPay.dfy` | percent-encoding, the six-decimal amount, the payment URL |
| `Sessions.dfy` | nonces and refresh tokens, consumed by deletion |
| `GarbageCollection.dfy` | the keeper's deletions, compared by what clients are told |
| `RateLimiter.dfy` | the pruned sliding window of the invitation page |
| `OAuth.dfy` | accounts, provider bindings, wallets, e-mail indexes |
| `Health.dfy` | the process health cell and the workers' own status |

## What the proofs found

Where the code does less than its description, the model follows the code and states exactly when the property
holds.

- The expiry lock excludes exactly in the runs that add no party row to an agreement while it is held or after it
  has been submitted (`ExclusionIff`). A creation that stopped half-way and is replayed at that moment breaks it: a
  second worker whose attempt is already queued wins the lock too (`LateInsertBreaksExclusion`). One status per
  agreement is lost exactly by an insertion after the agreement has left `PendingSignatures`.
- The two unguarded payment updates are safe exactly in deployments with at most one keeper and one listener.
- The refund query returns one row per party of the agreement, so a refund alone in the queue is sent once per
  party. No statement writes `refund_amount`, so as things stand each of these transfers moves nothing.
- The refund product is not checked for overflow in a release build: the refund is exact, rounded by less than a
  unit, and monotone if and only if the product fits 64 bits, which for a six-decimal fee means a fee of at most
  42,949,672 cents.
- What the treasury pays is what the table records, in every run of one refund worker, if and only if every mark of a
  positive amount takes effect on a row still pending (`OutflowAccount`); a batch conserves if and only if each
  transfer that succeeds is marked and none follows the mark of the same payment.
- The handlers ask the account decoder to consume every byte. The longest agreement within the limits takes 1812
  bytes of an account of 1813, so an account at its allocated size never decodes.
- The expiry worker reads bytes 32..48 of the account as the agreement id, without the 8-byte discriminator that
  the handlers skip; these are the id only in the degenerate case that `WorkerAgreementIdIff` spells out.
- `format_amount_6dp` prints the smallest `i64` with three minus signs; every other amount reads back.
- A draft whose slots were all filled at its creation never becomes ready to submit. An invitation sent again is
  in no slot and is never accepted. Acceptance does not look at `discarded`: a discarded draft stays so exactly until
  somebody accepts its last open invitation (`DiscardedIffNeverCompleted`).
- E-mails stay within one provider, and completed logins keep their user, exactly in the interleavings without a
  stale write or a displaced login (`EmailsApartIff`, `LoginsStandIff`). Logins handled one at a time are among
  them; two simultaneous first logins are not.
- The rate limiter agrees with the full history for every clock that does not go back for an address; set back by
  a minute, it lets six requests into one window.
- Only two answers can show that the keeper ran: a re-invitation, which needs an invitation that the keeper has
  marked, and an acceptance that reads the clock before the invitation expires and gets its rows after the keeper
  has marked it.

## Model

| member | source | states |
|---|---|---|
| AgreementTable.InsertRowsEffect | src/workers/event_listener.rs:158-172 | a CreateAgreement event adds one pending row per party it lists and leaves all rows that were there; replayed with the same list it changes nothing |
| AgreementTable.UnlockUndoesLockIff | src/workers/expiry_worker.rs:145-177 | locking and giving the lock back restores the table if and only if no row of the agreement was being expired before |
| ExpiryProtocol.UniformStep | src/workers/expiry_worker.rs:145-177 | a step keeps one status per agreement if and only if it is not an insertion into an agreement that is no longer pending |
| ExpiryProtocol.UniformIffTimely | src/workers/event_listener.rs:158-172 | all party rows of an agreement carry one status throughout a run exactly when no insertion of the run is late |
| ExpiryProtocol.CloseClosesKnown | src/workers/event_listener.rs:294-306 | a cancel or expire event makes the agreement final exactly when its creation was seen before |
| ExpiryProtocol.ClosedIffNoNewParty | src/workers/event_listener.rs:294-306 | a final agreement stays in Cancelled or Expired through every late lock, unlock, signature and replay of a run, unless a party it did not have is inserted |
| ExpiryProtocol.UnlockableStep | src/workers/expiry_worker.rs:162-177 | an agreement that cannot be locked stays so under every step but the unlock by its holder |
| ExpiryProtocol.LockTakesFree | src/workers/expiry_worker.rs:145-160 | a won lock is on an agreement that nobody held and that was never submitted successfully, and leaves it without a pending row |
| ExpiryProtocol.ExpiryMutualExclusion | src/workers/expiry_worker.rs:41-142 | of any number of workers at most one holds the lock of an agreement and at most one submission succeeds, in every state reached without adding a row to an agreement that is held or submitted |
| ExpiryProtocol.NoSecondExpiry | src/workers/expiry_worker.rs:75-142 | after a successful submission no worker ever locks or submits that agreement again, in every run that adds no row to an agreement that is held or submitted |
| ExpiryProtocol.TimelySparesBusy | src/workers/event_listener.rs:158-172 | an insertion while all rows are pending never adds a row to an agreement that is held or submitted |
| ExpiryProtocol.PendingRowIsFatal | src/workers/expiry_worker.rs:41-142 | from any state with a pending row in an agreement that is held or submitted, the clock running forward, one more worker scans and wins its lock |
| ExpiryProtocol.SecureIffSparesBusy | src/workers/expiry_worker.rs:41-177 | from any state that keeps the invariant, the lock excludes throughout a run and in all that can follow it without insertions, if and only if the run adds no row to an agreement that is held or submitted |
| ExpiryProtocol.ExclusionIff | src/workers/expiry_worker.rs:41-177 | the same for every run from the empty table under a clock that does not go back |
| ExpiryProtocol.LateInsertBreaksExclusion | src/workers/event_listener.rs:158-172 | a run under a forward clock in which, all at one instant, two workers scan, the first locks, a party is inserted late, and the second wins the same lock |
| ExpiryProtocol.LockedWasDue | src/workers/expiry_worker.rs:41-98 | in every run, an agreement that a worker tries to lock had, when that worker's own earlier scan queued it, a row pending signature with its deadline behind the clock of that scan |
| ExpiryWorker.AgreementParties.LockAgreementForExpiry | src/workers/expiry_worker.rs:145-160 | succeeds exactly when some row of the agreement was pending; each pending row of it becomes expiring and every other row is as before |
| ExpiryWorker.AgreementParties.UnlockAgreementFromExpiry | src/workers/expiry_worker.rs:162-177 | afterwards no row of the agreement is being expired, and every row that was not is untouched |
| ExpiryWorker.AgreementParties.HandleCandidate | src/workers/expiry_worker.rs:90-138 | lock, submit, and unlock on failure, for every combination of replies |
| ExpiryWorker.AgreementParties.ExpireDueAgreements | src/workers/expiry_worker.rs:41-142 | visits a candidate if and only if one of its rows was pending with its deadline past, each once; every agreement without such a row is untouched, and the effect is the fold of the visits |
| ExpiryWorker.VisitMeans | src/workers/expiry_worker.rs:75-142 | what one visit leaves of each row, status by status, for every combination of replies |
| ExpiryWorker.AgreementParties.HandleCreateAgreement | src/workers/event_listener.rs:151-172 | the insertion loop has the effect of the whole list |
| ExpiryWorker.AgreementParties.HandleCancellation | src/workers/event_listener.rs:294-306 | afterwards every row of the agreement has the final status, none can be locked, and other agreements are untouched |
| ExpiryWorker.AgreementParties.HandleSignAgreement | src/workers/event_listener.rs:199-236 | records the time of the signature in the row of that party only, and answers complete exactly when no other party of the agreement has yet to sign |
| ExpiryWorker.CycleIsARun | src/workers/expiry_worker.rs:41-142 | an uninterrupted cycle is a run of the protocol without insertions, so the theorems about interleavings apply to it |
| ExpiryWorker.CreationIsARun | src/workers/event_listener.rs:158-172 | the uninterrupted insertions of one CreateAgreement event are a run of the protocol, one insertion per party |
| ExpiryWorker.EventsAreRuns | src/workers/event_listener.rs:199-306 | a signature event and a cancel or expire event are one step of the protocol each |
| PaymentProtocol.OnlyOwnersMove | src/workers/keeper.rs:353-437 | only the keeper moves a payment out of expired and only the listener one out of confirmed |
| PaymentProtocol.RowsMove | src/workers/event_listener.rs:393-426 | in one step each row stays or makes one legal move, and keeps its reference and amount |
| PaymentProtocol.WritersFindWhatTheyRead | src/workers/keeper.rs:382-437 | with one keeper and one listener, whenever one of the two unguarded updates is about to run, in whatever interleaving, the row still has the status its worker read |
| PaymentProtocol.OrderlyIffSingletons | src/main.rs:225-273 | all runs are orderly if and only if at most one keeper and one listener are started |
| PaymentProtocol.TwoKeepersRace | src/workers/keeper.rs:382-437 | with two keepers a run writes refund_pending twice |
| PaymentProtocol.TwoListenersRace | src/workers/event_listener.rs:393-426 | with two listeners a run writes refund_pending twice |
| PaymentProtocol.MovesHaveCauses | src/services/solana_pay.rs:62-89 | in every reachable state of one keeper and one listener, the cause of each status change of each payment: confirmed exactly by a confirmation of its own reference, expired exactly after its window, put up for refund exactly by the write of the worker that holds it, refunded exactly by a mark that takes effect |
| PaymentProtocol.SevenHistories | src/workers/keeper.rs:353-437 | with one keeper and one listener every payment has gone through one of seven histories of its status, written out, and stands at its end |
| PaymentProtocol.ConfirmsAtMostOne | src/services/solana_pay.rs:62-89 | in every reachable state one confirmation changes at most one payment |
| PaymentProtocol.ActsOnWhatItFound | src/workers/refund_worker.rs:35-101 | in every run of any number of workers, a payment the keeper visits was expired and at most an hour old, one the listener writes was confirmed and of the agreement of its event, and one refunded was pending its refund with an agreement, when that worker's own query found it |
| Treasury.RefundedIsTerminal | src/workers/refund_worker.rs:104-134 | a legal history has refunded at most as its last entry |
| Treasury.TransferUnitsIff | src/workers/refund_worker.rs:77-101 | the amount sent is the stored one exactly when that is not negative |
| Treasury.RefundedOnceAfterTransfer | src/workers/refund_worker.rs:35-147 | with any number of refund workers a payment becomes refunded once and only after a transfer for it succeeded |
| Treasury.OutflowAccount | src/workers/refund_worker.rs:35-147 | with one keeper, one listener and one refund worker, in every interleaving and for all answers, treasury outflow is the sum over refunded payments, plus the one transfer not yet marked, plus what the marks failed to record; the last part is nothing if and only if every mark of a positive amount takes effect on a row still pending |
| Treasury.OutflowConserved | src/workers/refund_worker.rs:35-147 | with duplicate-free batches and marks that take effect the books balance, and each refunded payment was sent once |
| Treasury.UnsetAmountsMoveNothing | src/handlers/payment.rs:121-139 | payments as the handler inserts them never have an amount, so all their transfers together move nothing |
| Treasury.BatchAccount | src/workers/refund_worker.rs:67-147 | for all answers of the chain and the database, the outflow of a batch is what it records as refunded plus what it sends without recording |
| Treasury.UnrecordedZeroIff | src/workers/refund_worker.rs:67-147 | a batch leaves nothing unrecorded exactly when each entry sends nothing, moves nothing, or is recorded by its own mark and by none before |
| Treasury.BatchConservesIff | src/workers/refund_worker.rs:67-147 | for all answers, a batch conserves if and only if every successful transfer of a positive amount is also marked and no payment is sent again after its mark |
| Treasury.LoneRefundPaidPerParty | src/workers/refund_worker.rs:37-47 | a refund alone in the queue, of an agreement with n parties, is paid n times and recorded once |
| Treasury.BatchIsARun | src/workers/refund_worker.rs:67-147 | an undisturbed batch is a run of the protocol |
| PaymentWorkers.PaymentStore.ConfirmPaymentAtomic | src/services/solana_pay.rs:62-89 | confirms every pending payment with that reference and leaves every other row as it was; answers true exactly when there was one |
| PaymentWorkers.PaymentStore.AttachAgreement | src/handlers/draft.rs:297-312 | the confirmed payments of the draft, and no others, get the agreement |
| PaymentWorkers.PaymentStore.ExpireTimedOutPayments | src/workers/keeper.rs:353-376 | every pending payment older than 900 seconds becomes expired, every other row is as it was |
| PaymentWorkers.PaymentStore.ReconcileLatePayments | src/workers/keeper.rs:382-437 | exactly the late payments that the chain confirms and whose statement takes effect are marked, all others are untouched |
| PaymentWorkers.ReconcileEffect | src/workers/keeper.rs:382-437 | what the loop has done to each row at its end, for every list without duplicates and all answers |
| PaymentWorkers.ReconcileIsARun | src/workers/keeper.rs:382-437 | the undisturbed scan and loop are a run of the protocol |
| PaymentWorkers.RefundMarkIsARun | src/workers/event_listener.rs:393-426 | the undisturbed read and write are a run of the protocol |
| PaymentWorkers.PaymentStore.InitiateRefundIfEligible | src/workers/event_listener.rs:393-426 | finds a confirmed payment of the agreement and writes it refund_pending, or changes nothing exactly when there is none |
| PaymentWorkers.PaymentStore.ProcessPendingRefunds | src/workers/refund_worker.rs:67-147 | transfers then marks, entry after entry, with every combination of answers |
| Fees.RefundExactIff | src/services/refund.rs:14-24 | the refund is the exact floored quotient if and only if the product fits 64 bits |
| Fees.RefundAtMostPaid | src/services/refund.rs:14-24 | never more than was paid, even when the product wraps |
| Fees.RefundRoundingIff | src/services/refund.rs:14-24 | rounding keeps less than one unit for the platform if and only if the product fits 64 bits |
| Fees.RefundMonotone | src/services/refund.rs:14-24 | monotone in what was paid and antitone in the non-refundable part together, as long as the product fits |
| Fees.RefundMonotoneIff | src/services/refund.rs:14-24 | refunds grow with the payment, over all payments up to a given one, if and only if the product of that one fits 64 bits |
| Fees.RefundAntitoneIff | src/services/refund.rs:14-24 | refunds shrink with the non-refundable part, from a given one on, if and only if the product fits, for every payment a signed 64-bit column can hold |
| Fees.RefundNotMonotoneOnWrap | src/services/refund.rs:14-24 | an instance: a larger payment that wraps is refunded nothing |
| Fees.FeeExactIff | src/handlers/payment.rs:180-183 | the fee conversion is exact for all fees if and only if the token has at most nine decimals |
| Fees.FeeSixDecimals | src/handlers/payment.rs:180-183 | with six decimals a cent is ten thousand units |
| Fees.FullFeeRefundIff | src/services/refund.rs:14-24 | the refund of a payment at the six-decimal fee is the refundable cents in units exactly when the product fits |
| Fees.FullFeeRefundBound | src/services/refund.rs:14-24 | this holds for every non-refundable part if and only if the fee is at most 42,949,672 cents |
| DraftTable.ResolveIsFill | src/handlers/invite.rs:229-242 | resolving an invitation fills exactly the slot that was created with it, and fails for all others |
| DraftTable.InvExec | src/handlers/invite.rs:114-187 | every history of creations, acceptances, discards, expiries and re-invitations keeps slots, invitations and acceptances consistent |
| DraftTable.FillCount | src/handlers/invite.rs:152-185 | accepted invitations plus open slots equals the slots open at creation |
| DraftTable.UnresolvedCounts | src/handlers/invite.rs:244-246 | the open slots are counted by the slots without a key, and a draft is resolved exactly when none is left |
| DraftTable.OpenSlotsNameOpenInvites | src/handlers/agreement.rs:192-214 | an open slot names an invitation of this draft that is not accepted |
| DraftTable.DraftHistory | src/handlers/invite.rs:114-187 | after any history each slot is the one of the creation, or holds the accepted key if its invitation was accepted; each has exactly one of key and invitation, acceptances and open slots add up, and ready leaves no open slot |
| DraftTable.ReadyIff | src/handlers/invite.rs:155-185 | a draft that is not discarded is ready exactly when no slot is open and some slot was open at creation |
| DraftTable.FilledAtCreationNeverReady | src/handlers/agreement.rs:220-304 | a draft stored with every slot filled never becomes ready to submit |
| DraftTable.DiscardStopsNoAcceptance | src/handlers/invite.rs:140-185 | discarding a draft stops none of its acceptances, and the one that fills the last slot makes it ready to submit again |
| DraftTable.DiscardedStepIff | src/handlers/invite.rs:140-185 | an operation takes a draft out of discarded if and only if it accepts the last open invitation, and then the draft is ready |
| DraftTable.DiscardedIffNeverCompleted | src/handlers/invite.rs:140-185 | a discarded draft stays discarded through a history if and only if nobody accepts its last open invitation |
| DraftTable.DiscardedBecomesReady | src/handlers/draft.rs:140-144 | a history from the empty tables in which a draft is discarded and then becomes ready |
| DraftTable.AcceptSucceedsIff | src/handlers/invite.rs:126-155 | an acceptance succeeds exactly for a pending, unexpired invitation that the draft was created with |
| DraftTable.AcceptedWasAsked | src/handlers/invite.rs:114-187 | a recorded acceptance was asked for, with the recorded key |
| DraftTable.AcceptedStays | src/handlers/invite.rs:126-138 | a recorded acceptance is never replaced, whatever follows |
| DraftTable.ResentNeverAccepted | src/handlers/draft.rs:166-205 | an invitation sent again is never accepted, in any continuation of any history in which it was sent |
| DraftTable.ExpiryIsAHistory | src/workers/keeper.rs:135-146 | the keeper's one statement is a history of single expiries |
| DraftHandlers.StoreIsAHistory | src/handlers/agreement.rs:258-304 | storing a draft with its invitations is a history of the serial description |
| AcceptProtocol.OthersSpareLocked | src/handlers/invite.rs:126-150 | no other handler changes a row that an acceptance has locked |
| AcceptProtocol.CommitIsAccept | src/handlers/invite.rs:152-187 | what a commit publishes is what the whole handler would do at that moment alone |
| AcceptProtocol.ConcurrentRefinesSerial | src/handlers/invite.rs:114-187 | every interleaving of lock, read, write, commit and abort steps has the effect of the history of whole acceptances that its commits stand for, each with the invitation, key and time its caller began with: no update is lost or half done |
| AcceptProtocol.HistoryAccepts | src/handlers/invite.rs:114-187 | each acceptance of that history is the commit of a transaction, with the request that transaction was begun with |
| AcceptProtocol.AcceptedIffCommitted | src/handlers/invite.rs:152-187 | after any run a key is on record for an invitation if and only if a transaction begun with that invitation and that key has committed |
| AcceptProtocol.AcceptGoesThrough | src/handlers/invite.rs:114-187 | an acceptable request that finds nobody at its two rows can run to its commit, with the effect of the whole handler |
| AcceptProtocol.ConcurrentDraftHistory | src/handlers/invite.rs:114-187 | after any concurrent run each slot is the one of the creation, or holds the committed key of its invitation; commits and open slots add up, and ready leaves no open slot |
| AcceptProtocol.WaitingClimbs | src/handlers/invite.rs:126-150 | whoever is waited for is further along the lock order |
| AcceptProtocol.SomeoneCanProceed | src/handlers/invite.rs:126-150 | from any open transaction the waits lead to one that can take its next step |
| AcceptProtocol.NoDeadlock | src/handlers/invite.rs:126-150 | no reachable state with open transactions is deadlocked |
| DraftHandlers.ResolvePartySlotPubkey | src/handlers/invite.rs:229-242 | writes the key into the first slot with the invitation, in place, or reports NotFound and changes nothing |
| DraftHandlers.BuildSlots | src/handlers/agreement.rs:158-218 | the slot of each party, well-formed slots, one invitation row per open slot with its own id and address, and whether all are resolved |
| DraftHandlers.DraftStore.AcceptInvite | src/handlers/invite.rs:114-187 | succeeds exactly for a pending, unexpired invitation that a slot of its draft carries; then that slot gets the key, the invitation is accepted, the draft is ready exactly if no slot is left open or it was before, and nothing else changes |
| DraftHandlers.DraftStore.ExpireStaleInvitations | src/workers/keeper.rs:135-160 | exactly the pending invitations whose time has passed become expired, and at every later time exactly the same invitations are open as without the scan |
| DraftHandlers.DraftStore.DeleteDraft | src/handlers/draft.rs:124-147 | succeeds exactly for the creator of an existing draft, which becomes discarded with its slots kept |
| DraftHandlers.DraftStore.ReinviteDraft | src/handlers/draft.rs:149-209 | succeeds exactly for the creator and an expired invitation of that draft, and adds one new pending invitation for the draft |
| DraftHandlers.DraftStore.StoreDraft | src/handlers/agreement.rs:258-304 | stores the draft and one pending invitation per row |
| Borsh.RoundTrip | src/solana_types.rs:68-132 | for every schema, decoding an encoded value followed by any bytes gives back the value and those bytes |
| Borsh.Canonical | src/solana_types.rs:68-132 | whatever decodes is the encoding of the decoded value followed by the rest |
| Borsh.TryFromSliceIff | src/handlers/agreement.rs:337-338 | the whole-input decoder yields a value exactly on its encoding |
| Borsh.EncodeInjective | src/solana_types.rs:68-132 | no two values of a type share an encoding, even with bytes behind them |
| Utf8.TextIff | src/solana_types.rs:74-96 | the decoder takes for text exactly what some sequence of Unicode scalar values is written as by section 3 of RFC 3629 |
| SolanaTypes.AgreementRoundTrip | src/solana_types.rs:74-96 | an account state and the bytes after it are recovered exactly from an encoding, and from nothing else |
| SolanaTypes.GroupingAddsNothing | src/solana_types.rs:74-96 | nesting the fields in groups leaves the bytes of the flat struct |
| SolanaTypes.AgreementLength | src/solana_types.rs:74-96 | the length of an encoded agreement, from the lengths of its fields |
| SolanaTypes.AccountSizeBound | src/services/solana.rs:21 | every agreement within the limits takes at most 1812 bytes with its discriminator and fits its account |
| SolanaTypes.AccountSizeSharp | src/solana_types.rs:14-24 | an agreement within the limits that takes all 1812 bytes |
| SolanaTypes.ParseAccountIff | src/handlers/agreement.rs:326-338 | account data parses to its agreement exactly when nothing follows the encoding |
| SolanaTypes.AllocatedAccountNeverParses | src/handlers/agreement.rs:326-338 | no account of the allocated size parses to an agreement within the limits |
| SolanaTypes.WorkerAgreementIdIff | src/workers/expiry_worker.rs:196-202 | what the worker takes as the id is the end of the creator and the start of the id, and when these coincide with the id |
| Layout.AgreementLayout | src/solana_types.rs:74-96 | the encoded account is the twenty fields in the order of their declaration, with four-byte little-endian length prefixes, one-byte tags and eight-byte two's complement integers |
| Layout.VariantBytes | src/solana_types.rs:40-66 | the byte of each status and each storage backend |
| Layout.LongLayout | src/solana_types.rs:74-96 | a signed integer is written as the eight little-endian bytes of its residue modulo 2^64 |
| Instructions.BuildAnchorInstruction | src/services/solana.rs:73-88 | the data is the discriminator followed by the arguments |
| Instructions.DiscriminatorsDistinct | src/services/solana.rs:24-30 | the seven discriminators are pairwise distinct |
| Instructions.InstructionIff | src/services/solana.rs:24-88 | instruction data decodes to an instruction exactly when it is that instruction's data |
| Layout.InstructionLayout | src/services/solana.rs:24-88 | the data of each instruction: the eight bytes of its kind and its arguments in order |
| Layout.InstructionEncodesIff | src/solana_types.rs:98-132 | only arguments whose length does not fit its prefix are refused |
| SolanaPay.PercentEncodeMinimal | src/services/solana_pay.rs:28-43 | the push loop computes the percent-encoding |
| SolanaPay.PercentRoundTrip | src/services/solana_pay.rs:28-43 | percent-decoding (section 2.1 of RFC 3986) inverts the encoder on every byte string |
| SolanaPay.EncodeEmitsEncoded | src/services/solana_pay.rs:28-43 | only unreserved characters (section 2.3 of RFC 3986) and upper-case triplets come out |
| SolanaPay.EncodeOneByte | src/services/solana_pay.rs:31-40 | a letter, a digit or one of - _ . ~ stands for itself, every other byte is % and its two upper-case hexadecimal digits |
| SolanaPay.EncodedAlphabet | src/services/solana_pay.rs:31-40 | nothing but letters, digits, - _ . ~ and % comes out |
| SolanaPay.EncodeAppend | src/services/solana_pay.rs:28-43 | encoding distributes over concatenation |
| SolanaPay.FormatAmount6dp | src/services/solana_pay.rs:10-26 | the pop loop computes the trimmed amount text |
| SolanaPay.AmountRoundTripIff | src/services/solana_pay.rs:10-26 | the printed amount reads back if and only if it is not the smallest i64 |
| SolanaPay.AmountIsTrimmed | src/services/solana_pay.rs:10-26 | a sign exactly for a negative amount, digits without a leading zero, and a point exactly before one to six digits that do not end in a zero |
| SolanaPay.SmallestAmountText | src/services/solana_pay.rs:10-26 | the smallest amount prints as -, a second - and its whole part, a point, and a third - and its fraction |
| SolanaPay.FeeAmountExact | src/handlers/payment.rs:107-119 | the amount printed for a fee of c cents is the decimal c/100 |
| SolanaPay.UrlLayout | src/services/solana_pay.rs:45-60 | the text of the URL, key by key |
| SolanaPay.UrlRoundTripIff | src/services/solana_pay.rs:45-60 | the URL parses back to its six arguments, for every label and memo, exactly when the fields inserted raw avoid their delimiter and the amount is not the smallest i64 |
| Sessions.CarrierOrigin | src/handlers/auth.rs:762-802 | a live session was live before, took the session over from the token it consumed, or began with a login |
| Sessions.OneLiveToken | src/services/jwt.rs:71-98 | a login or wallet link has at most one live refresh token descending from it, for its own user, and none while one is being rotated |
| Sessions.UsedOnce | src/handlers/auth.rs:260-273 | a nonce lets at most one request past its check and a refresh token is consumed at most once |
| Sessions.OneUserOfEach | src/handlers/auth.rs:260-273 | in every run, once a request has found a nonce or a token alive, it is in the table at no later step |
| Sessions.NoReplay | src/handlers/auth.rs:773-784 | a consumed nonce or token is refused at every later time |
| Sessions.TokenMoves | src/services/jwt.rs:71-98 | in every step, who stores a token, with which user and seven days of life, and the three ways in which it leaves |
| Sessions.NonceMoves | src/handlers/auth.rs:238-273 | in every step, who stores a nonce, and the two ways in which it leaves |
| AuthTables.AuthStore.Challenge | src/handlers/auth.rs:238-249 | a stored nonce is live for the next 299 seconds and dead from second 301 on, and no other nonce changes |
| AuthTables.AuthStore.ConsumeNonce | src/handlers/auth.rs:260-273 | succeeds exactly on a live nonce, which is then dead forever |
| AuthTables.AuthStore.IssueAndStoreRefreshToken | src/services/jwt.rs:71-98 | the issued token is live up to 604799 seconds after its issue and dead from 604800 on, for that user |
| AuthTables.AuthStore.Refresh | src/handlers/auth.rs:762-802 | succeeds exactly on a live token and replaces it, touching no other |
| AuthTables.AuthStore.Logout | src/handlers/auth.rs:806-823 | that token is dead at all times, and every other token is live exactly when it was |
| AuthTables.RefreshIsARun | src/handlers/auth.rs:762-802 | an undisturbed refresh is a run of the protocol |
| AuthTables.SignInIsARun | src/handlers/auth.rs:252-325 | an undisturbed verify or link_wallet is a run of the protocol, whether it fails its nonce check, is refused for its signature, or signs in |
| AuthTables.CleanupIsARun | src/workers/keeper.rs:444-464 | the keeper's two deletions, each after its own reading of the clock, are a run of the protocol |
| AuthTables.AuthStore.CleanupExpiredAuthRecords | src/workers/keeper.rs:444-464 | leaves no nonce older than 300 seconds and no token past its time, and from its readings of the clock on exactly the same nonces and tokens are live as without it |
| GarbageCollection.MaintenanceAgrees | src/workers/keeper.rs:444-464 | a keeper step changes only rows that no client can use any more, or that can only be sent again |
| GarbageCollection.CleanupInvisible | src/workers/keeper.rs:444-464 | in every run, with every keeper statement acting on an earlier reading of the clock, every verify, link, refresh, logout, get-invite and accept is answered as without the keeper; aside are re-invitations, get-invite of what they sent, and acceptances that waited past the expiry of their invitation |
| GarbageCollection.EachAnswerAgrees | src/workers/keeper.rs:444-464 | the same place by place: in every run each request outside these exceptions is answered in its place as on the tables that all requests before it would have left without the keeper |
| GarbageCollection.FirmAnswersSnoc | src/workers/keeper.rs:444-464 | which answers the comparison covers: every one but those about inviting again and those to acceptances that waited past the expiry |
| GarbageCollection.CompareRuns | src/workers/keeper.rs:135-146 | from any pair of agreeing states, all answers of a run are as without the keeper exactly when none shows that it ran |
| GarbageCollection.CleanupInvisibleIff | src/workers/keeper.rs:444-464 | all answers are as without the keeper if and only if no re-invitation succeeds and no acceptance finds its invitation marked that was unexpired when it read the clock |
| GarbageCollection.CleanupAnywhere | src/workers/keeper.rs:444-464 | two runs of the same requests with keeper steps in any places get the same of these answers |
| GarbageCollection.ReinviteNoticesKeeper | src/handlers/draft.rs:166-176 | a run in which a re-invitation shows that the keeper ran |
| GarbageCollection.WaitingAcceptNoticesKeeper | src/handlers/invite.rs:119-138 | a run in which an acceptance that read the clock in time, and then waited, finds its invitation marked |
| GarbageCollection.AnswerIff | src/handlers/invite.rs:126-138 | when each request succeeds, condition by condition, and that one that fails changes nothing |
| GarbageCollection.InviteMoves | src/workers/keeper.rs:135-146 | where an invitation comes from and how its status changes |
| GarbageCollection.TokenMoves | src/workers/keeper.rs:444-464 | where a token comes from and how it leaves |
| GarbageCollection.NonceMoves | src/handlers/auth.rs:238-273 | where a nonce comes from and how it leaves |
| RateLimiter.PrunedAgreesWithHistory | src/handlers/invite.rs:248-261 | for every clock that does not go back for an address, the pruned log answers as a limiter that forgets nothing |
| RateLimiter.AtMostFivePerWindow | src/handlers/invite.rs:248-261 | no sixty-second window holds more than five accepted requests of an address |
| RateLimiter.ListsStayBounded | src/handlers/invite.rs:248-261 | stored lists hold at most five times, whatever the clock does |
| RateLimiter.RetainMeans | src/handlers/invite.rs:252-253 | what is kept of a list are the times less than sixty seconds old, each as often as before |
| RateLimiter.LogAfter | src/handlers/invite.rs:252-253 | the log is exactly the accepted times that every later request of the address found recent |
| RateLimiter.RefusedIff | src/handlers/invite.rs:255-260 | for any clock, a request passes exactly when fewer than five remembered times are recent to it |
| RateLimiter.SeesWholeWindowIff | src/handlers/invite.rs:252-258 | the log counts the whole window exactly when the clock has not brought back a forgotten request |
| RateLimiter.SixAfterClockSetBack | src/handlers/invite.rs:248-261 | a run with the clock set back in which six requests pass in one window |
| RateLimiter.InviteRateLimiter.EnforceGetInviteRateLimit | src/handlers/invite.rs:248-261 | passes exactly if fewer than five stored times are less than sixty seconds old; keeps those, adds the request if it passes, and leaves other addresses alone |
| IdentityProtocol.InvRun | src/handlers/auth.rs:612-737 | in every interleaving, with failures anywhere, bindings and contacts belong to accounts of the right provider and successful wallet requests to the wallet's owner |
| IdentityProtocol.OneProviderPerUser | src/handlers/auth.rs:612-704 | in every interleaving all OAuth bindings of an account are with one provider |
| IdentityProtocol.WalletIsOneUser | src/handlers/auth.rs:287-313 | in every interleaving all successful sign-ins and links of a wallet are for one account |
| IdentityProtocol.BindKeepsApartIff | src/handlers/auth.rs:688-700 | a binding write keeps e-mails within one provider if and only if nobody of another provider has the e-mail of the bound user |
| IdentityProtocol.ContactKeepsApartIff | src/handlers/auth.rs:715-734 | a contact write keeps e-mails within one provider if and only if the user no longer signs in through the provider or nobody of another has the e-mail |
| IdentityProtocol.EmailsApartIff | src/handlers/auth.rs:612-737 | in every interleaving, with failures anywhere, e-mails stay within one provider throughout if and only if no write is stale |
| IdentityProtocol.StandStepIff | src/handlers/auth.rs:688-700 | a step leaves every completed login bound to its user if and only if it neither rebinds the identity of one nor completes one whose binding was overwritten |
| IdentityProtocol.LoginsStandIff | src/handlers/auth.rs:612-704 | in every interleaving completed logins stand throughout if and only if no step displaces one, and then all completed logins of an identity are for one user |
| IdentityProtocol.SerialEmailsApart | src/handlers/auth.rs:628-655 | handled one at a time, with failures anywhere, no write is stale and no e-mail index is shared by users of different providers |
| IdentityProtocol.SerialLoginsAgree | src/handlers/auth.rs:619-704 | handled one at a time, no login displaces another and all successful logins of one identity are for the same user |
| IdentityProtocol.SimultaneousLoginsShareEmail | src/handlers/auth.rs:628-704 | two simultaneous first logins through both providers leave an e-mail shared |
| IdentityProtocol.SimultaneousLoginsDisagree | src/handlers/auth.rs:656-704 | two simultaneous first logins of one identity succeed for different users, and the binding keeps the second |
| IdentityHandlers.SoloIsARun | src/handlers/auth.rs:612-737 | a handler that nobody interrupts is a serial run of the protocol |
| IdentityHandlers.IdentityStore.ResolveOrCreateOauthUser | src/handlers/auth.rs:612-704 | refuses exactly when somebody with that e-mail signs in through another provider, and succeeds whenever the database answers and nobody does: for the bound user, else for one with the same provider and e-mail if there is one, else for a new account; then the identity and the e-mail are that user's |
| IdentityHandlers.IdentityStore.FindOrCreateUser | src/handlers/auth.rs:656-686 | exactly when its statements are answered, reuses an account of the same provider and e-mail if there is one and creates an account otherwise |
| IdentityHandlers.IdentityStore.BindIdentity | src/handlers/auth.rs:688-704 | succeeds for the user exactly when both upserts are answered |
| IdentityHandlers.IdentityStore.VerifyWallet | src/handlers/auth.rs:287-313 | a known wallet answers with its user and changes nothing, an unknown one with a new account, exactly when the statements are answered |
| IdentityHandlers.IdentityStore.LinkWallet | src/handlers/auth.rs:369-388 | links a free wallet to an existing caller exactly when the statements are answered, and refuses a wallet that is taken |
| ProcessHealthCell.DecodeEncode | src/state.rs:140-157 | the four codes are told apart and every other byte reads as StartupFailed |
| ProcessHealthCell.FailuresJoin | src/state.rs:127-138 | any sequence of failure marks leaves the worst of them and of what was there |
| ProcessHealthCell.StoreForgetsIff | src/main.rs:297-299 | the store that ends start-up forgets failures before it, and exactly when that matters |
| ProcessHealthCell.RuntimeFailureWorsensIff | src/state.rs:136-138 | recording a runtime failure never improves the reported state exactly outside StartupFailed |
| ProcessHealthCell.ProcessHealthState.Set | src/state.rs:123-125 | the cell reads as what was stored |
| ProcessHealthCell.ProcessHealthState.MarkDegraded | src/state.rs:127-134 | degrades only a healthy cell |
| ProcessHealthCell.ProcessHealthState.MarkRuntimeFailed | src/state.rs:136-138 | the cell reads as RuntimeFailed |
| WorkerHealth.HealthIsTheWorst | src/workers/supervisor.rs:85-100 | in every interleaving health is the maximum over what was reported: RuntimeFailed exactly after the keeper's end was recorded, Healthy exactly if no worker marked the cell, tripped the breaker, reported a failure or was recorded as ended |
| WorkerHealth.OrderDoesNotMatter | src/state.rs:127-138 | runs that report the same things end with the same health |
| WorkerHealth.HealthNeverImproves | src/state.rs:127-138 | health never gets better after start-up |
| WorkerHealth.ImpairedIsReported | src/workers/event_listener.rs:95-114 | a worker that knows itself impaired or disabled between cycles is never reported healthy, despite the early return, and a recorded end is never reported healthy |
| WorkerHealth.RecoveryIsNotReported | src/workers/event_listener.rs:95-123 | a run in which a worker degrades and recovers, after which every worker operates and the process still reads as degraded |
| HealthHandlers.TransitionToDegraded | src/workers/notification_worker.rs:171-190 | degrades a healthy cell on entering, and leaves the cell alone while staying |
| HealthHandlers.StatusForReason | src/workers/refund_worker.rs:168-177 | an unreachable chain or a retry impairs the worker and marks the cell, the other reasons disable it |
| HealthHandlers.CheckHotWalletBalances | src/workers/keeper.rs:166-199 | for every rounding of floats, disables the keeper exactly when the computed balance is below the threshold, and then the cell is not healthy |
| HealthHandlers.BreakerTripsIff | src/workers/keeper.rs:248-258 | for every balance, the breaker trips if and only if the balance as a float is below the threshold and its quotient does not round to the threshold |
| HealthHandlers.DegradingIsARun | src/workers/event_listener.rs:95-114 | entering degraded mode is a run of the protocol |
| HealthHandlers.TrippingIsARun | src/workers/keeper.rs:186-199 | a tripped circuit breaker is a run of the protocol |
| HealthHandlers.CyclesAreRuns | src/workers/refund_worker.rs:47-65 | for a batch worker at work, a failed query, a reported failure and a good cycle are runs of the protocol, with their effect on status and cell |
| HealthHandlers.EndingIsARun | src/workers/supervisor.rs:47-75 | the end of a task is a run of the protocol |
| HealthHandlers.SupervisingIsARun | src/workers/supervisor.rs:30-77 | a task from start to end, as the supervisor sees it, is a run of the protocol |
| HealthHandlers.WorkerSupervisor.RecordRuntimeFailure | src/workers/supervisor.rs:85-100 | the end of the keeper reads as RuntimeFailed, that of any other worker degrades a healthy cell |
| HealthHandlers.WorkerSupervisor.Spawn | src/workers/supervisor.rs:30-77 | the life cycle entry ends as the task did, and the end is recorded |

## Left out

- Fees.RefundAntitoneIff: the bound on the payment, which every signed 64-bit amount meets, leaves out the last 2^32 values of the unsigned range, where two wrapped quotients can coincide.
- Solana RPC, program-derived addresses, signing and submission, e-mail, WebSocket and OAuth HTTP: foreign calls, each modelled as an answer that may be success or failure. A submission that is answered with an error but lands on the chain is not modelled as a success.
- AES-GCM, HMAC, SHA-256, ed25519, JWT and random generation: generated identifiers and tokens are taken to be new, and hashes and blind indexes to be one-to-one.
- SQL isolation and statements that half-succeed: each statement is atomic; row locks are explicit steps in `AcceptProtocol` only. The keeper's expiry of many invitations appears there as one step per row.
- Clocks of the database and of the application are one clock. The theorems that need it not to go back (garbage collection, the rate limiter's agreement with the history, the exact condition of the lock) say so; the others hold for any clock.
- Crash while an expiry lock is held: the lock stays, and no liveness is claimed.
- The columns of the payment INSERT (`creator_pubkey`, `treasury_ata`) do not match the migration; the model takes the statement as intended. Nothing calls `confirm_payment_atomic` yet; it is a step that may happen at any time.
- `submit_draft` gates, free tier, storage of the payload: one-branch checks; only the statement that attaches the agreement to confirmed payments is modelled.
- `update_contacts`: users may set any e-mail there, so the e-mail theorem is about the login paths only.
- Treasury sweep and balance alerts: no transfer is implemented; only the circuit breaker's effect on health is kept.
- Log-line parsing, configuration, routing, rate-limiter address headers, upload checks, templates: plumbing.
- Signature events: the update of `signed_at` and the question whether all have signed are modelled, the notifications are not. Vote events only notify.
- RateLimiter.InviteRateLimiter.EnforceGetInviteRateLimit: retains with a function in place of the library's in-place `retain`; one request holds the entry's lock throughout, so a call is one step.
