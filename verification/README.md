# Gum, modelled in Dafny

Gum takes stablecoin payments for issued requests. This project models four parts of it and
proves what each of them is for, over every input or every run.

**The message bus** (`BusContracts`, `Bus`, `BusInvariant`, `BusRuns`, `BusClaims`, `BusAttempts`,
`BusProgress`, `BusDecoding`, `BusTransactions`, `BusStore`).
Producers publish into a log with one row per topic and deduplication key; a trigger fans every
message out to one delivery row per subscribed consumer; competing workers claim rows under
leases, handle them in a transaction that also acknowledges, or fail, are parked, or die. The
model is a step system: clock, publish inside an open transaction, claim that skips locked rows,
handler writes, acknowledgement, commit, commit whose reply is lost, abort, failure report,
crash, revival. Delivery is only at least once; the theorems show that fencing by lease token and
the atomic acknowledgement make the committed effect of a delivery exactly once.

**Proof of Payment** (`Json`, `BigEndian`, `Hashing`, `Codec`, `Sorting`, `DeterministicAddress`,
`Attribution`, `PayerAttestation`, `CanonicalForm`, `Invoice`, `Proof`, `ProofAcceptance`, `ProofBinding`,
`ProofFunding`, `ProofAttestation`, `ProofCompleteness`). A snapshot is written as canonical JSON (RFC 8785 section 3.2), hashed, and
salted with or without a wallet attestation (EIP-712); the salt goes through CREATE2 (EIP-1014)
and CREATE into the payment address; `verify_proof` rebuilds that chain from a document. Hashes
are free: the bytes of a digest are symbols that name the hashed bytes, so nothing is assumed
about real hash functions beyond what the argument needs, and nothing inconsistent.

**Chain evidence** (`Sweep`, `SweepReadings`, `Settlement`, `SettlementReadings`, `SettlementLoop`,
`Transfers`, `Pacer`, `Redaction`). Decoding a batch
sweep's receipt, searching for the transaction that settled a payment in ranges a provider
accepts, scanning for transfers in chunks of recipients, pacing calls, and removing URLs from
error messages. Each loop is proved against a short specification over arbitrary log lists,
arrival times or texts.

**The load harness** (`SubmissionSlot`, `SubmissionNonces`, `Guards`, `GuardAdmission`, `GuardNumbers`,
`GuardNames`, `JsonScan`, `Utf8`, `Journal`, `JournalLines`, `WriteAhead`, `Amounts`, `Decimal`).
The per-wallet submission slot and its nonce sequence under any interleaving of async calls, the
money guard with the engine that uses it, the write-ahead journal around broadcast with a crash at
any byte, and decimal amounts.

Code that changes things in place is modelled as methods and classes (`BusStore.Store`,
`Pacer.RpcPacer`, `SubmissionSlot.WalletPool`, `Guards.GuardBox`, `Guards.EngineBox`,
`WriteAhead.JournalFile`, and the loops of `Proof`, `Sweep`, `Settlement`, `Transfers`, `Redaction`
and `Amounts`), each proved equal to a function or step on values; the theorems are about those.

What such a function means is stated apart from it: the modules `BusClaims`, `BusTransactions`,
`ProofAcceptance`, `CanonicalForm`, `SweepReadings`, `SettlementReadings`, `SubmissionNonces`,
`GuardAdmission` and `JournalLines` give, as equivalences over all inputs or all runs, what each
operation does in terms of columns, document fields, bytes, logs and steps alone.

Where the code does less than its own comments say, the model follows the code and the exact
condition is proved:

- The pacer's comment says callers stay under the provider's requests per second. Its interval is
  rounded down, so a second can hold one call too many unless the rate divides a second evenly or
  is at least a thousand (`Pacer.RateHonouredExactly`, `Pacer.AtMostOneOver`).
- `max_attempts` limits failures that get reported, not claims. A row's attempts pass it if and
  only if a worker took the row over, from one that never reported, after the attempts were used
  up (`BusAttempts.LimitPassedExactlyWhenOvertaken`); nothing bounds how far
  (`BusProgress.UnreportedAttemptsUnbounded`).
- A settlement search of a whole range and of its parts can differ in one way: the first part
  finds the settlement while a log past it is malformed (`Settlement.CutRangeExactly`).
- The loop over those parts saturates its position. It ends against every provider if and only if
  the last block asked for is below 2^64 - 1 (`SettlementLoop.AlwaysEndsExactly`), and at that block
  it ends, against a provider that answers, if and only if the range holds something
  (`SettlementLoop.EndsExactly`).
- The chunked transfer scan repeats a transfer once per chunk its recipient is listed in. It is
  exact on every chain if and only if no address is listed in two chunks; repeats within a chunk do
  no harm (`Transfers.ScanExactExactly`, with `Transfers.RepeatedAddressOverReports` as the witness).
- A stop with an empty reason reads as no stop and a resume lifts it (`Guards.StopIsFinalExactly`).
- The engine numbers operations over all its dispatches but trusts each schedule's indices. A
  reservation is pushed out of the map, and never released, in some run of given schedules if and
  only if two of their numbers are equal (`GuardNames.NeverLosesExactly`); for cohorts, if and only
  if two of them overlap (`GuardNames.CohortsSafeExactly`). The engine's own schedules all start at
  index zero and are safe (`GuardNames.CommonStartSafe`).

## Model

| member | source | states |
|---|---|---|
| BusContracts.SameKeyExactlySameIntent | crates/gum-contracts/src/bus.rs:281-295 | within a topic two messages have one deduplication key if and only if they are the same intent: same job, same (job, kind, counter), or same (chain, kind, fault) |
| BusContracts.UuidTextInjective | crates/gum-contracts/src/bus.rs:83-85 | the hyphenated job text in a command key determines the job |
| BusContracts.ControlKeyInjective | crates/gum-contracts/src/bus.rs:436-443 | a control key determines chain, kind and fault |
| BusContracts.KeyTexts | crates/gum-contracts/src/bus.rs:281-295 | the key texts: the job; the job, kind and counter; the chain, kind and fault, in that order with colons |
| BusContracts.UuidLayout | crates/gum-contracts/src/bus.rs:83-85 | the 32 digits in lower-case hexadecimal with hyphens at 8, 13, 18 and 23 |
| BusInvariant.StepKeeps | crates/gum-bus/src/consumer.rs:155-331 | every step of producers, workers, clock, crash and operator keeps the bus invariant: fresh tokens, one holder per lease, null lease columns off pending, one effect per done row, one message per key |
| BusInvariant.RunInv | crates/gum-bus/src/consumer.rs:155-367 | so every reachable state has it |
| BusRuns.RowStep | crates/gum-bus/src/consumer.rs:155-331 | the only ways a delivery row ever changes, and that no step drops one |
| BusRuns.CommittedExactlyWhenDone | crates/gum-bus/src/consumer.rs:246-272 | in every interleaving a delivery's handler writes are committed exactly once if its row is done and never otherwise |
| BusRuns.NothingCommittedOffTheLog | crates/gum-bus/src/consumer.rs:487-500 | handler writes never appear for a row that does not exist |
| BusRuns.DoneIsFinal | crates/gum-bus/src/consumer.rs:251-271 | no continuation of a run changes a done row or commits for it again |
| BusRuns.OneHolder | crates/gum-bus/src/consumer.rs:171-178 | in every reachable state at most one claim in the whole system holds a row's current token, and it knows the row's attempt number |
| BusRuns.FencedForever | crates/gum-bus/src/consumer.rs:251-271 | a lease once superseded or cleared is never the row's lease again and nothing is ever committed under it afterwards |
| BusRuns.StaleWorkerChangesNothing | crates/gum-bus/src/consumer.rs:277-331 | an ack, failure report or parking under a lost lease changes no row and no effect, and a stale ack loses its transaction |
| BusRuns.OneMessagePerIntent | crates/gum-bus/src/publisher.rs:40-103 | however often intents are published, the log holds each at most once |
| BusRuns.OneEffectPerIntent | crates/gum-bus/src/publisher.rs:40-103 | end to end, one consumer's committed effects for one intent are one effect |
| BusRuns.EffectsAreForSubscribers | crates/gum-schema/migrations/0002_bus.sql:82-93 | every effect is for a logged message of a topic its consumer subscribes to |
| BusRuns.ReplayChangesNothing | crates/gum-bus/src/publisher.rs:64-103 | a replay of a key in the log, equal or conflicting, changes no table, and the key names one message |
| BusRuns.AttemptBudget | crates/gum-bus/src/consumer.rs:277-309 | since publication or the last revival the attempt count is the number of claims, and effective reschedules are fewer than max_attempts |
| BusAttempts.LimitPassedExactlyWhenOvertaken | crates/gum-bus/src/consumer.rs:277-309 | in every run a row's attempts since publication or revival exceed max_attempts (one at least) if and only if a claim took it over from an unreported lease after they were used up |
| BusAttempts.WaitingHasAttemptsLeft | crates/gum-bus/src/consumer.rs:277-309 | a pending row without a lease is new or has attempts left: the last failure is never rescheduled |
| BusAttempts.ClaimsAccountedFor | crates/gum-bus/src/consumer.rs:155-331 | claims since publication or revival are reschedules plus takeovers plus the one attempt that runs or was ended by an ack or a parking |
| BusProgress.UnreportedAttemptsUnbounded | crates/gum-bus/src/consumer.rs:171-178 | the witness that the limit can be passed by any number: from any unlocked pending row, workers that die unreported push the count up by n |
| BusRuns.LeaseShape | crates/gum-bus/src/consumer.rs:291-328 | lease token and lease time are null together, and null off pending |
| BusRuns.RowsKeepBooks | crates/gum-bus/src/consumer.rs:171-178 | in every reachable state a row has a completion time exactly when done, no error left on done, an error on dead, and a lease of the configured length from its last attempt |
| BusClaims.ClaimedExactly | crates/gum-bus/src/consumer.rs:158-170 | a free worker can claim a row if and only if it is pending, its available time is not after the clock, its lease time is null or strictly before it, and no open acknowledgement locks it |
| BusClaims.ClaimedIsDue | crates/gum-bus/src/consumer.rs:158-170 | every row a claim of any batch takes is of that consumer and topic, pending, available, unlocked and under no running lease |
| BusClaims.LeaseRunsOutFirst | crates/gum-bus/src/consumer.rs:165-173 | in every run a row claimed at some time, with no effective report and no revival since, is claimed again only when the clock has passed that time by more than the lease |
| BusClaims.BackoffIsWaitedOut | crates/gum-bus/src/consumer.rs:289-296 | in every run no claim comes before the time that any earlier effective report of the row asked to wait for |
| BusClaims.AvailableExactly | crates/gum-bus/src/consumer.rs:289-363 | the available time is when the publishing transaction began, what the last effective report asked for, or the last revival |
| BusClaims.NotesExactly | crates/gum-bus/src/consumer.rs:171-363 | last attempt, last error and completion time are exactly those of the last claim, report, parking, revival and commit of the run |
| BusProgress.PendingBecomesClaimable | crates/gum-bus/src/consumer.rs:158-170 | an unlocked pending row can be claimed by an idle worker at the first clock that is not before its available time and past its lease time |
| BusProgress.AlwaysCompletable | crates/gum-bus/src/consumer.rs:353-367 | from every reachable state every decodable delivery, dead ones included, has a continuation that completes it |
| BusDecoding.CompletableExactly | crates/gum-bus/src/consumer.rs:206-228 | from every reachable state a delivery has a continuation that completes it if and only if its message is of a known schema version and decodes |
| BusTransactions.CommitIsWhole | crates/gum-bus/src/consumer.rs:487-500 | a commit adds one effect with every write of the handler since it began, in order and no other, and with it every message the handler published is in the log, which gains no other |
| BusTransactions.ProducerCommitIsWhole | crates/gum-bus/src/publisher.rs:40-103 | the same of a producer that handles nothing, which adds no effect |
| BusTransactions.OnlyCommitsShow | crates/gum-bus/src/consumer.rs:487-500 | every other step leaves log and effects as they were |
| BusTransactions.OpenExactly | crates/gum-bus/src/consumer.rs:487-530 | a worker has a transaction open if and only if it began one that no commit, rollback, failure, lost lease or crash has ended |
| BusStore.Store.Publish | crates/gum-bus/src/publisher.rs:40-103 | inserts and fans out exactly when the key is new; otherwise returns the earlier id, or a conflict if the payload hash differs, and changes nothing |
| BusStore.Oldest | crates/gum-bus/src/consumer.rs:167-168 | the oldest candidates up to the limit, in order, none left out that is older than one taken |
| BusStore.Store.ClaimBatch | crates/gum-bus/src/consumer.rs:155-186 | which rows are eligible, column by column, as an equivalence; leases exactly the picked ones, oldest first, each under its own token, and no other row |
| BusStore.Store.Ack | crates/gum-bus/src/consumer.rs:246-272 | succeeds exactly when the row has this lease token and is pending, and says every column it then writes; else nothing changes |
| BusStore.Store.Fail | crates/gum-bus/src/consumer.rs:277-309 | parks a permanent or last failure, reschedules any other, and does neither to a row the lease no longer owns |
| BusStore.Store.RetryDead | crates/gum-bus/src/consumer.rs:353-367 | true exactly when the delivery was dead, which then is pending with its attempts reset |
| Json.WrittenReadsBack | crates/gum-core/src/attribution.rs:380-383 | a reader of RFC 8259 texts reads the canonical text of a value back as that value |
| Json.WriteInjective | crates/gum-core/src/attribution.rs:380-383 | so canonical JSON text determines the value |
| Json.EscapeIsShortest | crates/gum-core/src/attribution.rs:380-383 | each character is written as itself, or by its two-character escape if it has one, else by a lower-case six-character one |
| DeterministicAddress.PredictPaymentAddress | crates/gum-core/src/deterministic_address.rs:31-75 | filling the two preimages by offset gives the derivation's address |
| DeterministicAddress.AddressLayout | crates/gum-core/src/deterministic_address.rs:41-75 | the address byte for byte: the preimages of both contract addresses by offset, and the 224 bytes of token, amount, receiver, expiration, recovery, salt and chain in ABI order, numbers big-endian |
| DeterministicAddress.AddressDeterminesTerms | crates/gum-core/src/deterministic_address.rs:31-75 | an address determines factory, token, receiver, amount, expiration, recovery, salt and chain |
| Sorting.SortIgnoresOrder | crates/gum-core/src/attribution.rs:318-352 | a stable sort forgets the input order when only equal elements tie |
| Attribution.AttributionHashInjective | crates/gum-core/src/attribution.rs:380-393 | equal attribution hashes mean equal snapshots, field by field |
| Attribution.AttributionLayout | crates/gum-core/src/attribution.rs:380-387 | the hashed bytes are the domain text and then the canonical text |
| CanonicalForm.SnapshotIsCanonical | crates/gum-core/src/attribution.rs:280-312 | that text reads back as an object of sixteen members in ascending order, with both parties, the verification terms, the attachment and every network under their names |
| CanonicalForm.SnapshotMembers | crates/gum-core/src/attribution.rs:280-312 | and every other term of the request under its own name, absent ones as null |
| Attribution.RecomputeSalt | crates/gum-core/src/attribution.rs:399-412 | appending the pieces gives the salt of the branch the attestation selects |
| Attribution.SaltLayout | crates/gum-core/src/attribution.rs:399-412 | the hashed bytes are the domain text, the nonce, the attribution hash and, when attested, the digest, by offset |
| Attribution.SaltInjective | crates/gum-core/src/attribution.rs:399-412 | the salt determines nonce, hash and attestation digest, and the attested and unattested branches never meet |
| Attribution.NetworkOrderIrrelevant | crates/gum-core/src/attribution.rs:318-352 | networks of distinct chains give one snapshot in whatever order they arrive |
| Attribution.RenderedParsesBack | crates/gum-core/src/attribution.rs:354-358 | the networks a snapshot renders are the networks it reads back |
| PayerAttestation.DigestInjective | crates/gum-core/src/payer_attestation.rs:49-74 | the signing digest determines chain, factory, request, wallet, nonce and expiry |
| PayerAttestation.DigestLayout | crates/gum-core/src/payer_attestation.rs:49-74 | what the wallet signs, byte for byte: the EIP-712 prefix, and the encoded domain and message field by field |
| PayerAttestation.AssembledVerifies | crates/gum-core/src/payer_attestation.rs:297-313 | an assembled attestation is accepted for its own scope exactly when its signature recovers to its wallet, and for no other scope |
| PayerAttestation.VerifiedExactly | crates/gum-core/src/payer_attestation.rs:234-293 | any carried attestation is accepted if and only if every field says what it must for this request, chain and factory and the signature recovers to its wallet |
| Invoice.IssuedMeans | crates/gum-core/src/invoice.rs:213-289 | an issued invoice holds the snapshot's own terms, typed, in canonical order, under the snapshot's hash |
| Invoice.IssuedExactly | crates/gum-core/src/invoice.rs:213-289 | a request is issued if and only if it offers a network and every compared field of the snapshot is the canonical text of its argument |
| Invoice.NetworkBoundExactly | crates/gum-core/src/invoice.rs:340-371 | binding without a wallet succeeds exactly for a request without wallet attestation on a network it offers, with the address its terms derive |
| Invoice.WalletBoundExactly | crates/gum-core/src/invoice.rs:382-427 | binding with an attestation of this request succeeds exactly for a request that asks for one, on a network it offers, with the address that attestation derives |
| Invoice.BoundIsAttested | crates/gum-core/src/invoice.rs:382-427 | and no attestation that does not attest to this request on that network ever binds it |
| Invoice.EditedRowIsCaught | crates/gum-core/src/invoice.rs:437-455 | an edited row still passes the check if and only if no committed term was edited |
| Invoice.BoundRowPassesUntilEdited | crates/gum-core/src/invoice.rs:340-455 | a row as either binding function left it passes the check if and only if no committed term was edited since |
| Proof.SumTransfers | crates/gum-core/src/proof.rs:552-629 | the loop with its running total and its set of seen events computes the tally, error for error |
| Proof.VerifyProof | crates/gum-core/src/proof.rs:335-645 | the procedure returns the specified verdict or the first failing check's error |
| ProofAcceptance.AcceptedExactly | crates/gum-core/src/proof.rs:335-645 | a proof is accepted with a verdict if and only if every part of it is right, field by field: markers, hash, network, wallet attestation, salt, terms, attachment length and digest, signature, payload result, wallet, nonce and fact, and transfers that cover the request |
| ProofBinding.SameAddressSameRequest | crates/gum-core/src/proof.rs:353-443 | two proofs that pass the commitment chain with one payment address have the same snapshot, nonce, network, scope, attested wallet and terms, even under different text codecs |
| ProofBinding.AcceptedProofsAgree | crates/gum-core/src/proof.rs:335-645 | the same, read off what verification returns |
| ProofBinding.AttestationDigestInjective | crates/gum-core/src/proof.rs:323-333 | equal attestation digests mean equal payloads, optional members included |
| CanonicalForm.PayloadIsCanonical | crates/gum-core/src/proof.rs:323-333 | the signed bytes are the domain text and a canonical text whose names ascend, with each fact and fill under its names |
| CanonicalForm.PayloadMembers | crates/gum-core/src/proof.rs:323-333 | every statement of the payload is in it under its own name |
| CanonicalForm.PayloadOptions | crates/gum-core/src/proof.rs:323-333 | the optional statements are in it exactly when there is something to state |
| ProofFunding.TallyIsCredited | crates/gum-core/src/proof.rs:552-629 | the loop succeeds exactly when every transfer passes and the distinct events, each at its first-listed amount, sum below 2^256, and returns that sum |
| ProofFunding.CopiesChangeNothing | crates/gum-core/src/proof.rs:552-629 | listing events again never changes verdict, total or error |
| ProofFunding.AppendedCopiesKeepVerdict | crates/gum-core/src/proof.rs:335-645 | appending copies of listed transfers leaves the whole verification as it was |
| ProofFunding.AcceptedIsFunded | crates/gum-core/src/proof.rs:552-633 | acceptance means the distinct events cover the request, every transfer went to the address, and in wallet scope each is the wallet's or a signed receipt-verified fill |
| ProofAttestation.AcceptedStatesTheTruth | crates/gum-core/src/proof.rs:335-550 | versions, scope, hash, salt, address, signer and attachment flag of an accepted proof are the recomputed ones, and the signer is trusted |
| ProofAttestation.AttestationNotTransplanted | crates/gum-core/src/proof.rs:464-541 | two accepted proofs whose signed payloads have one digest are about the same request, payment, address and wallet |
| ProofAttestation.WalletAttestationNotTransplanted | crates/gum-core/src/proof.rs:389-407 | one wallet attestation accepted in two proofs is the same wallet's, for the same request on the same network |
| ProofAttestation.AttachmentIsCommitted | crates/gum-core/src/proof.rs:445-463 | attachments accepted for one payment address are the same bytes |
| ProofCompleteness.HonestProofVerifies | crates/gum-core/src/proof.rs:335-645 | an invoice issued and bound by the function its add-ons call for, honestly signed and covered by allowed payments, verifies and returns the binding's own salt, address and wallet |
| Sweep.DecodeSweepOutcomes | crates/gum-chain/src/lib.rs:352-451 | accepts a receipt exactly when every relevant log decodes and each address's bag of events is one of the six legal shapes, and reads each outcome off its bag |
| Sweep.Collect | crates/gum-chain/src/lib.rs:352-419 | the map built event by event describes each address's bag, or no continuation is acceptable |
| SweepReadings.DecodedExactly | crates/gum-chain/src/lib.rs:352-451 | in the logs' own fields: a receipt is accepted if and only if every log of the four events decodes and the logs about each address mean an outcome, and an address has an outcome if and only if they mean that one |
| SweepReadings.RefusalIsTrue | crates/gum-chain/src/lib.rs:357-451 | a refusal names a true reason: an event that does not decode, two of one class about the address, or a sweeper report beside what it excludes |
| Sweep.OrderIrrelevant | crates/gum-chain/src/lib.rs:352-451 | verdict and map are the same for every permutation of the logs |
| Sweep.DisjointReceiptsUnite | crates/gum-chain/src/lib.rs:352-451 | joined receipts about disjoint addresses decode if and only if both do, to the union |
| Sweep.ShapeUnique | crates/gum-chain/src/lib.rs:421-451 | a bag of events stands for one outcome only |
| Settlement.PaymentSettlementTx | crates/gum-chain/src/lib.rs:1111-1244 | filter, sort, decode, take the leading transaction and tally compute the search function, errors included |
| Settlement.SettleFirst | crates/gum-chain/src/lib.rs:1198-1244 | the running totals over the leading transaction, refusing a second Settled and a sum of 2^256 |
| Settlement.SearchMeans | crates/gum-chain/src/lib.rs:1140-1244 | over mined logs the answer is the earliest transaction of the whole collection, its only Settled amount and the sum of all its recoveries |
| SettlementReadings.SearchExactly | crates/gum-chain/src/lib.rs:1118-1244 | in the logs' own fields: over the logs of one chain the search returns a result if and only if they say it — a log of the payment lacks something, none counts, the earliest transaction settled twice or overflowed, or it is that transaction with its amounts |
| Settlement.OrderIrrelevant | crates/gum-chain/src/lib.rs:1118-1140 | the provider's order, and anything it returns beside this payment's events, does not matter |
| Settlement.ForeignRecoveryIgnored | crates/gum-chain/src/lib.rs:1141-1197 | inserting a complete recovery of another token anywhere, in any list of logs, changes nothing |
| Settlement.CutRange | crates/gum-signers/src/sweep.rs:146-174 | searching a range is searching its first part and, if that holds nothing, the rest |
| Settlement.CutRangeExactly | crates/gum-chain/src/lib.rs:1148-1168 | without complete logs that holds if and only if it is not the case that the first part finds a settlement while a later log is malformed |
| SettlementLoop.FindSettlement | crates/gum-signers/src/sweep.rs:146-174 | wherever the loop must end, for any end block up to 2^64 - 1, it runs its iterations to the end and answers as one search of the whole range, or reports the provider's refusal; it always answers if single blocks are served |
| SettlementLoop.StateRepeatsExactly | crates/gum-signers/src/sweep.rs:155-172 | an iteration leaves start and chunk as they were if and only if start and end are 2^64 - 1 and nothing was found |
| SettlementLoop.AlwaysEndsExactly | crates/gum-signers/src/sweep.rs:155-173 | the loop ends whatever comes back if and only if its end block is below 2^64 - 1 |
| SettlementLoop.EndsExactly | crates/gum-signers/src/sweep.rs:155-173 | against a faithful provider that serves single blocks it ends if and only if its end block is below 2^64 - 1 or the range holds a settlement or a malformed one |
| SettlementLoop.EndsWithAnswer | crates/gum-signers/src/sweep.rs:146-174 | whenever it ends, at the last block number too, the result is the whole range's |
| Transfers.TokenTransfers | crates/gum-chain/src/lib.rs:1006-1109 | the scan with its header cache equals the scan that reads a header per log, error for error |
| Transfers.TransferLogs | crates/gum-chain/src/lib.rs:1016-1022 | all chunks' answers in order, or the first refusal |
| Transfers.AcceptedIsAsked | crates/gum-chain/src/lib.rs:1048-1109 | for any node, the transfers of an accepted scan are, in order, those the returned logs record, in range, of a configured token and to a watched recipient |
| Transfers.ReadExactly | crates/gum-chain/src/lib.rs:1048-1109 | a log is read as a transfer if and only if it records it field by field, the amount being the sum of its 32 bytes at their powers of 256 |
| Transfers.ScanMultiplicity | crates/gum-chain/src/lib.rs:1006-1109 | a faithful node's scan succeeds and returns each transfer, with its block's true time, as often as the chain holds it times the chunks its recipient is in |
| Transfers.ScanExactlyWhenAskedOnce | crates/gum-chain/src/lib.rs:1006-1109 | a faithful node's scan returns exactly the chain's matching transfers, with true times, if and only if every paid recipient is listed in one chunk |
| Transfers.ScanExactExactly | crates/gum-chain/src/lib.rs:1016-1022 | it is exact on every chain and every faithful node if and only if addresses repeat within chunks of 500 only, or nothing is asked for |
| Transfers.RepeatedAddressOverReports | crates/gum-chain/src/lib.rs:1016-1022 | one payment to an address listed in two chunks comes out more than once |
| Transfers.ChunkedScanIsExact | crates/gum-chain/src/lib.rs:1006-1109 | in particular distinct recipients give exactly the chain's matching transfers |
| Pacer.RpcPacer.Acquire | crates/gum-chain/src/lib.rs:784-793 | hands out the next slot of the schedule and the wait until it |
| Pacer.AtLeastIntervalApart | crates/gum-chain/src/lib.rs:764-794 | any two slots are at least the interval apart and none precedes its arrival |
| Pacer.WindowBound | crates/gum-chain/src/lib.rs:764-794 | a half-open window of width W holds at most W over the interval slots, rounded up |
| Pacer.SlotsAreEarliest | crates/gum-chain/src/lib.rs:784-793 | no schedule serving the arrivals in order with this spacing gives any call an earlier slot |
| Pacer.RateHonouredExactly | crates/gum-chain/src/lib.rs:771-783 | no second of any run exceeds the configured rate if and only if the rate divides a second or is at least 1000 |
| Pacer.AtMostOneOver | crates/gum-chain/src/lib.rs:771-783 | a second never holds more than one call above the configured rate |
| Pacer.DisabledNeverWaits | crates/gum-chain/src/lib.rs:770-783 | rate zero makes no call wait |
| Redaction.RedactUrls | crates/gum-chain/src/lib.rs:188-202 | the loop terminates and computes the redaction |
| Redaction.UrlStart | crates/gum-chain/src/lib.rs:204-209 | the first place any of the four schemes occurs |
| Redaction.NothingLeaks | crates/gum-chain/src/lib.rs:188-209 | the output holds none of the four scheme strings anywhere, not even across a splice |
| Redaction.UnchangedExactlyWhenClean | crates/gum-chain/src/lib.rs:188-209 | a message is unchanged if and only if it holds no scheme string |
| Redaction.Idempotent | crates/gum-chain/src/lib.rs:188-209 | a second pass changes nothing |
| Redaction.OnlyUrlsReplaced | crates/gum-chain/src/lib.rs:188-209 | the message is texts and URLs in turn; the output is the same texts with each URL, up to its terminator, replaced |
| Redaction.EveryCutIsRedacted | crates/gum-chain/src/lib.rs:188-209 | however a message is cut into texts without a scheme and URLs up to white space, a closing parenthesis or a quote, the output is the texts with a placeholder for each URL |
| SubmissionSlot.StepKeeps | benchmarks/gum-load/src/wallets.ts:74-91 | every stretch of code between awaits keeps the slot invariant |
| SubmissionSlot.OneInside | benchmarks/gum-load/src/wallets.ts:74-91 | in every interleaving, throwing calls included, at most one call per chain and wallet is inside |
| SubmissionSlot.ArrivalOrder | benchmarks/gum-load/src/wallets.ts:74-91 | calls of a key enter in arrival order, once each, and only after all earlier ones ended |
| SubmissionSlot.PendingExactly | benchmarks/gum-load/src/wallets.ts:83-90 | the map has no entry for a key if and only if every gate of the key is open |
| SubmissionSlot.NoncesConsecutive | benchmarks/gum-load/src/wallets.ts:57-67 | the nonces leased for a key are consecutive and never repeat |
| SubmissionNonces.NoncesCountUpFromChain | benchmarks/gum-load/src/wallets.ts:57-67 | in every run the chain is asked for a key's count at most once, and the i-th nonce leased for the key is that count plus i |
| SubmissionNonces.OwnNonce | benchmarks/gum-load/src/wallets.ts:81-83 | a working call works with the nonce of its own lease, and has no other |
| SubmissionNonces.LeasedInOrder | benchmarks/gum-load/src/wallets.ts:57-67 | every working call has its lease, and a key's leases went to its calls in arrival order |
| SubmissionSlot.NoCallIsStuck | benchmarks/gum-load/src/wallets.ts:74-91 | from every reachable state every call can still come to its end |
| SubmissionSlot.WalletPool.Begin | benchmarks/gum-load/src/wallets.ts:74-80 | the code up to the first await is the arrival step |
| SubmissionSlot.WalletPool.Proceed | benchmarks/gum-load/src/wallets.ts:57-67 | passing the gate leases an owned nonce or starts reading one |
| SubmissionSlot.WalletPool.Finish | benchmarks/gum-load/src/wallets.ts:84-90 | the finally block is the release step, whether the count or the work returned or threw |
| Guards.GuardBox.Take | benchmarks/gum-load/src/guards.ts:70-96 | reserves or refuses by the first failing check, and stops admission exactly on a limit breach |
| Guards.EngineBox.DispatchNext | benchmarks/gum-load/src/run.ts:399-429 | one turn of the dispatch loop is the admission step |
| Guards.EngineBox.ReleaseFinished | benchmarks/gum-load/src/run.ts:615-628 | gives back exactly the finished operations' reservations, keeps the books sound and touches nothing else |
| Guards.MoneyConserved | benchmarks/gum-load/src/guards.ts:62-103 | over every run and any schedules, outstanding is the sum of unreleased reservations and of those pushed out of the map, gross the sum of all admitted, gross is outstanding plus returned, and no limit is exceeded |
| Guards.MapAgreesExactly | benchmarks/gum-load/src/run.ts:429-429 | counts and outstanding agree with the reservation map if and only if nothing was pushed out of it |
| Guards.ReleasedExactly | benchmarks/gum-load/src/guards.ts:98-101 | a release subtracts exactly its reservation: neither clamp fires in any run |
| GuardAdmission.AdmittedExactly | benchmarks/gum-load/src/guards.ts:62-103 | in every run an operation is admitted if and only if admission is open, its amount is approved and no limit would be passed on the sums of what was admitted and not returned; otherwise the dispatch ends, and admission stops exactly if a limit stood in the way |
| GuardAdmission.PausedAdmitsNothing | benchmarks/gum-load/src/guards.ts:39-51 | from a pause until a resume nothing is admitted |
| GuardNames.NeverLosesExactly | benchmarks/gum-load/src/run.ts:404-444 | no run of given schedules, under any limits, pushes a reservation out of the map if and only if the numbers they hand out never repeat |
| GuardNames.DistinctNumbersLoseNothing | benchmarks/gum-load/src/run.ts:404-444 | schedules whose numbers never repeat lose nothing and give each operation its own name |
| GuardNames.NeverReservedAgain | benchmarks/gum-load/src/run.ts:615-628 | then a finished operation is never reserved again |
| GuardNames.CohortsSafeExactly | benchmarks/gum-load/src/scheduler.ts:17-19 | cohorts are safe if and only if no two, shifted by the entries before them, overlap |
| GuardNames.CommonStartSafe | benchmarks/gum-load/src/run.ts:456-462 | cohorts with one common start, as the engine's at zero, are safe |
| GuardNames.MixedStartsUnsafe | benchmarks/gum-load/src/scheduler.ts:17-19 | two entries from one and then two from zero reuse a name and can lose a reservation |
| Guards.StopIsFinalExactly | benchmarks/gum-load/src/guards.ts:39-67 | after a stop no run ever admits again if and only if it gave a reason, or admission was already stopped or used up |
| JsonScan.TornObject | benchmarks/gum-load/src/journal.ts:114-130 | no proper beginning of an object's text has its brackets and quotes matched |
| Journal.ReadRecords | benchmarks/gum-load/src/journal.ts:114-130 | the loop over lines computes the reading function, lenient or strict |
| JournalLines.NothingSkipped | benchmarks/gum-load/src/journal.ts:114-130 | of any file, the records read are its non-blank lines in order, all of them or all but a torn last one when that is allowed; an error numbers the first line that is no JSON |
| JournalLines.LinesJoin | benchmarks/gum-load/src/journal.ts:117-117 | splitting into lines loses nothing and leaves no break in a line |
| Journal.ReadWhole | benchmarks/gum-load/src/journal.ts:59-67 | an uncut journal reads back as the appended records |
| Journal.RecoveryIsPrefix | benchmarks/gum-load/src/journal.ts:114-130 | a journal cut at any byte, inside a character too, recovers leniently to the records before the cut, with all that lie wholly before it; strict reading gives the same or names the torn record |
| Utf8.RoundTrip | benchmarks/gum-load/src/journal.ts:115-115 | decoding undoes encoding |
| Utf8.CutText | benchmarks/gum-load/src/journal.ts:115-115 | a text cut at any byte decodes to its whole characters before the cut and one replacement for a torn one |
| WriteAhead.JournalFile.AppendEvent | benchmarks/gum-load/src/journal.ts:59-67 | appends the bytes of one numbered line and makes the file durable for write-ahead types |
| WriteAhead.Payments.JournalSigned | benchmarks/gum-load/src/lifecycle.ts:243-243 | journals the signed transaction before it may be broadcast |
| WriteAhead.CrashSafe | benchmarks/gum-load/src/lifecycle.ts:226-247 | for concurrent payments and a crash at any byte past the last fsync, lenient recovery returns a beginning of the appended records, each with its number from one, its epoch, times, type and payload under their names, that holds the signed record of every broadcast transaction and every intent, webhook capture, funding record and run start appended so far |
| WriteAhead.FlushedIsSafe | benchmarks/gum-load/src/journal.ts:87-91 | a crash after a flush loses nothing appended before it |
| Amounts.ParsesMillionths | benchmarks/gum-load/src/model.ts:435-440 | accepts exactly trimmed plain decimals and returns the millionfold, rounded down |
| Amounts.TrimStrips | benchmarks/gum-load/src/model.ts:436-436 | trimming removes blanks only, and all of them at both ends |
| Amounts.ReadsBack | benchmarks/gum-load/src/metrics.ts:42-50 | a printed unit count of any number of decimals reads back in millionths, rounded down |
| Amounts.FmtUnitsRoundTrip | benchmarks/gum-load/src/metrics.ts:42-50 | at six decimals printing then parsing is the identity on counts, and a negative amount is refused |
| Amounts.UnsignedShape | benchmarks/gum-load/src/metrics.ts:42-50 | a printed count is the canonical text of its value: no leading zero, and no place beyond what the value or the asked minimum needs |
| Amounts.FormatBaseUnits | web/lib/format.ts:18-33 | the trimming loop computes the formatted text |
| Amounts.GroupDigitsAddsCommas | web/lib/format.ts:9-15 | grouping only adds commas |
| Amounts.GroupsAreThrees | web/lib/format.ts:13-13 | the pattern cuts digits into threes from the right |
| Amounts.FormattedRoundTrip | web/lib/format.ts:18-33 | the displayed amount without its commas reads back as the exact unit count |
| Amounts.ServerParses | crates/gum-core/src/amount.rs:27-45 | accepts exactly the plain decimals of few enough places that fit, exactly, and says which failed |
| Amounts.ParsersAgree | crates/gum-core/src/amount.rs:27-45 | every text the server accepts at six decimals is the same amount to the harness parser |

## Left out

- SQL text, the database driver, the async runtime and the RPC library: the model has rows, transactions with row locks, and a node as a function of the request.
- The order of rows with equal `published_at` and the notification the fan-out trigger sends: neither decides which effects commit.
- The delay a retry waits (backoff and jitter) is a parameter of the step; its value is not modelled.
- How a handler reacts to a publish conflict: any reaction is some sequence of the modelled steps.
- UTF-8 outside the journal: texts are sequences of characters, hashed one symbol per character.
- Text parsers of addresses, words and integers, and signature recovery: parameters of which only parsing-after-printing is asked, where it is needed; `Codec.SomeCodecRoundTrips` shows the demand can be met.
- Real collision resistance: hashing is free, so the theorems say that a collision in a preimage layout cannot come from the layouts.
- The `types` member of typed data: the verifier does not look at it.
- Invoice statuses, e-mail and reference validation, identifiers, data-transfer projections, currency tables and the web interface: true by reading one function.
- Error messages' wording, and which of several malformed logs a sweep error names: errors are told apart by kind.
- SettlementLoop.FindSettlement: where the loop does not end it returns nothing, so its contract is for the calls that `SettlementLoop.EndsExactly` shows to end.
- SettlementReadings.SearchExactly: logs whose transaction hash and place in the chain contradict each other are outside it; `Settlement.Search` sorts and groups them as the code does.
- Proof.VerifyProof: which of several failing checks names the error is fixed by the order of the specification, not stated apart from it.
- Pacer.RpcPacer.Acquire: slots are instants a call may start; how late the timer wakes it is not modelled.
- Redaction: character positions stand for byte positions.
- Amounts.ServerParses: the library's `parse_units` is not part of this model; it is taken to be exact and to refuse 2^256 and above.
- Amounts.FmtUnitsRoundTrip: the path that takes a floating-point number and rounds it is not modelled.
- SubmissionSlot: `reconcileNonce` runs outside the slot and may move the sequence; no nonce claim holds across it.
- Guards: limits and counts are integers; the age check that pauses or stops is any pause or stop step; reservations are keyed by operation number, which `Guards.OpNameInjective` shows is the same as by name; a soak's truncated schedule is a shorter one of the same kind.
- WriteAhead.CrashSafe: the JSON reader is a parameter that must read back the appended records and refuse unmatched brackets (`Journal.SomeReader` shows one exists); numbers are natural; resuming after a torn tail and the durability of private blobs are not modelled.
- The benchmark reducer, its phases and its reports.
- The indexer's cursor, the signer executor, the server ledger and the Solidity contracts.
