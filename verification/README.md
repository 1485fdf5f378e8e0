# Otto Control in Dafny

A model of the transactional core of Otto Control, the vendor-side control plane for licenses,
credits and audit, with proofs about it. `dafny verify dfyconfig.toml` checks everything.

Each PostgreSQL transaction is one atomic step: row and advisory locks serialise them, and a thrown
conflict or a violated constraint is a rollback that leaves the tables as they were. Where the source
changes tables step by step, a class does the same on sequence and map fields, and its methods are
proved to make exactly the atomic step; the theorems are then about the steps and their runs. The modules
named `...Answers`, `...Stories` and `...Figures` say when exactly each operation gives each of its answers,
by the rows of the tables and not by the order of the checks.

| files | what they model |
|---|---|
| `Ledger`, `LedgerInvariant`, `LedgerTheorems`, `LedgerReplay`, `LedgerAnswers`, `Statement`, `StatementFigures`, `LateReceipts`, `Sums`, `CreditStore` | the credit ledger: top-up, freeze, capture, release, consume, signed-receipt debit, refund, statement |
| `Doubles`, `Pricing` | the charge computed on IEEE doubles |
| `Billing`, `BillingAnswers` | metered submissions, priced at the rates in force when they arrive |
| `ExpirySweep` | the automatic release of expired holds, with other requests interleaved |
| `CanonicalJson`, `JsonTexts`, `Records`, `HashedRecords` | canonical JSON text, its reader, and object literals |
| `AuditChain` | the hash-chained audit log and its batched verifier |
| `Envelope`, `EnvelopeAnswers`, `ObjectKeys`, `Witness`, `WitnessAnswers`, `Recovery`, `WitnessStore` | the independent audit witness: what it accepts, its two tables, the write-once store, recovery |
| `LiveRecovery`, `Retention`, `CheckedRecovery` | losing the tables while the service goes on; the settings objects are kept under; both together |
| `Forks` | when a recovery can put a second head at a sequence |
| `Anchor`, `Rewrites` | from the chain to its witness, and what a witnessed head proves |
| `Outbox`, `OutboxStories`, `OutboxWorker` | the leased outbox that alerts, anchors and evidence share, and the poll loop |
| `Seats`, `Licenses`, `LicenseAnswers` | seat overage, optimistic license changes |
| `Lease`, `LeaseRuns`, `LeaseAnswers`, `LeaseService` | one lease, interleaved requests for leases, the endpoint |
| `Approvals`, `ApprovalAnswers`, `ApprovalDigest` | dual-control approvals and the digest that binds a request |
| `Base32` | the TOTP secret codec |
| `Options`, `Powers` | an option type; powers of two |

SHA-256 is an arbitrary function of text, of which at most the 64 hexadecimal digits are used, and
Ed25519 verification an arbitrary predicate. Nothing is assumed about collisions: where a theorem
needs a hash to be injective it instead hands over two different texts with the same hash.

## What the code does not promise

Where a property is false of the code, the model keeps the code and states exactly when it holds.

- The sweep of expired holds writes under the key `expiry:<hold>`, in the key space clients use. A
  client that spends that key first leaves the hold frozen and makes the sweep throw
  (`ExpirySweep.SweepReleasesIff`, `ExpirySweep.SweepCanBeBlocked`), although README.md:72 of the
  repository promises automatic release.
- Revoking a license takes no new revision. A change that read the license before writes its
  unrevoked copy back (`Licenses.RevocationUndoneIff`, `Licenses.RenewalUndoesRevocation`), although
  README.md:965 of the repository calls revoked licenses read-only.
- A restore looks for conflicts among receipts with evidence only, so a receipt accepted without
  evidence can get a second head at its sequence, from a source that signed two: exactly when a genuine
  receipt is unknown to the tables while another head stands at its place (`Forks.NoRestoreForksIff`,
  `Forks.NoRecoveryForksIff`, `Forks.RecoveryCanFork`).
- A recovery stops at an object whose place, id, anchor or fingerprint a receipt accepted since the loss
  has taken, as when a source submits the same envelope again first, and at one written before the
  retention setting was raised (`CheckedRecovery.CheckedRecoveryCompletesIff`,
  `LiveRecovery.ResubmissionBlocksRecovery`, `Retention.LongerRetentionRefuses`).
- Canonical JSON sorts by locale comparison, which ties some different keys. Two key orders of a value
  have one text exactly when they agree on the order of such keys (`CanonicalJson.SameTextIff`). Audit
  events have identifiers for keys and are safe (`AuditChain.RereadChainVerifies`); an approval request
  may carry keys its caller chose, and then can miss its approval
  (`ApprovalDigest.ReorderedDigestIff`, `ApprovalDigest.TiedRequestCanMiss`).
- A license without grace can be outlasted by a lease: a request reads its clock before the expiry and is
  answered after a resize that recorded an overage past the expiry (`LeaseRuns.AnswerWithinGraceIff`,
  `LeaseRuns.ResizeExceedsGrace`). With a day of grace, or while the terms stay as they are, no lease
  passes license expiry plus grace (`LeaseRuns.EveryLeaseRuns`, `LeaseRuns.UnchangedTermsHold`).
- A statement whose period is over can still change: a receipt is dated by its claim
  (`LateReceipts.StatementChangesIff`).
- A spent nonce is let in again when a request with a later clock reading prunes it first
  (`LeaseRuns.NonceReadmittedIff`, `LeaseRuns.EarlierReadingReadmitted`).
- An executed or rejected approval can later be labelled expired (`Approvals.RelabelledIff`,
  `Approvals.ExecutedEndsExpired`, `Approvals.RejectedEndsExpired`), so approvals are stated over
  consumptions.
- An approval stores the digest of the listed properties of a request, and consuming it takes the
  digest of all of them: a request with any other property is never accepted under its own approval
  (`ApprovalDigest.OwnRequestAcceptedIff`).
- A resubmitted usage report, hold or capture is compared by the price computed anew. After a rate
  change it is answered with its row exactly when its price is still the amount that row took, and
  is refused otherwise (`Billing.ResubmissionAtNewRates`, `Billing.RetryRefusedAfterRateChange`).

## Model

| member | source | states |
|---|---|---|
| LedgerTheorems.EveryAccountBalances | src/storage/postgres-store.ts:3037-3942 | After any run of transactions from an empty ledger, every account has available + frozen = topped up - consumed + refunded, equals the sums over its transaction rows, never goes negative, never refunds more than it consumed, and holds no more than was topped up, itself at most 9e15 |
| LedgerTheorems.AccountEquation | src/storage/postgres-store.ts:3037-3942 | The same equation read off the ledger invariant for one account |
| LedgerTheorems.HoldsHaveOneLife | src/storage/postgres-store.ts:3115-3439 | Every hold has exactly one freeze row; it is active exactly when it has no closing capture or release row and otherwise has exactly one; an active hold is covered by the frozen balance, which is the sum of the active holds |
| LedgerTheorems.FrozenCoversHolds | src/storage/postgres-store.ts:3240-3439 | An active hold is never larger than the frozen balance of its account, so closing it cannot drive the balance negative |
| LedgerTheorems.LimitsTripOnlyOnTotals | src/storage/migrations.ts:1146-1163 | In any reachable ledger a limit CHECK stops an operation exactly when a top-up would pass the limit on credits topped up, or a charge the limit on credits consumed; holds, releases and refunds never trip one |
| LedgerInvariant.StepKeepsInv | src/storage/postgres-store.ts:3037-3942 | Each of the eight transactions keeps books, running balances, unique rows, refund caps, hold lifecycles, frozen sums and receipt sequences |
| LedgerInvariant.RunKeepsInv | src/storage/postgres-store.ts:3037-3942 | Whole runs keep the ledger invariant |
| LedgerInvariant.RefundedWithinConsumed | src/storage/postgres-store.ts:3891-3899 | Per-charge refund caps add up to the account: refunded never exceeds consumed |
| LedgerInvariant.KeepRefunds | src/storage/postgres-store.ts:3841-3942 | A committed refund keeps the refunds of every charge within what that charge billed |
| LedgerInvariant.KeepFrozen | src/storage/postgres-store.ts:3115-3439 | Freezing, capturing and releasing move the frozen balance exactly as the active holds move |
| LedgerInvariant.KeepHolds | src/storage/postgres-store.ts:3115-3439 | Every transaction keeps one freeze and at most one closing row per hold, in step with its status |
| LedgerInvariant.KeepReceipts | src/storage/postgres-store.ts:3647-3798 | Every transaction keeps receipts contiguous per deployment and linked to their own consume rows |
| LedgerInvariant.KeepRunning | src/storage/postgres-store.ts:3037-3113 | available_after and frozen_after of each new row are the running sums of the account deltas |
| LedgerInvariant.CommittedRow | src/storage/postgres-store.ts:3037-3942 | Whatever operation committed, its row has the signs and fields its kind promises and is the row the balance update posted |
| LedgerReplay.ResubmissionReplays | src/storage/postgres-store.ts:3063-3077 | A committed mutation resubmitted after any further run of transactions answers with the original row and leaves the ledger unchanged, for all seven kinds |
| LedgerReplay.SpentKeyChangesNothing | src/storage/postgres-store.ts:3469-3484 | A key spent in an account is spent for every kind of operation: any later use of it is a replay of a row that records the same request, or a refusal, and either way no row, hold or balance changes |
| LedgerReplay.OneRowPerKey | src/storage/migrations.ts:1267-1268 | Two rows of one customer, organization and idempotency key are the same row |
| LedgerReplay.ReceiptsContiguous | src/storage/postgres-store.ts:3647-3798 | The committed execution receipts of a deployment carry exactly the sequences 1..n in order, with n its stored last sequence |
| LedgerReplay.ReceiptsBillOnce | src/storage/migrations.ts:1066-1094 | Receipts of one deployment have distinct task ids, and receipts and their consume rows are matched one to one |
| LedgerReplay.RunAppends | src/storage/postgres-store.ts:3037-3942 | Transactions and receipts are only ever appended |
| LedgerReplay.CommittedRecords | src/storage/postgres-store.ts:3037-3942 | A committed row records exactly the parameters a later replay compares |
| LedgerAnswers.TopUpAnswers | src/storage/postgres-store.ts:3037-3113 | A top-up commits exactly when the account can be opened, its key is unspent there, its row id unused and the credits ever topped up stay within the limit; every other answer has its exact condition too, and the row written is given column by column |
| LedgerAnswers.HoldAnswers | src/storage/postgres-store.ts:3115-3238 | A hold commits exactly when the account can be opened and has the credits, its key is unspent there and both its ids are unused; and so for every other answer and the row written |
| LedgerAnswers.CaptureAnswers | src/storage/postgres-store.ts:3240-3345 | A capture commits exactly when it names an active hold of its customer that has not expired, its key and row id are unused, the charge is covered by the hold and what is available, and the credits ever consumed stay within the limit; and so for every other answer and the row written |
| LedgerAnswers.ReleaseAnswers | src/storage/postgres-store.ts:3347-3439 | A release commits exactly when it names an active hold of its customer and its key and row id are unused: no expiry and no limit stands in its way |
| LedgerAnswers.ConsumeAnswers | src/storage/postgres-store.ts:3441-3525 | A direct debit commits exactly when the account has the credits, its key and row id are unused and the credits ever consumed stay within the limit; and so for every other answer |
| LedgerAnswers.ReceiptAnswers | src/storage/postgres-store.ts:3647-3798 | A signed receipt is billed exactly when its id is new, its key is active, it is the next in sequence of its deployment, its task has not been billed, the account has the credits, its row can be written and the limit holds; and so for every other answer |
| LedgerAnswers.ReceiptReplaysRow | src/storage/postgres-store.ts:3672-3705 | A replayed receipt is answered with the row that billed it |
| LedgerAnswers.RefundAnswers | src/storage/postgres-store.ts:3841-3942 | A refund commits exactly when it names a charge of its customer, its key and row id are unused and all refunds of the charge stay within what it billed; and so for every other answer |
| LedgerAnswers.NoHoldNotFound | src/storage/postgres-store.ts:3246-3268 | Captures and releases are answered as not found exactly when the customer has no such hold |
| LedgerAnswers.NoChargeNotFound | src/storage/postgres-store.ts:3847-3872 | Refunds are answered as not found exactly when the customer has no such charge |
| LedgerAnswers.StepLeaves | src/storage/postgres-store.ts:3037-3942 | What an operation leaves behind: nothing at all unless it commits; else its row, its account, one more hold or one with its new status, and one more receipt |
| LedgerAnswers.EveryCaptureInTime | src/storage/postgres-store.ts:3293-3295 | In every reachable ledger no capture row is dated at or after the expiry of its hold |
| Billing.ResubmissionAtNewRates | src/modules/billing/service.ts:348-460 | A usage report, capture, hold or signed receipt that committed, sent again after any further run at the rates then in force: it is answered with its row exactly when it still prices to the amount that row took (for a signed receipt: when it still has a price), and is refused otherwise; in every case no table changes |
| Billing.RetryRefusedAfterRateChange | src/modules/billing/service.ts:430-460 | A run in which the rate doubles between a usage report and its retry: the retry is refused, and at the old rate it is answered with its row |
| BillingAnswers.QuoteIff | src/modules/billing/service.ts:584-592 | A submission is priced exactly when its module has a rate for the customer, its units are from 1 to 9e12 and the charge, one price for every started unit, is at most 9e15; and then at that charge |
| BillingAnswers.SubmitIs | src/modules/billing/service.ts:348-460 | A submission without a price is turned away and changes nothing |
| BillingAnswers.SubmissionWrites | src/modules/billing/service.ts:348-460 | What a committed submission writes: one row with the id and time drawn for it, under its own key, for its price and module; and for a hold, an active hold with the id and the deadline drawn for it |
| BillingAnswers.OverdueIff | src/modules/billing/service.ts:594-602 | The sweep is for exactly the active holds of its customer that a capture would find expired |
| BillingAnswers.SweptEndsExpired | src/modules/billing/service.ts:602-611 | A hold the sweep releases ends as expired, not as released, under the key expiry:<hold> |
| Statement.StatementsCompose | src/storage/postgres-store.ts:3977-4052 | The closing balance of a period is the opening balance of the next, over exact integers |
| Statement.StatementBalances | src/storage/postgres-store.ts:3977-4052 | closing = opening + topped up - consumed + refunded |
| Statement.LinesMatchTotals | src/storage/postgres-store.ts:4012-4034 | The net credits of the statement lines sum to consumed - refunded: grouping loses and doubles no row |
| Statement.LinesAddUp | src/storage/postgres-store.ts:4012-4034 | For consumption, refunds and counts alike, the lines add up to the charges and refunds of the period |
| Statement.StatementMatchesAccounts | src/storage/postgres-store.ts:3977-4052 | A statement reaching past the last row closes at the sum of available + frozen over the customer accounts, and one starting before the first row opens at zero |
| Statement.PeriodsAdd | src/storage/postgres-store.ts:3995-4011 | Totals before an instant split at any earlier instant |
| Statement.StatementExact | src/storage/postgres-store.ts:3995-4052 | As long as what a customer topped up and had refunded, and what it consumed, each total at most 2^53, every figure of every statement is exact as a number: converting the columns and adding or subtracting them rounds nothing |
| StatementFigures.FiguresAreSums | src/storage/postgres-store.ts:3977-4034 | There is a statement exactly for a customer with an account, and each of its figures is the plain sum of what each row contributes, written out by kind and date |
| StatementFigures.LinesAreSums | src/storage/postgres-store.ts:4012-4034 | There is a line exactly for each organization and module with a charge or refund in the period, and it carries their sums, the difference and their number |
| LateReceipts.StatementChangesIff | src/storage/postgres-store.ts:3977-4052 | A statement read once its period is over, with the clock past its end, later reads differently exactly when a receipt dated before that end has been accepted since; and then it closes lower |
| LateReceipts.RowChangesStatementIff | src/storage/postgres-store.ts:3977-4052 | One more row changes a statement exactly when it is of the customer, dated before the end of the period, and not a freeze or release |
| LateReceipts.CommittedTime | src/storage/postgres-store.ts:3750-3763 | A row is dated by the clock of its transaction, and the row of a receipt by the claim |
| Sums.Partition | src/storage/postgres-store.ts:4012-4034 | Sums over the groups of a partition add up to the sum over the whole |
| CreditStore.Store.TopUpCredits | src/storage/postgres-store.ts:3037-3113 | The step-by-step transaction has exactly the answer and the tables of the atomic step, and rolls back on every refusal |
| CreditStore.Store.CreateCreditHold | src/storage/postgres-store.ts:3115-3224 | As above, with the replay looked up in the holds table and key clashes left to the unique index |
| CreditStore.Store.CaptureCreditHold | src/storage/postgres-store.ts:3240-3345 | As above, with the overdraft test made on rounded doubles |
| CreditStore.Store.ReleaseCreditHold | src/storage/postgres-store.ts:3347-3439 | As above |
| CreditStore.Store.ConsumeCredits | src/storage/postgres-store.ts:3441-3525 | As above |
| CreditStore.Store.IngestExecutionReceipt | src/storage/postgres-store.ts:3647-3798 | As above, with the receipt row and the deployment sequence written in the same transaction |
| CreditStore.Store.RefundCredits | src/storage/postgres-store.ts:3841-3942 | As above, with the refund cap compared on rounded doubles |
| CreditStore.Store.Execute | src/storage/postgres-store.ts:3037-3942 | Any operation on the tables is one step of the ledger model |
| CreditStore.Store.WriteRow | src/storage/postgres-store.ts:3078-3106 | Balance update and row insert commit together or not at all, CHECK first, UNIQUE second |
| CreditStore.RefundedAmounts | src/storage/postgres-store.ts:3876-3899 | The refunds of a charge never pass what it billed, itself at most 9e15, so the rounded comparison of the refund cap is within its exact range |
| Doubles.RoundIsNearest | src/modules/billing/service.ts:587 | The rounding of a number is itself a representable number, and no representable number is nearer (section 4.3.1 of IEEE 754-2019) |
| Doubles.RoundError | src/modules/billing/service.ts:587 | The relative rounding error is at most 2^-53 |
| Doubles.RoundDouble | src/modules/billing/service.ts:587 | A representable number rounds to itself |
| Doubles.RoundAgainst | src/modules/billing/service.ts:587 | Rounding never carries a number across a representable one |
| Doubles.SumComparisonExact | src/storage/postgres-store.ts:3891-3899 | A sum of two amounts compared in doubles against a third gives the exact answer even when the sum passes 2^53 |
| Pricing.CeilOfQuotientExact | src/modules/billing/service.ts:587 | Math.ceil of the double quotient is exact integer ceiling division for all operands below 2^53 |
| Pricing.PriceExact | src/modules/billing/service.ts:584-592 | The price is the exact product when that is at most 9e15 and is refused exactly when it is not |
| Pricing.PriceIsCredits | src/modules/billing/service.ts:584-592 | A price is an amount the ledger accepts and the least multiple of the rate that covers the units |
| Pricing.RoundedQuotientAboveFloor | src/modules/billing/service.ts:587 | An inexact quotient never rounds onto the integer below it |
| Pricing.GuardExact | src/modules/billing/service.ts:588-590 | The safe-integer guard sees through the rounding of the product |
| ExpirySweep.ReleaseExpiredHolds | src/modules/billing/service.ts:594-616 | With other requests committing between its statements, a sweep that ends without an error leaves every listed hold closed, and every overdue hold of the customer when fewer than a hundred were listed; and it ends with an error only when the release of a listed, active hold was refused |
| ExpirySweep.ReleaseCloses | src/modules/billing/service.ts:602-615 | One release of the sweep, an earlier one or a client that got there first: in each case the hold is closed |
| ExpirySweep.SweepReleasesIff | src/modules/billing/service.ts:602-611 | The sweep can release an active hold exactly when no row of the account of any kind was committed under the key expiry:<hold> |
| ExpirySweep.SweepCanBeBlocked | src/modules/billing/service.ts:602-615 | A run in which a usage report spends that key: the overdue hold stays active and its release is refused each time |
| ExpirySweep.HoldsOnlyClose | src/storage/postgres-store.ts:3240-3439 | A hold keeps its place and terms, and is never reopened |
| AuditChain.AuditStore.Verify | src/modules/audit/service.ts:138-192 | With any batch size and any appends between the queries, the receipt is the verdict on the chain as it stood when the verifier started, with issuer, time and count of older events; rows it read are untouched |
| AuditChain.VerdictIsUnique | src/modules/audit/service.ts:138-178 | A chain has one verdict, issuer, time and older events apart; the position it names is the least failing one, or lastSequence + 1 when only the head differs |
| AuditChain.Listed | src/storage/postgres-store.ts:4255-4267 | A batch is in ascending order, leaves no row out up to its last, and is empty only when there is no row |
| AuditChain.AuditStore.AppendChainedAuditEvent | src/storage/postgres-store.ts:930-979 | The append writes the next link and the state row, or nothing when the sequence is taken |
| AuditChain.AppendKeepsValid | src/storage/postgres-store.ts:930-979 | Appending to a valid chain leaves it valid |
| AuditChain.AppendsAreRecorded | src/storage/postgres-store.ts:930-979 | A chain written only by appends is valid and holds each appended event at its position |
| AuditChain.AppendedKeepsRows | src/storage/postgres-store.ts:930-979 | No number of appends touches a row at or below the snapshot they started from |
| AuditChain.CheckLink | src/modules/audit/service.ts:156-173 | The loop test on one event is the link condition of the snapshot |
| AuditChain.SameTextSameEvent | src/audit-chain.ts:18-30 | The hashed text determines sequence, predecessor and content of an event |
| HashedRecords.EventIsHashed | src/audit-chain.ts:18-30 | What is under the hash of an event: version 1, its sequence, the hash of its predecessor and its own content, each under its own name and nothing else |
| AuditChain.SharedHashSharedPast | src/audit-chain.ts:18-30 | Two intact histories whose n-th events carry one hash agree on their first n events, or exhibit two texts with one hash |
| AuditChain.ReceiptPinsHistory | src/modules/audit/service.ts:138-178 | Two tables that verify against one (lastSequence, headHash) hold the same history, or exhibit a collision |
| AuditChain.LongerHistoryExtends | src/modules/audit/service.ts:138-178 | A longer verifying history whose n-th event carries an earlier receipt head extends the history of that receipt, or exhibits a collision |
| Anchor.AnchorAcceptedIff | src/modules/audit-witness/service.ts:120-186 | End to end: the witness accepts the anchor made from a verification, in whatever key order it arrives, exactly when the chain verified was valid, and then with that chain sequence and head |
| Anchor.EnqueueAnchor | src/modules/audit-anchor/service.ts:204-235 | The poll makes an anchor exactly when the chain as it stood verifies, whatever is appended meanwhile |
| Rewrites.WitnessCatchesRewrites | src/storage/postgres-store.ts:4443-4550 | Over every run of submissions, storage work, losses and recoveries: once all witnessed heads of a source are those of one history, no other valid history up to a witnessed sequence is accepted; what is not refused is that history event by event, or two texts share a hash |
| Rewrites.AcceptedIsWitnessed | src/storage/postgres-store.ts:4455-4482 | A submission at or below a witnessed sequence that is not refused has the sequence and head of a witnessed receipt |
| Rewrites.FingerprintPinsHead | src/modules/audit-anchor/service.ts:215-219 | One fingerprint comes from one issuer sequence and head, or exhibits a collision |
| AuditChain.StoredDetailKeepsHash | src/storage/postgres-store.ts:939-962 | A detail without tied keys keeps the hash of its event through storage, whatever order the column uses |
| AuditChain.StoredDetailKeepsTextIff | src/storage/postgres-store.ts:939-962 | An event whose detail went through a JSONB column, which orders keys by the value alone, is hashed over the same text exactly when the tied keys of the detail come in the order the column gives them |
| AuditChain.RereadChainVerifies | src/modules/audit/service.ts:138-178 | A valid chain of events as the service writes them, with identifiers for keys at every depth, still verifies after every detail went through storage, for any comparison that tells ASCII identifiers apart |
| AuditChain.RereadChainVerifiesIff | src/modules/audit/service.ts:138-178 | For any details: a valid chain read back from storage verifies exactly when every detail has its tied keys in the order the column gives them, or two texts share a hash |
| AuditChain.StoredAppendsVerify | src/storage/postgres-store.ts:930-979 | A chain written only by appends of such events verifies as the table gives it back |
| CanonicalJson.SameTextSameValue | src/crypto/signed-envelope.ts:11-27 | Equal canonical texts come only from the same JSON value, whatever the key order used |
| CanonicalJson.OrderIndependentIff | src/crypto/signed-envelope.ts:11-27 | The comparison ties no two different keys exactly when every value has one text whatever its key order |
| CanonicalJson.OneTextIff | src/crypto/signed-envelope.ts:11-27 | Value by value: every order of its keys, at every depth, gives a value the same text exactly when no object in it has two different defined keys that the comparison ties |
| CanonicalJson.SameTextIff | src/crypto/signed-envelope.ts:11-27 | Two key orders of one value have one text exactly when, in every object at every depth, keys that the comparison ties come in the same order in both |
| CanonicalJson.SortedSame | src/crypto/signed-envelope.ts:17 | Sorted objects with the same properties are one list when they agree on the order of tied keys |
| CanonicalJson.Twin | src/crypto/signed-envelope.ts:11-27 | A value with tied keys at any depth has the same JSON value in another key order with another canonical form |
| CanonicalJson.TiesKeepOrder | src/crypto/signed-envelope.ts:17 | Tied keys come out in the order they went in |
| CanonicalJson.SameValueSameText | src/crypto/signed-envelope.ts:11-27 | The same JSON value has one text when no object in it has two different defined keys that the comparison ties, whatever else the comparison ties |
| CanonicalJson.TiedKeys | src/crypto/signed-envelope.ts:17 | Two keys the comparison ties give one value two texts |
| CanonicalJson.TextParses | src/crypto/signed-envelope.ts:25-27 | Parsing a canonical text gives back the canonical value |
| CanonicalJson.TextRoundTrip | src/crypto/signed-envelope.ts:11-27 | Parsing a canonical text gives back the same JSON value, whose canonical text is unchanged |
| CanonicalJson.ReadsValue | src/crypto/signed-envelope.ts:26 | Reading undoes writing for every JSON value, with escapes and integers |
| CanonicalJson.CanonicalGet | src/crypto/signed-envelope.ts:14-20 | Canonicalising keeps every defined property and adds none |
| CanonicalJson.CanonicalSorted | src/crypto/signed-envelope.ts:17 | The canonical properties come out sorted |
| CanonicalJson.SortedUnique | src/crypto/signed-envelope.ts:17 | Two sorted objects with the same properties, none of them tied, list them in the same order |
| CanonicalJson.EquivalentCanonical | src/crypto/signed-envelope.ts:11-22 | A JSON value without tied keys has one canonical form |
| CanonicalJson.SortedCanonical | src/crypto/signed-envelope.ts:11-22 | Canonicalising twice is canonicalising once |
| JsonTexts.CanonicalText | src/crypto/signed-envelope.ts:25-27 | The canonical text is the text that section 25.5.2 of ECMA-262 puts together from the canonical form, brackets, commas and colons in place |
| JsonTexts.WriterIs | src/crypto/signed-envelope.ts:26 | The writer, which builds from the end, gives the same text as joining the parts |
| JsonTexts.EscapeSpelling | src/crypto/signed-envelope.ts:26 | Exactly which characters are escaped, and how, down to the digits of control characters |
| JsonTexts.DecimalSpelling | src/crypto/signed-envelope.ts:26 | Integers are written in decimal digits without a leading zero, for their value |
| Witness.AcceptedSequencesIncrease | src/storage/postgres-store.ts:4443-4550 | For every run of submissions, receipts accepted from a source carry strictly increasing sequences, so no sequence has two heads |
| Witness.SameHeadSameFingerprint | src/modules/audit-witness/service.ts:103-105 | An equal sequence with an equal head has an equal fingerprint |
| Witness.InsertedIsAbove | src/storage/postgres-store.ts:4455-4482 | An inserted receipt is strictly above every earlier receipt of its source |
| Witness.AcceptedFits | src/modules/audit-witness/service.ts:178-186 | A submission that passes the checks has the issuer of its source and the fingerprint of its head |
| WitnessAnswers.IngestInsertsIff | src/storage/postgres-store.ts:4443-4550 | A submission that fits its source is inserted exactly when every receipt of the source has a smaller sequence and another anchor and fingerprint, its id is new, and its evidence row, if any, is its own and free in every unique column; otherwise no table changes |
| WitnessAnswers.IngestRefusesIff | src/storage/postgres-store.ts:4455-4484 | The exact condition of each other answer: replay, anchor reuse, rollback, conflicting head, duplicate row, foreign evidence |
| Witness.OneReceiptPerSequence | src/storage/postgres-store.ts:4701-4800 | When every submission carries evidence, restores may come in any order between them: a sequence of a source still has one receipt, hence one head |
| Witness.StepKeepsSound | src/storage/postgres-store.ts:4443-4550 | Submissions and restores with evidence keep unique receipts, unique evidence and one evidence row per receipt |
| Witness.RestoreKeepsOneHeadIff | src/storage/postgres-store.ts:4701-4800 | A restore breaks the rule exactly when, before it, no evidence is at its place, its id, anchor, fingerprint and evidence columns are free, and a receipt stands there with another head |
| Witness.RestoreInserts | src/storage/postgres-store.ts:4701-4800 | A restore adds its receipt exactly when both tables are free of it, and otherwise adds none |
| WitnessAnswers.RestoreOverIff | src/storage/postgres-store.ts:4713-4733 | With evidence at its place a restore changes nothing: it is a replay exactly when that evidence and its receipt have the same fingerprint, head, digest and key, and a conflict otherwise |
| WitnessAnswers.RestoreKnownIff | src/storage/postgres-store.ts:4734-4745 | With none there, a receipt whose id is known only gets its evidence back, if it is the same receipt and the row is free |
| WitnessAnswers.RestoreUnknownIff | src/storage/postgres-store.ts:4746-4800 | An unknown receipt comes back with its row exactly when both are free in every unique column |
| WitnessAnswers.StandingHasReceipt | src/storage/postgres-store.ts:4713-4720 | Evidence that stands at a place has its receipt, so these three are all the cases of a restore |
| Forks.NoRestoreForksIff | src/modules/audit-witness/service.ts:445-542 | From given tables, no run of restores of genuine receipts with their own evidence can ever put two heads at a sequence exactly when no genuine receipt is unknown to the tables while another head stands at its place |
| Forks.NoRecoveryForksIff | src/modules/audit-witness/service.ts:445-542 | The same for recovery pages over a given store and its objects |
| Forks.NoNewForks | src/storage/postgres-store.ts:4701-4800 | A restore makes no receipt able to fork that was not before |
| Forks.WitnessedCannotFork | src/storage/postgres-store.ts:4713-4733 | Evidence at every place leaves no receipt able to fork |
| Forks.RecoveryCanFork | src/modules/audit-witness/service.ts:445-542 | A run from nothing: a receipt is stored with its evidence, the tables are lost, another head of its source is accepted at its sequence without evidence, and the recovery of the object puts both heads side by side, or two texts share a hash |
| Witness.RestoresKeepWitnessed | src/storage/postgres-store.ts:4701-4800 | Where every receipt has evidence at its place, restores of any receipts keep it so, with one head per sequence |
| Witness.RunsKeepOwners | src/storage/migrations.ts:770-795 | Every evidence row has its receipt after every run |
| Envelope.IngestAccepts | src/modules/audit-witness/service.ts:120-186 | Whatever payload normalisation lets through makes an accepted receipt |
| Envelope.NormalizedIsGood | src/modules/audit-witness/service.ts:120-186 | A normalised payload has passed format, issuer, time, sequence, signature and fingerprint checks |
| Envelope.EnvelopeRoundTrip | src/modules/audit-witness/service.ts:188-224 | Reading an accepted receipt object back, at that or any later time, gives exactly that receipt |
| Envelope.PayloadReads | src/modules/audit-witness/service.ts:120-186 | The canonical payload normalises to the payload it was written from |
| EnvelopeAnswers.PayloadTakenIff | src/modules/audit-witness/service.ts:120-186 | A payload, with whatever other properties, is taken exactly when it carries the fields under their names and passes the checks of format, issuer, time, range, signature and fingerprint |
| EnvelopeAnswers.EnvelopeTakenIff | src/modules/audit-witness/service.ts:188-224 | An envelope is taken, as a given receipt, exactly when it carries that receipt, repeats what its payload says, and has a well-formed id and a canonical time at most five minutes ahead |
| EnvelopeAnswers.ObjectTakenIff | src/modules/audit-witness/service.ts:464-484 | An object is recovered, as a given receipt, exactly when it is the canonical envelope of that receipt, of a configured source, under the key of that receipt |
| EnvelopeAnswers.FormatsAre | src/modules/audit-witness/service.ts:22-24 | Hashes, key ids, anchor ids and receipt ids, letter by letter |
| EnvelopeAnswers.SignatureIs | src/modules/audit-witness/service.ts:25 | A signature is its prefix and 86 letters of base64url |
| EnvelopeAnswers.SourceIdIs | src/modules/audit-witness/s3-worm-object-store.ts:66-72 | A source id is a lower-case letter and 1 to 63 more, digits, underscores or hyphens |
| HashedRecords.FingerprintIsHashed | src/modules/audit-witness/service.ts:103-105 | What is under a fingerprint: issuer, last sequence and head |
| HashedRecords.EvidenceDescribesObject | src/modules/audit-witness/service.ts:317-327 | An evidence row gives the digest and size of the very object its receipt makes, and is not stored yet |
| ObjectKeys.ObjectKeyInjective | src/modules/audit-witness/s3-worm-object-store.ts:66-72 | Different (source, sequence) pairs have different object keys |
| ObjectKeys.PaddedReadsBack | src/modules/audit-witness/s3-worm-object-store.ts:71 | Every safe integer pads to twenty digits that read back as the integer |
| Recovery.RecoveryRebuilds | src/modules/audit-witness/service.ts:445-542 | After the tables are lost, recovering all objects, listed in any order and any number of times, never stops and brings back exactly the receipts whose objects exist, among them every one marked stored; a second pass only replays |
| Recovery.RecoversKeys | src/modules/audit-witness/service.ts:445-542 | A recovery over any list of keys, starting from any part already back, leaves exactly the receipts of the keys seen |
| Recovery.RecoversObject | src/modules/audit-witness/service.ts:464-537 | One listed object restores its receipt or replays it |
| Recovery.ObjectReadsBack | src/modules/audit-witness/service.ts:464-484 | An object of a genuine receipt passes the recovery checks and is that receipt |
| Recovery.SameKeySameReceipt | src/modules/audit-witness/s3-worm-object-store.ts:66-72 | No two receipts share an object key |
| LiveRecovery.RecoveryCompletesIff | src/modules/audit-witness/service.ts:445-542 | After the tables are lost, and whatever has been submitted, stored and recovered since, a recovery of any listed objects, settings apart, completes exactly when no receipt accepted since the loss has the place, id, anchor or fingerprint of a listed object that is not back yet, or two objects share a digest |
| CheckedRecovery.CheckedRecoveryCompletesIff | src/modules/audit-witness/service.ts:445-542 | With the check of every object, from an empty witness through changing settings and one loss: a recovery of any listed objects completes exactly when nothing accepted since the loss is in the way of one that is not back and each was first written under the same encryption and lock mode and no shorter a retention than is asked now, or two objects share a digest |
| CheckedRecovery.RunIsPlain | src/modules/audit-witness/service.ts:581-695 | Every run with the checks is a run without them in which some work is left unfinished and some pages end early, so what holds of all unchecked runs holds of the checked ones |
| CheckedRecovery.RunSettled | src/modules/audit-witness/service.ts:590-605 | Along any run every object shows the settings its key was first written under, for the receipt it is of |
| CheckedRecovery.StoringIff | src/modules/audit-witness/service.ts:581-695 | Working on an unstored row leaves the object of its receipt in the store, or the one already there; the row and only it is marked exactly when the worker finishes and that object has the digest and size of the receipt and shows the settings |
| CheckedRecovery.NothingToStore | src/modules/audit-witness/service.ts:581-589 | Without an unstored row that matches its receipt there is nothing to do |
| CheckedRecovery.CheckedIsPlain | src/modules/audit-witness/service.ts:464-537 | A checked page is an unchecked one when all its objects pass, and stops otherwise |
| LiveRecovery.RecoveryRestoresPast | src/modules/audit-witness/service.ts:445-542 | A recovery that completes over the whole store brings back every receipt whose object had been written, next to those accepted since, and leaves a world as good as before the loss |
| LiveRecovery.PageCompletesIff | src/modules/audit-witness/service.ts:445-542 | From any good tables, a page, settings apart, completes exactly when nothing in the tables or on the list is in the way of a listed object that is not back; then it adds exactly the listed objects |
| LiveRecovery.RestoreGoesThroughIff | src/storage/postgres-store.ts:4701-4800 | Restoring a genuine receipt the tables do not hold goes through exactly when no receipt there has its place, id, anchor or fingerprint, or two objects share a digest |
| LiveRecovery.ResubmissionBlocksRecovery | src/modules/audit-witness/service.ts:464-537 | A run in which a source submits again after the loss, before its object is recovered: that object never comes back |
| LiveRecovery.RunsStayLive | src/storage/postgres-store.ts:4443-4800 | Submissions, finished or interrupted storage work, losses and recovery pages, complete or not, in any order: tables and store stay good |
| LiveRecovery.RunsStayBacked | src/storage/postgres-store.ts:4443-4800 | Until a loss, every object has its receipt in the tables |
| Retention.VerifiedIff | src/modules/audit-witness/service.ts:669-695 | After writes under changing settings, an object passes the check made before storing and before recovery exactly when the settings it was first written under had the same encryption and lock mode and no shorter a retention |
| Retention.SatisfiesIff | src/modules/audit-witness/service.ts:681-687 | An object shows the settings asked for exactly when those it was written under have the same encryption and lock mode and no shorter a retention |
| Retention.OnePolicyVerifies | src/modules/audit-witness/service.ts:669-695 | Under unchanged settings every object passes, at its first write and ever after |
| Retention.LongerRetentionRefuses | src/modules/audit-witness/service.ts:683-687 | A run in which the retention setting is raised: the objects written before fail the check, and writing them again does not help |
| Retention.PutBodies | src/modules/audit-witness/s3-worm-object-store.ts:87-120 | Settings apart, the store is the one of the recovery model |
| Recovery.NewObject | src/storage/postgres-store.ts:4701-4800 | Restoring a receipt the tables do not know inserts it with its stored evidence and nothing else |
| Recovery.KnownObject | src/storage/postgres-store.ts:4713-4733 | Restoring a receipt that is there with its evidence is a replay |
| WitnessStore.Store.IngestAuditWitnessReceipt | src/storage/postgres-store.ts:4443-4550 | The step-by-step transaction has the answer and the tables of the atomic step |
| WitnessStore.Store.RestoreAuditWitnessEvidence | src/storage/postgres-store.ts:4701-4800 | As above |
| WitnessStore.Store.PutObject | src/modules/audit-witness/s3-worm-object-store.ts:87-120 | A conditional write under the settings of the moment: existing objects stay as they are, and come back with their own settings when digest and size agree |
| WitnessStore.Store.StoreEvidence | src/modules/audit-witness/service.ts:581-630 | The work of one claimed row: digest check, put, check of what is stored, mark; the row is marked exactly when the object shows the settings |
| WitnessStore.Store.RecoverEvidence | src/modules/audit-witness/service.ts:445-542 | The page loop is the checked recovery of its keys in order; its counters add up, and it stops at the first object that fails |
| WitnessStore.RecoverTwice | src/modules/audit-witness/service.ts:445-542 | Where every object meets the settings, a second pass after a complete recovery restores nothing |
| Outbox.EachClaimFinishesOnce | src/storage/postgres-store.ts:4106-4219 | For any interleaving of workers, stops, re-claims, retries and pruning, a row has a lease exactly while it is being delivered and no claim commits more than one finish |
| Outbox.StaleWorkerIsPowerless | src/storage/postgres-store.ts:4132-4172 | A worker whose row was claimed again can never change the row |
| Outbox.ReclaimOutlastsAll | src/storage/postgres-store.ts:4328-4347 | A claim lease is later than that of every worker that could still report on the row |
| Outbox.ClaimOutlastsOthers | src/storage/postgres-store.ts:4576-4596 | The same key step, for one claim and one outstanding ticket |
| Outbox.FailsAfterLastAttempt | src/modules/alert-delivery/service.ts:419-430 | A row waiting for a retry has attempts left and waits out exactly the back-off of the attempts it has had; a failed row has none left; a leased row holds the lease of its last claim |
| OutboxStories.RowTellsStory | src/storage/postgres-store.ts:4106-4219 | After every run a row shows its history: delivered exactly when the last finish that counted reported success, failed exactly when it reported failure with no attempts left, waiting exactly when it reported failure with attempts left, and then for the back-off of the claims it has had |
| OutboxStories.ClaimableIff | src/storage/postgres-store.ts:4328-4347 | A row can be claimed exactly from the moment it is made or reopened, its back-off is over, or its lease is over, and never once it is delivered or failed: no unfinished row is ever stuck |
| OutboxStories.FinishCommitsIff | src/storage/postgres-store.ts:4349-4389 | A report that reaches the table changes it exactly when its worker made the last claim of the row and nothing has finished that claim yet |
| OutboxStories.MayStillReport | src/modules/audit-anchor/service.ts:287-306 | A worker may report failure after a success unless it was told that the success went through |
| Outbox.StepKeepsAttempts | src/storage/postgres-store.ts:4106-4219 | Every step keeps the attempt count in step with the status, and with what the lease holder believes |
| Outbox.StepKeepsInv | src/storage/postgres-store.ts:4106-4219 | Enqueue, claim, finish, retry and prune each keep the lease invariant |
| Outbox.FinishKeepsSuperseded | src/storage/postgres-store.ts:4349-4389 | A finish commits only for the last claim, and leaves every other outstanding lease over |
| Outbox.ClaimKeepsSuperseded | src/storage/postgres-store.ts:4576-4596 | A claim supersedes every earlier one on the row |
| Outbox.RetryDelayGrows | src/modules/alert-delivery/service.ts:127-129 | Back-off never shortens with further attempts, starts at the base and stops at the cap |
| Outbox.ServiceDelays | src/modules/alert-delivery/service.ts:127-129 | At the settings of the three services: alerts and anchors give up before a delay reaches its cap of an hour, and evidence waits its cap of six hours exactly from the thirteenth attempt on |
| OutboxStories.RetryDelayDoubles | src/modules/alert-delivery/service.ts:127-129 | The back-off starts at the base and doubles with every claim until it meets the cap |
| OutboxWorker.Store.ClaimRow | src/storage/postgres-store.ts:4106-4130 | Claiming leases one due row |
| OutboxWorker.Store.FinishRow | src/storage/postgres-store.ts:4598-4648 | Finishing is a compare-and-set on the lease; the worker is told so exactly when it changed the row and the answer came back |
| OutboxWorker.Store.EnqueueRow | src/storage/postgres-store.ts:4290-4326 | Enqueueing inserts a pending row unless the fingerprint is there |
| OutboxWorker.Store.RetryRow | src/storage/postgres-store.ts:4192-4219 | Only a failed row goes back to pending |
| OutboxWorker.Store.PruneRows | src/storage/postgres-store.ts:4221-4229 | Pruning drops only old delivered or failed rows |
| OutboxWorker.Poll | src/modules/audit-anchor/service.ts:251-306 | The poll loop is a run of the protocol whatever happens around it; it goes on until its batch is full, its rounds are over, a claim finds no row or a report of failure is refused; each delivery it counts as delivered, retrying or failed is a claim of its own whose one committed finish was of that kind |
| Seats.StartIsFirstOfRun | src/storage/postgres-store.ts:1536-1540 | The stored overage start is the time of the first report in the current unbroken run of enforced over-limit reports |
| Seats.UsageTellsHistory | src/storage/postgres-store.ts:1516-1585 | The row says what the history says; the status is blocked exactly when the last report came at or after that start plus the current grace |
| Seats.StartNotAfter | src/storage/postgres-store.ts:1536-1540 | An overage began no later than the latest clock reading in the reports |
| Seats.BlockedStaysBlocked | src/storage/postgres-store.ts:1536-1550 | A blocked run stays blocked while over-limit reports go on under no longer a grace |
| Seats.RunExists | src/storage/postgres-store.ts:1536-1540 | Every history has a current unbroken run |
| Lease.LeaseRuns | src/modules/commercial-control/service.ts:1083-1110 | Every issued lease ends after it starts, within the lease duration, and never past its grace deadline |
| Lease.LeaseTells | src/modules/commercial-control/service.ts:1083-1110 | A lease names the license it is for, the seats reported and what they amount to, exactly the graces that are running, and an end no later than any of theirs; a blocked report gets none |
| LeaseAnswers.DecisionAnswers | src/modules/commercial-control/service.ts:1038-1110 | A request that spent its nonce gets a lease exactly when it gives the seat count it has to, a count the service takes, and is not over an enforced limit for the whole grace; the lease ends at the earliest of its duration and the graces it runs under, or at the expiry under none; each refusal has its exact condition |
| LeaseAnswers.CheckAnswers | src/modules/commercial-control/service.ts:1000-1031 | A check lets a request through exactly when its token and signing key are good, it names the license it read, and that license is online, unrevoked and within its grace; each refusal has its exact condition |
| LeaseAnswers.OnlyCheckedGetLeases | src/modules/commercial-control/service.ts:995-1120 | In every run a request past the checks was let through by a check with a good token and a usable key on a license in force that a read of the run gave it, and one past its nonce has spent it |
| LeaseAnswers.NewNonceAccepted | src/storage/postgres-store.ts:2357-2385 | A request past the checks goes on if no request of its deployment has tried its nonce before |
| LeaseAnswers.AnswerReports | src/modules/commercial-control/service.ts:1045-1062 | An answer records the seats exactly when a good count was given, blocked or not |
| Lease.LeaseWithinGraceIff | src/modules/commercial-control/service.ts:1083-1104 | A lease passes license expiry plus grace exactly when it is asked for before the expiry, over an enforced seat limit, while the stored overage began after the expiry, by a request whose lease duration reaches that far |
| Lease.LeaseWithinGraceOfStart | src/modules/commercial-control/service.ts:1083-1104 | No lease passes the later of license expiry and the start of the overage it is judged by, plus the grace |
| Lease.DayOfGraceHolds | src/modules/commercial-control/service.ts:1083-1104 | On the terms the service stores, whole days of grace and leases of a day at most, no lease of a license with any grace passes its expiry plus grace |
| Lease.LeaseEndsBy | src/modules/commercial-control/service.ts:1083-1104 | On those terms no lease outlasts a time that neither its license with its grace nor the start of the overage passes |
| LeaseRuns.EveryLeaseRuns | src/modules/commercial-control/service.ts:995-1120 | In every run of interleaved requests, with any clock and any changes of terms, every lease ends after it starts, within the lease duration and its own grace, and within license expiry plus grace if the license has a day of grace |
| LeaseRuns.UnchangedTermsHold | src/modules/commercial-control/service.ts:995-1120 | While nobody changes the license, no lease passes its expiry plus grace, with no grace as with thirty days of it, however requests interleave and whatever the clock does |
| LeaseRuns.LeasesEndWithTerms | src/modules/commercial-control/service.ts:995-1120 | In every run, no lease outlasts a time by which all terms in force, with their grace, and all seats recorded by resizes have come |
| LeaseRuns.ResizeExceedsGrace | src/modules/commercial-control/service.ts:662-742 | A run under a forward clock, with no grace, in which a resize records an overage after the expiry while a request is in flight: that request gets a lease past the expiry |
| LeaseRuns.LeasesWithinGraceOfAnswer | src/modules/commercial-control/service.ts:1018-1110 | With a clock that never goes back, however requests interleave, no lease passes the later of license expiry and the time of its answer, plus the grace |
| LeaseRuns.InOrderLeaseWithinGrace | src/modules/commercial-control/service.ts:1018-1110 | A request that no report with a later clock reading overtook gets no lease past license expiry plus grace, with any clock |
| LeaseRuns.AnswerWithinGraceIff | src/modules/commercial-control/service.ts:1018-1110 | The exact condition on stored terms, at any point of any run: the answer about to be given passes license expiry plus grace only with no grace at all, for a request that read the clock before the expiry and is over an enforced limit, when the stored overage began after the expiry |
| LeaseRuns.SpentNonceRefused | src/storage/postgres-store.ts:2357-2385 | A nonce spent at reading t is refused to every later request of that deployment with a reading up to t plus its lifetime, whatever runs between, unless a nonce is spent meanwhile with a later reading than that |
| LeaseRuns.NonceReadmittedIff | src/storage/postgres-store.ts:2357-2385 | The second use of a nonce is let in exactly when it, or a nonce spent between the two, carries a reading past the lifetime |
| LeaseRuns.EarlierReadingReadmitted | src/storage/postgres-store.ts:2357-2385 | A run under a forward clock in which a copy with a reading within the lifetime is let in again |
| Lease.ComposeLease | src/modules/commercial-control/service.ts:1083-1110 | Collecting the deadlines and taking their minimum gives the specified lease |
| Lease.Earliest | src/modules/commercial-control/service.ts:1093 | The minimum is one of the deadlines and no later than any |
| LeaseService.IssueLease | src/modules/commercial-control/service.ts:995-1120 | The endpoint, its clock read and its three transactions apart, with any other steps between them: a run of the protocol that answers its request with what the endpoint returns |
| LeaseService.Licensing.Execute | src/modules/commercial-control/service.ts:995-1120 | Each transaction is one step of the protocol |
| LeaseService.Licensing.RecordAndAnswer | src/modules/commercial-control/service.ts:1038-1110 | Recording the seats and composing the lease is the answering step; a blocked report is recorded all the same |
| LeaseService.Licensing.CheckRequest | src/modules/commercial-control/service.ts:1000-1031 | Every refusal before the nonce, in order, leaves the tables alone |
| LeaseService.Licensing.RecordLicenseSeatUsage | src/storage/postgres-store.ts:1516-1585 | The incremental row is the row of the history with one more report |
| LeaseService.Licensing.ConsumeLeaseNonce | src/storage/postgres-store.ts:2357-2385 | Lapsed nonces go, this one is inserted unless still there |
| LeaseService.Licensing.UpdateLicense | src/storage/postgres-store.ts:1396-1492 | Of renewals, resizes, transfers and rebindings made from a read license, one commits only at the revision it read and, for a transfer, while the deployment still has the machine it read and no other deployment of the organization has the new one; otherwise nothing changes; a transfer or rebinding resets seat usage |
| Licenses.WritesAreSerial | src/modules/commercial-control/service.ts:552-622 | No update is lost: a committed change is applied to the row as every other committed change left it, except that a revocation made since the read is dropped |
| Licenses.OneWritePerRevision | src/storage/postgres-store.ts:1400-1407 | Of all changes that read one revision at most one commits |
| LicenseAnswers.ChangeWrites | src/modules/commercial-control/service.ts:624-806 | What each renewal, resize, transfer and rebinding writes over the license it read, column by column, and nothing else |
| LicenseAnswers.ChangeAllowedIff | src/modules/commercial-control/service.ts:624-806 | The exact condition for a change to be taken up: not revoked, a later expiry within five years, 1 to 100000 seats, no enforcement offline, somewhere else to go, 0 to 30 days of grace |
| LicenseAnswers.ChangeCommitsIff | src/storage/postgres-store.ts:1396-1492 | A change is written exactly when the license has the revision it read and, for a transfer, the deployment the machine it leaves and no other of its organization the new one |
| LicenseAnswers.RevocationWrites | src/storage/postgres-store.ts:1385-1394 | A revocation stamps a license once and changes nothing else |
| LicenseAnswers.TermsNeverGoBack | src/modules/commercial-control/service.ts:552-806 | Through any run a license keeps its id, issue and being offline, its seats in range and unenforced offline, and its revision, token version and expiry never go back |
| Licenses.GraceStaysWhole | src/modules/commercial-control/service.ts:640-692 | The grace of a license stays a whole number of days from zero to thirty through any run |
| Licenses.MachinesStayUnique | src/storage/migrations.ts:19-29 | No two deployments of one organization ever name one machine |
| Licenses.RevocationUndoneIff | src/storage/postgres-store.ts:1385-1394 | A revoked license can become unrevoked exactly when a change read before the revocation is still to be written |
| Licenses.RenewalUndoesRevocation | src/modules/commercial-control/service.ts:624-660 | A renewal that read the license before its revocation undoes it |
| Licenses.RevokedStays | src/storage/postgres-store.ts:1385-1394 | With no such change left, a revoked license never changes again |
| Approvals.ConsumedOnceUnderDualControl | src/storage/postgres-store.ts:2256-2355 | Over any run each approval is consumed at most once, before its expiry, by its requester with the matching operation, target and digest, and enough other administrators approved it and none rejected it |
| Approvals.ConsumptionNeedsDualControl | src/storage/postgres-store.ts:2321-2355 | At the moment of consumption the rows show that dual control, and no earlier consumption |
| Approvals.NeverReturns | src/storage/postgres-store.ts:2230-2355 | Once out of pending and approved an approval never returns |
| Approvals.RelabelledIff | src/storage/postgres-store.ts:2278-2285 | Of all steps, exactly a decision at or after the expiry by someone other than the requester relabels an executed or rejected approval, as expired |
| Approvals.ExecutedEndsExpired | src/storage/postgres-store.ts:2278-2285 | A run from nothing in which an approval is approved, consumed, and then ends expired |
| Approvals.RejectedEndsExpired | src/storage/postgres-store.ts:2278-2285 | The same for an approval that was rejected |
| Approvals.CountIsDistinct | src/storage/postgres-store.ts:2299-2304 | Counting decision rows counts different administrators |
| ApprovalAnswers.DecisionRecordedIff | src/storage/postgres-store.ts:2256-2319 | After any run a decision is recorded exactly when it is on a pending, unexpired approval, by someone other than the requester who has no row for this approval yet; then the approval is rejected, or approved once enough different administrators are in favour, or stays pending |
| ApprovalAnswers.DecisionRefusedIff | src/storage/postgres-store.ts:2256-2298 | The exact condition of every other answer, and what it leaves |
| ApprovalAnswers.ConsumptionIff | src/storage/postgres-store.ts:2321-2355 | An approval can be consumed exactly by its requester, while approved and before its expiry, for the operation, target and digest it was created with |
| ApprovalAnswers.SweepLeaves | src/storage/postgres-store.ts:2230-2254 | A sweep labels expired exactly the pending and approved approvals past their expiry |
| ApprovalAnswers.CreationAnswers | src/modules/admin-identity/service.ts:421-470 | An approval is made pending under a new id, with the terms asked for |
| Approvals.StepKeepsInv | src/storage/postgres-store.ts:2230-2355 | Create, sweep, decide and consume keep the approval invariant |
| Approvals.Store.DecideAdminApproval | src/storage/postgres-store.ts:2256-2319 | The step-by-step transaction has the answer and the rows of the atomic step, expiry before status |
| Approvals.Store.ConsumeAdminApproval | src/storage/postgres-store.ts:2321-2355 | One conditional update consumes |
| Approvals.Store.ExpireLapsed | src/storage/postgres-store.ts:2230-2254 | Reads first expire lapsed approvals, and only those |
| ApprovalDigest.DigestPinsRequest | src/modules/admin-identity/service.ts:412-419 | One digest comes from one operation, target and JSON request, or exhibits a collision |
| HashedRecords.ApprovalIsHashed | src/modules/admin-identity/service.ts:412-419 | What is under the digest of an approval: operation, target and request, each under its own name |
| ApprovalDigest.SnapshotTakenIff | src/modules/admin-identity/service.ts:85-99 | A request is taken exactly when it is an object whose listed properties come to at most 16384 bytes of canonical text |
| ApprovalDigest.Utf8Adds | src/modules/admin-identity/service.ts:94-97 | Bytes are counted by code point, one to four each, however the text is cut |
| ApprovalDigest.SameRequestSameDigest | src/modules/admin-identity/service.ts:412-419 | The same request, without tied keys, has the digest it was approved under in any key order |
| ApprovalDigest.ReorderedDigestIff | src/modules/admin-identity/service.ts:412-419 | The same request in another key order has the digest it was approved under exactly when tied keys come in the same order in both at every depth, or two texts share a hash |
| ApprovalDigest.TiedRequestCanMiss | src/modules/admin-identity/service.ts:492-513 | A request whose caller chose tied keys somewhere can be sent again as the same JSON value and miss its approval, or two texts share a hash |
| ApprovalDigest.SnapshotIsRequest | src/modules/admin-identity/service.ts:85-99 | A stored snapshot is exactly the listed part of the request |
| ApprovalDigest.ConsumedIsApproved | src/modules/admin-identity/service.ts:421-513 | After any run of requests, decisions, sweeps and consumptions, a consumption that succeeds was asked for by the same administrator with the same operation and target, and its request is the approved snapshot as a JSON value, or two texts share a hash |
| ApprovalDigest.RowsComeFromRequests | src/modules/admin-identity/service.ts:421-470 | Every approval row of a run comes from a request of that run and carries the digest of the snapshot of its input |
| ApprovalDigest.OwnRequestAcceptedIff | src/modules/admin-identity/service.ts:85-99 | The digest stored with the snapshot and the digest taken when the very same request is consumed agree exactly when the request defines nothing beyond the listed properties, or two texts share a hash |
| Base32.Encode | src/modules/admin-identity/crypto.ts:28-42 | The text is the bits regrouped by five, zero-filled at the end, with 32-bit wrap-around; its length is ceil(8n/5) |
| Base32.Decode | src/modules/admin-identity/crypto.ts:44-59 | The bytes are the whole octets of the bits spelled; a text is refused exactly when its capitals, without padding, have a symbol outside the alphabet |
| Base32.DecodeUndoesEncode | src/modules/admin-identity/crypto.ts:28-59 | Decoding undoes encoding for every byte string |
| Base32.RoundTrip | src/modules/admin-identity/crypto.ts:28-59 | Encoding then decoding returns the bytes, with any capitalisation that leaves capitals and digits alone |
| Base32.ShiftKeepsLow | src/modules/admin-identity/crypto.ts:33 | Overflow out of the 32-bit word never reaches the pending bits |
| Base32.TakeField | src/modules/admin-identity/crypto.ts:36 | Shift and mask take the top pending bits and leave the rest |
| Base32.SymbolIndex | src/modules/admin-identity/crypto.ts:48 | Every symbol decodes to its own number |

## Left out

- Routes, console, metrics, tracing, configuration and file loading, and field validation that only rejects malformed input before the modelled code.
- HTTP delivery, the S3 and KMS clients, TLS and cryptography: a delivery succeeds or fails as a parameter says, hashes and signature checks are function parameters.
- SQL text and isolation levels: each transaction is one step, and the statement reads one snapshot.
- The `version`, `updated_at` and description columns, and the bound of 100 on `attempts`.
- The order in which expired holds and statement lines are listed: any order satisfies the proofs.
- Customer erasure and the balance migration, which rewrite ledger rows on purpose: runs start from empty tables.
- Federation, update policy, release artifacts, data governance, signing-key and release state machines, login lockout and the last-administrator guard: short case analyses or other services.
- Ledger.Decide: customers and receipt signing keys are facts that `AdminChange` sets to anything; their own life cycles are not modelled.
- Doubles.Round: exponents are unbounded, so overflow and subnormal numbers, which no amount here reaches, are not modelled.
- CanonicalJson.Write: numbers are integers and strings have no lone surrogates, so fractions, NaN and surrogate escapes are not modelled.
- CanonicalJson.Parse: reads the texts the writer produces; white space and other JSON a parser would also take are not modelled.
- CanonicalJson.CanonicalFields: keys that are array indices, such as "10", which JavaScript lists first and in numeric order, come in the order of the comparison here.
- AuditChain.AuditStore.Verify: the receipt is signed in `Anchor`, by a function of its canonical text; key custody and rotation are not modelled.
- AuditChain.Append: the CHECK that a stored hash is 64 hexadecimal digits is only used as "not empty".
- Envelope.NormalizedPayload: a source is already authenticated by its token.
- Retention.Satisfies: version identifiers of objects are not modelled.
- Outbox.Apply: the candidate is any due row, which covers the ordering, skipped locks and channel filters; every transaction carries a clock reading no earlier than the one before it.
- Outbox.Enqueue: alerts are unique per fingerprint and channel; `fingerprint` stands for whichever key the copy uses.
- Seats.UsageTellsHistory: license renewal changes the grace without a new report, so the row keeps the grace of the last report, as in the code.
- LeaseService.Licensing: one license; tokens and signing-key checks are boolean parameters, seat counts are integers.
- Approvals.Create: the pre-check for a matching open approval is advisory in the code and not modelled.
