# Verified models of Ubeeq's stateful protocols

Ubeeq sells and hosts creators' work. Several of its components are small
protocols whose promises are about whole runs: money that must add up, access
that must end when a payment is reversed, workers and writers that must not
overwrite one another, deletions that must survive a crash. This project models
those components in Dafny and proves the promises for every run, every
interleaving and every input.

Each component has the same shape. A specification module gives the state as a
value and every operation as a function or step on it, with the branches,
constants and error cases of the code. Theorem modules prove what those steps
keep. Where the code changes fields, rows or buffers in place, a class does so
too, and each of its methods is proved to compute the specification, so the
theorems hold of it. The `Effects` and `Acts` modules state when each operation goes
through and what it then changes, as if-and-only-ifs on the fields of the records
themselves, so that a wrong branch in the specification would not go unnoticed.

| component | files |
|---|---|
| Encrypted snapshot store: staged chunks, HEAD compare-and-swap, collection, locks | SnapshotStore, SnapshotInvariant, SnapshotTheorems, SnapshotCollection, SnapshotClient |
| Usage and credit ledger | Ledger, LedgerInvariant, LedgerSteps, LedgerTheorems, LedgerReservations, LedgerEffects, LedgerCounterexamples, UsageCreditLedger |
| Payment evidence, purchases, gifts, grants | Commerce, CommerceEvidence, CommerceRuns, CommerceOrder, CommerceInvariant, CommerceSteps, CommerceTheorems, CommerceAccess, CommerceEffects, CommerceActs, CommerceRevisions, CommerceRevivals, CommerceCounterexamples, CommerceService |
| Hosting generations, claims, outbox | Hosting, HostingTheorems, HostingEffects, HostingStore |
| Durable job leases | Jobs (the abstract machine), SqliteJobs, DynamoJobs, JobEffects, JobQueues |
| Retirement of a migrated creator | Retirement, RetirementEffects |
| Streamed ZIP packages | Zip, ZipStream, ZipEffects |
| Staged repository transactions | Transactions, TransactionEffects |
| Sliding-window rate limit | RateLimit |
| Work attachment lists | Attachments, AttachmentEffects, CreatorLibrary |
| Decimal money, billing periods | Money, MoneyEffects, Calendar |
| Shared datatypes and numerals | Common, Text |

`dafny verify dfyconfig.toml` checks everything.

## What the code does not keep

The model follows the code where a tempting property, or a comment, says more.
Each entry has an input that fails and the exact condition.

- **SQLite attempts.** A comment in `lease` says crashed attempts consume the
  retry budget. `lease` is three separate statements under one timestamp, so a
  process that stalls between computing its expiry and claiming can hand out a
  lease that another process's call already regards as expired, after that
  call's dead-letter statement ran. `SqliteJobs.LateClaimBreaksTheBound` runs a job
  with one attempt twice. By `SqliteJobs.AttemptsAreBoundedExactly` every job stays
  within its attempts and recoveries throughout a run, with one to spare whenever
  it waits, if and only if no call reschedules an expired lease that has used them
  up. The DynamoDB queue has no such gap.
- **Hand-revoked grants come back.** A content revision that drops a grant's
  benefit marks it removed even if it was already revoked, a removed grant can be
  revoked by hand all the same, and a later revision that restores the benefit
  revives either (`CommerceCounterexamples.HandRevokedGrantComesBack` and
  `CommerceCounterexamples.DroppedThenRevokedComesBack`, from nothing).
  `CommerceRevivals.HandRevocationEndsExactly` says exactly when, over any history of
  any purchase or gift, and `CommerceRevivals.GrantsAreActiveExactly` for every grant.
- **Order of evidence.** Refund reports that disagree on one refund's amount, and
  refunds that exceed the payment, make the result depend on order
  (`CommerceOrder.DisagreeingAmountsDependOnOrder`, `CommerceOrder.ExcessDependsOnOrder`,
  `CommerceOrder.ReversalRacesExcess`). `CommerceOrder.CompletedConfluentExactly` and
  `CommerceOrder.VerdictConfluentExactly` are the exact conditions.
- **Ledger keys and scopes.** Callers that use the ledger's own keys or categories,
  and ids containing `|`, make lots and log disagree
  (`LedgerCounterexamples.TakenKeyBreaksAgreement`,
  `LedgerCounterexamples.BarredIdBreaksAgreement`), and so does a grant under a key
  that usage took, with no lot id or an empty one
  (`LedgerCounterexamples.EmptyLotIdBreaksAgreement`). `LedgerTheorems.RunsAgreeExactlyWhenLoggable`
  is the exact condition over whole runs, from one for each operation;
  `LedgerInvariant.ScopesCollideExactly` says which scopes share a ledger.
- **Billing instants.** A later start can give an earlier end
  (`Calendar.PeriodsMayReorderInstants`); `Calendar.PeriodsKeepInstantsExactly` is the
  exact condition on the starts.

## Model

| member | source | states |
|---|---|---|
| `SnapshotInvariant.StepKeeps` | adapters/aws/src/commerce.ts:25-76 | Every read, conditional write, deletion and lock step of any caller keeps the invariant, whose heart is that a writer based on revision r lacks a staged chunk only once HEAD has moved past r |
| `SnapshotInvariant.WinnerHasAllChunks` | adapters/aws/src/commerce.ts:48-49 | A writer whose HEAD swap can succeed still has every chunk it staged, whatever collectors deleted meanwhile |
| `SnapshotInvariant.CompleteScanIsWhole` | adapters/aws/src/commerce.ts:34-35 | A scan that met as many rows as HEAD announces met exactly the sealed text, and decrypts to the committed state |
| `SnapshotInvariant.ShortScanIsSuperseded` | adapters/aws/src/commerce.ts:36-37 | A scan comes up short or wrong only when HEAD has meanwhile moved on |
| `SnapshotTheorems.HeadSnapshotIsWhole` | adapters/aws/src/commerce.ts:25-60 | At every moment of every interleaving all chunks of the HEAD snapshot are there, and decrypt to all committed operations applied in commit order |
| `SnapshotTheorems.LoadsReturnCommittedStates` | adapters/aws/src/commerce.ts:31-39 | No load returns a torn or invented state, and none reports the storage unavailable, under any interleaving with writers and collectors |
| `SnapshotTheorems.MutationsTakeEffectOnce` | adapters/aws/src/commerce.ts:40-59 | Through all retries a mutation commits exactly once at the reported revision, or not at all when it reports conflict, a lost lock or no change |
| `SnapshotTheorems.RunExtendsLog` | adapters/aws/src/commerce.ts:48-49 | No step ever rewrites or drops a committed state |
| `SnapshotTheorems.CallsSeeWhatPrecededThem` | adapters/aws/src/commerce.ts:25-60 | A call sees everything committed before it began, which with the commit order makes loads and mutations linearizable |
| `SnapshotTheorems.LockTokensCommitInBlocks` | adapters/aws/src/commerce.ts:47-48 | Commits under one lock key fall into non-overlapping blocks, one per token, whatever clocks say |
| `SnapshotTheorems.LostTokenNeverCommits` | adapters/aws/src/commerce.ts:47-48 | A holder whose lock row is gone or taken over never commits again, however far its staging got |
| `SnapshotTheorems.AcquiringDisplaces` | adapters/aws/src/commerce.ts:72-73 | Acquiring over an expired lock makes the earlier token lost at once |
| `SnapshotTheorems.ReleasingLostLockIsHarmless` | adapters/aws/src/commerce.ts:76-76 | Releasing a lost lock never removes the new holder's row |
| `SnapshotCollection.DeletedChunksStayDeleted` | adapters/aws/src/commerce.ts:44-60 | A chunk that was ever in the table and is deleted is never put again, by anyone, in any run |
| `SnapshotCollection.CommitsNeedRevisionAndLock` | adapters/aws/src/commerce.ts:47-49 | HEAD moves only by a writer that loaded the revision there and, under a lock, only while the unexpired row carries its token; it moves to that writer's prefix, parts and checksum |
| `SnapshotCollection.LostLocksStopCalls` | adapters/aws/src/commerce.ts:42-56 | A call finds its lock lost exactly if its context is marked or the row lacks its token unexpired; it then neither reports no change nor tries again, and a marked one does not send its commit |
| `SnapshotCollection.FailedRenewalsAreRemembered` | adapters/aws/src/commerce.ts:74-74 | A failed renewal marks the lock context for good |
| `SnapshotCollection.LocksAreTakenExactly` | adapters/aws/src/commerce.ts:72-72 | A lock is taken if and only if its row is absent or expired |
| `SnapshotCollection.LocksAreRenewedExactly` | adapters/aws/src/commerce.ts:74-74 | It is renewed if and only if its row has the token unexpired |
| `SnapshotCollection.LocksAreReleasedExactly` | adapters/aws/src/commerce.ts:75-75 | Its row is deleted if and only if it has the token |
| `SnapshotClient.DynamoCommerceStore.LoadState` | adapters/aws/src/commerce.ts:31-39 | The retry loop's own decisions, from the replies it sees while others act between its requests, are those of the step machine |
| `SnapshotClient.DynamoCommerceStore.Load` | adapters/aws/src/commerce.ts:31-39 | Terminates with a committed state no older than the call, or with contention, and never commits anything |
| `SnapshotClient.DynamoCommerceStore.Collect` | adapters/aws/src/commerce.ts:60-60 | If every request is answered, no chunk superseded by the commit that was there when the call began is left, whatever others do meanwhile |
| `SnapshotClient.DynamoCommerceStore.CleanUp` | adapters/aws/src/commerce.ts:55-56 | After a refused write, and if every request is answered, none of the chunks staged is left; then the call stops, tries again or gives up as the lock and the number of tries say |
| `SnapshotClient.DynamoCommerceStore.Mutate` | adapters/aws/src/commerce.ts:40-59 | Terminates with the change made exactly once on top of everything committed earlier, or known not made; no change is reported only for a committed state the change leaves as it is; and, if every request is answered, a committed change leaves no superseded chunk of those there before |
| `SnapshotClient.DynamoCommerceStore.WithLock` | adapters/aws/src/commerce.ts:70-77 | Refused exactly while an unexpired token is there; otherwise runs under a token of its own that is gone from the lock row afterwards unless that request was lost |
| `LedgerInvariant.FullKeyInjective` | packages/billing/src/index.ts:47-47 | Idempotency keys of different scopes never coincide when ids contain no bar |
| `LedgerInvariant.ScopesCollideExactly` | packages/billing/src/index.ts:47-47 | Two scopes share one ledger if and only if one instance id goes on with a bar and a piece that the other's account id begins with |
| `LedgerSteps.CallsKeepSound` | packages/billing/src/index.ts:60-113 | Any sequence of calls, with any keys, keeps every lot's counters and every reservation's allocations in order |
| `LedgerTheorems.LotsAlwaysAddUp` | packages/billing/src/index.ts:60-113 | Conservation: original = remaining + spent + expired + revoked, 0 ≤ reserved ≤ remaining, and reserved is exactly what open reservations hold of the lot |
| `LedgerTheorems.LotsAgreeWithLog` | packages/billing/src/index.ts:60-113 | In every scope granted, committed, expired and net reserved events total what the lots' counters total, when callers stay out of the ledger's own keys and categories |
| `LedgerTheorems.RunsAgreeExactlyWhenLoggable` | packages/billing/src/index.ts:60-113 | Lots and log agree in every scope after every call of a run if and only if every call found the key it logs under free and settled in its own ledger |
| `LedgerTheorems.CallAgreesExactlyWhenLoggable` | packages/billing/src/index.ts:60-113 | Any one call keeps the agreement if and only if it meets that guard |
| `LedgerTheorems.GrantAgreesExactlyWhenKeyIsFree` | packages/billing/src/index.ts:70-79 | A grant keeps lots and log in agreement if and only if no event without a lot id, or with an empty one, had taken its key |
| `LedgerTheorems.UsageAgreesExactlyOutsideCreditCategories` | packages/billing/src/index.ts:60-68 | Fresh usage keeps the agreement if and only if its category is not one of the ledger's, or its quantity is zero |
| `LedgerTheorems.ReserveAgreesExactlyWhenKeyIsFree` | packages/billing/src/index.ts:90-93 | A reservation that goes through keeps the agreement if and only if nobody used its `reserve:` key |
| `LedgerTheorems.FinalizeAgreesExactly` | packages/billing/src/index.ts:96-104 | Settling an open reservation keeps the agreement if and only if nobody used its `commit:` or `release:` key and it is settled in the ledger it was made in |
| `LedgerTheorems.ExpiryAgreesExactlyWhenKeysAreFree` | packages/billing/src/index.ts:106-113 | Expiring keeps the agreement if and only if nobody used the `expire:` key of a lot that is due |
| `LedgerCounterexamples.TakenKeyBreaksAgreement` | packages/billing/src/index.ts:91-91 | From nothing: a usage event under `reserve:` and an id makes that reservation go unlogged, for every scope and id |
| `LedgerCounterexamples.EmptyLotIdBreaksAgreement` | packages/billing/src/index.ts:73-77 | From nothing: a usage event with an empty lot id agrees, and a grant under its key then makes a lot that is not logged |
| `LedgerCounterexamples.BarredIdBreaksAgreement` | packages/billing/src/index.ts:96-102 | From nothing: with a bar in an account id, one account settles another's reservation and logs it in the wrong ledger |
| `LedgerReservations.BalanceIsWhatLotsSay` | packages/billing/src/index.ts:115-120 | Available and reserved credits are what unexpired lots have left, the earliest expiry is the least among lots with something left, and the credit categories show the lots' own totals |
| `LedgerReservations.ReservesExactlyWhenCovered` | packages/billing/src/index.ts:81-94 | A fresh positive reservation succeeds exactly when the balance at that time covers it, and a refused one changes nothing |
| `LedgerReservations.ReservationDrawsItsQuantity` | packages/billing/src/index.ts:86-93 | Its allocations sum to its quantity, raise each lot's reserved amount by exactly its share within what remains, and touch only eligible lots |
| `LedgerReservations.DrawsOnEarliestExpiryFirst` | packages/billing/src/index.ts:87-90 | A lot is drawn on only when every eligible lot before it by expiry, then grant time, is fully reserved |
| `LedgerReservations.FinalizingTwiceIsFinalizingOnce` | packages/billing/src/index.ts:96-104 | Finalizing again, in either direction, changes nothing and reports the first outcome |
| `LedgerEffects.UsageIsLoggedOnce` | packages/billing/src/index.ts:60-68 | Fresh usage adds one event with its fields; the key given again, with any input, changes nothing and returns that event |
| `LedgerEffects.UnsafeUsageIsRefused` | packages/billing/src/index.ts:61-61 | A quantity that is no safe integer is refused and nothing changes |
| `LedgerEffects.GrantsAreRefusedExactly` | packages/billing/src/index.ts:70-73 | A grant is refused if and only if its quantity is not a positive safe integer or it does not expire after it is granted |
| `LedgerEffects.GrantsRaiseTheBalance` | packages/billing/src/index.ts:74-79 | A grant under a fresh key raises its ledger's available credits by its quantity until it expires, no other ledger's, and the key given again grants nothing |
| `LedgerEffects.ReservationsAreRefusedExactly` | packages/billing/src/index.ts:81-89 | A reservation is refused if and only if its id is new and its quantity is no positive safe integer or more than what is available then; an id known already gets the reservation it has |
| `LedgerEffects.ReservationsDrawInOrder` | packages/billing/src/index.ts:87-93 | Each lot is drawn on by the least of its room and what is still needed after the lots that come before it; only unexpired, available lots of the ledger are |
| `LedgerEffects.FinalizingSettlesLots` | packages/billing/src/index.ts:96-104 | Committing moves each lot's share from reserved and remaining to spent, releasing only frees it, and no other lot changes |
| `LedgerEffects.ExpiryTakesExactlyWhatIsDue` | packages/billing/src/index.ts:106-113 | A lot changes if and only if it is the ledger's, available, past its expiry, with something left and nothing reserved; it then has nothing left, that much more expired and the expired status, and the total is the sum of the falls |
| `LedgerEffects.GrantsAreLogged` | packages/billing/src/index.ts:75-77 | A grant under a fresh key logs one event about its lot with the granted quantity and time |
| `LedgerEffects.ReservationsAreLogged` | packages/billing/src/index.ts:91-92 | A reservation logs its quantity under its `reserve:` key, if that is free, and keeps that event's id |
| `LedgerEffects.SettlementsAreLogged` | packages/billing/src/index.ts:102-102 | A settlement logs the whole quantity as committed or released, linked to the reservation's event |
| `LedgerEffects.ExpiriesAreLogged` | packages/billing/src/index.ts:109-110 | A lot that expires logs what it lost, under its own `expire:` key |
| `CreditLedgerClass.UsageCreditLedger.AppendUsage` | packages/billing/src/index.ts:60-68 | The mutated fields become the specified books |
| `CreditLedgerClass.UsageCreditLedger.GrantCredits` | packages/billing/src/index.ts:70-79 | The mutated fields become the specified books, with lots kept sound |
| `CreditLedgerClass.UsageCreditLedger.ReserveCredits` | packages/billing/src/index.ts:81-94 | The greedy loop over lots in place gives the specified allocations and books, with lots kept sound |
| `CreditLedgerClass.UsageCreditLedger.FinalizeReservation` | packages/billing/src/index.ts:96-104 | The loop over allocations settles each lot as specified, with lots kept sound |
| `CreditLedgerClass.UsageCreditLedger.ExpireCredits` | packages/billing/src/index.ts:106-113 | The loop changes exactly the lots that are past their expiry, available, unreserved and not empty, reports the sum of what they lose, and keeps lots sound |
| `CommerceEvidence.CompletedAreReported` | packages/commerce/src/service.ts:453-458 | The completed refunds are exactly those some delivered evidence reported completed, with an amount it first gave, late or repeated reports notwithstanding |
| `CommerceEvidence.RefundedIsLargest` | packages/commerce/src/service.ts:459-460 | The refunded amount is the largest amount any evidence stated and the completed refunds' total, and no more |
| `CommerceEvidence.VerdictIs` | packages/commerce/src/service.ts:461-470 | The verdict from evidence alone: reversed if any says so, else refunded if refunded in full, else neither |
| `CommerceEvidence.EvidenceConfluent` | packages/commerce/src/service.ts:453-470 | Neither order nor repetition of evidence changes completed refunds or refunded amount, even if some of it is refused |
| `CommerceEvidence.VerdictConfluent` | packages/commerce/src/service.ts:453-470 | Nor do they change the refunded / reversed / neither verdict of acceptable evidence within the payment |
| `CommerceOrder.CompletedConfluentExactly` | packages/commerce/src/service.ts:453-458 | The completed refunds come out the same in every order, with any repetition, if and only if no two pieces of evidence first complete one refund with different amounts |
| `CommerceOrder.VerdictsReachedExactly` | packages/commerce/src/service.ts:460-470 | When refunds exceed the payment, the verdicts that some order gives are exactly those reached within the payment just before one more piece exceeds it |
| `CommerceOrder.VerdictConfluentExactly` | packages/commerce/src/service.ts:460-470 | The verdict comes out the same in every order if and only if refunds stay within the payment, or only one verdict can be reached before exceeding it |
| `CommerceOrder.ReversedInSomeOrderExactly` | packages/commerce/src/service.ts:461-470 | When refunds exceed the payment, some order still reverses it if and only if some reversing evidence alone stays within the payment |
| `CommerceOrder.ReversalRacesExcess` | packages/commerce/src/service.ts:461-470 | Among any evidence, a reversal within the payment and a piece that alone exceeds it race: whichever is first decides |
| `CommerceOrder.DisagreeingAmountsDependOnOrder` | packages/commerce/src/service.ts:457-460 | Two reports of one refund with different amounts give different refunded amounts in the two orders |
| `CommerceOrder.ExcessDependsOnOrder` | packages/commerce/src/service.ts:461-470 | A reversal and an excess give reversed in one order and no verdict in the other |
| `CommerceRuns.ApplyDelivers` | packages/commerce/src/service.ts:429-495 | Evidence changes its own payment's records as one delivery and no other payment's |
| `CommerceRuns.RunDelivers` | packages/commerce/src/service.ts:429-505 | Over a whole run of any transactions, a payment's records are those its evidence alone makes |
| `CommerceRuns.RunsConfluent` | packages/commerce/src/service.ts:429-505 | Two runs that deliver the same acceptable evidence in any order, any number of times, among any other transactions, end with the same completed refunds, refunded amount and verdict |
| `CommerceSteps.RunIsGood` | packages/commerce/src/service.ts:137-613 | Every run keeps the invariant on purchases, gifts and grants, and moves payments, purchases, gifts and grant terms only forward |
| `CommerceTheorems.RefundIsFinal` | packages/commerce/src/service.ts:462-492 | A refunded or reversed payment has no active purchase or grant, now and after anything that follows, even if the refund arrived before the completion |
| `CommerceAccess.PurchasesFollowPayments` | packages/commerce/src/service.ts:462-492 | In every reachable state a completed or partly refunded payment has its active purchase, and a purchase is revoked if and only if its payment is refunded or reversed |
| `CommerceAccess.FirstPaymentGivesAccess` | packages/commerce/src/service.ts:476-487 | Evidence that first completes a payment gives exactly the benefits of the original offer and the current contents, each an active grant with its files, from now to the end the offer sets, for whoever holds the purchase |
| `CommerceEffects.EvidenceDecidesExactly` | packages/commerce/src/service.ts:429-495 | Whether one piece of evidence is refused, makes a purchase, sends the payment to review or ends access, as an if-and-only-if over the stored records and the evidence: a purchase is new exactly when amount, currency, reference, merchant, buyer, plan and period are as agreed, nothing is unsupported and the refunds fit |
| `CommerceEffects.RejectedExactly` | packages/commerce/src/service.ts:430-454 | Evidence is thrown out if and only if a field is missing or out of range, its currency is not taken, a connection differs or a refund is malformed |
| `CommerceEffects.OrderIsTheFirstNamed` | packages/commerce/src/service.ts:434-434 | The order is the first of the same scope with the provider's order id, which must not be empty |
| `CommerceEffects.OfferIsThePinnedVersion` | packages/commerce/src/service.ts:437-441 | The offer version is the order's, else the payment's own, else a proven mapping's, else the only validated candidate |
| `CommerceEffects.PaymentRemembers` | packages/commerce/src/service.ts:450-474 | The payment keeps the newest time, the largest refunded amount, its connection and currency; what it is for is set by acceptable evidence, and it names a reason exactly when it is in question or partly refunded |
| `CommerceEffects.OrderFollowsPayment` | packages/commerce/src/service.ts:475-475 | The order is in review, done, failed or waiting exactly as the payment and its verdict say, and no other order changes |
| `CommerceActs.BenefitsAre` | packages/commerce/src/service.ts:254-257 | A benefit is given exactly if it is in the contents, or, for a collection, if it is a current gallery, a current file where the original had downloads, or a package or role of the original |
| `CommerceActs.FilesAre` | packages/commerce/src/service.ts:483-483 | A gallery grant opens every file of the contents, a download its own file, a package the contents' archive, a role nothing |
| `CommerceActs.ContentsAreNewest` | packages/commerce/src/service.ts:277-279 | The contents are those of a newest version of the same offer, scope and kind for subscriptions and collections, and else of the version paid for |
| `CommerceActs.LatestIsFirstNewest` | packages/commerce/src/service.ts:278-278 | Of several versions with the highest number it is the first listed |
| `CommerceActs.AccessEnds` | packages/commerce/src/service.ts:484-484 | Access ends a calendar period after payment, or its seconds after now, or not at all |
| `CommerceActs.PurchasesBelongOrWait` | packages/commerce/src/service.ts:479-512 | A new purchase belongs to the order's customer, or waits for the buyer's address under a claim with a fresh token for a day, every earlier claim on it being used up |
| `CommerceTheorems.RevokedGiftIsFinal` | packages/commerce/src/service.ts:584-591 | A revoked gift has no active grant and is never revived by claims or revisions |
| `CommerceTheorems.LastRevocationIsFinal` | packages/commerce/src/service.ts:281-296 | Once no grant of a purchase or claimed gift is active, no revision or claim makes one active again |
| `CommerceTheorems.ErasureIsFinal` | packages/commerce/src/service.ts:137-155 | Every grant an erased customer held stays revoked |
| `CommerceTheorems.TermsAreFixed` | packages/commerce/src/service.ts:281-296 | Grants are never lost; all grants of one purchase or gift share the start, end and customer fixed at payment or claim, with one grant per benefit |
| `CommerceRevisions.RevisionReachesEachAlone` | packages/commerce/src/service.ts:281-296 | A revision reaches every active purchase and claimed gift, in whatever order they are listed, and makes of the grants of each what it would make of them alone |
| `CommerceRevisions.RevisionSelectsAccess` | packages/commerce/src/service.ts:254-292 | After the whole revision, a purchase's or gift's grants not marked removed are exactly those for the benefits the original offer gives of the new contents, with their files, and the others are revoked; a given grant is active exactly if it is new, was active, or had been removed by a revision |
| `CommerceRevisions.RevisionLeavesOthersAlone` | packages/commerce/src/service.ts:282-292 | It changes no grant of a purchase or gift it does not apply to, and none made by hand |
| `CommerceRevisions.RevisingTwiceIsRevisingOnce` | packages/commerce/src/service.ts:281-296 | Making one revision twice, in any order and at any time, changes no grant's state, removal mark or files and adds none, unless it applies to a record it did not apply to before |
| `CommerceRevivals.GrantsMeetTheirFates` | packages/commerce/src/service.ts:137-613 | Every transaction of the service either gives, drops, ends or leaves a grant, read off the records before it, and its state and removal mark follow |
| `CommerceRevivals.GrantsAreActiveExactly` | packages/commerce/src/service.ts:137-613 | From any reachable state and through any further transactions, a grant is active in the end if and only if it was and nothing dropped or revoked it, or a revision dropped its benefit, earlier or among them, the next that concerned it gave it back, and nothing after dropped or revoked it |
| `CommerceRevivals.HandRevocationEndsExactly` | packages/commerce/src/service.ts:286-289 | So a grant revoked by hand, in whatever state it was, is active again if and only if a revision had dropped its benefit, before or after the revocation, the next that concerned it gave it back, and nothing after dropped or revoked it |
| `CommerceRevivals.RevisionsReviveExactly` | packages/commerce/src/service.ts:286-289 | If nothing else revokes it in the run: if and only if the last revision that concerned it gives its benefit and one had dropped it |
| `CommerceCounterexamples.HandRevokedGrantComesBack` | packages/commerce/src/service.ts:286-289 | From nothing: a gift claimed, one grant revoked by hand, dropped and given back, is active |
| `CommerceCounterexamples.DroppedThenRevokedComesBack` | packages/commerce/src/service.ts:286-289 | From nothing: a gift claimed, one grant dropped, then revoked by hand, is active after one more revision |
| `CommerceServiceClass.CommerceService.ApplyEvidence` | packages/commerce/src/service.ts:429-495 | The in-place updates of payment, refunds, order, purchase, grants and claims are the specified transaction, errors included |
| `CommerceServiceClass.CommerceService.Reconcile` | packages/commerce/src/service.ts:496-505 | All of the evidence takes effect, or the tables stay as they were; the invariant is kept |
| `CommerceServiceClass.CommerceService.UpdateAccessContents` | packages/commerce/src/service.ts:281-296 | The nested loops over purchases, gifts, grants and benefits make the specified revision; the invariant is kept |
| `CommerceActs.RevisionsApplyExactly` | packages/commerce/src/service.ts:282-291 | A revision applies to a purchase or gift if and only if it is active or claimed, its original version is of the same offer, scope and kind, subscribed or now a collection, and some grant is in force |
| `CommerceActs.RevisedContentsAreMarked` | packages/commerce/src/service.ts:292-292 | Exactly those records are marked with the new version |
| `CommerceServiceClass.CommerceService.ClaimGifts` | packages/commerce/src/service.ts:585-591 | Waiting gifts for the verified addresses become grants as specified, or nothing changes; the invariant is kept |
| `CommerceActs.GiftsAreOfferedExactly` | packages/commerce/src/service.ts:576-583 | A gift is offered if and only if its offer is the creator's and its months fit the offer; asking again changes nothing |
| `CommerceActs.GiftsAreClaimedExactly` | packages/commerce/src/service.ts:585-591 | A gift is claimed if and only if it waits for an address of the customer and its offer exists; its grants are then exactly the benefits, from now until the months given are over |
| `CommerceServiceClass.CommerceService.RedeemClaim` | packages/commerce/src/service.ts:514-526 | A claim hands the purchase and all its grants to the customer as specified, or nothing changes; the invariant is kept |
| `CommerceActs.ClaimsAreHonouredExactly` | packages/commerce/src/service.ts:514-519 | A claim is honoured if and only if the customer is not erased, the token is right, it is unused and unexpired, its address is verified and the purchase is active and nobody's |
| `CommerceActs.HonouredClaimsHandOver` | packages/commerce/src/service.ts:520-523 | The purchase and all its grants then belong to the customer, the address is forgotten, nothing else changes, and the claim is honoured no second time |
| `CommerceServiceClass.CommerceService.EraseCustomer` | packages/commerce/src/service.ts:137-155 | The loops revoke, forget and remove what is the customer's, or nothing changes while a subscription runs; the invariant is kept |
| `CommerceActs.CustomersAreErasedExactly` | packages/commerce/src/service.ts:137-155 | Erasure is refused if and only if the customer is erased or a subscription still runs; it revokes exactly the grants held, forgets the buyer's address on exactly the purchases held and drops exactly the claims on them |
| `CommerceActs.RecipientsAreForgotten` | packages/commerce/src/service.ts:148-148 | The recipient's address is forgotten on exactly the gifts the customer claimed |
| `CommerceServiceClass.CommerceService.RevokeGift` | packages/commerce/src/service.ts:584-584 | The gift and each of its grants are revoked as specified; the invariant is kept |
| `CommerceActs.GiftsAreRevokedExactly` | packages/commerce/src/service.ts:584-584 | Only the creator's own gift is revoked, with exactly its grants |
| `CommerceServiceClass.CommerceService.ManualGrant` | packages/commerce/src/service.ts:593-608 | Adds exactly the one grant, for a known customer only; the invariant is kept |
| `CommerceServiceClass.CommerceService.Revoke` | packages/commerce/src/service.ts:609-614 | Revokes exactly the one grant; the invariant is kept |
| `CommerceServiceClass.CommerceService.ExpireRoles` | packages/commerce/src/service.ts:776-778 | The sweep revokes exactly the active timed roles whose time is over; the invariant is kept |
| `CommerceActs.RolesRunOutExactly` | packages/commerce/src/service.ts:776-778 | A grant changes only to revoked, if and only if it is a role whose end has come |
| `HostingTheorems.AttemptsAreNumbered` | adapters/local/src/websites.ts:113-170 | A target's accepted attempts carry the generations 1 to desired, each exactly once, and 0 ≤ active ≤ desired, over every run |
| `HostingTheorems.GenerationsRise` | adapters/local/src/websites.ts:136-170 | Desired and active generations never go back |
| `HostingTheorems.NewestReleaseIsServed` | adapters/local/src/websites.ts:163-168 | In whatever order attempts finish among any other calls, a target ends up serving the last release of the highest generation, with that attempt's id, release and digest |
| `HostingTheorems.OnlyTheHolderChangesAttempts` | adapters/local/src/websites.ts:152-170 | An attempt changes only by the lock's execution, or by a claim that takes the lock |
| `HostingTheorems.OnlyTheHolderChangesTheRelease` | adapters/local/src/websites.ts:163-170 | What a target serves changes only by a finish of the lock's execution |
| `HostingTheorems.ActivationBlocksClaims` | adapters/local/src/websites.ts:152-168 | While a possibly activated attempt holds the lock, the lock stays and every claim fails until its holder finishes with a known outcome or takes the mark back |
| `HostingTheorems.DisplacedExecutionIsFenced` | adapters/local/src/websites.ts:152-170 | An execution that lost a target's lock can neither update nor finish any of its attempts until it claims again |
| `HostingTheorems.SuspensionSurvivesPublishing` | adapters/local/src/websites.ts:113-170 | A policy suspension survives every call but a change of serving state and a finish that disables the target; every publishing finish leaves it |
| `HostingTheorems.AcceptanceQueuesEveryTarget` | adapters/local/src/websites.ts:136-149 | Accepting gives each target exactly its next generation with its attempt stored and queued, and accepting again changes nothing |
| `HostingTheorems.QueuedUntilHandled` | adapters/local/src/websites.ts:146-170 | A queued attempt stays in the outbox until it is acknowledged or finished |
| `HostingEffects.TargetsAreSavedExactly` | adapters/local/src/websites.ts:114-120 | A target is saved if and only if its root is free or its own, its identity is unchanged and the revision is next; its deployment fields stay those stored |
| `HostingEffects.PublicationsAreAcceptedExactly` | adapters/local/src/websites.ts:136-149 | A new publication is accepted if and only if its plan is saved, approved by the same actor and unexpired, its binding enabled and unmoved, and every target unmoved, connected and given its next generation |
| `HostingEffects.ClaimsSucceedExactly` | adapters/local/src/websites.ts:152-159 | A claim succeeds if and only if the attempt is the target's and no other attempt, and no activation that began, holds the lock |
| `HostingEffects.UpdatesGoThroughExactly` | adapters/local/src/websites.ts:160-162 | An update goes through if and only if the execution holds the lock and the revision is next |
| `HostingEffects.FinishesDecideExactly` | adapters/local/src/websites.ts:163-170 | A finish goes through on the same condition; with an outcome of a generation at least active the release is served, unpublished when disabled, still suspended when it was and else live, removal required only as before and not disabled; otherwise nothing served changes; the lock goes unless the state is unknown |
| `HostingEffects.ServingIsSetExactly` | adapters/local/src/websites.ts:113-113 | Setting the serving state changes it and the removal mark of that target only |
| `HostingStoreClass.SqliteWebsiteStore.SaveTarget` | adapters/local/src/websites.ts:114-120 | The rows become the specified ones, deployment fields kept, or stay as they were |
| `HostingStoreClass.SqliteWebsiteStore.AcceptIntent` | adapters/local/src/websites.ts:136-149 | The loop over targets accepts all or rolls every row back |
| `HostingStoreClass.SqliteWebsiteStore.Claim` | adapters/local/src/websites.ts:152-159 | The two row updates are the specified claim |
| `HostingStoreClass.SqliteWebsiteStore.UpdateAttempt` | adapters/local/src/websites.ts:160-162 | Writes the attempt for the lock's execution only, at the expected revision |
| `HostingStoreClass.SqliteWebsiteStore.Finish` | adapters/local/src/websites.ts:163-170 | Attempt, target and outbox change together or not at all |
| `Jobs.AttemptsAreBounded` | adapters/local/src/index.ts:354-391 | In the machine both queues implement, attempts never exceed the maximum plus the recoveries in any run within budget |
| `Jobs.DisplacedNeverSettles` | adapters/local/src/index.ts:371-391 | A worker that lost its lease never settles the job and never gets the lease back |
| `Jobs.TokensSettleOnce` | adapters/local/src/index.ts:387-391 | Each lease token completes, retries or dead-letters its job at most once |
| `Jobs.OverIsForGood` | adapters/local/src/index.ts:354-379 | A completed or cancelled job is never leased, retried or recovered again |
| `SqliteJobs.StatementRefines` | adapters/local/src/index.ts:354-391 | Every SQL statement, interleaved anyhow with other processes', is a step of the lease machine for every job |
| `SqliteJobs.StatementsKeepBudgetExactly` | adapters/local/src/index.ts:357-362 | A statement keeps every job's attempts within maximum plus recoveries, with one to spare while it waits, if and only if it does not reschedule an expired lease that has used them up |
| `SqliteJobs.AttemptsAreBoundedExactly` | adapters/local/src/index.ts:354-379 | Through any run of any processes every job stays within that bound if and only if no call reschedules such a lease |
| `SqliteJobs.AttemptsAreBounded` | adapters/local/src/index.ts:354-379 | Under any mix of crashes, retries, cancels and interleavings with prompt claims, attempts ≤ maximum + recoveries |
| `SqliteJobs.LateClaimBreaksTheBound` | adapters/local/src/index.ts:356-368 | A claim that lands after its own expiry, between another call's two sweeps, leads to a second attempt of a one-attempt job |
| `SqliteJobs.DisplacedNeverSettles` | adapters/local/src/index.ts:371-391 | A displaced worker's complete, retry or dead-letter never takes effect, whatever statements interleave |
| `SqliteJobs.TokensSettleOnce` | adapters/local/src/index.ts:387-391 | A token that settled a job settles it no second time, whatever statements follow |
| `SqliteJobs.OverIsForGood` | adapters/local/src/index.ts:354-379 | A completed or cancelled job is never leased, retried or recovered again, whatever statements follow |
| `SqliteJobEffects.LeaseIsOfTheFirstDue` | adapters/local/src/index.ts:359-369 | After both sweeps the row leased is in the cell, of a wanted kind, waiting and due, no such row is due earlier or, at the same time, has a smaller id, and none is leased if and only if there is none |
| `SqliteJobEffects.RetriesWait` | adapters/local/src/index.ts:365-392 | A job waiting for a later time is leased by no call before then, whatever else runs |
| `SqliteJobEffects.TransitionsGoThroughExactly` | adapters/local/src/index.ts:387-392 | A settlement goes through if and only if the row is leased under the token and not expired; done completes, failed and a last failed attempt dead-letter, any other waits until its retry time |
| `SqliteJobEffects.JobsAreMadeOnce` | adapters/local/src/index.ts:342-352 | A job is queued, due when asked, if and only if its cell has no job under its key |
| `SqliteJobEffects.JobsAreRecoveredExactly` | adapters/local/src/index.ts:374-380 | A job is recovered if and only if it waits for a retry or is dead-lettered; cancelling always cancels |
| `SqliteJobQueueClass.LocalSqliteJobQueue.Lease` | adapters/local/src/index.ts:354-370 | Run on end, the three statements sweep, then lease exactly the first row that is waiting, wanted and due, by time and id, or nothing if there is none; blank cells and non-positive durations are refused |
| `SqliteJobQueueClass.LocalSqliteJobQueue.Transition` | adapters/local/src/index.ts:387-392 | Settles the job exactly when the lease is held and unexpired, and otherwise changes nothing |
| `DynamoJobs.WritesSeeTheirRead` | adapters/aws/src/index.ts:343-383 | A conditional write that goes through replaces exactly the record its possibly stale read returned |
| `DynamoJobs.WriteRefines` | adapters/aws/src/index.ts:322-383 | Every conditional write, from however stale a read, is a lease-machine step within the budget |
| `DynamoJobs.AttemptsAreBounded` | adapters/aws/src/index.ts:322-383 | Attempts ≤ maximum + recoveries in every run, with no assumption on timing |
| `DynamoJobs.DisplacedNeverSettles` | adapters/aws/src/index.ts:359-383 | A displaced worker's write never goes through, even based on a read from when it held the lease |
| `DynamoJobs.TokensSettleOnce` | adapters/aws/src/index.ts:367-383 | A token that settled a job settles it no second time, whatever its holder had read |
| `DynamoJobs.OverIsForGood` | adapters/aws/src/index.ts:322-383 | A completed or cancelled job is never leased, retried or recovered again |
| `DynamoJobEffects.ClaimsGoThroughExactly` | adapters/aws/src/index.ts:326-358 | A claim goes through if and only if the record read was due, or its lease over, and is still the one stored |
| `DynamoJobEffects.TransitionsGoThroughExactly` | adapters/aws/src/index.ts:366-383 | A settlement goes through if and only if the read held the lease unexpired and the record is unmoved and unexpired at the write |
| `DynamoJobEffects.RetriesWait` | adapters/aws/src/index.ts:329-330 | A job waiting for a later time is claimed by no call before then |
| `DynamoJobEffects.JobsAreRecoveredExactly` | adapters/aws/src/index.ts:362-363 | A job is recovered if and only if it was read waiting for a retry or dead-lettered and has not moved; it is cancelled if it has not moved |
| `DynamoJobEffects.JobsAreMadeOnce` | adapters/aws/src/index.ts:314-318 | A job is queued once for its cell and key |
| `AwsJobQueueClass.LeasingIsARun` | adapters/aws/src/index.ts:322-342 | Whatever a lease call and the others writing between its requests do is one run of the queue's conditional writes, so bound and fencing hold of it |
| `AwsJobQueueClass.FirstThatCanBeHad` | adapters/aws/src/index.ts:326-341 | The first candidate of the listing that is wanted, due or expired with an attempt left, and unmoved when its turn comes, is leased; nothing is leased if and only if there is none |
| `AwsJobQueueClass.AwsJobQueue.Lease` | adapters/aws/src/index.ts:322-342 | From a listing however stale, with other callers writing before every request: dead-letters exhausted candidates, skips conflicts and leases the first whose write goes through; the job returned carries the worker's fresh token, and every job stays within its budget |
| `AwsJobQueueClass.AwsJobQueue.Transition` | adapters/aws/src/index.ts:366-383 | With other callers writing between its read and its write: settles the job exactly when the lease is held at the read and the record is unmoved and unexpired at the write, and otherwise writes nothing |
| `Retirement.OwnedLeadsToCreator` | apps/reference-api/src/migration-cell.ts:75-107 | What the retirement's predicates select is exactly what leads, link by link, to the creator |
| `Retirement.LinksSurvive` | apps/reference-api/src/migration-cell.ts:89-109 | The order of removal keeps, after any partial removal, every remaining record's link to the creator whole |
| `Retirement.PartwayAgain` | apps/reference-api/src/migration-cell.ts:74-116 | A run started on a partly retired cell removes only what the first run would have removed |
| `Retirement.RemainingIsTheSame` | apps/reference-api/src/migration-cell.ts:74-116 | From any partial removal a finished run leaves what an uninterrupted one leaves |
| `Retirement.RetiringTwice` | apps/reference-api/src/migration-cell.ts:74-116 | Retiring a retired creator changes nothing |
| `Retirement.RetirementTakesExactlyTheCreators` | apps/reference-api/src/migration-cell.ts:74-116 | A retired cell holds exactly the records that do not lead to the creator, each unchanged, every audit event, and the event of the retirement |
| `RetirementEffects.RetirementTakes` | apps/reference-api/src/migration-cell.ts:75-107 | Kind by kind, on the records' own fields: which records are gone after a retirement, and that all others stay as they are |
| `RetirementEffects.RetirementIsAudited` | apps/reference-api/src/migration-cell.ts:110-115 | One audit event about the creator is left for the checkpoint, an earlier one staying as it is |
| `Retirement.MigrationCell.Retire` | apps/reference-api/src/migration-cell.ts:74-116 | The ordered loops, stopped after any number of writes, leave a partial removal; run to the end, the retired cell; and it ends if the process survives more writes than there are records |
| `Retirement.MigrationCell.RetireThroughCrashes` | apps/reference-api/src/migration-cell.ts:74-116 | Stopped any number of times after any removals and then run with enough writes, it ends, with the records of one uninterrupted run |
| `Zip.EntryReadsBack` | packages/portability/src/website-artifact.ts:51-58 | Each central directory header points at its own entry's local header, and that reads back as the entry |
| `Zip.ArchiveRoundTrip` | packages/portability/src/website-artifact.ts:47-64 | Reading an archive through its central directory gives back every name and every byte, in order |
| `ZipEffects.LocalHeadersAre` | packages/portability/src/website-artifact.ts:54-55 | A local header byte for byte, as section 4.3.7 of APPNOTE has it |
| `ZipEffects.DirectoryHeadersAre` | packages/portability/src/website-artifact.ts:56-57 | A central directory header byte for byte, as section 4.3.12 has it |
| `ZipEffects.EndRecordsAre` | packages/portability/src/website-artifact.ts:61-62 | The end record byte for byte, as section 4.3.16 has it |
| `ZipEffects.ChecksumIsCrc32` | packages/portability/src/website-artifact.ts:49-49 | The checksum of nothing and of one byte are those of CRC-32 |
| `ZipEffects.NamesAreSafeExactly` | packages/portability/src/website-artifact.ts:52-52 | A name is safe if and only if its characters are letters, digits or `%_./-` and no piece between slashes or the ends is empty, a dot or two |
| `ZipStream.SortedByName` | packages/commerce-runtime/src/zip-stream.ts:15-15 | The assets are streamed in order of entry name |
| `ZipEffects.NamesCompare` | packages/commerce-runtime/src/zip-stream.ts:15-15 | One name comes before another if and only if it is a beginning of it or has the smaller UTF-16 unit where they first differ |
| `ZipEffects.NamesAre` | packages/commerce-runtime/src/zip-stream.ts:4-4 | An entry's name is the id, a dash and the label's first hundred units with all but plain ones replaced |
| `ZipEffects.Utf8Is` | packages/commerce-runtime/src/zip-stream.ts:6-6 | Names take one byte for ASCII and two to four for other characters, with the bytes UTF-8 gives them |
| `ZipEffects.PackagesAreTooLargeExactly` | packages/commerce-runtime/src/zip-stream.ts:5-7 | A package is refused by size if and only if it passes 65535 files, 4294967295 bytes in one, or in all |
| `ZipEffects.SizesAddUp` | packages/commerce-runtime/src/zip-stream.ts:6-6 | Each file adds its bytes, 76 for its headers and its name twice |
| `ZipEffects.PackagesAreRefusedExactly` | packages/commerce-runtime/src/zip-stream.ts:9-19 | Streaming fails if and only if the package is too large for its format or the limit, or some file has another length or checksum, an unsafe name or one that is too long |
| `ZipStream.PackagesFit` | packages/commerce-runtime/src/zip-stream.ts:5-7 | Within the limits every count, size and offset fits its 16- or 32-bit field, and the announced size is the archive's |
| `ZipStream.PackageReadsBack` | packages/commerce-runtime/src/zip-stream.ts:4-35 | The archive has exactly the announced size, and an independent reader gets each file's bytes under its name, in name order |
| `ZipStream.SingleParts` | packages/commerce-runtime/src/zip-stream.ts:19-19 | Cutting a one-entry archive where its end record says gives exactly its local part and its directory header |
| `ZipStream.StreamCommerceZip` | packages/commerce-runtime/src/zip-stream.ts:9-35 | The streaming loop fails with exactly the code's first error, or its chunks together are that archive with the announced size |
| `Transactions.CommitIsAllOrNothing` | adapters/aws/src/transactions.ts:45-81 | A commit turns the table into exactly itself overridden by the staged overlay, if and only if the transaction is open, nothing failed and every expected revision still stands; else it changes nothing |
| `Transactions.BatchIsOverlay` | adapters/aws/src/transactions.ts:37-41 | The batch of writes and the overlay that reads see always amount to the same table |
| `Transactions.CommittedRecordsMoveOneRevision` | adapters/aws/src/index.ts:47-52 | A committed record is unchanged, new at revision 1, at its expected revision plus one, or removed |
| `Transactions.SpoiltNeverWrites` | adapters/aws/src/transactions.ts:14-50 | After a failed inner operation, a foreign handle or the end, nothing the transaction does is ever written |
| `Transactions.RefusalSpoils` | adapters/aws/src/transactions.ts:23-43 | Every refused command leaves the transaction unable to commit |
| `Transactions.ReadsItsOwnWrites` | adapters/aws/src/transactions.ts:28-32 | While it is open, a point read returns the transaction's own write whatever other clients do |
| `TransactionEffects.ReadsSeeStagedThenStored` | adapters/aws/src/transactions.ts:28-32 | An open transaction's read gives what it staged under the key, or else what is stored |
| `TransactionEffects.UpdatesAreStagedExactly` | adapters/aws/src/index.ts:51-51 | An update is staged if and only if the transaction is open, the record read is at the expected revision, its key is not staged and fewer than 100 writes are; the new value is then staged at the next revision |
| `TransactionEffects.CreationsAreStagedExactly` | adapters/aws/src/index.ts:47-47 | A creation is staged, at revision 1, if and only if the transaction is open with room and the key not staged |
| `TransactionEffects.RemovalsAreStagedExactly` | adapters/aws/src/index.ts:52-52 | A removal is staged on the same condition |
| `TransactionEffects.CommitsStoreWhatWasStaged` | adapters/aws/src/index.ts:47-52 | After any further events, a commit that goes through stores exactly the new value at the next revision, the created one at 1, or nothing where it was removed |
| `TransactionEffects.CommitsGoThroughExactly` | adapters/aws/src/transactions.ts:45-81 | A commit goes through if and only if the transaction is open, nothing failed or threw and every staged condition holds; otherwise nothing is stored, and records not staged are left alone |
| `TransactionEffects.CaughtFailuresAbort` | adapters/aws/src/transactions.ts:14-50 | After a nested throw or a foreign handle, even caught, no later commit goes through |
| `TransactionEffects.HandlesPassExactly` | adapters/aws/src/transactions.ts:17-23 | A handle passes if and only if it is the open transaction's own |
| `TransactionalDynamoClass.TransactionalDynamo.Commit` | adapters/aws/src/transactions.ts:52-81 | Staging closes before the batch goes out, and fields and table end as specified |
| `RateLimit.PruningIsHarmless` | packages/auth/src/local-rate-limit.ts:15-17 | Dropping times outside the window loses nothing a later call counts |
| `RateLimit.WindowsNeverExceeded` | packages/auth/src/local-rate-limit.ts:13-22 | With a clock that does not run back, no window of that length, wherever it ends, holds more accepted calls than the limit |
| `RateLimit.LocalSlidingWindowRateLimiter.Check` | packages/auth/src/local-rate-limit.ts:9-23 | From the pruned list alone, a call is accepted exactly when fewer than the limit of all accepted calls lie in the window, other keys untouched |
| `RateLimit.RunKey` | packages/auth/src/local-rate-limit.ts:9-23 | A run of one key's calls accepts exactly what the unpruned history would, and never exceeds a window |
| `RateLimit.AtMostTheLimitInAnyWindow` | packages/auth/src/local-rate-limit.ts:9-23 | Counted by position: from nothing, at most the limit of a key's accepted calls lie in the window's length before any moment |
| `RateLimit.RecentAreThoseInWindow` | packages/auth/src/local-rate-limit.ts:15-15 | As many times are kept as lie less than the window ago |
| `RateLimit.RecentKeeps` | packages/auth/src/local-rate-limit.ts:15-15 | Each such time is kept as often as it was there, and no other |
| `Attachments.ListsStayInOrder` | adapters/local/src/creator-library.ts:212-380 | After any commits and saves a Work's list has distinct assets, position i at index i, and contains every asset its saved content mentions |
| `Attachments.AttachingAddsAtTheEnd` | adapters/local/src/creator-library.ts:293-354 | Either way of attaching adds its asset at the end of the one list, and an asset attached already stays where it is |
| `Attachments.DetachingTakesOnlyItsAsset` | adapters/local/src/creator-library.ts:237-267 | Detaching removes exactly its asset, and a list that is not empty keeps a primary asset of its own |
| `Attachments.OrderingGivesTheOrder` | adapters/local/src/creator-library.ts:268-292 | An accepted order is a permutation of the attached assets, and the list is then in that order |
| `AttachmentEffects.MembersAre` | adapters/local/src/creator-library.ts:246-246 | A Work's list is its stored row, or empty |
| `AttachmentEffects.UploadsAreAttachedExactly` | adapters/local/src/creator-library.ts:293-315 | An upload is attached if and only if the Work is the creator's, not deleted and as read, the row names them and the next position, and the asset is new; exactly the asset, the row and the Work's primary and revision change |
| `AttachmentEffects.SharedAssetsAreAttachedExactly` | adapters/local/src/creator-library.ts:324-353 | An asset of another Work is attached if and only if both Works are the creator's and live and the asset is his, private, processed, attached there and of the given checksum |
| `AttachmentEffects.AssetsAreDetachedExactly` | adapters/local/src/creator-library.ts:241-250 | Detaching goes through if and only if the reviewed Work has the asset and its saved content does not mention it |
| `AttachmentEffects.DetachingClosesUp` | adapters/local/src/creator-library.ts:251-258 | The other rows keep their order and move up by one, and the primary stays if listed and is else the first row left |
| `AttachmentEffects.OrdersGoThroughExactly` | adapters/local/src/creator-library.ts:272-287 | An order goes through if and only if it names every asset of the reviewed Work exactly once; every row then has its place and keeps its role |
| `AttachmentEffects.PrimariesAreSetExactly` | adapters/local/src/creator-library.ts:216-232 | A primary is set if and only if it is the creator's private asset attached to the reviewed Work; roles alone change |
| `AttachmentEffects.WorksAreSavedExactly` | adapters/local/src/creator-library.ts:362-380 | A Work is created without references under a free id and slug, and saved if and only if it is at the next revision, its slug is free and all it mentions is attached, private and not deleted |
| `CreatorLibraryClass.LocalCreatorLibraryStore.CommitAssetAttachment` | adapters/local/src/creator-library.ts:293-323 | Rows change as specified or not at all |
| `CreatorLibraryClass.LocalCreatorLibraryStore.CommitExistingAssetAttachment` | adapters/local/src/creator-library.ts:324-354 | Rows change as specified or not at all, and not when attached already |
| `CreatorLibraryClass.LocalCreatorLibraryStore.CommitAssetDetachment` | adapters/local/src/creator-library.ts:237-267 | Filter, sort and renumbering loops give the specified rows, or nothing changes |
| `CreatorLibraryClass.LocalCreatorLibraryStore.CommitAssetOrder` | adapters/local/src/creator-library.ts:268-292 | The reordered rows are as specified, or nothing changes |
| `CreatorLibraryClass.LocalCreatorLibraryStore.CommitPrimaryAsset` | adapters/local/src/creator-library.ts:212-236 | Roles and Work change together as specified, or nothing changes |
| `CreatorLibraryClass.LocalCreatorLibraryStore.UpdateWork` | adapters/local/src/creator-library.ts:367-380 | A save takes effect exactly at the next revision, with every reference attached and its slug free |
| `Money.ConversionIsExact` | packages/commerce/src/model.ts:95-109 | A decimal string converts to v if and only if it denotes exactly v minor units of a supported currency and v is a safe integer |
| `Money.AmountsRoundTrip` | packages/commerce/src/model.ts:101-114 | Every safe amount survives being written out and read back |
| `MoneyEffects.CurrenciesAre` | packages/commerce/src/model.ts:95-100 | Exactly three currencies have no decimals, exactly the other listed ones have two, and no other is taken |
| `MoneyEffects.AmountsAre` | packages/commerce/src/model.ts:103-103 | An amount is digits, or digits on both sides of one point, and nothing else |
| `MoneyEffects.ValueByDigits` | packages/commerce/src/model.ts:106-106 | Each digit written counts ten times what comes before it |
| `MoneyEffects.AmountsAreWrittenExactly` | packages/commerce/src/model.ts:110-114 | A safe amount is written with exactly the currency's decimals and no needless zero in front, and denotes it |
| `Calendar.CivilOfDayNumber` | packages/commerce/src/model.ts:117-121 | Gregorian dates and day numbers are inverse |
| `Calendar.DaysFollowTheCalendar` | packages/commerce/src/model.ts:117-121 | Day 0 is 1 January 1970, months have their Gregorian lengths and each date is the day after the one before it |
| `Calendar.PeriodEndsInItsMonth` | packages/commerce/src/model.ts:116-121 | A period ends in the month exactly count on, on the clamped day, at the same time of day |
| `Calendar.PeriodsKeepDateOrder` | packages/commerce/src/model.ts:116-121 | A later calendar date never gives an earlier end date |
| `Calendar.PeriodsGrowWithCount` | packages/commerce/src/model.ts:116-121 | More months or years always end strictly later |
| `Calendar.PeriodsKeepInstantsExactly` | packages/commerce/src/model.ts:116-121 | Instants change places if and only if the starts are dates of one month, the same or both at or past the last day of the month the period ends in, and the later start has the earlier time of day |
| `Calendar.PeriodsMayReorderInstants` | packages/commerce/src/model.ts:116-121 | 30 January 23:00 and 31 January 01:00 change places a month on, in every year |
| `Calendar.SubscriptionPeriodEnd` | packages/commerce/src/model.ts:117-121 | The sequence of in-place UTC setters, leap years and year ends included, computes that period end |

## Left out

- HTTP handlers, pages, Lambda bridges, media tools, mail, Discord delivery and provider clients around these components are plumbing and not part of this model.
- Snapshot store, encryption: sealing is any function with an inverse and the checksum any function; authentication failures are not modelled. The plaintext JSON document is a map of records.
- Snapshot store, domain transactions: the record-level checks inside `transaction`, and the PayPal connection methods, are one arbitrary operation on the document.
- Snapshot store, locks: one lock key per operation, since only the innermost is fenced. Lock renewal is a step other events may take at any time, not a timer of `WithLock`.
- SnapshotClient.DynamoCommerceStore.Rows: meets rows one at a time with others acting in between; page boundaries of the query are not represented.
- Snapshot store, HEAD removal: nothing in the code removes HEAD, and neither does any step.
- Ledger: sums of safe integers are exact here, where the code's doubles would round beyond 2^53; timestamps are integers in the order of their ISO strings; ids come from the built-in counter, not a caller's `createId`.
- LedgerTheorems.LotsAgreeWithLog: assumes callers' ids have no bar, their keys avoid `reserve:`, `commit:`, `release:` and `expire:`, their categories avoid the ledger's own, and grant keys were not used for usage; `RunsAgreeExactlyWhenLoggable` has the exact condition.
- Commerce: one clock reading is taken per transaction; hashed ids are structured keys; jobs, audit entries, packages under preparation, dispute and notification ids and titles are not represented; benefits are the same when their fields are, where the code compares JSON text and so the order of properties. Evidence e-mail addresses are proper or malformed, after normalisation.
- Commerce, offers, checkouts, mappings, customers and claims: written elsewhere in the service by code outside this model, so a run may replace them arbitrarily between transactions; purchases, payments, gifts and grants only change through the modelled transactions.
- CommerceRevisions.RevisionReachesEachAlone: the orders visited list every active purchase and claimed gift once, as the store's listing does; the transaction class takes any order.
- Commerce, `refreshCollection`: preparing a new offer version is left out; applying it (`updateAccessContents`) is modelled for every offer.
- CommerceServiceClass.CommerceService.ManualGrant: the benefit's resource checks and the reason text are left out; its asset list is a parameter.
- CommerceServiceClass.CommerceService.Revoke: creator authorization, the owner check and the reason are left out, so it may revoke any grant.
- CommerceEvidence.EvidenceConfluent: that the refunded amount is the same in every order is proved when refunds agree on amounts. Without that it can still agree by coincidence, when different choices of amounts have equal totals or a larger amount is stated anyway, so only the completed refunds get an exact condition.
- CommerceOrder.VerdictConfluentExactly: which verdicts can be reached before exceeding the payment depends on sums over parts of the evidence, so the condition names such a part; for a reversal `ReversedInSomeOrderExactly` has a guard on single pieces. It takes refunds that agree on amounts and evidence that is all acceptable.
- Hosting: one workspace; fields no store method reads are opaque; bindings, connections, plans and domains may be replaced arbitrarily between calls. A remote root another workspace manages is just foreign.
- HostingTheorems.AttemptsAreNumbered: assumes callers write back attempts with identity and generation unchanged and create targets unlocked at generation 0, as the publishing code, which is not part of this model, has to.
- Jobs: payloads, error records, schedules, notifications and the PostgreSQL queue (which does not bound crashed attempts) are left out. Tokens are fresh; a DynamoDB owner is a worker and a token rather than their joined text.
- SqliteJobs.AttemptsAreBounded: assumes no claim lands when its lease is already over for a call between its two sweeps; `AttemptsAreBoundedExactly` has the exact condition.
- Jobs, times: integers instead of ISO strings; `recoveries` and `handed` count the past for the proofs and no condition reads them.
- Retirement: removal of stored objects (whose failures the code swallows), the import and export branches, and writers active during a retirement are left out; repository revisions are taken to match.
- ZIP: which characters outside ASCII are letters or digits is any predicate, and names and labels are sequences of Unicode characters, so unpaired surrogates do not occur; the hash is any function; CRC-32 is computed bit by bit as in the code, but nothing is claimed about the errors it detects.
- Transactions: network failures that leave the batch's fate unknown, the mapping of cancellation reasons to error classes, copying of items and queries through the index are left out. Revisions restart at 1 when a removed record is made again, so "moves one revision" is about one commit.
- Rate limit: the clock and the window are integers; each key is used with one window and limit.
- Attachments: one tenant; whether a slug is free is given; titles, job enqueueing and cancellation and the queries for processed sources are left out; the asset ids a Work's content mentions are given rather than parsed.
- Calendar: time values are unbounded integers, without the range limit of a Date; invalid starts and counts that are not integers are left out.
- Simple stores (comments, favorites, follows, members, lookups) and shape validation would only add easy members.
