# A verified model of the wallet service

A wallet has three buckets of money: available, locked (held for a payout) and pending (a deposit under way).
Deposits, withdrawals, transfers and provider payments move money between them, each inside one database transaction
that also writes Transaction, LedgerEntry, OutboxEvent and PaymentLog rows. Refresh tokens, with their rotation, grace
period and session limit, form a second state machine. The model covers both, the outbox processor between the money
core and the payment providers, and keyset pagination.

The money core is modelled at three levels, each connected to the next by proof.

1. **In place.** `Services.dfy` and `Processor.dfy` are the service classes, statement after statement on the tables of
   `Database.dfy`, rolled back on the first exception. Every method is proved equal to one operation of `Operations.dfy`.
2. **Atomic.** `Operations.dfy` says what each operation does to the whole database, or which error it ends with.
   `Outcomes.dfy` says the same in the columns of the tables: when each request commits, which guard refuses it, what
   is written. `Invariants.dfy`, `Runs.dfy` and `History.dfy` prove what every operation and every run keeps.
3. **Concurrent.** `Programs.dfy` gives every operation as the statements its transaction issues, with locks and
   buffered writes. `Undisturbed.dfy` proves that a program run alone is its operation, `Locking.dfy` that every program
   locks what it uses in one global order. `Interleaving.dfy`, `Serializability.dfy` and `Deadlock.dfy` prove what holds
   of any number of requests whose statements interleave, wait, fail from outside or arrive at any time.

`Outbox.dfy` and `Waiting.dfy` prove what batches of the outbox processor do and how long an event can wait,
`Stubborn.dfy` that an event can wait that long.

The refresh-token machine is `Sessions.dfy` (its atomic steps under any interleaving), `SessionOutcomes.dfy` (what each
call answers and writes, in the columns of the token table), `Evictions.dfy` (session creation
with a stale choice), `Refresh.dfy` (refresh and logout as sequences of steps, and what deleted rows change),
`RefreshThreads.dfy` and `LogoutThreads.dfy` (any number of refreshes and logouts at once, acting on what they found
earlier), `Cleanup.dfy` (the batched deletion with anything happening in between) and `TokenStore.dfy` (the repository
and service classes). `Pagination.dfy` is the chaining of cursors. `Schema.dfy` holds the rows and `Sums.dfy` the sums
over tables.

## Where the code and its documentation disagree

* `deposit` and `withdraw` document a second, settling phase (`src/modules/transaction/transaction.service.ts:68-74`,
  `147-155`). They use provider INTERNAL, for which the registry has no adapter, so the phase never comes:
  `Runs.ClosableIff` says exactly which open rows can be settled or failed in a given state,
  `Runs.InternalRequestStaysOpen` that what a committed `deposit` or `withdraw` opened stays INITIATED, its money pending
  or locked, in every continuation, `Outbox.InternalIsOnlyRetried` that its event only uses up retries.
* A deposit whose provider call succeeded is documented to settle (`src/modules/payment/payment-processor.service.ts:31-36`).
  A PayPal deposit that brings a Braintree customer id held by another user is undone by the unique index at every
  attempt instead: `Runs.SettlementCommitsIff` has the exact condition, `Runs.CustomerNineClashes` an input,
  `Outbox.TakenCustomerIsRetried` what the processor makes of it.
* A client that retries after a lost response is promised the pair of its first refresh
  (`src/modules/auth/session.service.ts:94-99`). The pair is cached only after the rotation has committed, so a retry in
  between, or after a failed cache write, is refused; one later than the grace period is taken for theft.
  `Refresh.RetryAfter` is the exact answer, `Refresh.RetryBeforeTheWrite` a refused retry after one millisecond.
* The session limit fails in two ways. A rotation that comes later than the classification it relies on adds a session
  if its token has expired since (`Sessions.RotationAddsSessionIff` is the exact condition for the rotation,
  `Sessions.LateRotationBreaksBound` a run). A creation that evicts later than it chooses exceeds the limit if the
  chosen session was rotated in between and no other ended (`Evictions.LateCreationExceedsIff`,
  `Evictions.LateEvictionBreaksBound`). The same late eviction rewrites a revocation time already set.
* A logout answers "logged out" although the session goes on if the token is rotated between its finding and its
  revocation (`LogoutThreads.SessionSurvivesIff`, with the run `LogoutThreads.LogoutLosesTheRace`). The token can even be
  replayed if the pair is cached after logout cleared the cache (`LogoutThreads.ReplayableAfterClearIff`).
* Deleting expired tokens is invisible to refresh and to the session count unless it deletes a token between a refresh's
  classification and its rotation, or between a creation's choice and its eviction, which then throw (`Refresh.RunKeepsCleanedIff` is the exact condition,
  `Refresh.SweptBeforeItsRotation` such a run, `Refresh.LostRotationIsVisible` what a client notices). Logout always
  answers differently for a deleted and for an expired token (`Refresh.CleanupChangesLogoutIff`).

## Model

| member | source | states |
|---|---|---|
| Serializability.Serializable | src/modules/transaction/transaction.service.ts:266-327 | after every interleaving of statements, lock waits, outside failures and arrivals, the committed tables are those of running the committed operations one at a time in commit order, and every balance, ledger, log and outbox invariant holds |
| Serializability.StepsAreAtomic | src/modules/payment/payment.repository.ts:31-37 | the step that commits is the whole operation applied to the state found at that moment; no other step of anyone changes the database |
| Serializability.RefusalsAreCurrent | src/modules/wallet/wallet.repository.ts:254-268 | in every interleaving a request refused by a step of its own would be refused, with that error, if the whole operation ran at that moment |
| Serializability.OneCommitPerKey | prisma/schema.prisma:113 | of all interleaved requests with one idempotency key, however many passed the pre-check before the first insert, at most one commits, and one has exactly when the key was created since the start |
| Serializability.RepliesCarryTheKey | src/modules/transaction/transaction.service.ts:239-251 | in every interleaving a request answered with an existing row got the row carrying its own key, and no other row carries it |
| Serializability.FirstStep | src/modules/transaction/transaction.service.ts:234-251 | in every interleaving the first step of a request refuses a transfer to oneself, answers a key that has a row with that row, and otherwise enters the transaction with nothing done; the tables stay as they are |
| Serializability.LateArrivalsAreReplayed | src/modules/transaction/transaction.service.ts:79-92 | a request that arrives once its key has a row is never refused, unless from outside: it is answered with the row |
| Serializability.OneSettlementPerRow | prisma/schema.prisma:155 | of all interleaved settle and fail calls for a transaction at most one commits, and one has exactly when the row is SETTLED or FAILED by a provider |
| Interleaving.LockedRowsStayCurrent | src/modules/wallet/wallet.repository.ts:219-250 | whatever step anyone else takes, a transaction's locked wallet, transaction and event rows stay as they are, its locked keys and logs stay taken or free, and nobody takes its locked customer id, until it ends |
| Interleaving.CommitIsTheOperation | src/modules/transaction/transaction.service.ts:266-327 | a buffer built from reads spread over time is, when it is applied, exactly what the operation does to the tables found at commit |
| Interleaving.RefusalIsCurrent | src/modules/wallet/wallet.repository.ts:254-268 | a guard or unique index that refuses a running transaction would refuse the operation, with the same error, if it ran alone at that moment |
| Interleaving.NextKeepsCoherent | src/modules/transaction/transaction.service.ts:266-327 | every action keeps the lock table exact, every running transaction's reads current, the committed state serial and the money invariants true |
| Undisturbed.ProgramAlone | src/modules/transaction/transaction.repository.ts:89-294 | the statements of each of the nine operations, run alone in order, have exactly the operation's effect or error |
| Programs.BufferedRunIsUndisturbedRun | src/modules/transaction/transaction.repository.ts:59-65 | buffering writes and applying them at commit equals writing at once, error for error, when nobody interferes |
| Locking.ProgramsAreDisciplined | src/modules/transaction/transaction.service.ts:267-280 | every operation holds the lock of whatever it reads or writes before it does so, and takes its locks in one global order: wallets by id, key, transaction row, log, outbox row, customer id |
| Locking.RunDependsOnHeld | src/modules/wallet/wallet.repository.ts:219-250 | the buffer a transaction has built depends on nothing but the resources it has locked |
| Locking.ApplyStaysInside | src/modules/wallet/wallet.repository.ts:272-357 | a commit changes no row, takes no key and no log, and takes no customer id outside the locks it was made under |
| Deadlock.NoWaitCycle | src/modules/transaction/transaction.service.ts:267-280 | no path of the wait-for graph of a reachable state returns to its start |
| Deadlock.SomeoneCanStep | src/modules/transaction/transaction.service.ts:226-233 | while any request is unfinished some request can take its next step |
| Deadlock.EveryoneCanFinish | src/modules/transaction/transaction.service.ts:266-327 | from any reachable state there is a schedule, no longer than the work left, after which every request has its answer |
| Deadlock.EverySchedule | src/modules/transaction/transaction.service.ts:266-327 | every schedule without new arrivals is at most as long as the work left, and when it can go no further all have finished |
| Invariants.StepKeepsInv | src/modules/payment/payment-settlement.service.ts:152-368 | every operation, committed or rolled back, keeps: buckets equal the transaction table's sums, no bucket negative or out of its column's range, ledger reconciled, keys, logs and customer ids unique, logs and statuses in agreement, events and transactions in agreement, rows and entries in the currency of their wallets |
| Invariants.SettlementKeepsRange | src/modules/payment/payment-settlement.service.ts:298-302 | the unguarded decrements of settle and fail leave no bucket negative as long as the buckets are the table's sums and the row is INITIATED |
| Invariants.UnloggedIsInitiated | prisma/schema.prisma:153-162 | a deposit or withdrawal is INITIATED exactly when it has no payment log, so the unique log index guards what no status check guards |
| Invariants.TransferKeepsWallet | src/modules/transaction/transaction.service.ts:282-326 | a committed transfer leaves every wallet, sender, receiver or bystander, equal to its table sums, reconciled with its ledger and in range |
| Invariants.WithdrawKeepsWallet | src/modules/payment/payment.service.ts:208-305 | a committed withdrawal or payout leaves every wallet equal to its table sums, reconciled with its ledger and in range, whether its ledger entry is written now or at settlement |
| Invariants.DepositKeepsWallet | src/modules/payment/payment.service.ts:129-181 | the same for a committed deposit, INTERNAL or provider-backed |
| Outcomes.DepositAnswers | src/modules/transaction/transaction.service.ts:79-143 | deposit commits if and only if the key is new, the user has an ACTIVE wallet in the currency and pending plus amount fits; every other answer names the first guard that failed, or the existing row, and leaves the tables alone; on commit the whole new tables |
| Outcomes.ConfirmDepositAnswers | src/modules/payment/payment.service.ts:108-181 | the same for confirmDeposit, whose row has the provider and which writes no ledger entry |
| Outcomes.WithdrawAnswers | src/modules/transaction/transaction.service.ts:156-222 | the same for withdraw, with the available balance covering the amount and locked plus amount fitting |
| Outcomes.CreatePayoutAnswers | src/modules/payment/payment.service.ts:208-305 | the same for createPayout, with the payout destination linked |
| Outcomes.TransferAnswers | src/modules/transaction/transaction.service.ts:234-340 | the same for transfer: not to oneself, two ACTIVE wallets in the currency, funds, and room on the other side; on commit the sender's available falls and the recipient's rises by the amount |
| Outcomes.CommittedIffAppended | src/modules/transaction/transaction.repository.ts:89-294 | a request is told "committed" if and only if exactly one row with its key, amount and currency is new; otherwise nothing changed |
| Outcomes.DepositGuards | src/modules/wallet/wallet.repository.ts:252-268 | the error of a deposit whose pre-check was stale, each if and only if |
| Outcomes.WithdrawGuards | src/modules/payment/payment.service.ts:233-272 | the same for withdrawals and payouts |
| Outcomes.TransferGuards | src/modules/transaction/transaction.service.ts:282-290 | the same for transfers |
| Outcomes.SettleAnswers | src/modules/payment/payment-settlement.service.ts:69-85 | settle commits if and only if the row is INITIATED, a deposit's amount fits available and a PayPal deposit's customer id is no other user's; otherwise nothing changed |
| Outcomes.SettleWrites | src/modules/payment/payment-settlement.service.ts:152-288 | the whole tables after a committed settle |
| Outcomes.FailAnswers | src/modules/payment/payment-settlement.service.ts:119-134 | fail commits if and only if the row is INITIATED and a payout's amount fits available again; otherwise nothing changed |
| Outcomes.FailWrites | src/modules/payment/payment-settlement.service.ts:292-368 | the whole tables after a committed fail |
| Outcomes.NoAnswerIsRetried | src/modules/payment/payment-processor.service.ts:121-157 | an event without user, row or resolvable provider, or whose provider throws, gets one more retry and nothing else changes |
| Outcomes.AcceptedIsDelivered | src/modules/payment/payment-processor.service.ts:168-169 | success with a webhook to come marks the event delivered and changes nothing else |
| Outcomes.DoneIsSettled | src/modules/payment/payment-processor.service.ts:188-201 | success without webhook makes the row SETTLED and the event delivered exactly when settle can commit, and else is one more retry |
| Outcomes.RefusedIsFailed | src/modules/payment/payment-processor.service.ts:178-201 | failure makes the row FAILED and the event delivered exactly when fail can commit, and else is one more retry |
| Runs.BalancesInEveryRun | src/modules/wallet/wallet.repository.ts:272-357 | from registration on, in every run: pending and locked are the INITIATED deposits and withdrawals, available is settled deposits plus transfers in minus transfers out minus withdrawals not failed, none is negative, and their sum is credits minus debits plus what the two initiation paths post late or early |
| Runs.MoneyIsConserved | src/modules/wallet/wallet.repository.ts:272-357 | in every run and for each currency, all money in the wallets of that currency is the deposits in it not failed minus the withdrawals in it settled |
| Runs.SettlementCommitsIff | src/modules/payment/payment-settlement.service.ts:69-134 | settle or fail with any stale context commits if and only if the row is still INITIATED, the raised balance fits its column and the customer id of a PayPal deposit is no other user's, and then stamps the status it was called for |
| Runs.CustomerClash | src/modules/payment/payment-settlement.service.ts:207-216 | of two open PayPal deposits that bring the same customer id the first to settle commits and the other is then undone, though it would commit without the id |
| Runs.CustomerNineClashes | prisma/schema.prisma:68 | an input: that happens to two deposits under way |
| Runs.SettledAtMostOnce | src/modules/payment/payment-settlement.service.ts:69-134 | over any run at most one settlement of a transaction commits; one has exactly when the row is closed, and its payment log carries the row's status |
| Runs.StepExtends | src/modules/payment/payment-settlement.service.ts:152-368 | no operation rewrites a transaction's columns, reopens a closed one, drops a ledger entry or log, un-delivers an event or lowers its retry count |
| Runs.StaleContextStaysCallable | src/modules/payment/payment-processor.service.ts:133-157 | a context read earlier in a run still describes its row later, except for the status |
| Runs.OneEffectPerKey | src/modules/transaction/transaction.service.ts:239-251 | over any run, pre-checks stale or not, one request per key commits at most, and once a key is taken every other request with it leaves the database as it was |
| Runs.ReplayReturnsTheRow | src/modules/transaction/transaction.service.ts:80-92 | a repeated request at any later point returns the row the first one created and changes nothing |
| Runs.ClosableIff | src/modules/transaction/transaction.service.ts:67-78 | some caller can settle (or fail) an INITIATED deposit or withdrawal in the state at hand if and only if its provider is not INTERNAL and the balance it raises, if any, fits its column |
| Runs.InternalRequestStaysOpen | src/modules/transaction/transaction.service.ts:147-155 | once a deposit() or withdraw() has committed, its row is INITIATED in every continuation and the user's pending or locked bucket holds its amount |
| Runs.InternalNeverCloses | src/modules/payment/providers/registry/payment-provider.registry.ts:44-53 | an INTERNAL deposit or withdrawal is never settled or failed in any continuation, and its money never leaves pending or locked |
| History.BalanceAfterIsFaithful | src/modules/payment/payment-settlement.service.ts:158-192 | in every run each ledger entry's balanceAfter is the available, locked or pending balance that the documented moves up to its commit add up to |
| History.StepBalances | src/modules/payment/payment-settlement.service.ts:52-67 | the row updates of every committed operation are the moves its documentation lists, wallet by wallet and bucket by bucket |
| Schema.FindByKey | src/modules/transaction/transaction.repository.ts:69-75 | finds a row exactly when the key is taken, and a row with that key |
| Database.Store.UpdateWallet | src/modules/wallet/wallet.repository.ts:272-357 | moves the three buckets of one wallet and returns the new row; a missing row or a column overflow changes nothing |
| Database.Store.CreatePaymentLog | src/modules/payment/payment.repository.ts:98-111 | inserts exactly when the row has no log yet |
| Database.Store.UpsertBraintreeCustomerId | src/modules/user/users.repository.ts:196-216 | succeeds if the user has the id already, or exists and nobody else has it, and otherwise changes nothing |
| Services.TransactionService.Deposit | src/modules/transaction/transaction.service.ts:79-143 | outcome and tables are those of the atomic deposit: replay, commit, or every half-done statement undone |
| Services.TransactionService.Withdraw | src/modules/transaction/transaction.service.ts:156-222 | outcome and tables are those of the atomic withdrawal |
| Services.TransactionService.Transfer | src/modules/transaction/transaction.service.ts:234-340 | outcome and tables are those of the atomic transfer, in whichever order the two wallets are locked |
| Services.PaymentService.ConfirmDeposit | src/modules/payment/payment.service.ts:108-181 | outcome and tables are those of the atomic provider deposit |
| Services.PaymentService.CreatePayout | src/modules/payment/payment.service.ts:208-305 | outcome and tables are those of the atomic payout; a missing payout destination undoes the balance update already made |
| Services.PaymentSettlementService.Settle | src/modules/payment/payment-settlement.service.ts:69-99 | outcome and tables are those of the atomic settlement; a second one for the row is undone by the log index, one with a taken customer id by that index, after the balances were moved |
| Services.PaymentSettlementService.Fail | src/modules/payment/payment-settlement.service.ts:119-148 | outcome and tables are those of the atomic failure |
| Processor.PaymentProcessorService.ProcessEvent | src/modules/payment/payment-processor.service.ts:119-202 | the tables after one event are those of the one operation its decision matrix picks, with every exception ending in a retry |
| Processor.PaymentProcessorService.ProcessBatch | src/modules/payment/payment-processor.service.ts:88-103 | the tables after a batch are those of processing the oldest pending events in order |
| Outbox.FetchedIff | src/modules/payment/payment.repository.ts:53-68 | an event is fetched if and only if it is undelivered, tried fewer than 5 times, of type DEPOSIT_INITIATED or WITHDRAWAL_INITIATED, and fewer than 100 earlier events are all that too |
| Outbox.FetchedOldestFirst | src/modules/payment/payment.repository.ts:65 | a batch is in order of creation |
| Outbox.EventsEffect | src/modules/payment/payment-processor.service.ts:119-202 | every event of a batch ends delivered or with exactly one more retry; every other event is unchanged |
| Outbox.EventsKeepInv | src/modules/payment/payment-processor.service.ts:88-103 | a batch keeps every money invariant and rewrites no history, whatever the providers answer |
| Outbox.BatchDrains | src/modules/payment/payment-processor.service.ts:88-103 | the attempts left over all pending events fall by at least one for each event in the batch, and the batch is empty exactly when nothing is pending |
| Outbox.InternalIsOnlyRetried | src/modules/payment/payment-processor.service.ts:155-157 | an event of an INTERNAL transaction is only ever retried |
| Outbox.TakenCustomerIsRetried | src/modules/payment/payment-processor.service.ts:188-201 | a PayPal deposit the provider settled with a customer id of another user is only retried |
| Outbox.UndeliveredIsInitiated | src/modules/payment/payment-settlement.service.ts:194-205 | in every run an undelivered deposit or withdrawal event means its transaction is INITIATED |
| Waiting.BoundedWaiting | src/modules/payment/payment.repository.ts:53-68 | an event with k older pending ones is tried, or found delivered, by batch 5 * (k div 100) + 1, whatever the providers answer and however many newer events arrive |
| Stubborn.BoundIsAttained | src/modules/payment/payment.repository.ts:53-68 | for every k there is a run of the processor, from a database satisfying every money invariant, in which the event is not tried before that batch |
| Waiting.BusyBatchIsRound | src/modules/payment/payment-processor.service.ts:88-103 | a batch of the processor, with anybody else's operations committing before, between and after its events, is one of the rounds the waiting bound speaks of |
| Waiting.EveryEventIsTried | src/modules/payment/payment-processor.service.ts:60-103 | the waiting bound for the processor itself: over any sequence of batches with any answers and any commits of others during and between them |
| Waiting.NewRequestIsTried | src/modules/payment/payment.repository.ts:53-68 | the event of a committed confirmDeposit or createPayout is eligible at once, and with n eligible ones before it is fetched or found delivered by batch 5 * (n div 100) + 1 |
| Waiting.RetriesStayCapped | src/modules/payment/payment.repository.ts:83-88 | over any such sequence no retry count ever exceeds 5 |
| Waiting.QuietEvents | src/modules/payment/payment-processor.service.ts:98-100 | with nobody else committing, such a batch is the processor's own loop |
| Sessions.LifecycleIsMonotone | src/modules/auth/auth.repository.ts:127-169 | in every run without a late eviction of it, a handed-out token's classification only moves forward through ACTIVE, GRACE_PERIOD, REUSE_DETECTED, EXPIRED, NOT_FOUND, and its revocation time never changes once set |
| Sessions.StepMovesBackIff | src/modules/auth/auth.repository.ts:194-207 | a step rewrites a revocation time if and only if it evicts by id a token revoked since it was chosen, at a later instant; it moves a classification back if and only if it does so to a token classified REUSE_DETECTED |
| Sessions.NeverActiveAgain | src/modules/auth/auth.repository.ts:127-169 | in every run at all a token that is not active never is again, and an expired one stays expired |
| Sessions.ReuseIsSeenIff | src/modules/auth/auth.repository.ts:121-152 | a revoked token left alone is at some moment classified REUSE_DETECTED if and only if it has not expired and outlives its grace period; otherwise it only ever expires |
| Sessions.RotationIsLinear | src/modules/auth/auth.repository.ts:87-109 | in every run a rotated token keeps its one successor, shares it with no other token and can never rotate again |
| Sessions.ReplayIsExact | src/modules/auth/session.service.ts:124-166 | in every run what the cache yields for a revoked token is nothing or the very pair its rotation minted, and nothing at all for a token revoked otherwise |
| Sessions.SessionBound | src/modules/auth/auth.repository.ts:176-216 | in every run whose refreshes classify and rotate, and whose creations choose and evict, at one instant no user has more active tokens than the limit |
| Evictions.LateCreationExceedsIff | src/modules/auth/auth.repository.ts:188-212 | a creation that chooses, waits under its user's advisory lock while anything else happens, and then evicts and inserts exceeds the limit if and only if its choice was rotated in between, still has its row, and the user still has as many sessions as the limit |
| Evictions.LateCreationRewritesIff | src/modules/auth/auth.repository.ts:195-204 | it rewrites its choice's revocation time if and only if the choice was revoked in between, at an earlier instant; within 10 s of the choice that moves no classification back |
| Evictions.PromptEvictionsAreNotLate | src/modules/auth/auth.repository.ts:188-212 | creations that choose and evict at one instant never hit a revoked token |
| Evictions.LateEvictionBreaksBound | src/modules/auth/auth.repository.ts:201-204 | an input: a limit of one, exceeded by a session rotated between choice and eviction, whose revocation time changes from 1 to 2 |
| Sessions.RotationAddsSessionIff | src/modules/auth/auth.repository.ts:96-99 | a rotation adds an active session if and only if the token it replaces has expired in the meantime |
| Sessions.LateRotationBreaksBound | src/modules/auth/auth.repository.ts:96-99 | a three-step run from a state within a limit of one to two active sessions |
| Sessions.StepKeepsAuth | src/modules/auth/auth.repository.ts:87-169 | every step keeps: rotated tokens revoked, successors distinct, cached pairs equal to the minted ones |
| Refresh.SecondRefreshRepeats | src/modules/auth/auth.service.ts:132-148 | refreshing again with a used token, after anything at all, returns the first refresh's pair or is denied |
| SessionOutcomes.RefreshAnswersIff | src/modules/auth/auth.service.ts:110-177 | each answer of refresh if and only if, in the token's expiry and revocation time, the user's state and the cache |
| SessionOutcomes.RefreshedWrites | src/modules/auth/auth.repository.ts:87-109 | a refresh answered with a new pair revokes the token now, adds its successor and caches the pair for 10 s; no other row changes |
| SessionOutcomes.OtherAnswersWrite | src/modules/auth/auth.service.ts:132-158 | a replay or a denial other than for a breach changes no token |
| SessionOutcomes.BreachEndsSessions | src/modules/auth/auth.service.ts:120-130 | a refresh answered with a breach leaves the token's owner no active session: every unrevoked token of the owner is revoked now, every other row is untouched |
| SessionOutcomes.TheftEndsSessions | src/modules/auth/auth.service.ts:192-199 | so does a logout that reports a theft |
| SessionOutcomes.BreachIsFinal | src/modules/auth/auth.repository.ts:163-169 | none of the owner's tokens that had not been rotated is refreshed in any continuation of the breach |
| SessionOutcomes.TheftIsFinal | src/modules/auth/auth.repository.ts:163-169 | the same after a logout that reports a theft |
| SessionOutcomes.LogoutAnswersIff | src/modules/auth/auth.service.ts:187-214 | each answer of logout if and only if, in the token's owner, expiry and revocation time |
| SessionOutcomes.LogoutWrites | src/modules/auth/auth.service.ts:206-211 | a logout carried out revokes the token exactly if it is live, and drops what is cached for it |
| SessionOutcomes.ChoiceIsOldest | src/modules/auth/auth.repository.ts:188-199 | a session is chosen for eviction exactly when the user has as many live ones as the limit, and none of them is older |
| SessionOutcomes.CreationWrites | src/modules/auth/auth.repository.ts:200-214 | eviction and insert revoke the chosen row and add the new one; if the chosen row is gone nothing changes |
| Refresh.RevokedNeverRefreshes | src/modules/auth/auth.service.ts:110-177 | a token revoked by logout, eviction or revoke-all is denied in every continuation |
| Refresh.LoggedOutStaysOut | src/modules/auth/auth.service.ts:181-214 | a token its owner logged out, with nothing else happening between the logout's steps, is denied in every continuation |
| LogoutThreads.SessionSurvivesIff | src/modules/auth/auth.service.ts:187-211 | among any refreshes and other steps, a logout that found its token active leaves the session alive if and only if the token was rotated between finding and revocation: then the revocation changes no token, the successor included; else the token never has a successor and is always denied |
| LogoutThreads.ReplayableAfterClearIff | src/modules/auth/auth.service.ts:206-211 | once logout has cleared the cache, a token in its grace period can still be replayed in some continuation if and only if the cache write of its rotation is still to come |
| LogoutThreads.ReplayableInTraceIff | src/modules/auth/session.service.ts:65-72 | at any moment, after a logout too, a token in its grace period can be replayed in some continuation if and only if its pair is cached or its cache write still to come |
| LogoutThreads.LogoutLosesTheRace | src/modules/auth/auth.service.ts:206-211 | an input: a logout answered "logged out" whose token is replayed afterwards and whose session goes on |
| LogoutThreads.UndisturbedLogout | src/modules/auth/auth.service.ts:181-214 | a logout whose steps follow one another at one instant answers and leaves the state as the one-instant model does |
| Refresh.RetryAfter | src/modules/auth/session.service.ts:65-72 | what a retry gets, for every delay of the cache write and every wait: a plain denial once the token has expired, a breach report after 10 s, else the same pair if and only if the write has happened and less than 10 s have passed since it |
| Refresh.RetryBeforeTheWrite | src/modules/auth/session.service.ts:94-99 | an input: a retry one millisecond after its rotation, before the cache write, is denied, and replayed once the write has happened |
| Refresh.RunKeepsCleanedIff | src/modules/auth/auth.repository.ts:218-242 | over every later run, deleting expired rows leaves everything but those rows as it would have been if and only if no step of the run rotates an unrevoked token, or evicts a chosen one, that the clean-up took |
| Refresh.CleanupIsInvisible | src/modules/auth/auth.repository.ts:218-242 | over every later run in which nothing is lost that way, every refresh answer and every user's active sessions are as without the clean-up |
| Refresh.AtomicRunsLoseNothing | src/modules/auth/auth.service.ts:110-173 | runs whose refreshes and creations find and change their token at one instant lose nothing |
| Refresh.LostRotationIsVisible | src/modules/auth/auth.repository.ts:95-99 | after a lost rotation the pair it would have minted refreshes without the clean-up and is denied with it |
| Refresh.SweptBeforeItsRotation | src/modules/auth/auth.repository.ts:218-242 | an input: a token found active expires and is deleted before its rotation |
| Refresh.CleanupChangesLogoutIff | src/modules/auth/auth.service.ts:187-201 | logout answers differently after the clean-up if and only if its token was deleted |
| Cleanup.NothingExpiredIsLeft | src/modules/auth/auth.repository.ts:222-240 | whatever else happens while the batched clean-up waits, when it ends no token has expired by the clock reading of its last batch |
| Cleanup.OnlyExpiredGo | src/modules/auth/auth.repository.ts:223-231 | a batch removes only rows that have expired |
| Cleanup.TotalCountsRows | src/modules/auth/auth.repository.ts:221-241 | whatever else happens, the total it returns is the number of different rows it removed |
| Cleanup.BatchesAreBounded | src/modules/auth/auth.repository.ts:222-240 | whatever else happens, its batches but the last together have at most as many rows as tokens were ever issued, so it can only go on for ever while tokens are |
| RefreshThreads.OnePairPerToken | src/modules/auth/auth.service.ts:110-177 | however many refreshes of one token interleave step by step on stale findings, one at most is answered with a new pair, and every answer with a pair carries that one |
| RefreshThreads.RevokedYieldsNothing | src/modules/auth/auth.service.ts:150-173 | from the moment a token is revoked otherwise than by rotation no refresh of it gets a pair, not even one that found it active before |
| RefreshThreads.UndisturbedRefresh | src/modules/auth/auth.service.ts:110-177 | a refresh whose steps follow one another at one instant answers and leaves the state as the one-instant model does |
| TokenStore.AuthRepository.RotateRefreshToken | src/modules/auth/auth.repository.ts:87-109 | rotates exactly when the row exists unrevoked, and otherwise changes nothing |
| TokenStore.AuthRepository.CreateSessionAtomic | src/modules/auth/auth.repository.ts:176-216 | undisturbed: evicts an oldest active session exactly when the user is at the limit and has one, and the new session is there |
| TokenStore.AuthRepository.DeleteAllExpiredTokens | src/modules/auth/auth.repository.ts:218-242 | ends, returns the number of rows removed, leaves exactly the rows not expired at its last clock reading, and is one of the batched runs of `Cleanup`, for every batch size of at least 1 |
| TokenStore.SessionService.RotateToken | src/modules/auth/session.service.ts:65-72 | rotates and then caches the pair; a rotation that throws changes nothing and caches nothing |
| TokenStore.AuthService.Refresh | src/modules/auth/auth.service.ts:110-177 | answer and state are those of the classified steps run at one instant |
| TokenStore.AuthService.Logout | src/modules/auth/auth.service.ts:181-214 | answer and state are those of the classified steps run at one instant |
| Pagination.PagesAreComplete | src/modules/wallet/wallet.service.ts:93-117 | for every limit of at least 1 and any ties, following nextCursor yields exactly the rows of the first fetch's snapshot in descending (createdAt, id) order, each once, in the number of fetches needed, as long as rows below the cursor stay put |
| Pagination.LedgerHistoryIsComplete | src/modules/wallet/wallet.repository.ts:170-199 | a wallet's ledger, paged while newer entries arrive, is exactly its entries at the first fetch, newest first |
| Pagination.LedgerMissesNothing | src/modules/wallet/wallet.repository.ts:170-199 | a wallet's ledger, paged to the end while entries are committed anywhere, older createdAt included, is strictly newest first, repeats nothing and contains every entry of the first fetch |
| Pagination.FollowMissesNothing | src/modules/wallet/wallet.service.ts:93-117 | for any filter and any added rows, every row that matched at the first fetch is on some page |
| Pagination.FollowIsOrderly | src/modules/wallet/wallet.service.ts:93-117 | whatever happens to the table between fetches, the pages together are strictly descending, so nothing appears twice |
| Pagination.WalletListIsComplete | src/modules/wallet/wallet.repository.ts:136-166 | the filtered wallet list, paged while wallets register and move money, is exactly the wallets matching at the first fetch, newest first |
| Pagination.PageSplits | src/modules/wallet/wallet.service.ts:63-84 | a page and the listing below its cursor make up the listing; a cursor is given exactly when more than limit rows match |
| Pagination.ListingIsUnique | src/modules/wallet/wallet.repository.ts:188-193 | distinct keys leave one descending order, ties in createdAt included |
| Pagination.InsertBelowIsSeenIff | src/modules/wallet/wallet.repository.ts:174-186 | a row inserted between fetches disturbs the snapshot if and only if it matches the filter and lies below the cursor |

## Left out

- Provider SDK and HTTP calls (Stripe, Braintree, PayPal): a call is an arbitrary answer or an exception. Payment webhooks are not part of this model; settle and fail may be called by anyone at any time with a stale context.
- Isolation details below row and index locks: a statement sees committed rows plus its own writes; the row locks taken for foreign keys fall on rows the transaction already holds. Any transaction may also fail from outside at any moment (`Interrupt`), which covers timeouts.
- Row ids: uuids are modelled by positions in commit order for transactions, ledger entries, logs and events; wallets and users keep arbitrary ordered ids. An id is known to others only after commit.
- What a caller of settle and fail must guarantee: the context was read from the transaction table, its provider is one the registry resolves, its user owns the row's wallet and the event is that transaction's own, as in `processEvent`. The status in it may be stale.
- providerRef, settledAt, createdAt and updatedAt columns, descriptions, JSON payloads except the user id and the returned customer id, audit logging.
- Account closing, admin status changes, profile updates, registration beyond its result (users with empty wallets), offset-paginated history: settled by one branch each. Wallet status is therefore constant in a run.
- `TransactionRepository.settleDeposit` and `updateStatus`: no caller uses them.
- The outbox processor's Redis lock: the money results do not rely on it. The retry cap, drain and waiting bounds assume one processor, successful outbox writes and creation times in commit order without ties.
- Deadlock.SomeoneCanStep: speaks of waits for row and index locks. The second pooled connection that `findByUserId` takes inside a deposit's, withdrawal's or payout's transaction is not among them: with every connection of the pool held by such a transaction, all of them would wait for one. Neither is a wait for a customer id that another transaction is giving up: the model refuses it at once, while PostgreSQL waits for that transaction, and two settlements that swap the ids of two users can then wait for each other until one is made to fail.
- Processor.PaymentProcessorService.ProcessBatch: nobody else commits during the method's own batch; `Waiting.BusyEvents` is the same loop with others committing in between. One answer per event of the batch is no restriction, since a batch tries each event once.
- Sessions.SessionBound: proved for refreshes and creations that find and change their token at one instant; `RotationAddsSessionIff` and `LateCreationExceedsIff` say what happens otherwise, each for one late call.
- TokenStore.AuthService.Refresh: runs at one clock instant; `RefreshThreads` has the steps of any number of refreshes interleaved with everything else.
- TokenStore.AuthService.Logout: runs at one clock instant; `LogoutThreads` has its steps interleaved with everything else. The access-token denylist it also writes is left out.
- Refresh.RetryAfter: a cache entry is taken as gone from the millisecond its time to live ends; whether Redis still serves it in that one is not part of this model.
- TokenStore.AuthRepository.CreateSessionAtomic: nothing happens between its choice and its eviction; `Evictions` has what does.
- TokenStore.AuthRepository.DeleteAllExpiredTokens: nobody else acts while the method waits between batches; `Cleanup.CleanupRun` has the same batches with anybody acting in between, where ending is not promised. A batch size of 0 makes the code loop for ever and is excluded.
- Evictions.LateCreationRewritesIff: how long choice and eviction can be apart is not bounded by the model; a transaction timeout below 10 s keeps classifications from moving back.
- Hashing is taken as injective and encryption as lossless; the history fields `rotated`, `unstored` and `issued` record the past for the proofs and are not stored by the program.
- Pagination.LedgerHistoryIsComplete: its snapshot needs new entries to be no older than existing ones. createdAt is set before commit, so a transaction that waited can break that; `LedgerMissesNothing` holds regardless.
- Pagination.WalletListIsComplete: balances may change between the fetches, but a wallet whose status changes while a client pages may be missed. Cursor encoding is left out.
- Two-decimal display rounding and cent conversion.
