# Transfer protocol: a Dafny model

A model of the money-transfer service and its queue worker: the HTTP guard, the identifier generator, the
synchronous and asynchronous paths, the two database transactions statement by statement, the broker with its
dead-letter queue, and the two Redis caches. `dafny verify dfyconfig.toml` checks everything.

| file | what it holds |
|---|---|
| `Domain.dfy`, `Ledger.dfy` | values; the serial references: checked transfers and `createSync` one after the other, net effects, totals |
| `Locking.dfy` | `createSync` and `settle` as interleaved SQL statements under row locks, with aborts, for any rule of rounding |
| `IdGenerator.dfy`, `IdText.dfy` | the load/CAS loop among any number of goroutines; `txn%022d` and the cache keys |
| `Protocol.dfy` | the whole step relation: API calls, workers, database, broker, crashes, restarts |
| `Submissions.dfy` | the retry loop of the generator interleaved with the protocol; each submission is atomic at its CAS |
| `Unconditional.dfy` | the invariant that holds in any environment, one lemma per step |
| `Invariant.dfy`, `Guarantees.dfy` | the stronger invariant under A1-A5; what follows from either in every reachable state and over runs |
| `Decisions.dfy`, `Faultless.dfy` | which jobs are accepted and rejected under concurrency; the asynchronous path refines the synchronous one |
| `Verdicts.dfy`, `Finality.dfy` | every delivery ends in one verdict after few steps; exactly which rows are final |
| `Uncontended.dfy`, `Witnesses.dfy`, `StaleRuns.dfy` | runs that exist: transfers that go through, double payments when an assumption is dropped, stale cache entries |
| `CacheAside.dfy`, `Caches.dfy` | one cache-aside cache; both caches beside the protocol, with a clock |
| `Handler.dfy`, `Bank.dfy` | the guard and replies; the service and worker as imperative code on one database, Redis and broker |
| `Rounding.dfy` | arbitrary decimal amounts against `NUMERIC(18,2)` balances, serial and interleaved |

## Assumptions

Five assumptions on the environment are fields of `Protocol.Config`. A theorem that needs them says `c.Reliable()`:

- A1: the worker's idempotency read succeeds and sees the primary's committed state (`GetByID` reads the replica handle).
- A2: two deliveries of one identifier are never processed at the same time.
- A3: a publish error means the message was not enqueued.
- A4: a commit error means the transaction was rolled back.
- A5: after a restart the clock reads later than every identifier issued before it; the clock always reads past the
  seeded range.

Nothing is assumed for: conservation and solvency, the serial order of commits, the decisions of createSync, messages and
their rows, delivery accounting, tracked orphans, bounded staleness, the causes of wrong cached balances, and verdicts. In
particular a transfer paid twice, because a read through the lagging replica missed its commit, still makes no money and
overdraws nobody. A1-A5 are needed for what says "once": exactly-once, reconciliation, statuses and finality.

`Witnesses.dfy` drops each one alone and gives a run that commits the same identifier twice: one transfer paid twice
without A1 to A4, two different transfers merged in one row without A5. Without A1 the read may fail or show any earlier
status, but never a commit that did not happen. Deadlock and other aborts, lost
cache deletes, lost connections (a delivery returned while its goroutine lives on), messages lost although the publish
reported no error (the client asks for no publisher confirms), crashes between any two steps, swallowed
`UpdateStatus` errors and process restarts are steps of the model and need no assumption. The database is
READ COMMITTED: a locked row is read in its latest committed version, writes show at commit.
`Faultless` alone is about runs in which no such thing happens; waiting, refusals and any interleaving
are part of it.

The clock, the network's failures and the arrival order of everything are parameters or free choices of a schedule. Amounts
and balances are integer cents, except in `Rounding.dfy`.

## Where the code and its documentation differ

The model follows the code.

- docs/adrs/004-redis-caching-strategy.md calls "failed" terminal. In the code a failed row is completed when a delivery
  crashes between marking it and the nack and is delivered again: `Witnesses.FailedIsNotTerminal` is such a run, and
  `Finality.FinalIff` says exactly which rows are final.
- docs/architecture.md has the worker delete the status key on every status change; the failure path of `process` deletes nothing.
  `StaleRuns.FailureLeavesPendingCached` is a run that serves "pending" for a failed row; `Caches.StatusStaleness` bounds
  for how long, and `Caches.StatusDisagreementHasACause` says that only "pending" is served so.
- docs/adrs/005-async-write-via-queue.md has messages requeued on nack and the row inserted by the worker; the code
  nacks without requeue and inserts the row before publishing.
- The comment at internal/service/transaction.go:190 speaks of idempotent success on a duplicate key; the code returns the error.
- An unknown account is a 422 on the synchronous path and, through the foreign key, a 500 on the asynchronous one
  (`Bank.App.HandlePost`).

## Model

| member | source | states |
|---|---|---|
| Ledger.ReplayNet | internal/service/transaction.go:154-166 | after any serial run each account holds its opening balance plus the net effect of the committed transfers |
| Ledger.ReplaySolvent | internal/service/transaction.go:138-166 | checked transfers of positive amounts never overdraw anyone |
| Ledger.PostTotal | internal/worker/transaction.go:115-127 | debit and credit conserve the total exactly when the destination exists, which settle does not check |
| Ledger.ReplayTotal | internal/service/transaction.go:154-166 | a serial run between existing accounts conserves the total |
| Ledger.JournalIsRows | internal/service/transaction.go:168-176 | a journal without repeated identifiers has the same net effect as the set of rows it names |
| Ledger.RunSyncIsReplay | internal/service/transaction.go:119-184 | rejected requests leave no trace: a run of createSync is the run of the accepted ones, each covered in its turn |
| Ledger.ChosenSplits | internal/service/transaction.go:119-184 | every request of a run is either accepted or rejected, once |
| Locking.ExecuteConsistent | internal/worker/transaction.go:98-134 | every statement keeps locks, uncommitted writes and passed checks in agreement for all open transactions |
| Locking.CommitIsPost | internal/service/transaction.go:126-180 | at COMMIT the funds check of the SELECT still holds and the committed balances move by one atomic transfer, self-transfers included |
| Locking.CommitConsistent | internal/worker/transaction.go:92-137 | a commit invalidates nothing another open transaction relies on |
| Locking.StatementCommitsNothing | internal/service/transaction.go:126-176 | no statement before COMMIT changes committed balances |
| Locking.SerializableBy | internal/worker/transaction.go:92-137 | any statement-level interleaving of any createSync and settle transactions, with aborts anywhere, is a serial run of checked transfers in commit order, whatever the rounding of each UPDATE |
| Locking.Serializable | internal/worker/transaction.go:92-137 | in whole cents that run is the one of the checked integer transfers |
| Locking.InterleavingIsSync | internal/worker/transaction.go:92-137 | in the order of their COMMITs and failed checks the interleaved transactions commit exactly those createSync accepts, reject exactly those it rejects, and end in its balances |
| Locking.WhoWaits | internal/service/transaction.go:126-166 | only the SELECT FOR UPDATE and the credit can wait, and only for a row another open transaction holds; its rollback frees it |
| Locking.AnyoneCanMove | internal/worker/transaction.go:92-137 | transactions begin, move, commit and abort in any order, except that a statement waits for a row another holds |
| Locking.DeadlockIsReachable | internal/worker/transaction.go:98-127 | two opposite transfers can block each other, as there is no global lock order |
| IdGenerator.NoAba | internal/service/transaction.go:106-112 | a CAS succeeds exactly when nothing was issued since the load |
| IdGenerator.AnyoneCanMove | internal/service/transaction.go:104-116 | nothing restricts the order of the steps of the loop or what the clock says |
| IdGenerator.IssuedStrictlyIncrease | internal/service/transaction.go:104-116 | for any goroutines, interleaving and clock the numbers strictly increase in CAS order |
| IdGenerator.IssuedFromClock | internal/service/transaction.go:104-116 | each number issued is the clock reading its call made since its last lost CAS, if that is above the counter before it, and otherwise that counter plus one |
| IdGenerator.FailuresAreCharged | internal/service/transaction.go:104-116 | each failed CAS of a call is charged to a distinct success of another call made since it began |
| IdGenerator.DriftBound | internal/service/transaction.go:106-111 | with positive clock readings, after n issues the counter is at most the largest reading plus n - 1 |
| IdGenerator.NoOverflow | internal/service/transaction.go:26 | the int64 counter cannot wrap while the clock leaves room for the number of calls |
| IdGenerator.IssuedAboveClock | internal/service/transaction.go:23-26 | no number is below the clock readings of the run |
| IdGenerator.TxCounter.NextTransactionID | internal/service/transaction.go:104-116 | the retry loop returns in the first round without interference, with that round's clock reading if it is above the counter loaded and that counter plus one if not |
| IdText.TextLength | migrations/000002_create_transactions.up.sql:2 | the text of every non-negative int64 has exactly 25 characters and fits the column |
| IdText.TextIsDecimal | internal/service/transaction.go:113 | the text is "txn" and 22 decimal digits that denote the number |
| IdText.NegativeText | internal/service/transaction.go:113 | a negative number has its sign before 21 digits |
| IdText.TextOrder | internal/service/transaction.go:113 | text order is numeric order in both directions, the text is injective and stays clear of the seeded range |
| IdText.IssuedTextsAreNew | internal/service/transaction.go:23-26 | the texts issued by any run ascend, fit, and equal no other and no seeded one |
| IdText.KeysDoNotClash | internal/service/transaction.go:219-230 | cache keys of different accounts differ, and differ from every status key in the same Redis |
| IdText.KeysAreDecimal | internal/service/account.go:33-55 | a balance key is "balance:" and the account number in decimal with its sign, a status key "tx_status:" and the identifier's text |
| Handler.OnlyAdmittedAreServed | internal/handler/transaction.go:21-37 | the service is asked exactly about requests that parse, name both accounts and have a positive amount; which error each other one gets |
| Handler.RepliesTellResults | internal/handler/transaction.go:38-64 | each status code and error message is given for exactly its service result, and a success carries the transfer |
| Submissions.SubmissionsAreAtomic | internal/service/transaction.go:78-116 | calls inside the load/CAS loop, interleaved with all the rest, behave as the protocol with each submission atomic at the CAS that succeeds |
| Submissions.LoopIsGenerator | internal/service/transaction.go:104-116 | the loop steps of such a run are a run of the generator alone |
| Submissions.WinnerIsNew | internal/service/transaction.go:104-116 | a winning CAS issues a number above every earlier one of the process, found in no row, message or goroutine, and made from the call's own clock reading |
| Submissions.CallGoesThrough | internal/service/transaction.go:104-116 | a call that meets no other in the loop leaves it after one round, as the submission of the protocol |
| Submissions.AnyoneCanMove | internal/service/transaction.go:104-116 | calls in the loop interleave freely with each other and with the rest |
| Invariant.NewIdentifier | internal/service/transaction.go:104-116 | the identifier of a new request is in no row, message or goroutine, across restarts |
| Invariant.Enqueue | internal/service/transaction.go:194-209 | a published message is new, so none is merged with another, and matches its pending row |
| Invariant.AtCommit | internal/worker/transaction.go:129-137 | a transaction at COMMIT has existing accounts and a row not completed yet; the sync insert never meets a conflict |
| Unconditional.StepFit | internal/worker/transaction.go:63-137 | in any environment every step keeps rows, messages, commits and transactions fitting together |
| Unconditional.RunFit | internal/worker/transaction.go:63-137 | so they fit in every reachable state |
| Invariant.StepKeeps | internal/worker/transaction.go:63-137 | under A1-A5 every step of API calls, workers, broker and database keeps the full invariant |
| Invariant.RunInv | internal/worker/transaction.go:63-137 | the invariant holds in every reachable state |
| Guarantees.SerialAlways | internal/service/transaction.go:119-184 | whatever fails, the committed balances are those of running the committed jobs, checked, in commit order |
| Guarantees.SerialInCommitOrder | internal/service/transaction.go:119-184 | under A1-A5 that run holds each job once |
| Guarantees.ExactlyOnce | internal/worker/transaction.go:71-87 | each identifier's debit and credit commit at most once, and its row is completed iff they did |
| Guarantees.Reconciles | internal/worker/transaction.go:115-136 | each balance is the opening one less completed outgoing plus completed incoming runtime rows |
| Guarantees.ConservedAndSolvent | internal/handler/transaction.go:26-37 | in any environment the total of committed balances is constant and none is negative, even where a transfer is paid twice |
| Guarantees.MovableIsConstant | internal/handler/transaction.go:26-31 | in any environment the money outside account 0, which no admitted request names, is constant, and no committed transfer exceeds it |
| Guarantees.MessageHasRow | migrations/000002_create_transactions.up.sql:2-6 | in any environment every ready, unacknowledged or dead-lettered message has its row, existing accounts and a positive amount |
| Guarantees.SettleUpdatesHit | internal/worker/transaction.go:115-134 | in any environment each of settle's three UPDATEs finds its row |
| Guarantees.Delivery | internal/infrastructure/queue/queue.go:48-60 | in any environment published messages are partitioned into ready, unacknowledged, acknowledged and dead-lettered, and none is acknowledged unless its transfer was committed |
| Guarantees.VerdictsAreRight | internal/worker/transaction.go:71-88 | under A1-A5 acknowledged messages have completed rows and dead-lettered ones have not |
| Guarantees.NoSilentOrphan | internal/service/transaction.go:187-212 | in any environment a pending runtime row has a creator at work, a message not acknowledged, or is a tracked orphan; under A1-A5, one without creator and live message never changes again |
| Guarantees.StatusStep | internal/repository/postgres/transaction.go:48-53 | statuses only rise in the order pending, failed, completed; completion is the commit of the row's own message, never nacked |
| Guarantees.StatusOnlyRises | internal/worker/transaction.go:71-88 | over whole runs a row keeps its request and its status never falls, so completed is absorbing |
| Guarantees.SettledForever | internal/worker/transaction.go:79-88 | a row whose message is acknowledged or dead-lettered, or that has neither message nor creator, never changes again |
| Decisions.DecisionStep | internal/worker/transaction.go:104-137 | each COMMIT and each failed check takes the decision createSync would take on the committed balances of that moment; no other step commits anything |
| Decisions.TrafficIsSync | internal/worker/transaction.go:41-56 | in any environment concurrent workers and API calls commit exactly the jobs createSync accepts in the order of the decisions, reject only those it rejects, and end in its balances |
| Faultless.AsyncRefinesSync | internal/service/transaction.go:187-212 | when nothing outside fails and the queue is drained, completed rows and acknowledged messages are exactly the jobs createSync accepts in that order, failed rows and dead-lettered messages exactly those it rejects, nothing is pending |
| Faultless.OneDelivery | internal/worker/transaction.go:63-89 | whatever the idempotency read shows, only "completed" skips the delivery; a read that fails or lags goes on to settle, with the whole outcome of paying or refusing |
| Faultless.CanDrain | internal/worker/transaction.go:41-89 | from any state in which nobody is at work, the messages left can be worked off without anything failing, so the refinement concerns every queue |
| Verdicts.OneVerdict | internal/worker/transaction.go:63-89 | a delivery ends in exactly one ack or nack unless its goroutine crashes, and every other step of that goroutine brings it nearer |
| Verdicts.NeverStuck | internal/worker/transaction.go:63-137 | a goroutine with a delivery has a next step unless it waits for a row lock |
| Verdicts.VerdictInTime | internal/worker/transaction.go:63-137 | over whole runs, whatever the others do, a delivery is at most nine steps of its goroutine from its verdict |
| Uncontended.GoesThrough | internal/worker/transaction.go:92-137 | from any state where nothing is locked and the checks pass, the statements run to a commit that is one atomic transfer |
| Finality.UnsettledCanComplete | internal/worker/transaction.go:79-88 | a failed row that is not settled can be completed in some continuation, whenever the money that can be moved covers it |
| Finality.UnsettledCanFail | internal/service/transaction.go:205-209 | a pending row that somebody still answers for can be marked failed |
| Finality.FinalIff | internal/worker/transaction.go:71-88 | a row never changes again iff it is completed, or settled, or failed with an amount above all the money that can be moved |
| Witnesses.StaleReadPaysTwice | internal/worker/transaction.go:71-77 | without A1 a run commits one transfer twice |
| Witnesses.ConcurrentDeliveriesPayTwice | internal/worker/transaction.go:63-89 | without A2 a run commits one transfer twice |
| Witnesses.FalsePublishErrorPaysTwice | internal/service/transaction.go:205-209 | without A3 the creator overwrites "completed" with "failed" and the transfer is paid twice |
| Witnesses.FalseCommitErrorPaysTwice | internal/worker/transaction.go:79-82 | without A4 a run commits one transfer twice |
| Witnesses.ReusedIdentifierMergesRows | internal/service/transaction.go:168-176 | without A5 the ON CONFLICT clause merges two different transfers into one row, and the rows no longer account for the balances |
| Witnesses.FailedIsNotTerminal | internal/worker/transaction.go:79-83 | with all assumptions holding, a run completes a row after it was marked failed |
| Witnesses.LostMessageStaysPending | internal/infrastructure/queue/queue.go:87-98 | a message lost after a publish without error leaves a row that is pending in every continuation |
| Witnesses.AnyoneCanStart | internal/worker/transaction.go:41-56 | any goroutine can submit an admitted request and take any ready message whose identifier nobody is processing |
| Witnesses.AnythingCanFail | internal/worker/transaction.go:63-137 | in every state each goroutine can crash, each delivery be returned, each statement and commit fail |
| Witnesses.AnyCallCanFail | internal/service/transaction.go:187-212 | each save, publish and status update can fail, a save after its insert and a publish without an error included |
| Caches.OutstandingDels | internal/service/transaction.go:178-183 | only an applied commit changes balances, and every changed account has a writer that still has to delete its key, unless it was told that the commit failed |
| Caches.CachesDoNotInterfere | internal/service/account.go:29-62 | cached reads, expiry and deletes never influence the protocol |
| Caches.HistoryIsReal | internal/repository/postgres/account.go:25-36 | the snapshots readers see are the committed data of prefixes of the run |
| Caches.BoundedStaleness | internal/service/account.go:32-58 | in any environment, with lost deletes, crashes and replica lag on every read, each balance returned was committed less than TTL plus the gap ago |
| Caches.BalanceIsKept | internal/service/account.go:52-57 | a balance that was set is served at every instant before the set time plus the TTL and at none after, as long as no DEL, eviction or later SET of its key intervenes |
| Caches.StatusIsKept | internal/service/transaction.go:250-259 | the same for a status: 2000 ms for "pending", the full TTL for "failed" and "completed" |
| Caches.MissReadsThrough | internal/service/account.go:46-58 | a miss answers and stores what the primary holds, and changes nothing else |
| Caches.StatusReadsThrough | internal/service/transaction.go:244-262 | the same for a status |
| Caches.DeletedIsAMiss | internal/service/transaction.go:215-224 | a DEL that reaches Redis leaves a miss for exactly its keys |
| Caches.CacheCanFail | internal/service/account.go:32-58 | at any time a lookup can miss, a read lag, a SET or DEL be lost, an entry be evicted |
| Caches.TimePasses | internal/service/account.go:56 | time passes by any amount and changes nothing else |
| Caches.DisagreementHasACause | internal/service/account.go:29-62 | in any environment a wrong cached balance has a writer between commit and DEL, an overtaken reader, or a lost DEL |
| Caches.DisagreementIsARace | internal/worker/transaction.go:86-88 | when no DEL is lost, only the first two causes remain |
| Caches.StatusIsSound | internal/service/transaction.go:226-263 | a cached or returned status is never above the row's, so a "completed" is never wrong |
| Caches.StatusStaleness | internal/service/transaction.go:250-259 | in any environment a returned "pending" was true less than two seconds plus the gap ago, a terminal status less than its TTL plus the gap |
| Caches.StatusDisagreementHasACause | internal/worker/transaction.go:79-88 | a cached status that is not the row's has a worker between commit and DEL, an overtaken reader or a lost DEL, or is a "pending" cached before the row was marked failed |
| Caches.StatusDisagreementWithoutLoss | internal/service/transaction.go:226-263 | when no DEL is lost, that cause is out |
| StaleRuns.OvertakenReaderIsStale | internal/service/account.go:43-58 | a run without lost DELs or crashes that serves an old balance after the writer is done |
| StaleRuns.FailureLeavesPendingCached | internal/worker/transaction.go:79-84 | a run without lost DELs or crashes that serves "pending" for a row that failed and was dead-lettered |
| Bank.App.InvalidateBalanceCache | internal/service/transaction.go:215-224 | a key is deleted iff Redis answers and it is the key of a given account |
| Bank.App.CreateSync | internal/service/transaction.go:119-184 | all or nothing for a failure at any statement; exactly which requests are accepted and which error each other one gets |
| Bank.App.Settle | internal/worker/transaction.go:92-137 | all or nothing for a failure at any statement; pays iff the source is covered |
| Bank.App.CreateAsync | internal/service/transaction.go:187-212 | which requests are accepted, and what row and message each outcome of save, publish and update leaves |
| Bank.App.Process | internal/worker/transaction.go:63-89 | one verdict; bad payloads are rejected, completed rows skipped, the others settled or marked failed; which keys are deleted |
| Bank.App.GetBalance | internal/service/account.go:29-62 | hit, miss, set and every failure; with atomic transfers an answer equals the uncached balance |
| Bank.App.GetTransactionStatus | internal/service/transaction.go:226-263 | hit, miss, set with the TTL of the status, and every failure; balance entries are left alone |
| Bank.App.CreateTransaction | internal/service/transaction.go:65-102 | the identifier is new and made from the clock; the path taken, each error and the whole new state on either path, whatever fails |
| Bank.App.HandlePost | internal/handler/transaction.go:21-61 | a refused request changes nothing; exactly when each status code and message is given, and what each leaves behind in rows, balances, queue and cache |
| Bank.App.SyncAll | internal/service/transaction.go:119-184 | a loop of createSync ends in the balances of the reference run, with a completed row for each accepted job and no other row touched |
| Bank.App.Deliver | internal/worker/transaction.go:48-52 | a first or repeated delivery, whatever fails: a completed row is skipped, any other paid iff createSync would accept it and no statement fails, else failed and dead-lettered |
| Bank.App.Drain | internal/worker/transaction.go:44-54 | one worker's loop empties the queue, redelivered messages included: the balances are those of createSync on the unpaid jobs in that order; completed and acknowledged are the accepted and the already paid, failed and dead-lettered the rejected |
| Rounding.StoredIsNearest | migrations/000001_create_accounts.up.sql:4 | assignment rounds to the nearest cent, half away from zero |
| Rounding.DebitAndCredit | internal/service/transaction.go:138-166 | a debit takes the recorded amount, less one cent on an exact half cent, and never overdraws |
| Rounding.PostDrift | internal/worker/transaction.go:111-127 | a committed transfer changes the total by 0, or by one cent on an exact half cent; the destination gains what the row records |
| Rounding.RunDrift | internal/worker/transaction.go:111-127 | over any serial run the drift is the number of half-cent commits, and nobody is overdrawn |
| Rounding.InterleavedDrift | internal/worker/transaction.go:92-137 | statement-level interleavings with rounding at every UPDATE are such a serial run in commit order, with the same drift |
| Rounding.InterleavedChecks | internal/service/transaction.go:126-140 | in any interleaving the funds check compares the stored balance with the decimal amount before rounding, and at each COMMIT it still holds |
| Rounding.ConservedIffNoHalfCent | internal/worker/transaction.go:111-127 | money is conserved exactly when no committed amount was a half cent |
| Rounding.WholeCentsAreExact | migrations/000002_create_transactions.up.sql:5 | on whole cents the rounded transfer is the integer one |

## Left out

- Locking.WhoWaits: only row locks on `accounts` are modelled; those on `transactions` and the key-share locks of the foreign
  keys are left out, which only allows more interleavings.
- The liveness of consumers after a broker reconnect, and prefetch limits: the model is about safety.
- The `done` channel of the worker pool's `Start`: it only waits for goroutines to end.
- Identifiers across several processes at once: the code claims uniqueness inside one process only.
- Float64 rounding, JSON encoding, timestamps and the names of accounts: amounts are exact decimals, other fields opaque.
- Overflow of `NUMERIC(18,2)`: a statement error, which the model allows at every statement.
- The in-memory repositories, the path without a database, the seeder's batches, the rate limiter, the circuit breaker, metrics and deployment files.
- Bank.App.Drain: one delivery at a time, and nothing outside fails; concurrent workers and failures are in `Decisions.TrafficIsSync`
  and `Faultless.AsyncRefinesSync`.
- Uncontended.GoesThrough: says nothing about progress under contention, which the database's scheduler decides.
