# A verified model of the wallet's concurrency core

The wallet is a double-entry ledger whose central claim is that it stays correct while requests run
concurrently, are retried and crash. This project states that claim and proves it in Dafny, for every
run of the protocols involved:

- **Transfers.** `Wallet.Serve` is the reference: one request at a time, answered from the tables the
  previous one left. `TransferFlow` is the request code as written, a class whose methods work on the
  tables of one open transaction, proved equal to `Serve`. `Locking` and `Serializable` let any number
  of such requests interleave statement by statement, with crashes, rollbacks and lost commit
  acknowledgements anywhere, and both are proved to reach only tables that `Serve` reaches. `LockingAnswers`
  and `SerializableAnswers` prove the same of every reply, and that a request nobody holds up gets exactly
  what `Serve` gives. `RowLocks` is the lock table, and `Deadlock` proves that rows are always taken in one order and every request ends.
  `SerializableIds` follows the entry ids that serializable attempts draw. `Retry` is the retry loop around a
  serializable attempt.
- **Statements.** `Paging` is the cursor query and the page it yields; `GrowingStatement` proves when
  following the cursor loses and repeats nothing while transfers commit, `LockingStatement` that the
  locking strategy always meets that condition, `SerializableStatement` that the other one need not.
- **Outbox relay.** `Relay` is the protocol with any number of relays, `RelayPoll` one poll as written,
  among rivals and arriving events, each of its transactions a run of that protocol.
- **Elastic pool.** `PoolSwap` is the swap protocol, `PoolCode` the pool's methods as written,
  each statement checked to be a step of that protocol while other goroutines interleave,
  `ResizePolicy` the controller and its loop, `ResizeConvergence` its behaviour under steady load.
- **Arithmetic.** `Int64`, `Money`, `MoneyText` and `Backoff` write out 64-bit wrap-around.

Concurrent protocols are state machines: a `State`, an `Enabled` guard and a `Next` function over
labels, and `IsRun` for the traces that start in `Init`. Theorems about "every run" quantify over all
traces and all positions in them. Code that runs alone is a class or method.

## What is assumed of the database and the runtime

- Locking strategy: each statement sees everything committed before it starts; `FOR UPDATE` waits for
  the holder's end and locks nothing where there is no row; an insert into a unique index waits for a
  rival that has not ended; sequence numbers are handed out increasing and never taken back; a commit
  is atomic, and its acknowledgement may be lost.
- Serializable strategy: reads come from one snapshot; an attempt commits only at a position of a
  serial order where what it read is what the work before it wrote and where no later work read what
  it writes. Reads that are still current at commit are the special case of the last position.
  `ON CONFLICT DO NOTHING` on a key committed after the snapshot raises a serialization failure.
- Uuids are arbitrary: uniqueness of drawn ids is not assumed, a collision is a primary key violation.
- Wallet runs start with empty transfer, entry, key and outbox tables; accounts, once there, keep
  their kind.
- Relay: `SKIP LOCKED` skips rows some other relay holds; a crash, and the loss of a database session
  under a relay that runs on, release the row and keep nothing of the transaction; the relay's clock, from
  which the next attempt is computed, and the database's, against which it is compared, are one clock.
- Pool: a readers/writer lock; the clock never goes back.

Clocks, jitter, publisher answers, faults and drawn ids are parameters or nondeterministic choices.

## Where the obvious claim is false

The members named here state the failing case and the condition under which the claim holds.

- `Sub` does not fail only on overflow: `Money.SubIsExactUnlessMinSubtrahend`.
- Balances can leave int64, since credits are not range-checked, after which they cannot be read and
  the system account cannot pay: `Accounts.DepositsCanOutgrowInt64`, `Accounts.ReadableAfterTransfer`,
  `Accounts.SystemDebit`.
- Growing the pool can wrap int32: `ResizePolicy.GrowCanWrap`, `ResizePolicy.GrowIsExactUnlessItWraps`,
  `ResizePolicy.InRangeExactlyIfRoomy`.
- A failed outbox row can be picked again at once: `Relay.FailedRowClaimableAtOnce`.
- Two relays can publish one row at a time, and a Publish call can start on a row already published, if
  and only if a relay runs on after losing its session: `Relay.LostSessionAdmitsAnother`,
  `Relay.PublishingIsExclusive`, `Relay.CallsOnPublishedRows`.
- A refused answer does not always mean that nothing was committed; a lost acknowledgement is the one
  exception: `TransferFlow.TransferService.Transfer`.
- Paging is gap-free exactly if rows become visible in id order (`GrowingStatement.GapFreeExactlyInIdOrder`).
  Every run of the locking strategy meets the condition. The serializable strategy has a run that does
  not, and a reader misses a row for good: `SerializableStatement.SerializableStatementsCanMissRows`.
- A refusal "account not found" can be out of date by the time it is given, if and only if the missing
  accounts have been opened since: `LockingTheorems.NotFoundCanBeStale`, `LockingTheorems.RefusalsAreCurrent`.

Where comments and code disagree the code is followed: the comment on `poolResizer` speaks of swapping
`Pool.current` (internal/adapters/postgres/pool_resize.go:26-29) and a later note of an atomic pointer,
while the code swaps `Pool.pool` under the write lock.

## Model

| member | source | states |
|---|---|---|
| `LockingTheorems.LockingRefinesSerialWallet` | internal/adapters/postgres/transfer_executor.go:30-191 | in every state of every run of interleaved, crashing transfers the committed tables equal those of serving the committed requests one at a time in commit order, each with the answer it got |
| `LockingTheorems.BalanceExactAtCommit` | internal/adapters/postgres/transfer_executor.go:131-168 | the source balance read under both row locks is still the balance when the transaction commits |
| `LockingTheorems.RefusalsAreCurrent` | internal/adapters/postgres/transfer_executor.go:131-168 | the verdict on a debit is the serial wallet's verdict on the tables of that moment, if and only if no account it found missing has been opened since; lack of funds is never a stale read |
| `LockingTheorems.NotFoundCanBeStale` | internal/adapters/postgres/transfer_executor.go:134-157 | a run in which a missing account is opened between the locking statement and the refusal |
| `LockingAnswers.RepliesAreServed` | internal/app/transfer.go:20-103 | in every run, every reply, success or refusal, is the serial wallet's answer, with the ids the request drew, on the committed tables of some moment between its start and its end |
| `LockingAnswers.ServedAlone` | internal/app/transfer.go:20-103 | whatever else is under way, a request whose rows nobody else holds, left to run, gets the serial wallet's answer on the tables it found and leaves the serial wallet's tables |
| `LockingAnswers.DecideStep` | internal/adapters/postgres/transfer_executor.go:145-168 | in every reachable state, with both account rows found, the serial wallet's answer on the tables of that moment decides whether the request goes on to write or fails, and with which error |
| `LockingAnswers.LoadStep` | internal/app/transfer.go:87-103 | in every reachable state a request whose key is taken replays the stored transfer and response if the fingerprint is its own and fails with key reuse otherwise |
| `LockingAnswers.EndsWithReply` | internal/app/transfer.go:20-85 | a request that ends without being interrupted is told something |
| `LockingTheorems.EveryStateSound` | internal/adapters/postgres/transfer_executor.go:131-191 | double entry, no customer below zero, keys and events one-to-one with transfers, balances summing to zero, in every reachable committed state |
| `LockingTheorems.RepliesAgree` | internal/app/transfer.go:30-103 | two successes for one key carry one transfer id, one response and one fingerprint, however the requests interleaved |
| `LockingTheorems.OneTransferPerKey` | internal/app/transfer.go:30-103 | of the committed requests for a key all but the first are replays of it, with its fingerprint |
| `LockingTheorems.OnlyGenuineReplies` | internal/app/transfer.go:87-103 | a request with another fingerprint than its key's never succeeds and never commits; overflow, in-flight key and missing key row are unreachable answers |
| `LockingTheorems.StepCommitsAtMostOne` | internal/adapters/postgres/transfer_executor.go:30-48 | a step commits one item of work admitted by the serial wallet or leaves the committed tables alone |
| `LockingTheorems.CommittedStays` | internal/adapters/postgres/transfer_executor.go:30-48 | along a run nothing committed is changed or removed |
| `LockingTheorems.AnswersStay` | internal/app/transfer.go:20-85 | a request that has been answered keeps its answer |
| `LockingTheorems.VisibleInIdOrder` | internal/adapters/postgres/transfer_executor.go:170-189 | under row locks an account's entries become visible in increasing id order |
| `LockingInvariant.StepKeepsInv` | internal/adapters/postgres/transfer_executor.go:30-191 | every statement, commit, crash and account opening keeps the protocol invariant |
| `LockingInvariant.RunKeepsInv` | internal/adapters/postgres/transfer_executor.go:30-191 | the invariant holds in every state of every run |
| `Uuids.LockOrder` | internal/adapters/postgres/transfer_executor.go:193-201 | a permutation of the two ids with the smaller one first |
| `Uuids.LockOrderSymmetric` | internal/adapters/postgres/transfer_executor.go:193-201 | A to B and B to A lock in the same order |
| `Uuids.LessIsStrictTotalOrder` | internal/adapters/postgres/transfer_executor.go:193-201 | bytewise order of uuids is irreflexive, total and transitive |
| `Uuids.LessIsBytewise` | internal/adapters/postgres/transfer_executor.go:193-201 | one id is before another if and only if at the first difference it has the smaller byte or has ended |
| `Deadlock.HeldBeforeNeed` | internal/adapters/postgres/transfer_executor.go:131-141 | what a transaction still needs comes after everything it holds in one global order of rows |
| `Deadlock.NoWaitCycle` | internal/adapters/postgres/transfer_executor.go:131-141 | no chain of waits returns to where it began |
| `Deadlock.DeadlockFree` | internal/adapters/postgres/transfer_executor.go:62-201 | in every reachable state with an unfinished request some request can step, and the wait-for relation is acyclic |
| `Deadlock.AdvancingIsBounded` | internal/adapters/postgres/transfer_executor.go:30-191 | requests that carry on undisturbed take no more steps than their statements left, whatever the order |
| `Deadlock.RequestsFinish` | internal/adapters/postgres/transfer_executor.go:30-191 | in a reachable state where no request can step, every request has ended |
| `SerializableTheorems.SerializableRefinesSerialWallet` | internal/adapters/postgres/serializable_executor.go:68-151 | every reachable committed state of concurrent, aborted and retried attempts is, up to the order of independent entries, one the serial wallet reaches, and is sound |
| `SerializableTheorems.SerializableRepliesAgree` | internal/app/transfer.go:30-103 | successes for one key agree under this strategy too |
| `SerializableTheorems.SerializableOneTransferPerKey` | internal/app/transfer.go:30-103 | at most one committed request per key moved money |
| `SerializableTheorems.SerializableOnlyGenuineReplies` | internal/app/transfer.go:87-103 | a request with another fingerprint than its key's never succeeds and never commits; overflow, in-flight key and missing key row are unreachable answers |
| `SerializableAnswers.SerializableRepliesAreServed` | internal/app/transfer.go:20-103 | in every run, every reply is a lost race, a drawn id that is taken, or the serial wallet's answer on the snapshot; and the snapshot is the committed tables as they were when the attempt began |
| `SerializableAnswers.SerializableServedAlone` | internal/adapters/postgres/serializable_executor.go:68-151 | in every reachable state an attempt whose rows nobody else is inserting, left to run, gets the serial wallet's answer on the tables it found and leaves the serial wallet's tables |
| `SerializableAnswers.SerializableDecideStep` | internal/adapters/postgres/serializable_executor.go:96-128 | in every reachable state the serial wallet's answer on the snapshot decides whether the attempt goes on to write or fails, and with which error |
| `SerializableAnswers.SerializableLoadStep` | internal/app/transfer.go:87-103 | in every reachable state an attempt whose key is taken in its snapshot replays the stored transfer and response if the fingerprint is its own and fails with key reuse otherwise |
| `SerializableInvariant.CommitRefines` | internal/adapters/postgres/serializable_executor.go:68-82 | a commit placed at a position where it disturbs no later work gives tables the serial wallet reaches in that order |
| `SerializableInvariant.StepKeepsInv` | internal/adapters/postgres/serializable_executor.go:68-151 | every statement, abort and commit keeps the protocol invariant |
| `SerializableInvariant.RunKeepsInv` | internal/adapters/postgres/serializable_executor.go:68-151 | the invariant holds in every state of every run |
| `SerializableIds.RunKeepsIds` | internal/adapters/postgres/serializable_executor.go:130-149 | in every reachable state committed ids are distinct and drawn, and the ids live attempts hold are unused and shared by no two of them |
| `SerializableIds.SerializableIdsDistinct` | internal/adapters/postgres/serializable_executor.go:130-149 | all committed entries have positive ids of their own |
| `SerializableIds.SerializableCommittedStays` | internal/adapters/postgres/serializable_executor.go:68-151 | along a run nothing committed is changed or removed |
| `Wallet.RunSound` | internal/adapters/postgres/transfer_executor.go:131-191 | serving requests one at a time keeps double entry, no overdraft, and keys and events matched with transfers |
| `Wallet.PostDoubleEntry` | internal/adapters/postgres/transfer_executor.go:170-189 | each transfer has exactly its debit and credit, no entry belongs to anything else, and the total stays zero |
| `Wallet.PostNoOverdraft` | internal/domain/account.go:20-32 | a debit that was allowed leaves no customer below zero |
| `Wallet.PostKeysMatch` | internal/adapters/postgres/transfer_executor.go:103-117 | committed keys are completed and one-to-one with transfers |
| `Wallet.PostEventsMatch` | internal/app/transfer.go:48-78 | outbox events are one-to-one with transfers and carry their data |
| `Wallet.Conservation` | internal/adapters/postgres/entry_repository.go:70-86 | all balances sum to zero, so the others together hold what any one account owes |
| `Wallet.RefusalsAreGenuine` | internal/app/transfer.go:20-103 | a refusal changes nothing and is never an overflow, an in-flight key or a missing row |
| `Wallet.ExactlyOncePerKey` | internal/app/transfer.go:30-103 | answered requests for one key share transfer, response and fingerprint, and all but the first are replays |
| `Wallet.RunExtends` | internal/adapters/postgres/transfer_executor.go:170-189 | serving requests only ever adds rows |
| `Wallet.PostEarlier` | internal/adapters/postgres/serializable_executor.go:96-151 | a transfer may be served before work that looks at nothing it changes: same answers, same tables up to row order |
| `TransferFlow.OpenTx.ClaimKey` | internal/adapters/postgres/transfer_executor.go:64-75 | claims exactly if the key has no row, adding an in-flight row and nothing else |
| `TransferFlow.OpenTx.LoadKey` | internal/adapters/postgres/transfer_executor.go:77-101 | the stored row, or an error if there is none |
| `TransferFlow.OpenTx.CompleteKey` | internal/adapters/postgres/transfer_executor.go:103-117 | completes the claimed row with transfer and response, keeping its fingerprint |
| `TransferFlow.OpenTx.AppendEvent` | internal/adapters/postgres/outbox.go:46-52 | adds one outbox row under a new id, or fails on a taken one |
| `TransferFlow.OpenTx.ReadKinds` | internal/adapters/postgres/transfer_executor.go:145-157 | the kinds of all accounts asked for, or not found if one is missing |
| `TransferFlow.OpenTx.Execute` | internal/adapters/postgres/transfer_executor.go:131-191 | succeeds or fails as the debit rule says of the tables found, and adds exactly the transfer and its two entries or nothing |
| `TransferFlow.RunBody` | internal/app/transfer.go:30-81 | the transaction body gives the serial wallet's answer and tables, unless the faulty statement is one it comes to, in which case it gives the fault |
| `TransferFlow.ReplayStored` | internal/app/transfer.go:87-103 | replays a completed key of the same fingerprint, refuses any other |
| `TransferFlow.TransferService.Transfer` | internal/app/transfer.go:20-85 | alone it is the serial wallet; a failing statement that the request comes to leaves the tables untouched, one it never comes to changes nothing; only a lost acknowledgement answers an error for committed work |
| `TransferFlow.TransferService.TransferThenRetry` | internal/app/transfer.go:20-103 | retrying after a lost acknowledgement returns the transfer already made and changes nothing |
| `Retry.OnlyLostRacesAreRetried` | internal/adapters/postgres/serializable_executor.go:68-82 | an attempt ends in a serialization failure exactly if it lost a race; a refusal by the body is returned before the commit and is never taken for one |
| `Retry.SerializableExecutor.Attempt` | internal/adapters/postgres/serializable_executor.go:68-82 | an attempt computes what the serial wallet computes on its snapshot, returns its refusals before committing, and adds exactly its rows to whatever others have committed by then, or nothing |
| `Retry.CurrentReadsServe` | internal/adapters/postgres/serializable_executor.go:68-82 | if what it read is still so at its end, a committed attempt is the serial wallet on the tables of that moment |
| `Retry.SerializableExecutor.InTx` | internal/adapters/postgres/serializable_executor.go:48-66 | at most maxAttempts attempts; every one before the last lost a race; tables and outcome are the last one's; giving up means running out of attempts or of time; the counter grows by the failures that were retried, with one sleep, within its ceiling, before each retry |
| `Retry.LostAttemptsLeaveNothing` | internal/adapters/postgres/serializable_executor.go:48-82 | no attempt that is followed by another committed anything or had been refused |
| `Retry.SerializableExecutor.CountAndSleep` | internal/adapters/postgres/serializable_executor.go:48-66 | a retry is counted and preceded by one sleep drawn for its attempt number, and goes ahead unless the deadline has expired |
| `Retry.IncrementedIsSum` | internal/adapters/postgres/serializable_executor.go:48-66 | the retry counter is the number of retries modulo 2^64 |
| `Retry.SerializableExecutor.Transfer` | internal/app/transfer.go:20-85 | the answer is the last attempt's error if it has one, else the serial wallet's on that attempt's snapshot; a lost last race is answered conflict or, cut off by the deadline, an error; an invalid command gets its own refusal with no attempt; the tables are what the last attempt left |
| `Money.NewTransferAmount` | internal/domain/money.go:25-30 | accepts exactly the positive amounts |
| `Money.Add` | internal/domain/money.go:38-45 | the wrap test accepts exactly the sums that fit int64 |
| `Money.Sub` | internal/domain/money.go:48-53 | exact where the difference fits, except that MinInt64 is never subtracted |
| `Money.SubIsExactUnlessMinSubtrahend` | internal/domain/money.go:48-53 | refusing means overflow if and only if it is not MinInt64 taken from a negative number |
| `Money.CanDebit` | internal/domain/account.go:20-32 | the system account may always pay, a customer only what it has; from a non-negative balance the overflow branch is dead |
| `MoneyText.StringRoundTrip` | internal/domain/money.go:58-72 | reading a printed amount back gives the amount, for every int64 |
| `MoneyText.OnlyPrintedFormParses` | internal/domain/money.go:58-72 | a text reads as an amount if and only if it is what the amount prints as |
| `MoneyText.UnsignedNegationIsMagnitude` | internal/domain/money.go:58-72 | negating in uint64 gives the magnitude, MinInt64 included |
| `MoneyText.StringInjective` | internal/domain/money.go:58-72 | distinct amounts never print alike |
| `Accounts.ReadBalance` | internal/app/account.go:42-47 | the sum of the account's entries if it fits int64; never negative for a customer of a sound wallet |
| `Accounts.ReadableAfterTransfer` | internal/adapters/postgres/entry_repository.go:70-86 | after a transfer an account is readable exactly if its new balance fits int64, which for a paying customer it does |
| `Accounts.SystemDebit` | internal/adapters/postgres/transfer_executor.go:156-168 | a first-time debit of the system account is made, with both balances moved by the amount, if its balance fits int64, and is refused as unreadable otherwise |
| `Accounts.CustomerDebit` | internal/domain/account.go:20-32 | a first-time debit of a customer is made, with both balances moved by the amount, if it has that much, and is refused for lack of funds with nothing changed otherwise |
| `Accounts.OtherAnswers` | internal/app/transfer.go:20-103 | every other request changes nothing, and which answer it gets: bad amount, one account twice, replay, key reuse, in-flight key, missing account, unreadable balance, taken id |
| `Accounts.DepositsCanOutgrowInt64` | internal/adapters/postgres/transfer_executor.go:156-168 | two maximal deposits are accepted and then no balance can be read and no deposit made |
| `Paging.ListByAccount` | internal/adapters/postgres/entry_repository.go:90-119 | the first rows of the account after the cursor, by id, up to the limit |
| `Paging.Entries` | internal/app/account.go:51-66 | a page of at most limit rows, with a cursor exactly if more follow |
| `Paging.PageOfShows` | internal/app/account.go:51-66 | a page is a consecutive stretch of the statement, and its cursor is the id of its last row |
| `Paging.SortByIdSorts` | internal/adapters/postgres/entry_repository.go:90-119 | ordering by id gives the same rows in strictly ascending order |
| `Paging.PagesShowEverything` | internal/app/account.go:51-66 | on a fixed ledger the pages of any size end, and together are all entries, each once, in id order |
| `Paging.StatementAddsUpToBalance` | internal/app/account.go:42-66 | the amounts on all pages, of any size, add up to the balance |
| `Paging.LineTellsTransfer` | internal/adapters/postgres/entry_repository.go:90-119 | each line names a transfer the account took part in, with its amount, negative for the payer |
| `GrowingStatement.GapFreeExactlyInIdOrder` | internal/app/account.go:51-66 | over all growing ledgers: every reader from 0, whatever its page sizes and moments, is free of gaps and repeats if and only if rows become visible in id order |
| `GrowingStatement.InOrderReaderGapFree` | internal/app/account.go:51-66 | in id order a reader has, after any number of pages, exactly the first rows, and all of them when no cursor is offered |
| `GrowingStatement.MissedForGood` | internal/app/account.go:51-66 | a row at or below the cursor that has not been shown is never shown, on any number of later pages |
| `GrowingStatement.OutOfOrderRowIsMissed` | internal/app/account.go:51-66 | a reader at the end of what was visible never sees a row that comes in under a smaller id |
| `LockingStatement.LockingGrowsInOrder` | internal/adapters/postgres/transfer_executor.go:131-191 | every run of the locking strategy makes each account's rows visible in id order |
| `LockingStatement.LockingStatementsHaveNoGaps` | internal/app/account.go:51-66 | paging during any run of the locking strategy neither skips nor repeats an entry |
| `SerializableStatement.SerializableGrows` | internal/adapters/postgres/serializable_executor.go:130-149 | in every run an account's rows are only ever added, under positive ids of their own |
| `SerializableStatement.SerializableGapFreeExactlyInIdOrder` | internal/app/account.go:51-66 | every run of the serializable strategy pages without gaps if and only if it makes rows visible in id order |
| `SerializableStatement.SerializablePagesShowEverything` | internal/app/account.go:51-66 | any committed state, held still, is paged through completely with pages of any size |
| `SerializableStatement.CommitInReverse` | internal/adapters/postgres/serializable_executor.go:96-151 | any two acceptable transfers by different payers to one account can draw their ids in one order and commit in the other |
| `SerializableStatement.SerializableStatementsCanMissRows` | internal/adapters/postgres/serializable_executor.go:130-149 | a run of the serializable strategy, and a row of it that a reader never sees, however many pages it asks for |
| `Relay.RunKeepsInv` | internal/adapters/postgres/relay.go:55-142 | rows, locks, workers and calls stay consistent in every state of every run of many crashing relays |
| `Relay.RowsAccountedFor` | internal/adapters/postgres/relay.go:95-142 | a published row was delivered under its id, type and payload; attempts equal committed outcomes and never exceed Publish calls; an unpublished row is ready again within the ceiling its number of failures calls for |
| `Relay.PublishedAsAppended` | internal/adapters/postgres/relay.go:95-142 | an event is ready as soon as it is appended, and every Publish call for it carries the type and payload it came with |
| `Relay.PublishingIsExclusive` | internal/adapters/postgres/relay.go:95-142 | of two relays handling one row at a time at least one has lost its session; the row a relay with a session handles is unpublished and as it read it, attempts included |
| `Relay.LostSessionAdmitsAnother` | internal/adapters/postgres/relay.go:95-142 | a session lost during Publish lets another relay publish the same row at the same time |
| `Relay.RowsNeverLost` | internal/adapters/postgres/relay.go:95-142 | no row disappears or changes identity, and published is never undone |
| `Relay.CallsOnPublishedRows` | internal/adapters/postgres/relay.go:95-142 | a Publish call can start on a published row only by a relay that had claimed it and lost its session before calling, once each, and any such relay can |
| `Relay.AlwaysDeliverable` | internal/adapters/postgres/relay.go:55-142 | from every reachable state every row can still become published |
| `Relay.FailedRowClaimableAtOnce` | internal/adapters/postgres/relay.go:23-33 | a failed row can be claimed at the same instant if and only if its jitter was zero |
| `RelayPoll.SelectOldest` | internal/adapters/postgres/relay.go:102-112 | an oldest ready row that no one else holds, or none exactly if there is none |
| `RelayPoll.OutboxRelay.ProcessOne` | internal/adapters/postgres/relay.go:95-142 | on the outbox as others left it, takes the oldest ready unlocked row and changes that row only, recording the publisher's answer and one attempt, or on a fault keeps nothing; reports a row exactly if it claimed one and nothing failed, and an error exactly if something did |
| `RelayPoll.OutboxRelay.PublishAndRecord` | internal/adapters/postgres/relay.go:117-142 | one Publish call for the claimed row, and what becomes of that row, whatever others do to other rows meanwhile |
| `RelayPoll.OutboxRelay.PollOnce` | internal/adapters/postgres/relay.go:71-89 | among rivals and arriving rows: at most batchSize transactions, the i-th one processing the row its round found oldest; it stops only at a full batch, at a failing round, which is exactly when it reports an error, or where no row is left to claim; a refused row does not stop it; the count is right, short by at most one only with an error; with no rival it publishes exactly the oldest min(batchSize, ready) rows in order of age |
| `RelayPoll.PollAccount` | internal/adapters/postgres/relay.go:71-89 | whatever rivals do, the number a poll reports is that of the rows its own transactions published, short by at most one only if it ends in an error |
| `RelayPoll.CalmPollExact` | internal/adapters/postgres/relay.go:71-89 | undisturbed, a poll publishes exactly the oldest ready rows, as many as fit the batch, in order of age |
| `RelayPoll.TransactionIsRelayRun` | internal/adapters/postgres/relay.go:95-142 | what a transaction of a poll does, an idle relay does in the protocol by claim, publish, return, record and commit, with the same rows, calls and deliveries |
| `RelayPoll.CountsDistinctRows` | internal/adapters/postgres/relay.go:71-89 | the count is the number of different rows this poll itself moved to published |
| `RelayPoll.HistoryKeepsRows` | internal/adapters/postgres/relay.go:71-142 | a poll and its rivals together lose no row and undo no published mark |
| `Backoff.GuardedShiftIsExact` | internal/adapters/postgres/relay.go:23-33 | wrapped shift plus guard equals min(base * 2^k, cap) for every k, for any base with enough trailing zeros for the cap |
| `Backoff.RetryCeilingExact` | internal/adapters/postgres/serializable_executor.go:165-170 | the retry ceiling is exact for every attempt number |
| `Backoff.RelayCeilingExact` | internal/adapters/postgres/relay.go:16-33 | the relay ceiling is exact for every attempt number |
| `Backoff.RetryWait` | internal/adapters/postgres/serializable_executor.go:165-179 | the sleep is the draw from a range that is never empty and whose bound is the exact ceiling |
| `Backoff.NextAttempt` | internal/adapters/postgres/relay.go:23-33 | the next attempt is the draw from now on, within the exact ceiling |
| `PoolSwap.RunKeepsInv` | internal/adapters/postgres/pool_resize.go:67-154 | in every interleaving each raw pool's Close calls made and still owed add up to one, and the lock discipline holds |
| `PoolSwap.CallsReachOpenPools` | internal/adapters/postgres/pool.go:133-179 | until shutdown closes the last one, no forwarding call is inside a raw pool whose Close has begun |
| `PoolSwap.ClosedExactlyOnce` | internal/adapters/postgres/pool.go:181-193 | no raw pool is closed twice, and after shutdown every one ever built has been closed once or is in the hands of the goroutine that will |
| `PoolSwap.NoSwapAfterStop` | internal/adapters/postgres/pool_resize.go:64-87 | once stop has returned there is no swap and no new raw pool |
| `PoolSwap.AlwaysReplaceable` | internal/adapters/postgres/pool_resize.go:123-154 | from every reachable state in which the resizer waits for its ticker, any new raw pool can be swapped in, and the old one is then detached |
| `PoolSwap.FinishingIsBounded` | internal/adapters/postgres/pool.go:181-193 | once no new calls and ticks come in, at most as many steps remain as the work left, whichever way builds and pings turn out |
| `PoolSwap.ShutdownFinishes` | internal/adapters/postgres/pool.go:181-193 | where no such step is possible, the pool is closed and every raw pool ever built has been closed exactly once |
| `PoolCode.Pool.constructor` | internal/adapters/postgres/pool.go:105-121 | a new pool is an initial state of the protocol with an empty log |
| `PoolCode.Pool.Interleave` | internal/adapters/postgres/pool.go:133-193 | other goroutines' steps keep the log a run of the protocol and leave what is mine alone |
| `PoolCode.Pool.RUnlock` | internal/adapters/postgres/pool.go:133-179 | until a call releases the read lock its raw pool has stayed current and open |
| `PoolCode.Pool.Forward` | internal/adapters/postgres/pool.go:133-179 | however others interleave, a call takes exactly lock, pointer, unlock, in that order, and its raw pool stays current and open, or it is still waiting for the lock |
| `PoolCode.Pool.SwapPointer` | internal/adapters/postgres/pool_resize.go:141-144 | the pointer changes only under the write lock |
| `PoolCode.Pool.Resize` | internal/adapters/postgres/pool_resize.go:123-154 | however others interleave, a resize takes exactly build, ping, lock, swap, unlock, detach, in that order, closes a replacement that does not answer, or is still waiting for the lock with nothing swapped |
| `PoolCode.Pool.Close` | internal/adapters/postgres/pool.go:185-193 | takes exactly stop, join, read lock, pointer, close, in that order, and the current raw pool is then closed once, or it is still waiting for the resizer |
| `PoolCode.PlaysKeepsInv` | internal/adapters/postgres/pool_resize.go:67-154 | whatever is logged leaves a state the protocol's invariant covers |
| `ResizePolicy.GrowIsExactUnlessItWraps` | internal/adapters/postgres/pool_resize_policy.go:73-82 | the clamped step is exact if and only if current + step fits int32; shrinking is always exact |
| `ResizePolicy.GrowCanWrap` | internal/adapters/postgres/pool_resize_policy.go:73-82 | three saturated ticks take a pool that starts at its floor to a negative size |
| `ResizePolicy.InRangeExactlyIfRoomy` | internal/adapters/postgres/pool_resize_policy.go:40-82 | every run from every size in range stays in range if and only if maxConns - 1 + step fits int32 |
| `ResizePolicy.DecisionMoves` | internal/adapters/postgres/pool_resize_policy.go:40-82 | a decision other than hold strictly changes the size, within range |
| `ResizePolicy.PoolResizer.TickOnce` | internal/adapters/postgres/pool_resize.go:89-109 | one tick moves size and memory as the policy's step function says; a failed resize still spends the cooldown |
| `ResizePolicy.PoolResizer.Loop` | internal/adapters/postgres/pool_resize.go:72-87 | the loop's state after all samples is the step function folded over them |
| `ResizePolicy.SizeStaysInRange` | internal/adapters/postgres/pool_resize.go:89-109 | over every tick sequence the size stays between floor and ceiling |
| `ResizePolicy.OneStreakAtATime` | internal/adapters/postgres/pool_resize_policy.go:40-53 | the two streaks are never both positive |
| `ResizePolicy.CooldownRespected` | internal/adapters/postgres/pool_resize_policy.go:54-69 | any two decisions to resize are at least a cooldown apart, failed resizes included |
| `ResizePolicy.TickStreaks` | internal/adapters/postgres/pool_resize_policy.go:40-69 | a tick lengthens a streak by one sample of its kind that is not spent, or ends it |
| `ResizePolicy.StreaksCount` | internal/adapters/postgres/pool_resize_policy.go:40-69 | each streak counts consecutive latest samples of its kind, none spent |
| `ResizePolicy.ResizeNeedsAStreak` | internal/adapters/postgres/pool_resize_policy.go:54-69 | a resize needs hysteresis consecutive samples of its kind that no earlier resize of that kind used |
| `ResizePolicy.ResizesExactlyWhenDue` | internal/adapters/postgres/pool_resize_policy.go:40-69 | over every sequence of ticks a pool is told to grow (shrink) if and only if it has room, every earlier resize is a cooldown ago, and the last hysteresis samples were high (low) and unspent |
| `ResizePolicy.SizeFollowsDecisions` | internal/adapters/postgres/pool_resize.go:89-109 | the size moves by one clamped step where a resize is decided and succeeds, and nowhere else |
| `ResizePolicy.NothingToResize` | internal/adapters/postgres/pool_resize.go:89-109 | a pool without a positive size is left alone, memory included |
| `ResizePolicy.NewPoolSize` | internal/adapters/postgres/pool.go:78-87 | an elastic pool starts at its floor, any other stands at its ceiling, which is the library's where none is configured |
| `ResizeConvergence.OneMove` | internal/adapters/postgres/pool_resize_policy.go:40-82 | from any state at any tick, with the ratio held at or beyond its watermark, the next move comes exactly when the streak is full and the cooldown over |
| `ResizeConvergence.FreshWait` | internal/adapters/postgres/pool_resize_policy.go:40-69 | after a move the next takes exactly max(hysteresis, ceil(cooldown / interval)) ticks |
| `ResizeConvergence.ScheduleClosedForm` | internal/adapters/postgres/pool_resize_policy.go:40-82 | when the j-th move is due |
| `ResizeConvergence.TicksArePaced` | internal/adapters/postgres/pool_resize.go:72-109 | the tick loop composes, waits and moves at that pace, and rests at its limit |
| `ResizeConvergence.MovesOnSchedule` | internal/adapters/postgres/pool_resize.go:72-109 | a loop of that pace completes its j-th move exactly when due |
| `ResizeConvergence.ShortOfLimit` | internal/adapters/postgres/pool_resize_policy.go:73-82 | j moves reach the limit if and only if j >= ceil(distance / step) |
| `ResizeConvergence.ReachesTheLimit` | internal/adapters/postgres/pool_resize.go:72-109 | from any size, streaks and last resize at any tick, under steady saturation or idleness, the pool stands at its ceiling or floor after t ticks if and only if t is at least the first wait plus the spacing of the remaining ceil(distance / step) - 1 moves |
| `ResizeConvergence.ShippedPoolReachesItsCeiling` | internal/adapters/postgres/pool_resize.go:17-24 | with the shipped constants and a ratio of 0.85 or more a pool goes from floor to ceiling in exactly 3 + 15 * (ceil((max - min) / 8) - 1) ticks |
| `ResizeConvergence.ShippedPoolReturnsToItsFloor` | internal/adapters/postgres/pool_resize.go:17-24 | with a ratio of 0.30 or less it is back at its floor within 15 * ceil((size - min) / 8) ticks, from any state whose last resize was no later than the tick before |

## Left out

- HTTP handlers, router, middleware, status mapping and health checks: plumbing.
- Rate limiting: its token bucket is a library outside the repository.
- Fingerprint: JSON and SHA-256; fingerprints are opaque values compared for equality.
- CashService: one-line translations to a transfer; deposits are transfers out of the system account.
- Metrics, logging, role grants, cmd/ programs, load tests: no property of this kind.
- AccountRepository, EnsureSystem and InsertBatch: accounts appear by an `Open` step and keep their kind; that there is one system account, and one account per owner, is not modelled.
- PostgreSQL's serializable snapshot isolation: its commit rule is assumed, not derived; share locks taken by foreign keys are not modelled.
- Serializable.Statement: the snapshot reads of one batch are one step; they come from one snapshot, so nothing can come between them.
- Bytes of a replayed body: responses are compared as values, since the stored JSON may be reformatted.
- Sequence and counter ranges: ids, attempts and streaks are unbounded integers; only the arithmetic written out in `Int64`, `Backoff`, `ResizePolicy` and the retry counter wraps.
- ResizePolicy.Decide: the saturation ratio is a real number, not a float64; time differences do not saturate; instant 0 stands for the zero time.
- Locking, Serializable, Relay and PoolSwap: shared state under interleaving is a value, not an object; update in place is shown in the code as written, in TransferFlow, Retry, RelayPoll, PoolCode and ResizePolicy.
- PoolSwap.CallsReachOpenPools: covers forwarding calls; a transaction or row set opened by a call outlives it, and its safety rests on the raw pool's Close waiting for connections in use, which is not modelled.
- PoolCode.Pool.constructor: the connection check of `NewPool` is not modelled; its sizes are `ResizePolicy.NewPoolSize`.
- PoolCode.Pool.Resize: a wait for the lock ends or is cut off; when a waiting writer gets its turn is not modelled.
- Fairness: that a waiting writer or a pending row is eventually served is not claimed, only that it always can be.
