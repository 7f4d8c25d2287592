# Exactly-once payment settlement, modelled in Dafny

The system is two services joined by a message broker. The orders service
takes an order and, in the same database save, writes a PaymentRequest row
to its outbox. A background publisher sends unpublished outbox rows to the
`payment_requests` queue and marks them processed. The payments service
consumes that queue idempotently. It checks its inbox for the message id,
then checks its ledger for any transaction of the order. It then debits the
account, or declines for a missing account or a short balance. In one save it
writes a PaymentResult to its own outbox and marks the message processed in
its inbox. The orders service consumes `payment_results` and moves the order
to FINISHED or CANCELLED. The account endpoints open accounts, take deposits
and report balances.

The model keeps the source's form:

- Each database is a class (`PaymentsDb.PaymentsStore`, `OrdersDb.OrdersStore`).
  Its tables are `seq` fields. The inbox is a `map` keyed by message id.
- `SaveChanges` writes a staged change set atomically or throws, leaving the
  tables unchanged. `Commit`, a function on the tables' value
  (`PaymentsState`, `OrdersState`), specifies it.
- The handlers and endpoints are methods that change a store. Each `ensures`
  states the pair (outcome, new tables) as a specification function of the
  old tables: `ProcessPayment`, `CreateOrderStep`, `CycleStep`,
  `UpdateStatus`, `CreateAccountStep`, `DepositStep`.
- The properties are lemmas about those functions.
- The outbox publisher's `foreach` and its polling `while` are loops with
  invariants (`PublishBatch`, `ExecuteAsync`).
- The queries run in the database as SQL. A `WHERE` returns its rows in no
  fixed order, and an `ORDER BY CreatedAt` leaves rows with equal CreatedAt in
  no fixed order. `Seqs.Filter` therefore states which rows are kept and how
  many times each. `OldestFirst`, `NewestFirst` and `Seqs.SortBy` state the
  sort order and that the rows are a permutation of the input. That is all
  the queries promise.
- Payload strings are carried as the message values they encode.
- Money is integer cents. Guids are naturals, compared only for equality.
- The clock the handlers read and the Guids they create are parameters.
  So are the faults a call can meet (`storeFails`, `CycleFault`, the decoded
  `Body` of a delivery).

Main results:

- **Exactly-once effect** (`InboxProcessor.ConsumeKeepsSettled`,
  `PaymentsService.ServeKeepsSettled`). Take any sequence of deliveries,
  redeliveries, malformed bodies and failed saves, interleaved with account
  openings and deposits.
  The payments tables keep their keys unique, every balance equal to its
  user's deposits minus withdrawals, and at most one withdrawal per order.
- **At-least-once publishing.** A cycle that throws changes no row. Suppose
  the next cycle runs on those same, unchanged tables, returns, and its
  query returns the same batch. Then it publishes again everything the
  failed cycle published, in the same order
  (`OutboxProcessor.FailedCycleIsRepublished`). The model's query always
  returns the same batch for the same tables. The database may order equal
  CreatedAt differently each time. For that case the model proves a weaker
  fact over every batch the query may return (`OutboxProcessor.QueryMayReturn`).
  When fewer than ten rows are unprocessed, every payload the failed cycle
  published is published again by a next cycle that returns, though perhaps
  in another order (`OutboxProcessor.FailedCycleIsRepublishedByAnyQuery`).
  Over any run of the polling
  loop, a row is marked processed only after its payload was published
  (`OutboxProcessor.RunMarksOnlyPublished`).
- **Order and request stay paired.** No order lacks its request row and no
  request row names a missing order. Order intake, every publisher cycle,
  any run of the loop and every status update keep this.
- **No protection from the Version token.** No code of the services assigns
  `Version`, so the token never changes. Two debits staged from the same
  read of one account therefore both commit. The second overwrites the
  first's balance and the ledger no longer balances
  (`InboxProcessor.InterleavedDebitsBothCommit`).

## Model

| member | source | states |
|---|---|---|
| PaymentsDb.PaymentsStore.SaveChanges | PaymentsService/Data/PaymentsDbContext.cs:15-44 | The store's tables afterwards, and the outcome, are exactly `Commit` of the old tables; the schema constraints still hold |
| PaymentsDb.Commit | PaymentsService/Data/PaymentsDbContext.cs:15-44 | A save that throws leaves every table as it was; it returns exactly when the store is reachable and no constraint rejects the rows, and then every staged row is written |
| PaymentsDb.CommitKeepsSchema | PaymentsService/Data/PaymentsDbContext.cs:15-44 | Whatever is saved, primary keys of all four tables and the unique UserId index still hold, and no stored account moves or has its Version changed |
| PaymentsDb.ApplyKeepsSchema | PaymentsService/Data/PaymentsDbContext.cs:19-41 | Writing accepted rows keeps every key constraint and every stored key and Version |
| PaymentsDb.Rejection | PaymentsService/Data/PaymentsDbContext.cs:22 | A modified account whose Version differs from the stored one (or whose row is gone) is always rejected with a concurrency conflict; an accepted save's modified account matches its stored Version |
| PaymentsDb.NoRejection | PaymentsService/Data/PaymentsDbContext.cs:19-41 | Rows that pass the concurrency check, the unique UserId index and every primary key are accepted |
| PaymentsDb.TrackedRowAccepted | PaymentsService/Data/PaymentsDbContext.cs:20-22 | A loaded account written back with its own key, UserId and Version passes the concurrency check and the unique index |
| PaymentsDb.OrderIdIndexNotUnique | PaymentsService/Data/PaymentsDbContext.cs:29 | The store accepts a transaction under a fresh key whatever order it names, so the schema alone allows a second withdrawal for one order |
| PaymentsDb.ModifiedAccountKeepsKeys | PaymentsService/Data/PaymentsDbContext.cs:19-20 | An account written back under its own key, with a UserId no other account holds, keeps both account constraints |
| PaymentsDb.AddedAccountKeepsKeys | PaymentsService/Data/PaymentsDbContext.cs:19-20 | An account added with a free key and a free UserId keeps both account constraints |
| PaymentsDb.AddedTransactionKeepsKeys | PaymentsService/Data/PaymentsDbContext.cs:27 | A transaction added under a free key keeps transaction keys unique |
| Messages.AddedOutboxKeepsKeys | PaymentsService/Data/PaymentsDbContext.cs:41 | An outbox row added under a free key keeps outbox keys unique |
| PaymentsDb.AccountOfUser | PaymentsService/Services/InboxProcessor.cs:111 | The first account of the user, or None exactly when the user has no account |
| PaymentsDb.AccountWithId | PaymentsService/Data/PaymentsDbContext.cs:19 | The stored account with this key, or None exactly when no account has it |
| PaymentsDb.LedgerAppend | PaymentsService/Models/Transaction.cs:3-17 | Recording one more transaction changes a user's ledger by its signed amount if it is theirs, and not at all otherwise |
| PaymentsDb.LedgerOfStranger | PaymentsService/Models/Transaction.cs:3-17 | A user with no transactions has a zero ledger |
| PaymentsDb.LedgerKeptByEntry | PaymentsService/Services/InboxProcessor.cs:128-141 | Recording one transaction for a user while changing exactly that user's balance by its signed amount keeps every balance equal to its ledger |
| InboxProcessor.ProcessPaymentRequest | PaymentsService/Services/InboxProcessor.cs:70-200 | The outcome and the tables left are exactly `ProcessPayment` of the old tables: the inbox check, the order check, the three-way account decision, one staged save |
| InboxProcessor.Received | PaymentsService/Services/InboxProcessor.cs:43-63 | The acknowledgement and the tables left are `OnPaymentRequest`: the handler runs only on a decoded request |
| Broker.Decide | PaymentsService/Services/InboxProcessor.cs:43-63 | Ack exactly for a null payload or a handler that returned; nack with requeue exactly for a malformed body or a handler that threw |
| InboxProcessor.DuplicateMessageIsNoOp | PaymentsService/Services/InboxProcessor.cs:75-80 | A message whose inbox row is processed returns normally and changes no table |
| InboxProcessor.PaidOrderIsReplayed | PaymentsService/Services/InboxProcessor.cs:82-109 | An order already in the ledger: no balance or transaction change, exactly one outbox row with Success and "Already processed", and the inbox row processed |
| InboxProcessor.MissingAccountIsDeclined | PaymentsService/Services/InboxProcessor.cs:116-120 | No account for the user: no balance or transaction change, one outbox row with failure and "Account not found", the inbox row processed |
| InboxProcessor.ShortBalanceIsDeclined | PaymentsService/Services/InboxProcessor.cs:121-125 | A balance below the amount: no balance or transaction change, one outbox row with failure and "Insufficient funds", the inbox row processed |
| InboxProcessor.DebitIsRecorded | PaymentsService/Services/InboxProcessor.cs:126-145 | The balance drops by exactly the amount and stays non-negative; one WITHDRAWAL with the user, order and amount is appended; no other account changes; "Payment successful" is enqueued; the inbox row is processed |
| InboxProcessor.StagedChangesAccepted | PaymentsService/Services/InboxProcessor.cs:82-165 | Past the inbox check and with fresh ids, the staged rows are always accepted, and the message's inbox row is inserted or updated as processed while every other inbox row is kept |
| InboxProcessor.EveryHandledRequestIsAnswered | PaymentsService/Services/InboxProcessor.cs:147-200 | Every call past the inbox check whose save succeeds, given fresh ids, appends exactly one unprocessed PaymentResult row for the order, keeps the earlier outbox rows, and leaves the message processed |
| InboxProcessor.ThrowingCallCommitsNothing | PaymentsService/Services/InboxProcessor.cs:167-176 | A call that throws, a concurrency conflict included, leaves every table as it was |
| InboxProcessor.ReturnedCallMarksMessage | PaymentsService/Services/InboxProcessor.cs:149-165 | A call that returns leaves the message's inbox row processed |
| InboxProcessor.RedeliveryIsNoOp | PaymentsService/Services/InboxProcessor.cs:75-80 | After a call for a message returns, the next call for the same message, on the tables it left, is a no-op |
| InboxProcessor.PaidOrderIsNeverDebitedAgain | PaymentsService/Services/InboxProcessor.cs:82-109 | Whatever the store does, a request for an order the ledger has changes no balance and records no transaction |
| InboxProcessor.SecondRequestForOrderDebitsNothing | PaymentsService/Services/InboxProcessor.cs:75-145 | After a debit, a request for the same order under any message id debits nothing more |
| InboxProcessor.NackedDeliveryCommitsNothing | PaymentsService/Services/InboxProcessor.cs:58-62 | A nacked delivery has changed no table |
| InboxProcessor.AckedDeliveryIsProcessed | PaymentsService/Services/InboxProcessor.cs:45-57 | An acked delivery had a null payload, or its message now has a processed inbox row |
| InboxProcessor.ProcessPaymentKeepsSettled | PaymentsService/Services/InboxProcessor.cs:70-177 | Every call, whatever its input and the store's faults, keeps the schema, every balance equal to its ledger, and one transaction per order |
| InboxProcessor.ReturnedDebitWasFresh | PaymentsService/Services/InboxProcessor.cs:126-145 | A debit that was saved used a transaction key and an outbox key that were free |
| InboxProcessor.DebitKeepsSettled | PaymentsService/Services/InboxProcessor.cs:126-145 | A committed debit keeps the schema, the balances equal to the ledger, and one transaction per order |
| InboxProcessor.OnlyDebitChangesLedger | PaymentsService/Services/InboxProcessor.cs:75-125 | Every call other than a committed debit leaves accounts and transactions unchanged and the schema intact |
| InboxProcessor.ConsumeKeepsSettled | PaymentsService/Services/InboxProcessor.cs:43-63 | Over any sequence of deliveries, redeliveries and failed saves, the ledger invariants hold: no order is debited twice |
| PaymentsService.HandleKeepsSettled | PaymentsService/Program.cs:14-32 | A delivery to the hosted consumer, an account opening or a deposit, with any input and any fault, keeps the ledger invariants |
| PaymentsService.ServeKeepsSettled | PaymentsService/Program.cs:14-32 | Over any interleaving of deliveries, account openings and deposits, with any faults, the ledger invariants hold |
| InboxProcessor.DebitStaged | PaymentsService/Services/InboxProcessor.cs:111-165 | When the user's account covers the amount, the staged rows are the debited account, the WITHDRAWAL, the success result and the processed inbox row |
| InboxProcessor.InterleavedDebitsBothCommit | PaymentsService/Services/InboxProcessor.cs:111-169 | Two debits of one account staged from the same read both commit, because the Version token never changes; the balance reflects only the second and the ledger stops balancing |
| InboxProcessor.BothDebitsInLedger | PaymentsService/Services/InboxProcessor.cs:128-141 | Two withdrawals recorded while the balance shows only the second leave the ledger unbalanced |
| AccountsController.CreateAccount | PaymentsService/Controllers/AccountsController.cs:19-43 | The response and the tables left are exactly `CreateAccountStep` of the old tables |
| AccountsController.CreateAccountStep | PaymentsService/Controllers/AccountsController.cs:19-43 | Only an Ok response changes the tables; Ok needs a caller id and records no transaction |
| AccountsController.Deposit | PaymentsService/Controllers/AccountsController.cs:45-74 | The response and the tables left are exactly `DepositStep` of the old tables |
| AccountsController.DepositStep | PaymentsService/Controllers/AccountsController.cs:45-74 | Only an Ok response changes the tables; Ok needs a positive amount and appends exactly one transaction |
| AccountsController.GetBalance | PaymentsService/Controllers/AccountsController.cs:76-87 | BadRequest without a caller id; NotFound exactly when the caller has no account; otherwise the balance of the caller's account |
| AccountsController.MissingUserIsBadRequest | PaymentsService/Controllers/AccountsController.cs:19-80 | A null or empty caller id gets BadRequest from all three endpoints, and nothing is written |
| AccountsController.ExistingAccountIsConflict | PaymentsService/Controllers/AccountsController.cs:25-27 | A caller who has an account gets Conflict and nothing is added |
| AccountsController.NewAccountStartsEmpty | PaymentsService/Controllers/AccountsController.cs:29-42 | A new account has balance 0 and Version 0, is the only row added, is named in the response, and the balance endpoint then reports 0 |
| AccountsController.NonPositiveDepositIsBadRequest | PaymentsService/Controllers/AccountsController.cs:48-56 | A non-positive amount is BadRequest before the account lookup, so even without an account, and nothing is written |
| AccountsController.DepositWithoutAccountIsNotFound | PaymentsService/Controllers/AccountsController.cs:54-56 | A positive deposit for a caller without an account is NotFound and nothing is written |
| AccountsController.DepositCredits | PaymentsService/Controllers/AccountsController.cs:58-73 | Exactly the caller's balance rises by the amount; one DEPOSIT row with no order is appended; inbox and outbox are kept; the response and the balance endpoint report the new balance |
| AccountsController.CreateAccountKeepsLedger | PaymentsService/Controllers/AccountsController.cs:29-40 | Opening an account keeps every balance equal to its ledger |
| AccountsController.DepositKeepsLedger | PaymentsService/Controllers/AccountsController.cs:58-71 | A deposit keeps every balance equal to its ledger |
| AccountsController.CreateAccountKeepsSettled | PaymentsService/Controllers/AccountsController.cs:19-43 | Every call, with any input and any store fault, keeps unique keys, balances equal to ledgers and one transaction per order |
| AccountsController.DepositKeepsSettled | PaymentsService/Controllers/AccountsController.cs:45-74 | Every call, with any input and any store fault, keeps unique keys, balances equal to ledgers and one transaction per order |
| AccountsController.DepositKeepsSchema | PaymentsService/Controllers/AccountsController.cs:58-71 | A deposit keeps the schema constraints |
| AccountsController.DepositNamesNoOrder | PaymentsService/Controllers/AccountsController.cs:58-71 | A deposit adds no second transaction for any order, because its row names no order |
| AccountsController.AppendingNoOrderKeepsOnePerOrder | PaymentsService/Controllers/AccountsController.cs:58-71 | Appending a transaction that names no order keeps at most one transaction per order; the proof helper of `DepositNamesNoOrder` |
| AccountsController.BalanceIsLedger | PaymentsService/Controllers/AccountsController.cs:82-86 | Where the ledger balances, the reported balance is the caller's deposits minus withdrawals |
| OrdersDb.OrdersStore.SaveChanges | OrdersService/Data/OrdersDbContext.cs:13-26 | The store's tables afterwards, and the outcome, are exactly `Commit` of the old tables; the primary keys still hold |
| OrdersDb.Commit | OrdersService/Data/OrdersDbContext.cs:13-26 | A save that throws leaves both tables as they were; it returns exactly when the store is reachable and no row is rejected, and then the staged rows are written; primary keys stay unique |
| OrdersDb.Rejection | OrdersService/Data/OrdersDbContext.cs:17-23 | An accepted save modifies only stored orders and outbox rows, each tracked under its own key |
| OrdersDb.ApplyKeepsSchema | OrdersService/Data/OrdersDbContext.cs:17-23 | Writing accepted rows keeps order keys and outbox keys unique |
| OrdersDb.AddedOrderKeepsKeys | OrdersService/Data/OrdersDbContext.cs:17 | An order added under a free key keeps order keys unique |
| OrdersDb.WriteBackKeepsIds | OrdersService/Data/OrdersDbContext.cs:23 | Writing back tracked outbox rows keeps every row's place and key |
| OrdersDb.OrderWithId | OrdersService/Services/OrderStatusUpdater.cs:75 | The first order with this id, or None exactly when no order has it |
| OrdersDb.OutboxWithId | OrdersService/Data/OrdersDbContext.cs:23 | The stored outbox row with this key, or None exactly when no row has it |
| OrdersController.CreateOrder | OrdersService/Controllers/OrdersController.cs:21-61 | The response and the tables left are exactly `CreateOrderStep` of the old tables |
| OrdersController.CreateOrderStep | OrdersService/Controllers/OrdersController.cs:21-61 | Only an Ok response changes the tables; Ok adds exactly one order and one outbox row |
| OrdersController.MissingUserIsBadRequest | OrdersService/Controllers/OrdersController.cs:21-89 | A null or empty caller id gets BadRequest from all three endpoints, and nothing is written |
| OrdersController.CreateOrderStoresOrderAndRequest | OrdersService/Controllers/OrdersController.cs:27-60 | The order is appended in state NEW with the caller, amount and description; its unprocessed PaymentRequest row for the same order, user and amount is appended beside it; the response is the order id and "NEW" |
| OrdersController.OrderAndRequestCommitTogether | OrdersService/Controllers/OrdersController.cs:56-58 | After any call the new order is stored exactly when its request row is |
| OrdersController.CreateOrderAppends | OrdersService/Controllers/OrdersController.cs:56-58 | A successful call appends exactly the order and its request row |
| OrdersController.MatchedPairKeepsRequestsMatched | OrdersService/Controllers/OrdersController.cs:38-57 | Appending an order with its own request row keeps every order paired with a request row and every request row with an order |
| OrdersController.CreateOrderKeepsRequestsMatched | OrdersService/Controllers/OrdersController.cs:27-58 | Placing an order, whatever the outcome, keeps orders and request rows paired |
| OrdersController.OrdersOf | OrdersService/Controllers/OrdersController.cs:70 | Exactly the orders of the user, each as many times as it is stored |
| OrdersController.NewestFirst | OrdersService/Controllers/OrdersController.cs:71 | The same orders, by CreatedAt descending |
| OrdersController.Summaries | OrdersService/Controllers/OrdersController.cs:72-79 | One summary per order, in order |
| OrdersController.GetOrders | OrdersService/Controllers/OrdersController.cs:63-83 | BadRequest exactly without a caller id, otherwise Ok |
| OrdersController.CallersOrdersNewestFirst | OrdersService/Controllers/OrdersController.cs:69-71 | The sorted selection holds exactly the caller's orders, as many as the filter kept |
| OrdersController.GetOrdersListsCallersOrders | OrdersService/Controllers/OrdersController.cs:63-83 | The list is newest first, every entry summarises one of the caller's orders, and every one of the caller's orders is listed |
| OrdersController.SummariesKeepOrder | OrdersService/Controllers/OrdersController.cs:71-79 | Projecting newest-first orders to summaries keeps them newest first; the proof helper of `GetOrdersListsCallersOrders` |
| OrdersController.ListedOrdersAreCallers | OrdersService/Controllers/OrdersController.cs:69-80 | Every listed summary is of one of the caller's orders |
| OrdersController.CallersOrdersAreListed | OrdersService/Controllers/OrdersController.cs:69-80 | Every one of the caller's orders is listed |
| OrdersController.OrderOfUser | OrdersService/Controllers/OrdersController.cs:91-93 | The first order matching both id and user, or None exactly when none matches |
| OrdersController.GetOrderStatus | OrdersService/Controllers/OrdersController.cs:85-107 | BadRequest without a caller id; NotFound exactly when no order matches both id and caller; otherwise the details of a matching order |
| OrdersController.OtherUsersOrderIsNotFound | OrdersService/Controllers/OrdersController.cs:91-96 | An order stored only under other users is NotFound for the caller |
| OrdersController.OwnOrderIsFound | OrdersService/Controllers/OrdersController.cs:91-106 | With unique keys, the caller's own order is found and described as stored |
| OutboxProcessor.Unprocessed | OrdersService/Services/OutboxProcessor.cs:46 | Exactly the stored rows not yet processed, each as many times as it is stored |
| OutboxProcessor.OldestFirst | OrdersService/Services/OutboxProcessor.cs:47 | The same rows, by CreatedAt ascending |
| OutboxProcessor.TakeIsOldest | OrdersService/Services/OutboxProcessor.cs:45-49 | The first ten of the sorted unprocessed rows are unprocessed and ascending, no unprocessed row left out is older than one taken, and there are none only when every row is processed |
| OutboxProcessor.SelectBatch | OrdersService/Services/OutboxProcessor.cs:45-49 | Ten rows, or as many as are unprocessed when fewer; all unprocessed, oldest first, none older left behind, empty exactly when everything is processed |
| OutboxProcessor.BatchIsExact | OrdersService/Services/OutboxProcessor.cs:45-49 | No row is selected more often than it is stored, and when fewer than ten rows are unprocessed every one of them is selected |
| OutboxProcessor.SelectBatchMayBeReturned | OrdersService/Services/OutboxProcessor.cs:45-49 | The model's batch is one of the batches the query may return when equal CreatedAt are ordered freely |
| OutboxProcessor.ReturnedBatchHoldsFewRows | OrdersService/Services/OutboxProcessor.cs:45-49 | Any batch the query may return holds only stored unprocessed rows, and all of them when fewer than ten are unprocessed |
| OutboxProcessor.SubMultisetIsSmaller | OrdersService/Services/OutboxProcessor.cs:45-49 | A sub-multiset has no more elements, so a batch of as many rows as are unprocessed, repeating none, leaves none out |
| OutboxProcessor.UnprocessedIsSubMultiset | OrdersService/Services/OutboxProcessor.cs:46 | The unprocessed rows are a sub-multiset of the stored rows |
| OutboxProcessor.TakeIsSubMultiset | OrdersService/Services/OutboxProcessor.cs:47-48 | The first ten of any arrangement of the unprocessed rows are a sub-multiset of the stored rows |
| OutboxProcessor.Publications | OrdersService/Services/OutboxProcessor.cs:64-70 | One persistent publish to payment_requests per row, carrying its payload, in row order |
| OutboxProcessor.TrackedRows | OrdersService/Services/OutboxProcessor.cs:72-73 | Every batch row is tracked under its key, and every tracked row is a batch row marked processed at the cycle's time |
| OutboxProcessor.TrackedAreStored | OrdersService/Services/OutboxProcessor.cs:72-73 | Every tracked row is keyed by its own id, and that id is stored |
| OutboxProcessor.ProcessOutboxMessages | OrdersService/Services/OutboxProcessor.cs:40-79 | The outcome, the tables left and the publishes appended to the channel are exactly `CycleStep` of the old tables |
| OutboxProcessor.PublishBatch | OrdersService/Services/OutboxProcessor.cs:51-78 | For a given batch: the outcome, tables and publishes of `CycleOn`, through the per-row loop and the single save |
| OutboxProcessor.MarksAccepted | OrdersService/Services/OutboxProcessor.cs:72-78 | The marks of stored unprocessed rows are never rejected by the store |
| OutboxProcessor.MarksWrittenBack | OrdersService/Services/OutboxProcessor.cs:72-78 | Writing the marks back turns each batch row into its marked version and keeps every other row |
| OutboxProcessor.CommittedMarks | OrdersService/Services/OutboxProcessor.cs:78 | The final save returns exactly when the store is reachable, and then marks exactly the batch rows and keeps the orders |
| OutboxProcessor.CycleMarksBatch | OrdersService/Services/OutboxProcessor.cs:40-79 | A cycle returns exactly when no fault strikes; then it has published every batch payload in order and marked exactly the batch rows, processed at its time; otherwise it has published a prefix of the batch and changed nothing |
| OutboxProcessor.EmptyBatchIsNoOp | OrdersService/Services/OutboxProcessor.cs:51 | With every row processed a cycle returns, publishes nothing and changes nothing |
| OutboxProcessor.ProcessedNeverReverts | OrdersService/Services/OutboxProcessor.cs:72-78 | No cycle unmarks a processed row |
| OutboxProcessor.MarkedRowsWerePublished | OrdersService/Services/OutboxProcessor.cs:64-78 | A row a cycle marks processed had its payload published in that cycle |
| OutboxProcessor.MarkedRowsWerePublishedOn | OrdersService/Services/OutboxProcessor.cs:64-78 | The same, for a given batch of stored unprocessed rows |
| OutboxProcessor.FailedCycleIsRepublished | OrdersService/Services/OutboxProcessor.cs:40-79 | A cycle that throws changes no row and published only unprocessed rows. Its publishes are a prefix of those of the next cycle on the same, unchanged tables, if that cycle returns and its query returns the same batch, which the model's query always does |
| OutboxProcessor.FailedCycleIsRepublishedByAnyQuery | OrdersService/Services/OutboxProcessor.cs:40-79 | Whatever order the database gives equal CreatedAt: with fewer than ten rows unprocessed, a failed cycle writes nothing, and every payload it published is published by a next cycle on the same tables that returns |
| OutboxProcessor.PublicationsOfCoveredRows | OrdersService/Services/OutboxProcessor.cs:64-70 | The publishes of any prefix of one batch are among the publishes of any batch holding all its rows |
| OutboxProcessor.FailedCycleIsRepublishedOn | OrdersService/Services/OutboxProcessor.cs:40-79 | The same, for a given batch |
| OutboxProcessor.SuccessfulCycleIsNotRepeated | OrdersService/Services/OutboxProcessor.cs:45-78 | After a cycle returns, every row holding a batch row's key is processed, so none is selected again |
| OutboxProcessor.SuccessfulCycleIsNotRepeatedOn | OrdersService/Services/OutboxProcessor.cs:45-78 | The same, for a given batch |
| OutboxProcessor.MarkedIdsAreProcessed | OrdersService/Services/OutboxProcessor.cs:72-73 | Once the batch rows are marked in place, every row with a batch row's key is processed |
| OutboxProcessor.CycleOnKeepsRows | OrdersService/Services/OutboxProcessor.cs:64-78 | A cycle on a batch keeps keys unique, the orders as they were and every outbox row in place with its key, type, payload and creation time, and unmarks none |
| OutboxProcessor.CycleKeepsRows | OrdersService/Services/OutboxProcessor.cs:40-79 | The same for a whole cycle |
| OutboxProcessor.KeptRowsKeepRequestsMatched | OrdersService/Services/OutboxProcessor.cs:72-73 | Rows kept in place keep orders and request rows paired |
| OutboxProcessor.CycleKeepsRequestsMatched | OrdersService/Services/OutboxProcessor.cs:40-79 | A cycle keeps keys unique and orders and request rows paired |
| OutboxProcessor.ExecuteAsync | OrdersService/Services/OutboxProcessor.cs:21-38 | After the loop's passes, the tables and the channel's publishes are those of `Run`, one cycle per pass whatever it throws |
| OutboxProcessor.RunExtends | OrdersService/Services/OutboxProcessor.cs:25-37 | One more pass of the loop is one more cycle on the tables the earlier passes left |
| OutboxProcessor.RunKeepsRows | OrdersService/Services/OutboxProcessor.cs:25-37 | Over any run, keys stay unique, no row moves or loses its payload, and no processed row is unmarked |
| OutboxProcessor.RunMarksOnlyPublished | OrdersService/Services/OutboxProcessor.cs:25-37 | Over any run, a row that ends processed and was not at the start had its payload published during the run |
| OutboxProcessor.RunKeepsRequestsMatched | OrdersService/Services/OutboxProcessor.cs:25-37 | Over any run, orders and request rows stay paired |
| Broker.Channel.BasicPublish | OrdersService/Services/OutboxProcessor.cs:70 | One publication is appended to what the channel has published |
| OrderStatusUpdater.UpdateOrderStatus | OrdersService/Services/OrderStatusUpdater.cs:70-87 | The outcome and the tables left are exactly `UpdateStatus` of the old tables |
| OrderStatusUpdater.Received | OrdersService/Services/OrderStatusUpdater.cs:43-63 | The acknowledgement and the tables left are `OnPaymentResult`: the handler runs only on a decoded result |
| OrderStatusUpdater.UnknownOrderIsAcked | OrdersService/Services/OrderStatusUpdater.cs:75-80 | A result for an order not stored changes nothing and its delivery is acked |
| OrderStatusUpdater.StatusFollowsResult | OrdersService/Services/OrderStatusUpdater.cs:82-85 | A stored order becomes FINISHED on success and CANCELLED otherwise, timestamped now, whatever its status was; other orders and the outbox are kept; a failed save writes nothing |
| OrderStatusUpdater.TerminalOrderCanFlip | OrdersService/Services/OrderStatusUpdater.cs:82 | A FINISHED or CANCELLED order is flipped by a later result with the other verdict |
| OrderStatusUpdater.SameResultTwiceIsOnce | OrdersService/Services/OrderStatusUpdater.cs:82-85 | Applying a result twice leaves the same tables as applying it once at the later time |
| OrderStatusUpdater.UpdateKeepsRequestsMatched | OrdersService/Services/OrderStatusUpdater.cs:82-85 | A status update keeps orders and request rows paired |
| OrderStatusUpdater.SettledOrdersKeepRequestsMatched | OrdersService/Services/OrderStatusUpdater.cs:82-83 | Orders that keep their id, user and amount beside the same outbox stay paired with their requests |
| OrderStatusUpdater.NackedDeliveryChangesNothing | OrdersService/Services/OrderStatusUpdater.cs:58-62 | A nacked delivery has changed no table |
| OrderStatusUpdater.AckedDeliveryIsApplied | OrdersService/Services/OrderStatusUpdater.cs:45-57 | An acked delivery had a null payload, or its result was applied to the order it names |
| Seqs.FirstIndex | PaymentsService/Services/InboxProcessor.cs:82 | FirstOrDefault: the first position satisfying the predicate, None exactly when none does |
| Seqs.Filter | OrdersService/Controllers/OrdersController.cs:70 | Where: exactly the elements satisfying the predicate, each as many times as it occurs in the input |
| Seqs.SortBy | OrdersService/Services/OutboxProcessor.cs:47 | OrderBy: ascending by key and a permutation of the input |
| Seqs.Take | OrdersService/Services/OutboxProcessor.cs:48 | Take(n): a prefix of length n, or everything when there are fewer; no element more often than in the input |

## Left out

- Broker plumbing is not modelled: connection factories, queue declarations, `BasicQos`, `BasicConsume`, the cancellation token and the infinite delay. Each delivery is one call of the handler that returns Ack or NackRequeue.
- JSON serialisation and UTF-8 encoding are not modelled. A payload is the message value itself, and a delivery body is already decoded, null or malformed.
- The delays of the outbox loop (1 s after a cycle, 5 s after an exception) are not modelled, because only the order of cycles matters. The loop is a finite run of passes, and stopping on cancellation is the end of the run.
- `DateTime.UtcNow` is one clock value per call, because several reads in one call are microseconds apart. `Guid.NewGuid()` values are parameters. Fresh ids are a precondition only of the success-path lemmas. The handlers do not require them, because the store rejects a colliding key as the database would.
- Faults are parameters. A query that fails before the save is not modelled separately, because it also throws with nothing written.
- Logging is not modelled, because it has no effect on state.
- Concurrency is not modelled: prefetch, several consumer instances and truly parallel requests. What remains is the sequential rule that a save whose Version is stale is rejected atomically. `InboxProcessor.InterleavedDebitsBothCommit` applies two change sets from one read in sequence.
- The decimal(18,2) range bound is not modelled: money is unbounded integer cents.
- The payments service's own outbox publisher is not part of this model, so `PaymentsService.Serve` has no event for it.
- The account entity file is not part of this model. Its columns are taken from the construction in `AccountsController.CreateAccount`.
- Negative order amounts are not validated, because `CreateOrder` accepts any amount. A request with a negative amount passes the balance check and raises the balance. The model keeps this behaviour and proves nothing that excludes it.
- `Version` is never incremented, because no code of the services assigns it.
- OutboxProcessor.FailedCycleIsRepublished: holds for the model's query, which fixes one order among rows with equal CreatedAt and so returns the same batch for unchanged tables. The database need not do so. `FailedCycleIsRepublishedByAnyQuery` covers every order the database may choose, but only when fewer than ten rows are unprocessed. With ten or more, reordered ties can leave a row the failed cycle published out of the next batch. The model does not state when that row is published again.
- OutboxProcessor.PublishBatch: this is the part of `ProcessOutboxMessages` after the query, split into its own method. The selection and the loop are then proved separately.
