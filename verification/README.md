# Verified model of the booking and wallet backend

This project models the state machines behind a booking marketplace (guarded SQL statements driven
by Go loops) and proves what they keep. Check everything with `dafny verify dfyconfig.toml`
(Dafny 4.11; use `--resource-limit 2000000 --verification-time-limit 0`).

A database table is a sequence whose positions are the primary keys, or a map; a statement or an
explicit transaction is one function from tables to tables; a protocol is a total `Apply(state, step)`
in which a step that is not enabled changes nothing; a run is a sequence of steps, so a theorem about
`Run(s, steps)` speaks of every interleaving of any number of processes (`pm2.config.js:6-7` runs one per
core). The code that changes things step by step is also written as classes and methods with loops, each
proved equal to those functions.

| file | what it models |
|---|---|
| Common | optional values, column sums, decimal text in keys |
| ImportTables, WalkInDesk | job and row tables of a bulk import; what booking one row does |
| ImportProtocol, ImportTheorems, ImportTruth | workers, crashes, lost writes and sweeps, and what holds of every run |
| ImportContents | from the line of a sheet to its row and the seat booked for it |
| ImportReport, ImportExamples | exactly when the report of an import is wrong about a row, and runs on which it is |
| ImportTiming | how long a walked job can look abandoned |
| ImportService | the import repository and batch driver as a class, shown to perform runs of the protocol |
| Ledger, LedgerRace | append-only ledger and stored balances; entries written by several processes at once |
| Reconciliation | the reconciliation loop, over a still and a moving bank, and its grouped twin |
| TopUp | the reserve-then-credit protocol |
| MoneySplit | the purchase split and its reversal |
| Refunds, RefundWebhooks | refunds of a top-up to its card, racing and compensated; overlapping and dying webhook calls |
| CoHost | co-host claims against the passed earnings of an event |
| Passes | monthly-pass sessions |
| Calendar, AutoPayout | ISO weeks, UTC text, weekly payouts |
| Occupancy | the occupancy index against the plain sum |
| MigrationText, MigrationMarkers | section extraction, and which lines count as markers |
| MigrationRunner | the migration loop |
| Promo | the marketing blast |

## What turned out false

The code was followed where it disagrees with its own comments or documentation.

- Restarting an import is said to be safe because the key returns the existing booking
  (`internal/service/booking_import_service.go:379-382`, `543-545`). `InitiateWalkIn` refuses a guest who holds the
  slot before it looks at the key (`internal/service/walkin_service.go:242-249`), and `CreateBooking` looks for the key
  among ledger rows, which a zero-cost booking never writes. `ImportExamples.InterruptedRow`,
  `ImportExamples.TwoWorkersOnOneJob` and `ImportExamples.StaleList` show the wrong report, no re-drive mends it
  (`ImportReport.RedriveNeverRecovers`), and `ImportReport.WrongReportIff` lists the five events one of which
  it takes.
- A worker that dies, or whose credit fails, between reserving and crediting a top-up strands the money for good
  (`TopUp.StrandedForever`); an account's balance falls short of its ledger by exactly the credits lost so
  (`TopUp.SettledIffNothingLost`).
- A host whose weekly payout has been begun stays without a transfer for that week exactly when the process holding it
  dies before the transfer, cannot write the payment row, or is refused by the provider, or the provider reports
  later that the transfer failed or was reversed, and no report of completion follows (`AutoPayout.WeekUnpaidIff`):
  the key of the week is then used, so no later attempt pays (`AutoPayout.AbandonedWeekStaysUnpaid`).
- Every paid purchase makes the platform's or the host's account drift, since their stored balances never move
  (`MoneySplit.PaidPurchaseDrifts`), so the reconciliation of such a bank cannot succeed.
- Refund headroom is checked and used in two statements (`Refunds.RaceExceeds`; `Refunds.BoundedIffCovered` gives the
  exact condition). A refund the gateway fails in its answer keeps the customer's money, and one whose row could not be
  written after the answer keeps its headroom, whatever webhooks follow (`RefundWebhooks.OutOfReach`).
- The "deterministic key so a retry can't double-credit" (`internal/service/user_service.go:841-845`) stops a second
  ledger entry but not a second wallet credit: `RefundWebhooks.WebhookTwice` and, on a plain retry after a crash,
  `RefundWebhooks.CrashThenRetry`; `RefundWebhooks.DriftIffRepeated` gives the exact condition and
  `RefundWebhooks.OrderlyCallsNeverDrift` what suffices to meet it.
- Running balances are wrong exactly for entries overtaken by others that do not sum to zero (`LedgerRace.RacingRuns`),
  and a reconciliation of money in motion raises a false alarm on the same ground
  (`Reconciliation.MovingRunSucceedsIff`).
- A migration stopped between executing a file and recording it executes it again (`MigrationRunner.TimesExecuted`).
- A payout outcome arriving after a claim failed revives the claim and can pay a pool out twice (`CoHost.PaidTwice`);
  claims stay within the pool's peak exactly when every revival is covered (`CoHost.WithinPeakIff`).
- Occurrences within one second share a key of the occupancy index: a lookup is right for every order of the rows
  exactly when nothing of the event is booked in its second, or it is booked itself and everything else there equally
  (`Occupancy.LookupRightIff`, `Occupancy.HalfSecondApart`).
- Two cancellations of one seat hand back two pass sessions (`Passes.DoubleCancelOverbooks`).
- An up marker directly followed by a down marker runs the down section (`MigrationText.SectionBetweenMarkers`).
- A marketing test number without a digit is no filter (`Promo.TestPhoneRestrictsIff`).
- `README.md:690` says four ledger entries share one key, which is declared unique at `README.md:738`;
  `internal/service/money.go:64-133` keys only the first, as modelled here.

## Assumptions

- Each SQL statement, and each explicit transaction, is atomic. For `ReserveClaim` this reads the comment at
  `internal/repository/cohost_repository.go:294-297` as intended: claim statements are serialised.
- Sheet row numbers increase, as the parser assigns them; bookings made elsewhere never carry an import key; other
  movements of money never carry a top-up key; event capacities do not change during an import.
- The grouped query reads one bank, being one statement; the reconciliation reads whatever its statements find.
- Unique keys are those of `migrations/20260228120000_init_schema.sql:118` and `155` (bookings, payments) and
  `migrations/20260324120000_add_transaction_ledger.sql:23` (ledger entries).
- Time, identifiers, gateway answers, provider outcomes and failures are parameters of the steps. A UUID is a text of
  36 characters where it enters a key and a number where it is only compared. Amounts are unbounded integers.
- A guest account stands for its phone. Missing net earnings count as zero, as SQL's SUM does.

## Model

| member | source | states |
|---|---|---|
| `ImportTheorems.CountersNeverDisagree` | internal/repository/booking_import_repository.go:51-110 | in every reachable state total, success, failed and processed are the numbers of the job's rows, and processed is total minus pending |
| `ImportTheorems.ResolvedRowsFrozen` | internal/repository/booking_import_repository.go:187-225 | a resolved row is identical in every continuation of the run |
| `ImportTheorems.PendingNeverRises` | internal/service/booking_import_service.go:304-333 | the number of pending rows of a job never grows, whoever re-drives it |
| `ImportTheorems.LandingResolvesOne` | internal/service/booking_import_service.go:400-412 | a landing result write on a pending row lowers that number by exactly one |
| `ImportTheorems.CompletedMeansNothingPending` | internal/service/booking_import_service.go:304-333 | a worker marks a job completed only when every row still pending is one whose result write it lost itself; none if it lost none |
| `ImportTheorems.FinishedJobFrozen` | internal/service/booking_import_service.go:543-556 | once nothing is pending no re-drive changes a row or a counter of the job |
| `ImportTheorems.OneBookingPerRow` | internal/service/booking_import_service.go:346-398 | over every run at most one booking exists per job and row number, and no slot exceeds its capacity |
| `ImportTheorems.SuccessOwnsItsBooking` | internal/service/booking_import_service.go:379-398 | a successful row carries the booking made under its own key, and no two successful rows share one |
| `ImportContents.SheetToSeat` | internal/service/booking_import_service.go:255-398 | whatever precedes the upload and follows it, a line's row keeps the line's number, guest and quantity, an unusable line its error, and a booking under the row's key is for that guest and quantity at the job's event and occurrence |
| `ImportContents.UnusableNeverBooked` | internal/service/booking_import_service.go:274-279 | a line the parser could not use is never booked |
| `ImportContents.UploadedRow` | internal/service/booking_import_service.go:255-290 | each line becomes a row with its contents, pending exactly when usable |
| `ImportContents.StatusSteps` | internal/service/booking_import_service.go:304-333 | a started walk marks the job processing, an unreadable list failed with its reason, a finished walk completed |
| `ImportContents.OtherDeskBooks` | internal/service/booking_service.go:532-618 | a booking made elsewhere goes through exactly when its seats are there and its key is new |
| `ImportTables.CountsPartition` | internal/repository/booking_import_repository.go:51-110 | a job's rows are its pending, successful and failed rows |
| `ImportTables.CreateJobKeeps` | internal/repository/booking_import_repository.go:51-110 | creating a job with its rows keeps every job's counters right, rows that arrive failed included |
| `ImportTables.MarkRowKeeps` | internal/repository/booking_import_repository.go:187-225 | a result write keeps every job's counters right and touches only a pending row |
| `ImportTables.QuietWritesKeep` | internal/repository/booking_import_repository.go:227-274 | the unguarded status write and the sweep keep every job's counters right and every row |
| `ImportProtocol.QuietTables` | internal/repository/booking_import_repository.go:227-274 | uploads and result writes aside, no step of any worker touches a row or a counter |
| `ImportTables.PendingOfSound` | internal/repository/booking_import_repository.go:173-176 | the listing holds each pending row of the job exactly once, by increasing row number |
| `ImportProtocol.StepKeeps` | internal/service/booking_import_service.go:304-412 | every step of every worker keeps tables, bookings, capacity and the workers' own lists consistent |
| `WalkInDesk.RowKeyInjective` | internal/service/booking_import_service.go:379-382 | two rows have one idempotency key only if they are the same row of the same job |
| `WalkInDesk.BooksExactlyWhen` | internal/service/walkin_service.go:203-353 | one active booking for the row's guest and quantity at the job's slot is made exactly when the guest holds no active booking there, the seats are there, the key is new and nothing outside refuses |
| `WalkInDesk.ToldExactly` | internal/service/booking_import_service.go:346-398 | the row is told the first obstacle in the order of the code, or its new booking |
| `WalkInDesk.CommitLooksAgain` | internal/service/booking_service.go:532-618 | the commit looks again at seats and key, and at nothing else, and refuses exactly on those |
| `WalkInDesk.SeatsCount` | internal/service/booking_service.go:532-618 | taken seats are the quantities of the active bookings of the slot |
| `WalkInDesk.ReplayIsRefused` | internal/service/walkin_service.go:242-329 | an attempt under a key already used never returns the booking made before and books nothing |
| `WalkInDesk.MisreportIff` | internal/service/walkin_service.go:203-353 | a row is reported as not booked although its booking exists exactly when the key was taken before, or the guest was free, the seats were there and the reply to the commit was lost |
| `WalkInDesk.InsertKeeps` | internal/service/booking_service.go:532-618 | the booking transaction keeps keys unique and every slot within capacity |
| `WalkInDesk.CancelKeeps` | internal/service/booking_service.go:1069-1072 | cancelling keeps keys unique and every slot within capacity |
| `ImportReport.RedriveNeverRecovers` | internal/service/booking_import_service.go:543-556 | once one of the five events has befallen a row it is never successful in any continuation, though its booking exists |
| `ImportReport.WrongReportIff` | internal/service/booking_import_service.go:346-412 | over every legal run of any number of workers a resolved row is failed while its booking exists exactly when one of five events befell it: a commit whose reply was lost, a commit from a stale list on a row already failed, a failed result write or a death while knowing of the booking, or a refusal written to a pending row already booked |
| `ImportTruth.CleanRunsTellTheTruth` | internal/service/booking_import_service.go:346-412 | a sufficient condition: without losses and with one worker per job a resolved row is successful exactly when a booking exists under its key |
| `ImportExamples.InterruptedRow` | internal/service/booking_import_service.go:543-556 | a run with one restart ends with a failed row whose guest holds the seat |
| `ImportExamples.TwoWorkersOnOneJob` | internal/service/booking_import_service.go:304-333 | two workers on one job, with no crash and no lost write, end the same way |
| `ImportExamples.StaleList` | internal/service/booking_import_service.go:304-333 | a worker with a stale list books a row another worker has already marked failed |
| `ImportTiming.GapBounded` | internal/service/booking_import_service.go:304-333 | during a walk the job was updated within the listing time plus 45 seconds for each unlanded write and for the row in hand |
| `ImportTiming.SweptLiveIff` | internal/repository/booking_import_repository.go:238-274 | a walk with at most k unlanded writes in a row can be found stale exactly when listing plus k + 1 full rows exceed five minutes |
| `ImportTiming.LiveJobNeverClaimed` | internal/repository/booking_import_repository.go:243-274 | with every write landing and a listing within 255 seconds a live job is never claimed |
| `ImportService.WalkIsARun` | internal/service/booking_import_service.go:304-398 | the sequential walk of the batch driver is a run of the protocol by one worker |
| `ImportService.FullWalkResolves` | internal/service/booking_import_service.go:304-333 | a whole walk whose writes land leaves no row of the job pending |
| `ImportService.Database.CreateJobWithRows` | internal/repository/booking_import_repository.go:51-110 | inserts the rows and the job with counters seeded from the rows that arrive failed |
| `ImportService.Database.StartImport` | internal/service/booking_import_service.go:215-290 | every parsed line becomes a row with the line's number, guest and quantity, pending exactly when usable, otherwise failed with its error; the job has its event, occurrence and total |
| `ImportService.Database.ListPendingRows` | internal/repository/booking_import_repository.go:173-176 | returns the pending rows of the job in sheet order |
| `ImportService.Database.MarkRowResult` | internal/repository/booking_import_repository.go:187-225 | writes status, error and booking of one pending row and moves its job's counters together, and does nothing to a resolved row |
| `ImportService.Database.SetJobStatus` | internal/repository/booking_import_repository.go:227-236 | writes the status with no guard, stamping completion for the two final statuses |
| `ImportService.Database.ClaimStaleJobs` | internal/repository/booking_import_repository.go:243-274 | returns and resets exactly the unfinished jobs not updated for five minutes |
| `ImportService.Database.ProcessRow` | internal/service/booking_import_service.go:346-412 | one attempt and its result write |
| `ImportService.Database.ProcessJob` | internal/service/booking_import_service.go:304-333 | which statements around the walk fail decides where it ends; otherwise it walks the listed rows up to the stop, and completes the job only when it reached the end |
| `Ledger.PostKeeps` | internal/repository/transaction_ledger_repository.go:88-148 | a serial insert keeps keys unique and every running balance equal to the account's sum up to and including the entry |
| `Ledger.SerialRuns` | internal/repository/account_repository.go:66-98 | over every serial run running balances are right, keys unique and no balance negative; with paired writes only, drift stays zero everywhere |
| `Ledger.MoveKeeps` | internal/repository/account_repository.go:66-98 | a movement changes the drift of its own account only, and only when it writes the journal without the wallet |
| `Ledger.RacingCreate` | internal/repository/transaction_ledger_repository.go:97-102 | with entries arriving between the read and the insert the running balance is right exactly when they sum to zero for the account |
| `LedgerRace.RacingRuns` | internal/repository/transaction_ledger_repository.go:88-148 | in every interleaving of readers and inserters no key is used twice, and an entry's running balance is right exactly when what reached its account between its read and its insertion sums to zero |
| `LedgerRace.EntriesWereAsked` | internal/repository/transaction_ledger_repository.go:88-148 | every entry has the account, amount and key some process asked for |
| `Ledger.Accounts.CalculateBalance` | internal/repository/transaction_ledger_repository.go:217-222 | the sum of the account's entries |
| `Ledger.Accounts.Create` | internal/repository/transaction_ledger_repository.go:88-148 | appends one entry with its running balance, or reports a used key or unknown account and changes nothing |
| `Ledger.Accounts.CreditWallet` | internal/repository/account_repository.go:66-80 | adds to the stored balance exactly when the account is known and the result not negative |
| `Ledger.Accounts.DebitWallet` | internal/repository/account_repository.go:84-98 | subtracts only what the balance covers and otherwise changes nothing |
| `Reconciliation.RunReconciliation` | internal/repository/transaction_ledger_repository.go:348-448 | counts, totals, discrepancy list and status of the loop for whatever its reads return and any pattern of failed ones |
| `Reconciliation.TotalsDifferByTheListed` | internal/repository/transaction_ledger_repository.go:381-399 | total balance minus total ledger is the sum of the listed differences, failed reads included |
| `Reconciliation.ErrorFreeListsDrift` | internal/repository/transaction_ledger_repository.go:365-400 | without read errors and with the bank at rest every account is compared and exactly the drifting ones are listed, in order, with their drift |
| `Reconciliation.SuccessMeansNoDrift` | internal/repository/transaction_ledger_repository.go:402-408 | without read errors and with the bank at rest the run succeeds exactly when no account drifts |
| `Reconciliation.CriticalIff` | internal/repository/transaction_ledger_repository.go:402-408 | an error-free run with d drifting accounts of n is critical exactly when d > 0 and d > n / 100, a warning when 0 < d <= n / 100 |
| `Reconciliation.MovingRunSucceedsIff` | internal/repository/transaction_ledger_repository.go:365-408 | while money moves an error-free run succeeds exactly when each account's drift at its balance read is what reached its ledger before its sum was read |
| `Reconciliation.FailedLedgerRead` | internal/repository/transaction_ledger_repository.go:378-385 | an account whose ledger cannot be read is listed exactly when its balance is not zero |
| `Reconciliation.GroupIsLedger` | internal/repository/admin_directory_repository.go:1033-1040 | the group sum of the left join is the ledger sum of each listed account, matched or not |
| `Reconciliation.DashboardAgreesWithRun` | internal/repository/admin_directory_repository.go:1033-1040 | the grouped drift count is the number of discrepancies an error-free run lists, hence zero exactly when that run succeeds |
| `TopUp.BalancePlusOwedIsLedger` | cmd/e2e-node-topup/main.go:76-136 | in every interleaving each payment is credited at most once, and stored balance plus reserved-but-uncredited money trails the ledger sum by exactly what it did at the start and what was journaled without a wallet write |
| `TopUp.BalancePlusOwedFromStart` | cmd/e2e-node-topup/main.go:76-136 | from a start, for an account without drift that gets paired writes only, stored balance plus reserved-but-uncredited money is the ledger sum |
| `TopUp.BalanceIsLedgerIff` | cmd/e2e-node-topup/main.go:121-132 | an account's balance is its ledger sum exactly when none of its reservations is uncredited |
| `TopUp.SettledIffNothingLost` | internal/service/user_service.go:558-623 | from a start to rest an account's balance falls short of its ledger sum by exactly the credits of its payments that were lost, so with positive amounts the two agree exactly when none was |
| `TopUp.OutstandingIffLost` | internal/service/user_service.go:558-645 | at rest a reservation is uncredited exactly when its credit was lost, and a completed payment is credited once unless lost |
| `TopUp.CompletedIff` | internal/service/user_service.go:606-660 | at rest a payment is completed exactly when some worker that took it up neither died on it nor failed to credit it |
| `TopUp.StrandedIff` | internal/service/user_service.go:606-623 | a step strands a payment exactly when it was stranded before, or the worker owing its credit dies or fails to credit it |
| `TopUp.StrandedForever` | internal/service/user_service.go:625-645 | a stranded payment is never credited in any continuation |
| `TopUp.Finish` | cmd/e2e-node-topup/main.go:76-107 | one service's path moves ledger and wallet together if the key is new and neither otherwise, leaving every account's drift as it was |
| `TopUp.KeyInjective` | internal/service/user_service.go:646-647 | distinct payments have distinct keys |
| `MoneySplit.PurchaseMoves` | internal/service/money.go:49-148 | what a purchase does to any account's ledger sum, that the whole ledger nets to zero, and that only the buyer's stored balance moves |
| `MoneySplit.PurchaseFigures` | internal/service/money.go:49-148 | the buyer pays the price, the host gets its share, the platform the rest, nobody else's ledger sum moves |
| `MoneySplit.PurchaseSucceedsIff` | internal/service/booking_service.go:558-587 | a purchase goes through exactly when the wallet covers it, the accounts exist and the key is new |
| `MoneySplit.PurchasedOnce` | internal/service/money.go:64-79 | once a purchase went through, every later one under its key is refused |
| `MoneySplit.ReverseMoves` | internal/service/money.go:163-271 | what a reversal does to any account's ledger sum, to the ledger as a whole and to the buyer's balance |
| `MoneySplit.ReverseFigures` | internal/service/money.go:163-271 | the buyer gets the price back, the host returns its net earning and the platform its fee |
| `MoneySplit.ReverseSucceedsIff` | internal/service/money.go:163-271 | a reversal goes through exactly when each part it writes finds its account and an unused key, the refund's payments row included |
| `MoneySplit.KeysApart` | internal/service/money.go:176-252 | the three reversal keys never coincide |
| `MoneySplit.CancelUndoesPurchase` | internal/service/money.go:15-24 | a purchase and its later reversal restore the buyer's wallet, and every ledger sum exactly when both shares of the price are non-negative |
| `MoneySplit.RefundedOnce` | internal/service/money.go:154-181 | after a paid reversal every later one under the same reference is refused |
| `MoneySplit.PurchaseDrift` | internal/service/money.go:20-24 | the platform's and the host's accounts fall behind by exactly what they were given and no other account drifts |
| `MoneySplit.PaidPurchaseDrifts` | internal/service/money.go:20-24 | a paid purchase always leaves a drifting account in a bank that had none |
| `MoneySplit.TradesConserve` | internal/service/money.go:15-24 | over every run of purchases and reversals the whole ledger keeps its total and a buyer's balance never departs from the buyer's ledger sum |
| `Refunds.BoundedIffCovered` | internal/repository/payment_repository.go:185-198 | active refunds stay within every top-up throughout a run exactly when each row was inserted, or made active again, for at most the headroom of that moment |
| `Refunds.InsertBoundedIff` | internal/service/user_service.go:727-767 | one insertion keeps every top-up bounded exactly when it is still covered |
| `Refunds.HeadroomCounts` | internal/repository/payment_repository.go:190-198 | what counts against a top-up is each refund naming it that is pending, in flight or paid |
| `Refunds.ChecksIff` | internal/service/user_service.go:695-744 | a request passes its checks exactly for a completed, charged top-up and a positive amount within the headroom |
| `Refunds.StatusBoundedIff` | internal/repository/payment_repository.go:156-166 | a status write keeps every top-up bounded exactly when it revives no refund beyond the headroom |
| `Refunds.KeysStayUnique` | migrations/20260228120000_init_schema.sql:155 | in every run no two payments share an idempotency key |
| `Refunds.RaceExceeds` | internal/service/user_service.go:726-767 | two workers checking before either inserts refund a top-up twice, in two rows of their own |
| `Refunds.RefundOutcome` | internal/service/user_service.go:752-834 | the row after each gateway answer, by answer and whether or not its last write lands (paid completed, in flight processing, refused or failed at once failed), and what happened to wallet, ledger sum and headroom |
| `Refunds.NoDebitNoLoss` | internal/service/user_service.go:789-805 | when the debit cannot be made the row fails and wallets, ledger sums and headroom are as before |
| `Refunds.GiveBackDrift` | internal/service/user_service.go:841-865 | a reversal always pays the wallet and leaves drift alone exactly when its key was unused |
| `RefundWebhooks.InFlightAnswered` | internal/service/user_service.go:871-900 | after a refund left in flight a delivered failure restores wallet, ledger and headroom and ends failed, a delivered success ends completed |
| `RefundWebhooks.TakenUpIff` | internal/service/user_service.go:871-886 | a delivery is acted on exactly when it names a refund neither completed nor failed |
| `RefundWebhooks.WebhookTwice` | internal/service/user_service.go:871-900 | two overlapping deliveries of one failure webhook pay the customer twice and leave drift |
| `RefundWebhooks.DriftIffRepeated` | internal/service/user_service.go:841-900 | over every run of overlapping and dying calls an account's drift grows by exactly the reversals made under a used key, so it stays exactly when there are none |
| `RefundWebhooks.OrderlyCallsNeverDrift` | internal/service/user_service.go:871-900 | if calls on one row do not overlap and none dies halfway no account drifts |
| `RefundWebhooks.CrashThenRetry` | internal/service/user_service.go:871-900 | a call that dies between reversing and writing the status lets the next delivery pay again |
| `RefundWebhooks.OutOfReach` | internal/service/user_service.go:826-886 | a refund refused, failed in the answer or not written after it is reached by no webhook: calls about it might as well not come, and without others wallet, ledger and headroom stay as the answer left them |
| `Refunds.KeysApart` | internal/service/user_service.go:769-847 | debit and reversal keys never coincide, and reversal keys identify the refund |
| `Refunds.PaymentDesk.SumActiveRefundsAgainstPayment` | internal/repository/payment_repository.go:190-198 | the active refunds of one top-up |
| `Refunds.PaymentDesk.FindMostRecentRefundableTopup` | internal/repository/payment_repository.go:200-223 | a newest completed, charged top-up of the account with the headroom asked, and none only if none has it |
| `Refunds.PaymentDesk.Create` | internal/repository/payment_repository.go:65-81 | appends one row and changes no other, and is refused exactly under a used key |
| `Refunds.PaymentDesk.Update` | internal/repository/payment_repository.go:144-154 | writes one row's status and the gateway's identifier with it, and nothing else |
| `Refunds.PaymentDesk.UpdateStatus` | internal/repository/payment_repository.go:156-166 | changes one row's status, whatever it was, and nothing else |
| `Refunds.PaymentDesk.FindByKey` | internal/repository/payment_repository.go:107-113 | a row with the key, and none only if there is none |
| `Refunds.PaymentDesk.RefundTopUpToSource` | internal/service/user_service.go:695-834 | which check refuses which request, that a refusal changes nothing, and the state an accepted one leaves |
| `Refunds.PaymentDesk.Attempt` | internal/service/user_service.go:752-834 | the three phases for every gateway answer |
| `Refunds.PaymentDesk.WriteReversal` | internal/service/user_service.go:846-865 | the compensation ignores a refused ledger entry |
| `CoHost.ReserveMatchesShown` | internal/repository/cohost_repository.go:293-325 | a positive amount is reserved exactly when it is at most the amount shown, lowers it by exactly that and leaves other events alone |
| `CoHost.PoolCounts` | internal/repository/cohost_repository.go:273-281 | a seat counts for its own event only, by its net earning, exactly while it is confirmed and its session over |
| `CoHost.NothingEarnedNothingReserved` | internal/repository/cohost_repository.go:293-325 | nothing can be reserved from an event without such a seat, whatever others earned |
| `CoHost.WithinPeakIff` | internal/repository/cohost_repository.go:273-343 | over every run an event's claims stay within the largest passed pool so far, throughout, exactly when every failed claim brought back to life is covered by what that peak leaves |
| `CoHost.ClaimedWithinPeak` | internal/repository/cohost_repository.go:273-343 | in particular they do so in every run in which failed claims stay failed |
| `CoHost.ClaimedWithinPool` | internal/repository/cohost_repository.go:273-343 | if no passed confirmed booking is cancelled the same condition decides whether they stay within the current pool |
| `CoHost.RevivalIff` | internal/service/payout_service.go:863-914 | a late completion of a payment keeps an event within its pool exactly when what is left covers the failed claims of that payment |
| `CoHost.PaidTwice` | internal/service/payout_service.go:863-914 | a pool reserved, failed, reserved again and then completed late is claimed twice over |
| `CoHost.ReleaseGivesBack` | internal/service/cohost.go:371-381 | failing a claim gives back exactly its amount |
| `CoHost.HiddenOnlyWhenExhausted` | internal/repository/cohost_repository.go:226-256 | an invited or accepted share is hidden exactly when its event does not recur, has been over for more than thirty days and every withdrawal would be refused |
| `CoHost.LastSessionIsMax` | internal/repository/cohost_repository.go:243-249 | the last session is the latest confirmed one or the event's own time |
| `CoHost.WithdrawalTakes` | internal/service/cohost.go:336-387 | a withdrawal takes exactly its amount unless its payout was refused or failed at once, asking for everything leaves nothing, and the claim ends as the payout did |
| `CoHost.ClaimDesk.EventPassedEarnings` | internal/repository/cohost_repository.go:273-281 | the net earnings of confirmed sessions already over |
| `CoHost.ClaimDesk.EventClaimedCents` | internal/repository/cohost_repository.go:283-291 | the amounts of claims that have not failed |
| `CoHost.ClaimDesk.Reserve` | internal/repository/cohost_repository.go:293-325 | decides and inserts in one statement |
| `CoHost.ClaimDesk.AttachPayment` | internal/repository/cohost_repository.go:327-331 | links one claim to its payment |
| `CoHost.ClaimDesk.SetClaimStatus` | internal/repository/cohost_repository.go:333-337 | writes one claim's status, whatever it was |
| `CoHost.ClaimDesk.SetClaimStatusByPayment` | internal/repository/cohost_repository.go:339-343 | writes the status of exactly the claims of one payment |
| `CoHost.ClaimDesk.Withdraw` | internal/service/cohost.go:311-387 | which check on the share refuses which request, changing nothing, and what happens with access |
| `CoHost.ClaimDesk.WithdrawFrom` | internal/service/cohost.go:336-387 | every outcome of a withdrawal with access, the claim it leaves and when it is refused |
| `CoHost.ClaimDesk.ListSharedWithHost` | internal/repository/cohost_repository.go:172-212 | one card per visible share of the host in order, with its passed and claimed money and showing exactly what the reserving statement would accept |
| `Passes.UsableIffConsumes` | internal/models/pass.go:56-79 | a pass is usable for a session exactly when consuming one for it succeeds, which is while it is active, within its dates and not used up; consuming lowers what remains by one |
| `Passes.UsedStaysWithin` | internal/repository/pass_repository.go:165-213 | over every interleaving the counter stays between zero and the sessions included |
| `Passes.UsedExactIff` | internal/repository/pass_repository.go:165-193 | the counter is consumes minus releases exactly when every release so far answered an earlier consume |
| `Passes.StartsIff` | internal/service/booking_service.go:846-871 | a cancellation is taken up exactly for a live seat |
| `Passes.SeatsMatchIff` | internal/service/booking_service.go:1074-1081 | sessions used and seats held agree throughout a run exactly when no cancellation releases a session for a seat already cancelled |
| `Passes.DoubleCancelOverbooks` | internal/service/booking_service.go:846-871 | two cancellations of one seat let a pass for two sessions hold three seats |
| `Passes.ExpireKeepsCount` | internal/repository/pass_repository.go:207-213 | expiring lapsed passes changes no count of active passes now or later |
| `Passes.CountMeans` | internal/repository/pass_repository.go:157-163 | the count rises by one for each active, unlapsed pass of the event bought, and falls by one when such a pass is refunded |
| `Passes.PassDesk.ConsumeSession` | internal/repository/pass_repository.go:165-185 | succeeds exactly when the pure view calls the pass usable |
| `Passes.PassDesk.ReleaseSession` | internal/repository/pass_repository.go:187-193 | hands one session back, never below zero |
| `Passes.PassDesk.UpdateStatus` | internal/repository/pass_repository.go:195-199 | changes one pass's status and nothing else |
| `Passes.PassDesk.ExpireLapsed` | internal/repository/pass_repository.go:207-213 | expires exactly the guest's lapsed active passes of the event and changes no later count |
| `Passes.PassDesk.Count` | internal/repository/pass_repository.go:157-163 | the active, unlapsed passes of an event |
| `Calendar.IsoWeekIdentifiesWeek` | internal/service/auto_payout.go:39-42 | ISO year and week of two days agree exactly when the days share a Monday-to-Sunday week (section 4.1.4 of ISO 8601:2004) |
| `Calendar.FirstWeekHoldsFourth` | internal/service/auto_payout.go:39-42 | week 1 is the week of the fourth of January |
| `Calendar.CivilRoundTrip` | internal/repository/booking_repository.go:549-555 | the calendar fields of a second denote that second |
| `Calendar.Rfc3339Injective` | internal/repository/booking_repository.go:549-555 | the UTC text identifies the second (section 5.6 of RFC 3339) |
| `Calendar.ParseRoundTrip` | internal/repository/booking_repository.go:549-555 | reading the text back, field by field, gives the calendar fields and so the second |
| `Calendar.KnownInstant` | internal/repository/booking_repository.go:549-555 | 1709210096 is Thursday 2024-02-29T12:34:56Z, six in the evening in India |
| `Calendar.MonthLengths` | internal/repository/booking_repository.go:549-555 | the months have their usual lengths |
| `Calendar.GregorianCycle` | internal/repository/booking_repository.go:549-555 | four hundred years have 97 leap days |
| `AutoPayout.KeysEqualIff` | internal/service/auto_payout.go:35-42 | two payout keys are equal exactly for one host and one week in Indian time |
| `AutoPayout.DueIff` | internal/service/auto_payout.go:27-33 | the run is due exactly during the fourteen hours from Tuesday ten o'clock, once a week |
| `AutoPayout.KnownWindow` | internal/service/auto_payout.go:27-33 | the window of 2 January 2024 opens at 04:30 UTC and lasts fourteen hours |
| `AutoPayout.BeginsIff` | internal/service/payout_service.go:380-401 | a process sets out to pay exactly from the minimum on and when no payment stands under the key of the week |
| `AutoPayout.TickerHitsWindow` | cmd/api/run.go:383-400 | an hourly ticker started before a week's window fires inside it |
| `AutoPayout.PickBankMethod` | internal/service/auto_payout.go:44-60 | the first verified primary bank account, else the first verified one, else none |
| `AutoPayout.OncePerWeek` | internal/service/auto_payout.go:64-133 | over every run of any number of processes a host has at most one automatic transfer per week, the provider asked at most once for it, never below the minimum |
| `AutoPayout.PayoutsWereAsked` | internal/service/auto_payout.go:118-127 | every payout of a run has the host, instant and available balance of some attempt, and their key |
| `AutoPayout.AbandonedIff` | internal/service/payout_service.go:550-1025 | a step leaves a payout without a transfer and nobody working on it exactly when the process holding it dies, cannot write the payment row or is refused, or the transfer is reported failed or reversed, or it was so before and is not reported completed |
| `AutoPayout.WeekUnpaidIff` | internal/service/payout_service.go:550-1025 | from the start to rest a host whose payout was begun has no transfer for that week exactly when one of those four befell it and no report of completion followed |
| `AutoPayout.AbandonedWeekStaysUnpaid` | internal/service/payout_service.go:550-1025 | in every continuation such a week stays unpaid throughout exactly when the provider never reports its transfer completed after all, which it cannot do if it was never asked |
| `AutoPayout.BatchPaysEveryone` | internal/service/auto_payout.go:64-76 | after a batch every eligible host, one with an account and no fraud flag among the rest, has a payout begun for the week, and earlier ones are kept |
| `AutoPayout.BatchBeginsPayout` | internal/service/payout_service.go:413-712 | an eligible host without one gets a payout of exactly its available balance at that instant under its key, recorded, called and sent as its payment row and the provider allow |
| `AutoPayout.RepeatPaysNobody` | internal/service/auto_payout.go:27-29 | firing again in the same week begins no payout exactly when everybody eligible by then was so the first time or had one before |
| `AutoPayout.Scheduler.PayHost` | internal/service/auto_payout.go:86-133 | adds a payout of the whole available balance exactly when the host passes every check and has none for the week, and pays exactly when the payment row and the provider take it |
| `AutoPayout.Scheduler.RunAutoPayouts` | internal/service/auto_payout.go:64-76 | pays the hosts one by one, a skip not stopping the batch |
| `Occupancy.KeysEqualIff` | internal/repository/booking_repository.go:549-555 | two keys are equal exactly for instants of one second, hence for whole seconds exactly for equal instants |
| `Occupancy.TotalCounts` | internal/repository/booking_repository.go:408-413 | the sum counts the pending and confirmed bookings of one event and instant; a cancelled or refunded one leaves it as it was |
| `Occupancy.GetOccupancyForEvents` | internal/repository/booking_repository.go:518-557 | looking up any event and key gives the total of the last row with that key |
| `Occupancy.LookupRightIff` | internal/repository/booking_repository.go:518-557 | a lookup agrees with the plain sum for every order of the rows exactly when nothing of the event is booked in that second, or the occurrence is booked and every other one of the second equally |
| `Occupancy.IndexAgrees` | internal/repository/booking_repository.go:408-413 | in particular it is when no other live occurrence of the event shares the second |
| `Occupancy.WholeSecondsAgree` | internal/repository/booking_repository.go:518-557 | with whole-second occurrences this holds of every lookup from the start time on |
| `Occupancy.SameSecondSameAnswer` | internal/repository/booking_repository.go:549-555 | two occurrences of one second can both be answered rightly only if equally booked |
| `Occupancy.HalfSecondApart` | internal/repository/booking_repository.go:549-555 | two differently booked occurrences half a second apart: in either row order one of the two lookups is wrong |
| `MigrationText.JoinSplit` | cmd/migrate/run.go:155-183 | joining the split lines gives the text back |
| `MigrationText.SplitJoin` | cmd/migrate/run.go:155-183 | splitting joined lines gives the lines back |
| `MigrationText.FindSection` | cmd/migrate/run.go:159-181 | the scan finds the section the marks determine |
| `MigrationText.ExtractUpSQL` | cmd/migrate/run.go:155-184 | returns the text of that section; `MigrationMarkers.UpSectionIsBody` says which text that is |
| `MigrationMarkers.UpSectionIsBody` | cmd/migrate/run.go:155-184 | with an up marker, plain lines and a down marker exactly the plain lines are returned, whatever follows |
| `MigrationMarkers.UsualFile` | cmd/migrate/run.go:155-194 | so for files marked as the repository's own, or in the other tool's way |
| `MigrationMarkers.UpToTheEnd` | cmd/migrate/run.go:171-183 | without a down marker everything after the up marker is returned |
| `MigrationMarkers.MarkerIff` | cmd/migrate/run.go:186-194 | a line is a marker exactly when it is spelled so: blanks around, "--" and blanks or nothing in front, tool and direction in any mix of cases one or two blanks apart |
| `MigrationText.NormalizeLine` | cmd/migrate/run.go:156-156 | a line ended by carriage return and line feed is ended by the line feed |
| `MigrationText.SectionBetweenMarkers` | cmd/migrate/run.go:171-183 | the section is the lines between the last early up marker and the first down marker if a line separates them, and runs to the end of the file if none does |
| `MigrationText.NoUpMarkerReturnsAll` | cmd/migrate/run.go:171-173 | with no early up marker the whole text is returned, line endings normalised |
| `MigrationText.SectionLines` | cmd/migrate/run.go:183-183 | the text returned consists of exactly the section's lines |
| `MigrationRunner.RunStops` | cmd/migrate/run.go:119-150 | a run stopped anywhere has newly recorded exactly the pending files before some file and executed at most that one file without recording it |
| `MigrationRunner.InterruptedRuns` | cmd/migrate/run.go:87-150 | after any series of interrupted runs the recorded files are a prefix of the files in name order and at most one executed file is unrecorded |
| `MigrationRunner.InterruptedFromScratch` | cmd/migrate/run.go:87-150 | from an empty database, however often interrupted, the recorded files are a prefix, all of them executed, and at most one executed file is unrecorded |
| `MigrationRunner.TimesExecuted` | cmd/migrate/run.go:119-150 | a file is executed once for every run that stopped between executing and recording it, and once more if it is recorded and not blank |
| `MigrationRunner.CompleteRunIsFinal` | cmd/migrate/run.go:104-117 | a complete run records every file and the next one executes and records nothing |
| `MigrationRunner.PendingFacts` | cmd/migrate/run.go:104-110 | the pending files are the unrecorded ones, each once, in name order |
| `MigrationRunner.RunnerOrder` | cmd/migrate/run.go:77-83 | exactly the plain entries ending in ".sql" are taken, in the order of their names |
| `MigrationRunner.LexMeans` | cmd/migrate/run.go:83-83 | names are ordered as in a dictionary |
| `MigrationRunner.FilesMean` | cmd/migrate/run.go:119-140 | a file is blank exactly when trimming leaves nothing of its up section |
| `MigrationRunner.Migrator.Run` | cmd/migrate/run.go:71-153 | the whole program under any budget of statements, and when it completes |
| `MigrationRunner.Migrator.FilterPending` | cmd/migrate/run.go:104-110 | keeps the files not yet applied |
| `MigrationRunner.Migrator.Work` | cmd/migrate/run.go:119-150 | executes and records file by file, a blank file being only recorded |
| `Promo.KeepTestHandset` | internal/controller/admin_directory_controller.go:889-900 | the in-place filter leaves exactly the matching recipients in order, and the rest of the array untouched |
| `Promo.TestPhoneRestrictsIff` | internal/controller/admin_directory_controller.go:889-900 | a test number restricts the audience to its handset exactly when it contains a digit |
| `Promo.TestBlastReachesOneHandset` | internal/controller/admin_directory_controller.go:889-900 | under such a number at most one message is sent |
| `Promo.DigitsOnly` | internal/controller/admin_directory_controller.go:1015-1024 | the digits of the number in order |
| `Promo.PhoneKeyMeans` | internal/controller/admin_directory_controller.go:889-900 | the key of a number is its last ten digits |
| `Promo.PrefixImmaterial` | internal/controller/admin_directory_controller.go:889-900 | a ten-digit number has one key with and without a country prefix |
| `Promo.FirstsExact` | internal/controller/admin_directory_controller.go:958-971 | attempts are exactly the first occurrences of a key, in list order |
| `Promo.FirstsCount` | internal/controller/admin_directory_controller.go:958-971 | there are as many attempts as distinct keys |
| `Promo.EveryKeyAttempted` | internal/controller/admin_directory_controller.go:958-971 | no key is left out |
| `Promo.SameAddressIff` | internal/controller/admin_directory_controller.go:958-971 | two addresses share a key exactly when they agree letter by letter once trimmed and lower-cased |
| `Promo.ChannelsMean` | internal/controller/admin_directory_controller.go:958-976 | a message blast sends no mail and a mail blast no message, and whoever can be reached on a channel that is meant is |
| `Promo.SentMeans` | internal/controller/admin_directory_controller.go:958-976 | the sent counter is the number of attempts the provider accepted |
| `Promo.Attempt` | internal/controller/admin_directory_controller.go:965-976 | one iteration of one channel keeps its tally |
| `Promo.Blast` | internal/controller/admin_directory_controller.go:952-1003 | one attempt per distinct key and channel, the accepted ones counted as sent, and sent plus failed equal to the number of distinct keys |

## Left out

- Ledger.SerialRuns: running balances are claimed for serial runs only, because `Create` reads a sum and then inserts; `Ledger.RacingCreate` says exactly when a race breaks them.
- CoHost.ClaimDesk.ListSharedWithHost: the shares arrive newest first, as the query orders them; titles, names and the part a co-host has claimed itself are not on the card.
- ImportService.Database.StartImport: validation, the acknowledgment of an offline event and the choice of the occurrence come before it.
- MigrationRunner.InterruptedRuns: one directory and one runner at a time; two processes migrating at once are not modelled.
- MigrationRunner.Migrator.Run: a directory entry carries its up section; reading files, and a file that cannot be read, are not modelled.
- MigrationText.ExtractUpSQL: lower-casing covers every character that can turn into a letter of a marker and no other.
- AutoPayout.Scheduler.PayHost: what a host has available is a parameter; the unlocked check-then-write of two withdrawals in one instant is not modelled.
- Promo.Blast: the mapping of letters to lower case is a parameter; message texts, time limits and pacing are left out.
- Refunds.PaymentDesk.RefundTopUpToSource: shown undisturbed; races are the subject of `Refunds.BoundedIffCovered`.
- RefundWebhooks.DriftIffRepeated: a call's ledger entry and wallet credit are one step; a webhook that arrives before the gateway's identifier is stored is ignored, as in the source.
- Passes.UsableIffConsumes: instants are whole units, so a difference finer than the database stores is not modelled.
- The paid walk-in path beyond its refusal in an import, fees and discounts, host earnings aggregates and clearance amounts.
- `ValidateEventForImport`, spreadsheet parsing and report building, row error texts other than those compared.
- `GetHostEarningsBreakdown`, check-in, coupons, join requests and other one-statement updates: true but easy.
- `IsRefundable` and the 48-hour window of a pass, pass purchase, and the cancellation of a whole pass.
- The reversal entries a payout webhook writes, and the record meant to recognise a repeated one.
- Recurrence rules, weekly session windows, notifications, HTTP routing, authentication, storage and configuration.
