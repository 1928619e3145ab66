# VaultNUBAN money engine: a verified model

VaultNUBAN gives customers virtual bank accounts (NUBANs), receives their transfers from a payment
provider, and keeps the money in an append-only double-entry ledger. This project models that money
engine in Dafny and proves what it guarantees: for one call, for every serialized run, and for every
interleaving of any number of concurrent runs with crashes and failing stores.

How the pieces fit:

- `domain`, `ledger` – entities and names; entries, rows and the book. Every balance-like quantity is one
  function, `Sum(rows, measure)`, in exact integers; `Int64.Wrap` is Go's wrap-around arithmetic.
- `views`, `paging` – what a statement and a cursor page mean; `cursors` – what following cursors yields when every
  request may order equal times differently.
- `transactionstore`, `accounts`, `sidestores` – the stores as classes updated in place, each loop and index
  proved against those meanings.
- `matcher`, `worker` – routing decisions; `Absorb` says what one work item does, and the queue path and the
  direct path are two methods that are each proved to do it.
- `services` – suspense resolution and withdrawals; `reprocess` – the batch that retries unmatched items.
- `sweep`, `coverage`, `recovery` – the sweep's page loop and tallies, its windows over time, and the two
  together: when a lost webhook's transfer reaches the ledger.
- `machine`, `safety`, `guarantees`, `races`, `overlaps`, `refunds`, `losses` – the same operations split at their store calls, as a
  step system. `Safety.Inv` holds in every reachable state. A run left alone does what the atomic operation does.
- `lifecycle` – account lifecycle calls as a step system of their own.
- `serialized` – replay, wallet lower bound, tier caps, resolutions, over runs without interleaving; `routing` – where
  each credit and reversal lands, told from the account table and the caps alone.
- `idempotency`, `tokencache` – the two concurrent protocols; `webhook` – dedupe and the bounded queue;
  `amounts` – naira to kobo through binary floating point; `traces` – runs as folds.

## Where the code does not meet its own promise

The model keeps the code as it is. For each promise there is the exact condition under which it holds, and the
failing run or input.

- CLOSED is not terminal. Lifecycle calls check a status and then update by id without a guard: a closed account
  stays closed if and only if no call is between its read of the account and an update to another status
  (`Lifecycles.ClosedIsFinalIff`), and it can come back ACTIVE and be credited again
  (`Lifecycles.ClosedAccountComesBackActive`).
- A refund flag says that the funds stay in suspense. They do if and only if the money has not moved already and
  no reassignment is past its first read of the item (`Refunds.RefundKeepsFundsIff`). It fails in a race
  (`Races.RefundFlagCanLoseToReassignment`, `Races.FlaggedMoneyHasMoved`), and without one: a reassignment that
  crashes between posting and marking leaves the item open, and a later flag is accepted although the money has
  left (`Refunds.CrashedReassignmentCanBeFlagged`).
- A reassignment that is retried with another target after a crash reports success although the money went to
  the first target (`Serialized.ReassignmentMovesMoneyOnce`).
- Two withdrawals that both read the balance first overdraw the wallet exactly when together they exceed it
  (`Races.RacingWithdrawalsOverdraw`).
- Tier caps are not enforced with the customer store that cmd/server/main.go:127 wires. The worker looks the
  customer up with an empty tenant, the SQL query compares the tenant (internal/store/postgres/customer_repo.go:66-80),
  and without a customer the check is skipped: a breach is refused if and only if the store looks across tenants
  (`Matcher.BreachIsRefusedIff`, `Serialized.MaxBalanceGuaranteedIff`).
- Even then the daily cap adds up today's credits, not those of the day a credit occurred, so it is guaranteed
  exactly for credits processed on their own day (`Serialized.DailyCapGuaranteedIff`).
- The caps are checked before the posting, so even with such a store two overlapping credits, from the worker
  (cmd/server/main.go:135) and a sweep, both pass and go over exactly when together they exceed a cap
  (`Overlaps.OverlappingCreditsBreakCaps`). The two results above are about one credit at a time.
- Neither store fixes the order of equal times, so each page request may see another one. At every page size cursors
  yield every transaction exactly once if and only if no two share a time (`Cursors.CompleteAtEverySizeIff`). At one
  page size (`Cursors.CompleteAtSizeIff`) the SQL store, which skips what shares the cursor's time, loses rows exactly
  when a tie crosses a page boundary; the in-memory store, which sorts a map afresh for each request with an unstable
  sort, can lose or repeat rows exactly when the row that ends a page shares its time with any other.
- Sweep windows lose transfers exactly when a run plus the visibility delay outlasts the overlap
  (`Coverage.SpanCoveredIff`). A failed read of the last sweep time is taken for "never swept", which loses
  transfers exactly when that window no longer reaches the start of the last success
  (`Coverage.SwallowedReadLosesIff`).
- A sweep logs success although items failed, because an item's error is only logged. A covered transfer is in the
  ledger if and only if some processing of it met no error (`Recovery.CoveredTransfersArePostedIff`); one that
  failed and is older than the overlap is left behind for good (`Recovery.LoggedFailureIsLeftBehind`).
- A sweep recovers payments only. It posts whatever it lists as a credit (`Sweeping.SweepsPostCredits`), so a reversal
  whose webhook was lost is never posted as a debit.
- A failed posting after the provider's transfer leaves the wallet with money that has left: the withdrawal gets its
  rows if and only if the posting succeeds, and otherwise its record says processing for ever
  (`Losses.TransferredIsPostedIff`).
- A credit on suspense gets its item if and only if the insert after its posting succeeds. A lost one is lost for
  ever, since repeats are skipped (`Losses.SuspensedHasItemIff`).
- A waiter on the token cache takes whatever token is cached and reports no error, although the refresh it waited
  for may have failed. The token is fresh if and only if a refresh succeeded less than its lifetime ago
  (`TokenCache.WaiterGetsFreshTokenIff`); otherwise it has expired (`TokenCache.ExpiredTokenCanBeReturned`) or is
  empty.
- The webhook path truncates the amount. Multiples of 25 kobo are always kept; any other amount can lose a kobo
  within the error model (`Amounts.TruncatingIsSafeIff`), and 29 kobo do lose one (`Amounts.TwentyNineKoboLoseOne`).
- The batch over suspense items says that the stored payload has `session_id`. An item is retried if and only if the
  payload of the delivery that posted it carries that key at its top level (`Reprocessing.RetriedIff`). Neither the
  sweep, which stores Go field names, nor the webhook bodies that the two adapters parse, whose session lies under
  `data`, have it, so as long as payloads are such the batch retries nothing
  (`Reprocessing.DocumentedItemsAreNeverRetried`).
- A webhook reaches the worker exactly when the queue had room at its first stored receipt
  (`WebhookIntake.AcceptedIff`). One that met a full queue is never queued again, because its dedupe key stays
  (`WebhookIntake.ReceivedAtMostOnce`).

## Assumptions

- Provider transaction identifiers do not start with `vn:`. Given that, `Domain.InternalIDsAreDistinct` justifies
  the datatype `TxID`, whose internal identifiers carry the item or withdrawal they name.
- Identifiers made by the stores are sequence numbers.
- The customer lookup is a parameter: the in-memory store, where an empty tenant finds a customer of any tenant
  (internal/store/memstore/memstore.go:132), or the SQL store, where it finds none. Results that need the first
  say so, by asking for the limit that the worker applies (`Matcher.LimitFor`).
- The last sweep time, the guards on suspense and collection updates, and the unique indexes on accounts follow
  the SQL store. The collection service is wired in, as in cmd/server/main.go.
- Store and provider calls that can fail are steps with a flag `ok`, a value of `Worker.Faults`, or parameters holding
  the answer. Within one call, account, customer and limit tables and the clock are read once (`Env`); a sweep or a
  batch reads the clock for every item. In the step systems they may change between any two steps.
- A sweep that can see a transfer lists it; provider answers are otherwise arbitrary.

## Model

| member | source | states |
|---|---|---|
| Domain.AccountNameInjective | internal/domain/domain.go:151-159 | two ledger accounts share a printed name only if they are the same account |
| Domain.InternalIDsAreDistinct | internal/service/suspense.go:182-184 | resolution and withdrawal identifiers are injective, disjoint from each other and from every provider identifier outside `vn:` |
| Int64.WrapAdd | internal/store/memstore/memstore.go:450-460 | of a chain of wrapped additions only the last wrap matters, so accumulating loops compute the wrapped sum |
| Ledger.Transfer | internal/ledger/ledger.go:16-101 | entries exist exactly for positive amounts, and their effect on every account is to move that amount from one account to the other |
| Books.PostKeepsSound | internal/store/memstore/memstore.go:360-393 | posting, new or repeated, keeps every transaction with exactly its two balanced rows, no orphan row, total debits equal to total credits, and all accounts summing to zero |
| Books.PostKeepsRows | internal/store/memstore/memstore.go:360-393 | a posting leaves the rows of every other transaction alone |
| Books.PostAdds | internal/store/memstore/memstore.go:388-391 | a posting changes every sum by the weight of its two rows |
| Books.MoneyIsConserved | internal/ledger/ledger.go:16-101 | settlement, suspense and all customer wallets add up to zero in every sound book |
| Books.NoPartialSumOverflows | internal/store/memstore/memstore.go:447-480 | while posted amounts total less than 2^63, no partial sum of a balance, opening-balance or daily-credit loop, and no debit or credit total, overflows |
| Books.BalanceFits | internal/store/memstore/memstore.go:447-461 | under that bound the wrapped balance is the true one and lies within the posted total |
| Views.StatementsJoin | internal/store/memstore/memstore.go:482-537 | two adjacent statements meet (closing equals opening) and printed together are a correct, time-ordered statement of the whole period |
| Views.StatementsCompose | internal/store/memstore/memstore.go:482-537 | any statement of the whole period has the ends of its two halves and the same movements |
| Views.ClosingIsExact | internal/store/postgres/transaction_repo.go:220-289 | a statement closes at the balance of all rows before its end |
| Views.ClosingPastTheEnd | internal/store/memstore/memstore.go:482-537 | a statement past the last row closes at the current balance |
| Views.RunningBalancesFit | internal/store/memstore/memstore.go:516-536 | under the 2^63 bound no running balance of a statement wraps, although they are added in time order |
| Views.TotalOfPermutation | internal/store/memstore/memstore.go:510-514 | sorting the movements does not change what they add up to |
| Views.StatementLines | internal/store/memstore/memstore.go:510-536 | one line for each movement of the period, in order; each running balance is the opening balance plus the movements up to and including its own; the last one is the closing balance |
| Paging.PagesAgree | internal/store/postgres/transaction_repo.go:121-181 | with distinct times both stores answer every cursor of the listing with the same page, for every limit up to 100 |
| Paging.SqlCompleteIff | internal/store/postgres/transaction_repo.go:121-181 | through one listing SQL cursors read everything if no tie crosses a page boundary, and too little otherwise |
| Cursors.CompleteAtEverySizeIff | internal/store/memstore/memstore.go:405-445 | for either store, whatever listing each request sees, cursors yield every transaction of the account once, newest first, at every page size if and only if no two share a time |
| Cursors.CompleteAtSizeIff | internal/store/memstore/memstore.go:405-445 | at one page size that holds if and only if every boundary is safe: for SQL no tie crosses it, in memory the row that ends the page shares its time with no other row |
| Cursors.SafeFollow | internal/store/postgres/transaction_repo.go:121-181 | with safe boundaries, from each page on exactly the remaining rows are read, in whatever order each request sees |
| Cursors.TiedPageEnd | internal/store/memstore/memstore.go:414-433 | in memory, a tie at the end of a page has an order of the later requests that yields too few rows or too many |
| Cursors.TimesAgree | internal/store/memstore/memstore.go:414-421 | all listings of an account show the same times position by position |
| Cursors.DistinctListingIsUnique | internal/store/memstore/memstore.go:414-421 | with distinct times there is only one listing |
| Paging.ForeignCursors | internal/store/postgres/transaction_repo.go:140-160 | other accounts do not affect the account's own cursors, and a cursor from another account shows only rows older than it |
| Paging.UnknownCursors | internal/store/memstore/memstore.go:423-433 | with a cursor that no account has, the in-memory store starts over and the SQL store shows an empty last page |
| TransactionStores.TransactionStore.PostTransaction | internal/store/memstore/memstore.go:360-393 | insert-if-absent: a known identifier changes nothing, unbalanced entries are refused, otherwise the transaction and its rows are appended |
| TransactionStores.TransactionStore.PostTransactionSql | internal/store/postgres/transaction_repo.go:21-72 | the SQL order of checks has the same effect on the ledger |
| TransactionStores.AssertBalanced | internal/store/postgres/transaction_repo.go:292-306 | the two wrapped totals agree exactly when the wrapped net is zero, so both stores accept the same entries; exact when the totals fit |
| TransactionStores.WrapEqualIff | internal/store/postgres/transaction_repo.go:292-306 | comparing wrapped totals is testing the wrapped difference for zero |
| TransactionStores.PostingNetsToZero | internal/store/memstore/memstore.go:372-383 | every entry list the ledger builds passes the balance check |
| TransactionStores.TransactionStore.GetTransaction | internal/store/memstore/memstore.go:395-403 | finds the transaction of an identifier, or nothing |
| TransactionStores.TransactionStore.GetBalance | internal/store/memstore/memstore.go:447-461 | returns the wrapped sum of credits less debits of the account over the whole ledger |
| TransactionStores.TransactionStore.GetDailyCredits | internal/store/memstore/memstore.go:463-480 | returns the wrapped sum of the account's credits on the UTC day of the date |
| TransactionStores.TransactionStore.OpeningBalance | internal/store/memstore/memstore.go:482-510 | the opening balance is the wrapped sum over the account's rows before the period |
| TransactionStores.TransactionStore.CollectWindow | internal/store/memstore/memstore.go:482-516 | collects exactly the account's movements of the period, in time order |
| TransactionStores.TransactionStore.GetStatement | internal/store/memstore/memstore.go:482-537 | returns a correct statement: opening, movements of the half-open period in time order, exact running balances, closing |
| TransactionStores.PrintLines | internal/store/memstore/memstore.go:516-536 | every printed running balance is the opening plus the movements so far |
| TransactionStores.TransactionStore.CollectAccount | internal/store/memstore/memstore.go:405-420 | whatever the map's order, collects the account's transactions, each once |
| TransactionStores.TransactionStore.ListTransactions | internal/store/memstore/memstore.go:405-445 | returns the index page of a newest-first listing of exactly the account's transactions |
| TransactionStores.CutPage | internal/store/memstore/memstore.go:423-444 | the cursor scan and the cut give the index page |
| Accounts.VirtualAccountStore.CreateVirtualAccount | internal/store/migrations/005_create_virtual_accounts.up.sql:1-21 | stores the account unless its NUBAN or reference is taken or it would be a second ACTIVE one; both indexes keep agreeing with a linear scan |
| Accounts.VirtualAccountStore.GetVAByNUBAN | internal/store/memstore/memstore.go:286-294 | the NUBAN index finds what a linear scan finds |
| Accounts.VirtualAccountStore.GetVAByAccountRef | internal/store/memstore/memstore.go:296-304 | the reference index finds what a linear scan finds |
| Accounts.VirtualAccountStore.GetVAByCustomerAndStatus | internal/store/memstore/memstore.go:306-315 | returns some account of the customer with the status, whichever the map yields, and nothing only if there is none |
| Accounts.VirtualAccountStore.GetActiveVA | internal/store/memstore/memstore.go:261-270 | returns the customer's ACTIVE account, as a linear scan does |
| Accounts.VirtualAccountStore.UpdateVAStatus | internal/store/memstore/memstore.go:317-326 | changes one account's status, refused only by the one-ACTIVE index; identities and indexes stay |
| Accounts.VirtualAccountStore.ProvisionVA | internal/service/provisioning.go:40-96 | an ACTIVE account is returned as not created; otherwise the provider's account is stored and returned as created, or a constraint refuses it and nothing changes |
| Accounts.VirtualAccountStore.CloseVA | internal/service/provisioning.go:140-172 | closes the customer's ACTIVE account |
| Accounts.VirtualAccountStore.SuspendVA | internal/service/provisioning.go:175-201 | suspends the customer's ACTIVE account |
| Accounts.VirtualAccountStore.UnsuspendVA | internal/service/provisioning.go:204-234 | reactivates one of the customer's suspended accounts, whichever the query returns; an error exactly when another account is ACTIVE |
| Accounts.ApplyKeepsConstraints | internal/service/provisioning.go:40-234 | every lifecycle operation keeps NUBANs and references unique and at most one ACTIVE account per customer |
| Accounts.LifecycleRuns | internal/domain/domain.go:108-121 | over every serialized run, whichever accounts the queries return, the constraints hold, no account disappears or changes identity, none returns to PENDING, and CLOSED is final |
| Accounts.ActiveAccountMoves | internal/service/provisioning.go:140-201 | suspending makes the customer's ACTIVE account SUSPENDED and closing makes it CLOSED, changing nothing else; without one nothing changes |
| Accounts.SuspendedAccountMoves | internal/service/provisioning.go:204-234 | reactivating a suspended account makes it ACTIVE exactly when its customer has no ACTIVE one, and nothing else changes |
| Accounts.SuspensionIsUndone | internal/service/provisioning.go:175-234 | suspending and then reactivating gives the table back |
| Accounts.ProvisionStores | internal/service/provisioning.go:40-96 | the provider's account is stored ACTIVE exactly when the customer has no ACTIVE account and neither its NUBAN nor its reference is taken |
| Accounts.ScansIgnoreStatus | internal/store/memstore/memstore.go:317-326 | a status update does not disturb the lookups |
| Lifecycles.ClosedIsFinalIff | internal/service/provisioning.go:139-234 | in every reachable state of interleaved lifecycle calls, a closed account stays closed for ever if and only if no call is between its read of the account and an update to a status other than CLOSED |
| Lifecycles.ReopeningLands | internal/service/provisioning.go:175-234 | from any such state with a pending update the account can come back with the very status that the update carries |
| Lifecycles.ClosedAccountComesBackActive | internal/service/provisioning.go:140-234 | two reactivations and a closure interleave so that the closed account ends ACTIVE |
| Lifecycles.RunsKeepConstraints | internal/store/migrations/005_create_virtual_accounts.up.sql:15-21 | under every interleaving NUBANs and references stay unique and a customer has at most one ACTIVE account |
| Lifecycles.CallAloneApplies | internal/service/provisioning.go:40-234 | a lifecycle call that nothing interrupts does what the serialized operation does |
| SideStores.SuspenseStore.CreateSuspenseItem | internal/store/memstore/memstore.go:616-626 | appends the item |
| SideStores.SuspenseStore.GetSuspenseItem | internal/store/memstore/memstore.go:628-636 | finds the item of an identifier, or nothing |
| SideStores.SuspenseStore.ResolveSuspenseItem | internal/store/postgres/suspense_repo.go:142-156 | changes the status of an open item and nothing else |
| SideStores.SuspenseStore.ListOpenUnmatchedItems | internal/store/postgres/suspense_repo.go:108-140 | lists the oldest open unmatched items in order, each once, up to the limit (outside 1 to 500 it is 100); one is missing only if that many older ones are listed |
| SideStores.CollectionStore.Create | internal/service/collection.go:40-84 | opens a collection; a non-positive expected amount means any; it expires the requested number of seconds from now, or never |
| SideStores.CollectionStore.FindOpenCollectionForVA | internal/store/postgres/collection_repo.go:142-169 | finds the first open, unexpired collection of the account that accepts the amount |
| SideStores.FindOpen | internal/store/postgres/collection_repo.go:142-169 | the result matches, nothing before it does, and there is none only if nothing matches |
| SideStores.CollectionStore.FulfillCollection | internal/store/postgres/collection_repo.go:114-125 | fulfils a collection only while it is open |
| SideStores.CollectionStore.CancelCollection | internal/store/postgres/collection_repo.go:127-138 | cancels a collection only while it is open |
| SideStores.CollectionStore.TryFulfill | internal/service/collection.go:119-128 | find, then fulfil what was found |
| SideStores.OldestMatchIsFulfilled | internal/service/collection.go:119-128 | without interleaving, a payment changes a collection only if it is this account's, open, unexpired and for this amount or any, the oldest such, and marks it fulfilled by this transaction; nothing happens exactly when there is none |
| SideStores.ListedAreOpenUnmatched | internal/store/postgres/suspense_repo.go:108-140 | whatever is listed is open and unmatched, and what is open, unmatched and not listed gives way to a full list of older items |
| Matcher.BreachIsRefusedIff | internal/recon/worker.go:124-149 | a credit over a cap is refused if and only if the customer store looks across tenants; with the SQL store the wallet is credited |
| Worker.DecisionPosts | internal/recon/matcher.go:50-157 | every route of a positive credit gives entries that the ledger accepts |
| Worker.ReconWorker.FindAccount | internal/recon/matcher.go:50-70 | the account reference wins, the NUBAN is the fallback |
| Worker.ReconWorker.CheckTierLimits | internal/recon/matcher.go:214-248 | refuses exactly when the amount would take the wallet over its maximum balance or today's credits over the daily cap |
| Worker.ReconWorker.Decide | internal/recon/worker.go:118-150 | match, then let a tier breach overwrite the result: the entries and reason are those of the route, for either customer store |
| Worker.ReconWorker.PostCredit | internal/recon/worker.go:152-196 | posts once; only the creator records a suspense item or fulfils a collection, and a failure of that is only logged |
| Worker.ReconWorker.ProcessCredit | internal/recon/worker.go:118-206 | the queue path does what one atomic work item does, and marks its event accordingly |
| Worker.ReconWorker.ProcessReversal | internal/recon/worker.go:230-268 | a reversal does what one atomic work item does |
| Worker.ReconWorker.Process | internal/recon/worker.go:94-116 | every event type through the queue does what one atomic work item does; unknown and failed events change nothing |
| Worker.ReconWorker.ProcessDirect | internal/recon/worker.go:301-395 | the direct path leaves the stores exactly as the queue path does, also when a call fails before or after the posting, and its result says skipped, posted, suspensed or error; suspensed means credited to suspense |
| SuspenseService.Service.Resolve | internal/service/suspense.go:65-85 | accepts exactly open items with a valid target or a refund flag, and then has the effect of the resolution; otherwise nothing changes |
| SuspenseService.Service.ResolveByReassign | internal/service/suspense.go:87-158 | posts under the item's own identifier and marks the item |
| WithdrawalService.Service.Initiate | internal/service/withdrawal.go:51-155 | validation, balance check, record, transfer, posting and status, in that order |
| Guarantees.NoDoublePosting | internal/recon/worker.go:118-206 | under every interleaving each transaction has exactly its two rows, at most one suspense item (only if credited to suspense) and fulfils at most one collection (only if credited to a wallet, on the collection's own account, at the expected amount) |
| Guarantees.SuspenseIsConserved | internal/service/suspense.go:65-158 | under every interleaving and crash the suspense balance is the suspense credits not released, less reversals; every release moved its item's original amount to one wallet; and every item marked reassigned is released |
| Guarantees.FirstResolutionIsFinal | internal/service/suspense.go:182-184 | once an item's money has left suspense, the rows of its resolution never change, whatever is retried or raced |
| Guarantees.WithdrawalsMatchTheirRows | internal/service/withdrawal.go:51-155 | under every interleaving a completed withdrawal has exactly one pair of rows, for its amount from its customer's wallet, and a failed one has none |
| Losses.TransferredIsPostedIff | internal/service/withdrawal.go:111-148 | in every run a transferred withdrawal has its rows for ever after if and only if its posting succeeds; otherwise it has none and stays processing |
| Losses.SuspensedHasItemIff | internal/recon/worker.go:179-183 | in every run a credit on suspense has an item for ever after if and only if the insert of the run that posted it succeeds |
| Guarantees.MoneyConservedInEveryRun | internal/ledger/ledger.go:16-101 | under every interleaving all accounts sum to zero |
| Guarantees.NothingOverflowsInAnyRun | internal/store/memstore/memstore.go:447-480 | under every interleaving, below a posted total of 2^63, no accumulating loop overflows |
| Guarantees.StatementsFitInAnyRun | internal/store/memstore/memstore.go:482-537 | under every interleaving, below the same total, no running balance of a statement wraps |
| Guarantees.RunsExtend | internal/store/postgres/collection_repo.go:114-138 | history only grows: no row, item or collection is lost, and a decided item or collection stays as decided |
| Guarantees.RunAloneAbsorbs | internal/recon/worker.go:94-395 | a queue-path or direct-path run left alone leaves the stores as the atomic operation does, for every item |
| Guarantees.UnidentifiedCreditAbsorbs | internal/recon/worker.go:124-149 | a credit whose customer lookup fails ends as the atomic operation does where no customer is found: unchecked against the caps |
| Guarantees.ResolutionAloneResolves | internal/service/suspense.go:65-180 | a resolution left alone has the atomic effect |
| Guarantees.WithdrawalAlonePays | internal/service/withdrawal.go:51-155 | a withdrawal left alone whose transfer succeeds has the atomic effect |
| Guarantees.WithdrawalAloneFails | internal/service/withdrawal.go:111-125 | a withdrawal left alone whose transfer fails has the atomic effect: a failed record and no posting |
| Guarantees.CancellationAloneCancels | internal/service/collection.go:101-115 | a cancellation left alone cancels an open collection and leaves any other as it is |
| Safety.ReachableInv | internal/recon/worker.go:118-395 | the invariant of stores and runs holds in every reachable state |
| Safety.EventKeepsInv | internal/recon/worker.go:118-395 | every single step of every pipeline keeps it |
| Safety.PostKeepsSuspense | internal/service/suspense.go:138-140 | the insert of any transaction, of a resolution in particular, keeps the suspense equation |
| Safety.ReleaseLowersHeld | internal/service/suspense.go:138-140 | releasing a transaction lowers the held total by that transaction's own suspense credit |
| Safety.PostedIsStable | internal/store/memstore/memstore.go:368-370 | nothing that was posted is lost or changed by a later insert |
| Safety.StepKeepsExclusive | internal/recon/worker.go:170-196 | no two runs ever own the same transaction or withdrawal |
| Safety.OwnershipAfter | internal/recon/worker.go:167-196 | a run comes to own only a transaction that its own insert has just created, or a withdrawal it has just recorded |
| Races.RacingWithdrawalsOverdraw | internal/service/withdrawal.go:71-78 | two withdrawals that read before either posts leave the balance less both amounts, negative exactly when they exceed it together |
| Races.RefundFlagCanLoseToReassignment | internal/service/suspense.go:160-178 | a racing reassignment moves the money of an item that ends up flagged for refund |
| Races.FlaggedMoneyHasMoved | internal/service/suspense.go:160-178 | in that state suspense has fallen and the target's wallet risen by the item's amount |
| Overlaps.OverlappingCreditsBreakCaps | internal/recon/worker.go:124-168 | from every state in which two credits of a customer both pass the caps, reading before either posts leaves wallet and day at the old sum plus both amounts, over a cap exactly when together they exceed it |
| Refunds.RefundKeepsFundsIff | internal/service/suspense.go:160-178 | in every reachable state the funds of a flagged item stay in suspense for ever if and only if they have not moved and no reassignment is past its first read of the item |
| Refunds.CrashedReassignmentCanBeFlagged | internal/service/suspense.go:138-164 | after a crash between posting and marking a refund flag is accepted on an item whose money has left |
| Serialized.ReplayInsensitive | internal/recon/worker.go:94-206 | any sequence of deliveries, with failures among them, ends as its first effective delivery per identifier would |
| Serialized.CreditLandsWhole | internal/recon/worker.go:118-206 | a new credit raises exactly one balance, the routed wallet or suspense with one new item, by its whole amount |
| Serialized.ReversalTakesFromTheNamedWallet | internal/recon/matcher.go:160-191 | a new reversal lowers the wallet of the account it names, wherever the credit went, or else suspense |
| Routing.LookupFindsTheNamed | internal/recon/matcher.go:50-70 | the lookup finds exactly the account with the transfer's non-empty reference, or, if no account has that, the one whose NUBAN is its non-empty account number; and none exactly when there is neither |
| Routing.CreditsFollowTheTable | internal/recon/worker.go:118-206 | a new credit that meets no fault lands, whole, where table and caps say: wallet of the named ACTIVE account unless over a cap, and otherwise on suspense with an open item of the reason of its case (unmatched, suspended, closed, tier limit); a wallet credit alone is offered to the account's collections; it is recorded with the account it names |
| Routing.FittingCreditsReachTheWallet | internal/recon/matcher.go:214-248 | in exact amounts, a credit that fits both caps reaches the wallet, and one that does not goes to suspense if the customer store looks across tenants |
| Routing.ReversalIsRecorded | internal/recon/worker.go:230-252 | a new reversal is recorded as a debit with the account it names, or none, and touches neither items nor collections |
| Routing.ResolutionIsAcceptedIff | internal/service/suspense.go:65-110 | a reassignment is accepted exactly for an open item of a posted positive transaction and a named customer of the caller's tenant; a refund flag exactly for an open item |
| Routing.WithdrawalIsAcceptedIff | internal/service/withdrawal.go:51-80 | a withdrawal is accepted exactly for a customer of the caller's tenant whose balance covers a positive amount, with a complete destination |
| Routing.InternalTransactions | internal/service/withdrawal.go:124-140 | withdrawals and reassignments are recorded now, for the withdrawal's or the item's original amount, with the customer's ACTIVE account if there is one |
| Serialized.WithdrawalTakesItsAmount | internal/service/withdrawal.go:51-155 | balances change exactly for accepted and transferred withdrawals, and the record says which |
| Serialized.ClosedAccountsAreNeverCredited | internal/recon/matcher.go:86-103 | after closure, whatever lifecycle operations follow, a credit matched to the account raises no wallet and goes whole to suspense |
| Serialized.PerformCarries | internal/ledger/ledger.go:16-101 | the ledger effect of every operation is at most one transfer between admissible accounts |
| Serialized.WalletsCoverTheirReversals | internal/service/withdrawal.go:71-78 | in every serialized run a wallet balance is at least minus the reversals posted against it |
| Serialized.TierCapsHold | internal/recon/matcher.go:214-248 | in every serialized run of worker credits, reversals and withdrawals during which the worker finds the customer's limit, a wallet within its maximum stays within it, and so do each day's credits when each is processed on its day |
| Serialized.DailyCapGuaranteedIff | internal/recon/matcher.go:236-244 | for one credit at a time, the daily cap is guaranteed if and only if the customer store looks across tenants and the credit is processed on the UTC day it occurred |
| Serialized.MaxBalanceGuaranteedIff | internal/recon/matcher.go:224-234 | for one credit at a time, the maximum balance is guaranteed if and only if the customer store looks across tenants |
| Serialized.ReassignmentMovesMoneyOnce | internal/service/suspense.go:87-158 | an accepted reassignment moves the original amount from suspense to the target, unless the money has moved before: then no balance changes |
| Reprocessing.InternalOps.FindOwner | internal/api/handlers/internal_ops.go:144-157 | the owner named by reference, or else by NUBAN |
| Reprocessing.InternalOps.ReprocessItem | internal/api/handlers/internal_ops.go:111-194 | one item's outcome and effect |
| Reprocessing.InternalOps.ReprocessSuspense | internal/api/handlers/internal_ops.go:89-206 | exactly the 200 oldest open unmatched items are attempted, all of them if there are fewer; the total is the sum of the four counts, each counting its outcome as the stores before the batch decide it |
| Reprocessing.BatchMovesResolvedAmounts | internal/api/handlers/internal_ops.go:108-198 | while no store fails, every balance changes by exactly the resolved items' amounts that had not moved before: out of suspense, into the wallets of the requeried accounts' owners |
| Reprocessing.SuspenseFallsByResolved | internal/api/handlers/internal_ops.go:108-198 | suspense falls by the total of those amounts |
| Reprocessing.OwnerIs | internal/api/handlers/internal_ops.go:144-157 | the owner is that of the account with the reference, if it has a customer, or else of the one with the NUBAN |
| Reprocessing.OutcomeIs | internal/api/handlers/internal_ops.go:111-194 | an item is without session, without match or resolved exactly as its payload, the answer, the owner and the item itself say |
| Reprocessing.BatchLeavesOthers | internal/api/handlers/internal_ops.go:108-198 | items outside the batch are untouched |
| Reprocessing.RetriedIff | internal/api/handlers/internal_ops.go:112-133 | an item is asked about again if and only if the payload of the delivery that posted it has `session_id` at its top level |
| Reprocessing.DocumentedItemsAreNeverRetried | internal/provider/nomba/adapter.go:383-411 | while payloads are marshalled by the engine or as the adapters parse them, no new item is ever retried |
| Reprocessing.SweptItemsAreNeverRetried | internal/recon/sweep.go:174-185 | in particular no item made by a sweep is |
| Sweeping.SweepRunner.ProcessOne | internal/recon/sweep.go:97-127 | one listed transfer is requeried if needed, processed, and counted once, or is an error, which a failing store or a bad amount makes it |
| Sweeping.SweepRunner.ProcessPage | internal/recon/sweep.go:94-128 | one page's transfers are processed in order with truthful tallies |
| Sweeping.SweepRunner.Run | internal/recon/sweep.go:60-158 | for any finite paging the run ends; found is posted plus skipped plus errors; posted counts new transactions and suspensed those credited to suspense; the run fails exactly when a page cannot be fetched, whatever its items did |
| Sweeping.SweptDelivers | internal/recon/sweep.go:97-128 | a sweep is a serialized run of deliveries |
| Sweeping.LandedIsPosted | internal/recon/sweep.go:97-128 | after some deliveries a transfer is in the ledger exactly if it was there or one of them named it and met no error |
| Sweeping.SweepsPostCredits | internal/recon/sweep.go:174-185 | whatever a sweep posts it posts as a credit, listed reversals included |
| Sweeping.ItemOfListed | internal/recon/sweep.go:97-110 | a listed transfer is processed as listed unless it has a session and names no account; then as the provider answers for the session, if it does |
| Coverage.SpanCoveredIff | internal/recon/sweep.go:60-172 | serialized default-window sweeps see every transfer of the covered span, failed runs notwithstanding, if and only if each successful run but the last plus the visibility delay fits the overlap |
| Coverage.OverlappingWindowsCover | internal/recon/sweep.go:163-172 | windows that reach back to the previous success, less the delay, miss nothing, whatever chose them |
| Coverage.LongRunLosesATransfer | internal/recon/sweep.go:163-172 | a longer run leaves a transfer that no run is bound to see |
| Coverage.LastSweepTimeIsGreatest | internal/store/postgres/sweep_repo.go:62-77 | the last logged success has the greatest time of all successes |
| Coverage.SweepLog.CreateSweepRun | internal/store/postgres/sweep_repo.go:16-30 | a successful run sets the last sweep time, a failed one leaves it as it was |
| Coverage.SweepLog.GetLastSweepTime | internal/store/postgres/sweep_repo.go:62-77 | returns the greatest time of the runs without an error, or none if there is none |
| Coverage.SweepLog.ComputeWindowFrom | internal/recon/sweep.go:163-172 | the window starts one overlap before the greatest time of a success, or, when there is no success, one interval and one overlap before now |
| Coverage.SweepLog.LogDefaultRun | internal/recon/sweep.go:60-158 | computing the window and logging the run keeps the log a sequence of default-window runs |
| Coverage.SwallowedReadLosesIff | internal/store/postgres/sweep_repo.go:72-75 | after a swallowed read error the span stays covered if and only if the window still reaches the start of the last success, less the visibility delay |
| Recovery.CoveredTransfersArePostedIff | internal/recon/sweep.go:60-172 | every payment of the covered span is listed; it is in the ledger at the end if and only if it was before or some processing of it met no error, and so if none errs |
| Recovery.LoggedFailureIsLeftBehind | internal/recon/sweep.go:111-116 | a transfer whose processing failed up to a run logged as a success, and that is older than the overlap then, never gets into the ledger through later default windows |
| Idempotency.TenantsShareAKeyIff | internal/api/middleware/idempotency.go:62 | two tenants can reach one Redis key exactly when one identifier continues the other across a colon |
| Idempotency.KeysAreDistinct | internal/api/middleware/idempotency.go:62 | within a tenant different keys stay different |
| Idempotency.AtMostOnce | internal/api/middleware/idempotency.go:65-102 | for any number of requests in any interleaving, if every response is stored within its lease, no two execute together or within a record's lifetime, and every replay is a recorded response that was live |
| Idempotency.EventKeepsInv | internal/api/middleware/idempotency.go:65-102 | every timely step of the protocol keeps its invariant |
| Idempotency.SecondExecutionIff | internal/api/middleware/idempotency.go:84-89 | after any timely run in which a request is busy, and any time, a newcomer executes beside it if and only if its lease has run out |
| Idempotency.ArrivalIsAnswered | internal/api/middleware/idempotency.go:65-82 | after any timely run, a request's GET is a conflict while another executes, the latest recorded response while its record lives, and a miss otherwise or when it fails |
| Idempotency.Middleware.Serve | internal/api/middleware/idempotency.go:47-105 | one request alone: bypass, conflict, replay, or execute and record for the record's lifetime |
| TokenCache.SingleFlight | internal/provider/nomba/client.go:50-91 | for any interleaving at most one refresh runs, `inflight` is set exactly while it does, no channel is closed twice, and each waited-on channel is closed or owned by a goroutine that will close it |
| TokenCache.WaiterCanProceed | internal/provider/nomba/client.go:61-72 | from every reachable state the owner alone can release a waiter in three steps, whatever the provider answers |
| TokenCache.RefresherClosesItsOwn | internal/provider/nomba/client.go:80-90 | the channel read back after the refresh is the refresher's own |
| TokenCache.WaiterGetsFreshTokenIff | internal/provider/nomba/client.go:61-72 | in every reachable state a waiter's token is fresh if and only if a refresh succeeded less than the token's lifetime ago, and empty if and only if none ever did |
| TokenCache.ExpiredTokenCanBeReturned | internal/provider/nomba/client.go:61-91 | from every state with an expired token and no refresh, one failed fetch hands the expired token to a waiter |
| TokenCache.RefresherGetsFreshToken | internal/provider/nomba/client.go:53-91 | in every reachable state a caller that does not wait gets a fresh token; a refresher installs and returns the very token it got, fresh for its whole lifetime |
| TokenCache.CallerGoesOn | internal/provider/nomba/client.go:50-76 | in every reachable state a caller is given the cached token, nothing else changing, if and only if it is non-empty and unexpired; otherwise it refreshes, on a channel of its own, if and only if nobody does, and else waits on the channel of whoever does |
| TokenCache.WaiterWaits | internal/provider/nomba/client.go:61-76 | in every reachable state a waiter waits on until its context ends, which is an error, or its channel has been closed, which is after the refresh it waited for |
| TokenCache.EventKeepsInv | internal/provider/nomba/client.go:50-91 | every step keeps the cache's invariant |
| TokenCache.TokenFields.Acquire | internal/provider/nomba/client.go:51-76 | the first critical section: a fresh token, a channel to wait on, or the refresh |
| TokenCache.TokenFields.Finish | internal/provider/nomba/client.go:80-88 | the second critical section: clears `inflight`, and on success alone replaces token and expiry |
| WebhookIntake.ReceivedAtMostOnce | internal/api/handlers/webhook.go:72-111 | however often a notification is redelivered the worker receives it at most once, and one that met a full queue never |
| WebhookIntake.AcceptedIff | internal/api/handlers/webhook.go:72-111 | a stored notification is taken or queued if and only if it was not dropped, which is if and only if the queue had room at its first stored receipt |
| WebhookIntake.EventTypesShareAKeyIff | internal/api/handlers/webhook.go:72 | two event types can share a dedupe key exactly when one ends with a colon and the other |
| WebhookIntake.KeysOfOneTypeAreDistinct | internal/api/handlers/webhook.go:72 | for one event type the dedupe key is the transaction's own |
| WebhookIntake.Ingestor.InsertWebhookEvent | internal/store/memstore/memstore.go:565-579 | inserts a dedupe key and says whether it was new |
| WebhookIntake.Ingestor.EnqueueItem | internal/recon/worker.go:65-73 | enqueues unless the queue is full |
| WebhookIntake.Ingestor.HandleNombaWebhook | internal/api/handlers/webhook.go:72-111 | a verified notification is stored and queued once, and acknowledged unless the insert fails |
| WebhookIntake.Ingestor.TakeItem | internal/recon/worker.go:76-92 | the worker receives the oldest queued notification |
| Amounts.RoundingIsExactIff | internal/provider/nomba/adapter.go:541-550 | rounding recovers k kobo from k/100 naira exactly for every non-negative k up to 10^15 and every admissible rounding error; a negative amount always comes out one kobo high |
| Amounts.TruncatingLosesAtMostOne | internal/provider/nomba/adapter.go:480 | the truncating conversion returns the amount or one kobo less, less exactly when the scaled float fell short |
| Amounts.TruncatingIsSafeIff | internal/provider/nomba/adapter.go:480 | truncation keeps the amount under every admissible rounding error if and only if it is a multiple of 25 kobo |
| Amounts.QuartersAreExact | internal/provider/nomba/adapter.go:480 | a multiple of 25 kobo is computed exactly and kept |
| Amounts.HundredthIsRepresentableIff | internal/provider/nomba/adapter.go:480 | k/100 is a binary64 number if and only if k is a multiple of 25 |
| Amounts.TwentyNineKoboLoseOne | internal/provider/nomba/adapter.go:480 | the binary64 numbers nearest to 0.29 and to a hundred times it truncate to 28, and round to 29 |

## Left out

- Relay delivery, audit entries, tenants, credentials, settings, health aggregates, HTTP routing and JSON: plumbing without money in it.
- Signature checks, API keys and logins: foreign cryptography.
- SQL text and the Redis and pgx clients: each statement is one atomic step with the meaning its WHERE clause and constraints give it.
- The provider's calls: their answers are parameters or the `ok` flag of a step. Withdrawal statuses inside a successful provider answer are not read by the code and not modelled.
- Partial database transactions: posting and its rows appear together or not at all.
- References into the virtual account store: the in-memory store hands out its own records; here reads are by position and copies.
- The tenant and customer checks in front of lifecycle, collection creation and collection cancellation, and the reference a collection needs: they only refuse calls.
- Reads next to each other in one run (account by reference and by NUBAN, customer and balance, a record's account) are one step of the machine.
- TransactionStores.TransactionStore.ListTransactions: `sort.Slice` is modelled as some ordered permutation of the map's values, so the order among equal times is not fixed.
- Accounts.VirtualAccountStore.ProvisionVA: the provider's answer is a parameter, so its own uniqueness and failures are not modelled.
- Sweeping.SweepRunner.Run: the window and the write of the run log are modelled in `Coverage`, not by this method; windows given by an override are not modelled.
- Amounts.TruncatingIsSafeIff: rounding is bounded, not computed, so for amounts that are not multiples of 25 it says that a loss is admitted, not that each of them is lost.
- Worker.ReconWorker.Process: the mark on the webhook event is a result, not a stored status.
- Amounts.RoundingIsExactIff: amounts above 10^15 kobo and JSON numbers with more than two decimals are not covered.
- Reprocessing.BatchMovesResolvedAmounts: assumes that no store call fails during the batch. A mark that fails after the posting is counted as failed although the money has moved.
- Time zones: days are UTC days counted in nanoseconds.
