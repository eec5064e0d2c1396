# Verified model of the accounting backend

This Dafny project models the stateful engines of a Japanese accounting backend and proves what they promise over
every input or every run. One module stands for one component; the imperative services are methods and classes with
loops, proved against specification functions, and the promises are lemmas about those functions.

- **Settlement.** `SubsetSum`, `ReceivableMatching`, `ReceivableSettlement`, `ReceivableJournal`, `PaymentMatching`:
  the table search for invoice combinations, allocation of deposits to invoices, the journal drafts built from a
  match, and three-stage matching of payments with bank withdrawals.
- **Protocols.** `RefreshTokens` (rotation with reuse detection, section 4.14.2 of RFC 9700), `JournalNumbering`
  (read the maximum, insert, retry on the unique constraint), `RateLimit` (sliding window with pruning), `Webhook`
  (delivery by concurrent workers under row locks). Each has a state machine whose runs interleave any number of
  callers, next to the class whose methods do one step.
- **Calendar.** `Calendar`, `PaymentTerms`, `SalesClosing`, `JobScheduler`, `JobDispatch`: closing and payment dates,
  invoices of a period, next runs and the dispatch of due jobs.
- **Amounts.** `TaxCalculator`, `InvoiceTax`, `BadDebt`, `BadDebtAssessment`, `OrderFulfillment`,
  `OrderClosing`, `Slices`, `SalaryDeduction`, `IncomeTax`, `Withholding`, `Calibration`: where truncation and
  rounding meet conservation.
- **Files.** `Zengin`: the bankers' association transfer file, printed, encoded and read back.
- Shared vocabulary: `Wrappers`, `Sums`, `Lists`, `Quotients`, `Sorting`, `Digits`, `Journal`.

Money is `real`, which covers every decimal amount. Dates are day numbers of the Gregorian calendar, instants are
microseconds. Name similarity, upper-casing of characters outside the one-byte set, random jitter and the clock are
parameters, so the theorems hold for any of them. A commit is one atomic step.

## What the proofs found

- Payment matching: the combined stage keeps the first way to reach a total and then rejects single items, so a
  payment equal to the withdrawal that comes first among the candidates hides every combination after it
  (`SubsetSum.SearchSucceedsExactlyWhen`). Alone it would be matched by the exact stage; with a second equal payment
  that stage passes too, and the withdrawal stays unmatched. Receivable matching is not affected, since it takes any
  equal invoice before it searches.
- Refresh tokens: the module's comment says that of two parties who received the same successor the next refresh
  always turns one away (`refresh_tokens.py:41-43`). Two parties are told apart only when their presentations of a
  token lie more than three seconds apart, or when the earlier one has used the successor in between; two that
  present each token within three seconds of each other go on unnoticed.
- Webhooks: a replay reads and writes in separate statements without a lock. A delivered row stays delivered if and
  only if no replay that read it failed writes after the delivery. A replay that read it pending leaves it delivered,
  but may reset its attempt count. A blocked address counts as an attempt although nothing is sent, so sends equal the
  attempt count exactly when no attempt was blocked.
- Webhooks: a worker claims what it listed by status alone, so an attempt can come before the retry time that another
  worker's failure has just set. It can only then (`Webhook.EarlyOnlyAfterAnother`).
- Job dispatch: a job gets at most one execution for each scheduled instant in every run if and only if its schedule
  names its first next run. Otherwise it may get one more, and never more than one.
- Consumption tax: extracting undoes adding, but adding does not undo extracting: at ten percent every eleventh
  whole-yen total does not come back.
- Bad debts: with the reversal method and a negative target the reported closing balance is the target, while no draft
  brings the account there. No assessment has a negative target, so this takes one made by hand. An agreed cut that
  leaves a remainder is counted as a loss but never drafted; no other positive loss goes undrafted. The comment speaks
  of using the allowance on the oldest receivables first; the code takes them in the order given, which changes no
  total.
- Orders: rounding each shipment can recognise more than an order is worth. A backlog is negative exactly when the
  rounded shipments of an order not filled cost more than the order, and the sale that fills an order is negative
  exactly when those before it do. The reported total backlog adds up positive backlogs only. The entries can be handed
  to the sales closing as they are (`order_fulfillment.py:23-24`) exactly under the conditions of
  `OrderClosing.EntriesCloseExactlyWhen`; the line identifiers of two shipments can collide.
- Withholding: the settlement of level months is bounded by 8 and 96 yen, both reached; positive annual pay below
  550,000 is refused by the estimate, while the year-end computation refunds all that was withheld.
- Calibration: the comment on `_fine_grained_calibration` speaks of ten bins; the code uses twenty, which is what
  makes every band edge and the automatic threshold a bin edge.
- Transfer file: the yen sign is listed as allowed but is not an ASCII character, so no text containing it, and none
  containing the two full-width characters mapped to it, is accepted.

## Model

| member | source | states |
|---|---|---|
| `SubsetSum.FindSubset` | backend/app/services/receivable_matching.py:105-120 | the table-building search (and, with the cap of payment matching, its early exit) returns the combination recorded for the target, or nothing when there are more than 24 items, too many totals, or fewer than two items in the recorded combination |
| `SubsetSum.TableIsExact` | backend/app/services/receivable_matching.py:108-116 | for positive amounts the totals in the table are exactly the subset sums of the items not above the target |
| `SubsetSum.TableIsSound` | backend/app/services/receivable_matching.py:109-116 | every recorded combination names items at distinct positions, in list order, adding up to its total |
| `SubsetSum.TableIsComplete` | backend/app/services/receivable_matching.py:111-115 | no choice of positions with a sum up to the target is lost by the pruning |
| `SubsetSum.PruningNeedsPositiveAmounts` | backend/app/services/receivable_matching.py:113-114 | with a negative amount the pruning does miss a combination: 5 - 3 = 2 |
| `SubsetSum.SearchIsComplete` | backend/app/services/receivable_matching.py:105-120 | when no single item equals the target, the search succeeds if and only if some combination adds up to the target, and returns such a combination |
| `SubsetSum.SearchSucceedsExactlyWhen` | backend/app/services/payment_matching.py:89-111 | in general it succeeds if and only if the items before the first one equal to the target already reach the target: an equal item recorded first hides every later combination |
| `SubsetSum.SingletonIsFirst` | backend/app/services/payment_matching.py:102-110 | the single item that is recorded first for the target stays recorded, which is why the search then gives up |
| `SubsetSum.IdsAreDistinct` | backend/app/services/receivable_matching.py:203-212 | a returned combination never names an item twice |
| `ReceivableMatching.CandidatesAre` | backend/app/services/receivable_matching.py:155-162 | the candidates of a deposit are exactly the invoices that are open and whose name is similar enough, without repetition, earlier due dates first and smaller identifiers first within a date |
| `ReceivableMatching.RefusedExactlyWhen` | backend/app/services/receivable_matching.py:131-144 | which input is refused, and that each complaint is raised only when none before it applies |
| `Sorting.TextOrderMeans` | backend/app/services/receivable_matching.py:162-162 | identifiers are ordered as texts: a prefix first, otherwise by the first differing character |
| `ReceivableMatching.Allocate` | backend/app/services/receivable_matching.py:164-240 | tries exact, combined, fee-adjusted and oldest-first allocation in this order and meets the specification of the first that applies; the combined rule clears exactly the invoices of the combination the search recorded |
| `ReceivableMatching.OnlyNear` | backend/app/services/receivable_matching.py:183-191 | returns an invoice exactly when the tolerance is positive and it is the only candidate whose balance exceeds the deposit by at most the tolerance |
| `ReceivableMatching.AllocateAggregate` | backend/app/services/receivable_matching.py:203-213 | clears exactly the invoices it is given, one line each in their order, and these add up to the deposit |
| `ReceivableMatching.AllocateOldestFirst` | backend/app/services/receivable_matching.py:226-240 | pays candidates in order of due date, an older one in full before a newer one gets anything, until the money is used up |
| `ReceivableMatching.AllocationIsAccounted` | backend/app/services/receivable_matching.py:192-240 | whatever rule was used: distinct candidates, positive amounts, nothing above a balance, deposit = applied + rest, and a rest only when every candidate is cleared |
| `ReceivableMatching.BalancesSnoc` | backend/app/services/receivable_matching.py:242-246 | booking an allocation lowers the balance of its own invoice and no other |
| `ReceivableSettlement.Book` | backend/app/services/receivable_matching.py:242-246 | updating the two dictionaries allocation by allocation gives the balances and applied amounts of the longer ledger |
| `ReceivableSettlement.OpenBooks` | backend/app/services/receivable_matching.py:146-149 | before any deposit every invoice owes its amount and has nothing applied |
| `ReceivableSettlement.Match` | backend/app/services/receivable_matching.py:122-307 | is refused exactly when validation fails, with that error; otherwise the report is that of a run over all deposits, each allocated to the candidates by due date and identifier, and conserves money |
| `ReceivableSettlement.StepConserves` | backend/app/services/receivable_matching.py:154-274 | one deposit neither loses nor creates money, allocates to distinct invoices, and leaves no balance negative |
| `ReceivableSettlement.StatusMeans` | backend/app/services/receivable_matching.py:251-263 | status `advance` means money is left over, `settled` that every invoice touched is at zero, `partial` that one is not |
| `ReceivableSettlement.PartialPaysTheOldest` | backend/app/services/receivable_matching.py:162-240 | when a deposit is spread oldest first and pays an invoice, every name-matching open invoice that is due earlier, or on the same date with a smaller identifier, is at zero afterwards |
| `ReceivableSettlement.SettledIdsAre` | backend/app/services/receivable_matching.py:301-301 | the settled identifiers are those of the settled rows, in their order |
| `ReceivableSettlement.UnmatchedIdsAre` | backend/app/services/receivable_matching.py:302-306 | the unmatched identifiers are those of the unmatched deposits, in their order |
| `ReceivableSettlement.AdvanceOnlyWhenAllCleared` | backend/app/services/receivable_matching.py:226-257 | an advance is booked only when every name-matching open invoice has been brought to zero |
| `ReceivableSettlement.RunNeverNegative` | backend/app/services/receivable_matching.py:154-246 | after any number of deposits no balance is negative |
| `ReceivableSettlement.DepositsAreConserved` | backend/app/services/receivable_matching.py:248-299 | over a whole run deposits = applied + advance + unmatched |
| `ReceivableSettlement.InvoicesAreConserved` | backend/app/services/receivable_matching.py:242-300 | over a whole run invoices = cleared + outstanding |
| `ReceivableSettlement.MatchConserves` | backend/app/services/receivable_matching.py:276-307 | the report's figures: both conservation laws, for each invoice amount = applied + fees absorbed + outstanding >= 0, settled exactly at zero; for any name similarity |
| `ReceivableJournal.DraftBooksRole` | backend/app/services/receivable_journal_draft.py:112-158 | what the draft of a deposit books under each account role |
| `ReceivableJournal.DraftNeverFails` | backend/app/services/receivable_journal_draft.py:86-90 | the draft of a deposit that conserves money always balances |
| `ReceivableJournal.DraftNames` | backend/app/services/receivable_journal_draft.py:117-158 | the draft of a deposit carries its identifier and date, is a suspense receipt exactly for an unmatched deposit, and its receivable lines name the invoices allocated to, each with what was applied and absorbed |
| `ReceivableJournal.Generate` | backend/app/services/receivable_journal_draft.py:101-178 | fails exactly when a deposit has no date, naming the first such; otherwise there is one draft a deposit with its date, kind and identifier, every draft balances, and the role totals are those of the match |
| `ReceivableJournal.MatchIsAccountable` | backend/app/services/receivable_matching.py:242-274 | every deposit of every match is fit for a draft, so the unbalanced error cannot be reached from a match |
| `ReceivableJournal.JournalAgreesWithMatch` | backend/app/services/receivable_journal_draft.py:171-178 | receivables credited = invoices less outstanding, and cleared + advance + suspense = deposits + fees |
| `ReceivableJournal.MatchAndJournal` | backend/app/services/receivable_journal_draft.py:101-178 | matching and then drafting never raises, given a date for each deposit |
| `Journal.BuildKeepsSums` | backend/app/services/receivable_journal_draft.py:79-99 | a draft is refused exactly when its lines do not balance; an accepted one carries its kind, reference and date, drops exactly the lines without an amount, and no total changes |
| `PaymentMatching.PickStep` | backend/app/services/payment_matching.py:171-197 | the rule of each of the three stages for one withdrawal |
| `PaymentMatching.CommitStep` | backend/app/services/payment_matching.py:148-167 | records the match with its totals and removes the payments used |
| `PaymentMatching.RunStage` | backend/app/services/payment_matching.py:169-200 | a stage is the fold of its rule over the withdrawals the previous stage left, in order |
| `PaymentMatching.MatchAll` | backend/app/services/payment_matching.py:137-220 | the three stages in order, the last only with a tolerance: both sides are split exactly; every match uses payments at most the date tolerance before or after the withdrawal and follows its stage's rule on the amounts; the reported totals and lists are those of the final books, open payments in their input order |
| `PaymentMatching.PickObeysRule` | backend/app/services/payment_matching.py:171-200 | exact and combined matches have no difference, fee matches one within the tolerance; payments of a match are distinct open ones dated within the tolerance on both sides of the withdrawal |
| `PaymentMatching.ExactPicksExactlyWhen` | backend/app/services/payment_matching.py:171-180 | the exact stage picks a payment if and only if it is the one open payment within the date tolerance whose amount equals the withdrawal |
| `PaymentMatching.FeePicksExactlyWhen` | backend/app/services/payment_matching.py:189-197 | the fee stage picks a payment if and only if there is a fee tolerance and it is the one open payment within the date tolerance whose amount differs by at most the fee tolerance |
| `PaymentMatching.RefusedExactlyWhen` | backend/app/services/payment_matching.py:122-135 | which input is refused, and that each complaint is raised only when none before it applies |
| `PaymentMatching.AggregateFindsExactlyWhen` | backend/app/services/payment_matching.py:182-187 | when the combined stage finds something: cap on candidates, cap on totals, and a combination among the candidates before the first equal one |
| `PaymentMatching.EqualPaymentHidesCombination` | backend/app/services/payment_matching.py:171-200 | payments of 100, 100, 60 and 40 on one day and a withdrawal of 100: under every tolerance all three stages leave the withdrawal unmatched, although 60 and 40 make it up |
| `PaymentMatching.LoneWithdrawalIsLeftExactlyWhen` | backend/app/services/payment_matching.py:171-200 | a single withdrawal goes through the stages unmatched exactly when none of the three rules picks anything for it |
| `PaymentMatching.TwoEqualsBlockAllStages` | backend/app/services/payment_matching.py:171-197 | whenever the first candidate and another one equal the withdrawal, no stage picks anything |
| `PaymentMatching.CommitSplitsPayments` | backend/app/services/payment_matching.py:148-167 | a commit keeps every payment either open or in exactly one match, totals included |
| `PaymentMatching.CommitSplitsWithdrawals` | backend/app/services/payment_matching.py:148-167 | a commit keeps every withdrawal visited, left over or still to come, exactly once |
| `PaymentMatching.VisitKeeps` | backend/app/services/payment_matching.py:170-200 | visiting one withdrawal keeps both splits and the justification of every match |
| `PaymentMatching.StageKeeps` | backend/app/services/payment_matching.py:170-200 | so does a whole stage, by induction over its withdrawals |
| `RefreshTokens.TokenStore.IssueNewFamily` | backend/app/services/refresh_tokens.py:64-74 | adds one row and touches no other; with new identifiers the row is a live family of one unused token with the given user, family and expiry, and the chain invariant is kept |
| `RefreshTokens.TokenStore.RevokeFamily` | backend/app/services/refresh_tokens.py:77-83 | row by row: unrevoked rows of the family get the time, every other row stays as it was, no token of the family is live afterwards, and the chain invariant is kept |
| `RefreshTokens.TokenStore.Rotate` | backend/app/services/refresh_tokens.py:117-156 | returns the outcome and leaves the table that the specification gives; branch by branch on the fields: a rotated tail is used up now and its successor belongs to the same user and family and expires a lifetime from now, a reuse revokes the family, every other outcome changes nothing |
| `RefreshTokens.RunKeepsInv` | backend/app/services/refresh_tokens.py:64-156 | in every run of logins, logouts and rotations each family is one linear chain of replacements with exactly one unused token, and is all live or all revoked |
| `RefreshTokens.FamilyKeepsUser` | backend/app/services/refresh_tokens.py:86-156 | in every run all tokens of a family belong to the user of its login |
| `RefreshTokens.ReplaceChain` | backend/app/services/refresh_tokens.py:146-156 | rotating the tail appends one token to its chain |
| `RefreshTokens.RotationExactly` | backend/app/services/refresh_tokens.py:94-156 | a token comes out exactly when the family is live and the presented token is the unexpired tail, or the tail's predecessor used at most three seconds ago; any other used token of a live family revokes it |
| `RefreshTokens.SecondPresentation` | backend/app/services/refresh_tokens.py:133-141 | a token presented twice in a row gives the same successor if and only if at most three seconds passed, and otherwise ends the family |
| `RefreshTokens.LateReuseIsRejected` | backend/app/services/refresh_tokens.py:41-44 | in every run a used token presented more than three seconds after its use yields no token and ends its family |
| `RefreshTokens.SharedTokenExactly` | backend/app/services/refresh_tokens.py:40-44 | in every run, when a token was rotated and is presented again later, it gives the same successor if and only if at most three seconds lie between the two presentations and the successor is unused and unrevoked; every other presentation gets no token and ends the family |
| `RefreshTokens.LockStepGoesUnnoticed` | backend/app/services/refresh_tokens.py:41-44 | a run in which two parties present the same token within a second, and ten minutes later its successor within a second: all four presentations succeed, so the next refresh need not turn either away |
| `RefreshTokens.DetectionEndsFamily` | backend/app/services/refresh_tokens.py:138-141 | detecting reuse leaves no live token in the family |
| `RefreshTokens.ReuseEndsFamily` | backend/app/services/refresh_tokens.py:17-22 | after reuse was detected no later presentation of any token of the family succeeds, in any run |
| `JournalNumbering.ParsePrint` | backend/app/services/journal_numbering.py:24-49 | reading a printed number gives it back, whatever its width |
| `JournalNumbering.ParsedForm` | backend/app/services/journal_numbering.py:24-47 | only the prefix followed by digits alone counts as a number, a final newline aside, so other schemes are passed over |
| `JournalNumbering.Highest` | backend/app/services/journal_numbering.py:44-48 | the maximum is at least every number of the company |
| `JournalNumbering.HighestIsUsed` | backend/app/services/journal_numbering.py:44-48 | the maximum is the number of some row of the company, or zero |
| `JournalNumbering.PrintedForm` | backend/app/services/journal_numbering.py:49-49 | a printed number is JRN- and at least eight digits, exactly eight below a hundred million |
| `JournalNumbering.NextIsFree` | backend/app/services/journal_numbering.py:32-49 | the number proposed by a read is not in the table that was read |
| `JournalNumbering.JournalStore.NextJournalNumber` | backend/app/services/journal_numbering.py:32-49 | the scan prints the successor of the maximum |
| `JournalNumbering.JournalStore.Insert` | backend/app/services/journal_numbering.py:66-72 | the unique constraint: a row is appended exactly when its number is free |
| `JournalNumbering.JournalStore.InsertWithNumber` | backend/app/services/journal_numbering.py:52-77 | up to eight rounds of read and insert, with arbitrary rows of others committed between the two, end as the specification says; a number obtained is that of a last row of the company and author, which no earlier row has, and no row of others is lost |
| `JournalNumbering.CallWritesItsRow` | backend/app/services/journal_numbering.py:62-76 | whatever others commit meanwhile, earlier rows stay where they are, and a call that obtains a number ends the table with its own row, whose number no earlier row of the company has |
| `JournalNumbering.StepKeepsInv` | backend/app/services/journal_numbering.py:62-76 | every step of any caller keeps numbers unique, and each collision so far is paid for by a row somebody else committed during the call |
| `JournalNumbering.NumbersAreUniqueAndCallsSucceed` | backend/app/services/journal_numbering.py:11-13 | over every interleaving no two headers of a company share a number, a call that succeeded has its own row in the table, and a call gives up only when at least eight distinct rows of others were committed while it ran |
| `JournalNumbering.EightRivalsDefeatACall` | backend/app/services/journal_numbering.py:27-29 | the bound is tight: from any table, eight rows of others, one a round, defeat a call |
| `RateLimit.RateLimiter.CleanUp` | backend/app/middleware/rate_limit.py:59-63 | keeps the times inside the window for the key, drops the key exactly when none is left, touches no other key |
| `RateLimit.RecentAre` | backend/app/middleware/rate_limit.py:59-63 | what is kept is every time strictly after the window's start, as often as it was there |
| `RateLimit.RateLimiter.EvictStale` | backend/app/middleware/rate_limit.py:65-80 | above the table limit drops exactly the keys whose last time is outside the window |
| `RateLimit.RateLimiter.Dispatch` | backend/app/middleware/rate_limit.py:82-104 | decides and records as the specification says; skipped paths change nothing |
| `RateLimit.DecideAgrees` | backend/app/middleware/rate_limit.py:89-104 | one request: the pruned table and the full history decide alike and stay in step |
| `RateLimit.DecidesAsFullHistory` | backend/app/middleware/rate_limit.py:59-104 | after any run with a non-decreasing clock the limiter answers as one that had kept everything |
| `RateLimit.WindowBound` | backend/app/middleware/rate_limit.py:16-21 | keeping everything, at most the limit is accepted per key in any window |
| `RateLimit.AcceptsAtMostTheLimit` | backend/app/middleware/rate_limit.py:82-104 | the same bound for the limiter itself, over every run and every window |
| `RateLimit.AcceptsExactlyWhen` | backend/app/middleware/rate_limit.py:89-104 | after any run a request is let through if and only if fewer than the limit were let through for its key in the window that ends now |
| `Webhook.BackoffBounds` | backend/app/services/webhook_service.py:379-384 | delays grow with the number of attempts, double from one minute up to one hour, and a retry waits between 48 seconds and 72 minutes |
| `Webhook.BackoffSteps` | backend/app/services/webhook_service.py:379-384 | one minute after the first attempt, twice as long after each further one, never more than an hour |
| `Webhook.Delivery.Attempt` | backend/app/services/webhook_service.py:329-387 | delivered if and only if the answer is from 200 to 299; otherwise failed exactly when this attempt reaches the maximum, and else pending until the backoff of the attempt count times the jitter has passed |
| `Webhook.Delivery.Replay` | backend/app/services/webhook_service.py:472-482 | queues a delivery again with its count reset, unless it was delivered |
| `Webhook.StepKeepsLocks` | backend/app/services/webhook_service.py:427-437 | every step keeps one lock a delivery, held by a worker that is sending it, on a pending row |
| `Webhook.NoDoubleSending` | backend/app/services/webhook_service.py:399-401 | in every interleaving no delivery is being sent by two workers at once, and only pending rows are sent |
| `Webhook.AttemptsAreCounted` | backend/app/services/webhook_service.py:346-379 | as long as no replay of that delivery writes over a row changed since it was read: attempts since queueing equal the count and never exceed the maximum, sends are the attempts less the blocked ones, and failed means exactly undelivered with the attempts used up |
| `Webhook.DeliveredWasAnswered` | backend/app/services/webhook_service.py:362-370 | in every run a delivered delivery has an attempt in its log that was answered from 200 to 299 |
| `Webhook.DeliveredStaysExactlyWhen` | backend/app/services/webhook_service.py:460-480 | delivered rows stay delivered if and only if no replay that read a failed row writes after the delivery |
| `Webhook.ReplayOfDelivered` | backend/app/services/webhook_service.py:472-480 | what a replay written over a delivered row does: it queues the row again exactly when it had read it failed; had it read it pending, the row stays delivered with its attempt count set to zero unless the count it read was zero |
| `Webhook.LatePendingReplay` | backend/app/services/webhook_service.py:472-480 | from any state: a replay that reads a pending delivery with attempts and writes after the next attempt delivered it leaves it delivered with no attempt counted |
| `Webhook.PendingReplayResetsCount` | backend/app/services/webhook_service.py:472-480 | such a run exists from an empty queue |
| `Webhook.NeverSentAgain` | backend/app/services/webhook_service.py:399-401 | while that holds, nothing delivered is ever sent again |
| `Webhook.AtomicReplayIsSafe` | backend/app/services/webhook_service.py:471-480 | a replay whose read and write are not separated never writes over a newer row |
| `Webhook.LateReplaySendsAgain` | backend/app/services/webhook_service.py:471-480 | a replay that read before the delivery and writes after it does cause a second sending |
| `Webhook.TwoReplaysRace` | backend/app/services/webhook_service.py:471-480 | such a run exists from an empty queue, with two replays at work |
| `Webhook.EarlyOnlyAfterAnother` | backend/app/services/webhook_service.py:411-446 | in every run with a clock that does not go back, an attempt comes before the retry time of its delivery only if the delivery has been attempted since the worker made its list |
| `Webhook.RetryCanComeEarly` | backend/app/services/webhook_service.py:427-446 | and it does: two workers list one delivery, the first fails and sets a retry a minute later, the second attempts it at once, since the claim checks the status only |
| `Calendar.YearStart` | backend/app/services/payment_terms.py:7-13 | counting month by month gives 365 days a year and a leap day by the four, hundred and four-hundred rule |
| `Calendar.DateOrder` | backend/app/services/payment_terms.py:11-17 | day numbers order dates by month and then by day, and determine them |
| `Calendar.DayNumberIs` | backend/app/services/payment_terms.py:7-13 | the day number in closed form, from the year, the days before each month and the leap rule |
| `Calendar.DatesAre` | backend/app/services/payment_terms.py:7-13 | which dates there are: 30 days in four months, 28 or in leap years 29 in February, 31 in the others |
| `Calendar.WeekdayOfDates` | backend/app/services/payment_terms.py:20-23 | the week goes on day by day, and 1 January 2026 was a Thursday |
| `Calendar.ClampedDayMeans` | backend/app/services/payment_terms.py:16-17 | a clamped day is the day itself, or the last day of a month that does not have it |
| `Calendar.ClampedDaysAreConsecutive` | backend/app/services/payment_terms.py:16-17 | between the clamped days of consecutive months lies no other one |
| `PaymentTerms.ComputeClosingDate` | backend/app/services/payment_terms.py:28-38 | computes the specified date, though it clamps to the invoice's own month first |
| `PaymentTerms.ClosingDateIsLeast` | backend/app/services/payment_terms.py:28-38 | the closing date is the least date on or after the input on which the closing day falls |
| `PaymentTerms.ClosingIsMonotoneAndIdempotent` | backend/app/services/payment_terms.py:28-38 | closing is monotone, and the dates it leaves alone are exactly the closing dates |
| `PaymentTerms.Shift` | backend/app/services/payment_terms.py:65-69 | the search ends for any finite holidays, at the nearest business day in its direction |
| `PaymentTerms.BusinessDayAhead` | backend/app/services/payment_terms.py:20-23 | for any finite holidays there is a business day ahead and one behind |
| `PaymentTerms.ComputePaymentDate` | backend/app/services/payment_terms.py:40-69 | each refused term is reported as such; otherwise the result is the payment day the terms name |
| `PaymentTerms.TermsRefusedExactlyWhen` | backend/app/services/payment_terms.py:49-56 | which terms are refused, the payment day looked at first and the closing day last |
| `PaymentTerms.PaymentDayIsUnique` | backend/app/services/payment_terms.py:40-69 | the terms determine the payment day |
| `PaymentTerms.PaymentDayFromClosing` | backend/app/services/sales_closing.py:126-148 | the payment day of a closing date is that of every date that closes on it |
| `JobScheduler.ComputeNextRun` | backend/app/services/job_scheduler.py:26-70 | computes the specified instant or the specified refusal |
| `JobScheduler.FindMonth` | backend/app/services/job_scheduler.py:61-68 | the month loop ends after at most one further month |
| `JobScheduler.DailyIsLeast` | backend/app/services/job_scheduler.py:37-43 | the daily result is the least daily instant after the given one |
| `JobScheduler.WeeklyIsLeast` | backend/app/services/job_scheduler.py:45-55 | the weekly result is the least instant of that weekday after the given one |
| `JobScheduler.MonthlyIsLeast` | backend/app/services/job_scheduler.py:57-68 | the monthly result is the least clamped day of a month after the given instant |
| `JobScheduler.NextRunIsLeast` | backend/app/services/job_scheduler.py:26-70 | a next run exists exactly for valid schedules, and is the least scheduled instant strictly after the given moment |
| `JobScheduler.NextRunExistsExactlyWhen` | backend/app/services/job_scheduler.py:26-70 | the hour and the day alone decide whether there is a next run, the hour looked at first, and it is the least scheduled instant after the moment in microseconds |
| `JobDispatch.QueueIsDue` | backend/app/services/job_scheduler.py:111-120 | a pass visits exactly the jobs that are active, of the company asked for, and whose next run has come, most urgent first, each once |
| `JobDispatch.JobStore.DispatchDueJobs` | backend/app/services/job_dispatch.py:21-67 | either nothing is committed because a dispatched job's schedule is invalid, and the complaint is that of the first such job in the queue; or exactly the active due jobs of the company without a running execution get one pending execution and move to their least next run, and every other row is unchanged |
| `JobDispatch.CreatedCount` | backend/app/services/job_dispatch.py:38-56 | a visited job gets one execution, or none while one of its executions runs |
| `JobDispatch.CreatedInOrder` | backend/app/services/job_scheduler.py:119-120 | executions are created in priority order |
| `JobDispatch.NotDueGetsNothing` | backend/app/services/job_dispatch.py:31-46 | over any passes with workers in between, a job that at no pass is active, of the company asked for, due and free of running executions gets no execution |
| `JobDispatch.InactiveGetsNothing` | backend/app/services/job_dispatch.py:31-31 | in particular a job that is inactive at every pass |
| `JobDispatch.DueAgainExactlyWhen` | backend/app/services/job_dispatch.py:57-63 | after a dispatch the job is due again exactly when its schedule has named an instant since |
| `JobDispatch.ExecutionsNeverOutnumberInstants` | backend/app/services/job_dispatch.py:21-67 | over any passes with workers in between, a job gets no more executions than its schedule has had instants since its first next run, the first next run itself counted as one |
| `JobDispatch.OpportunitiesAreInstants` | backend/app/services/job_dispatch.py:57-63 | a first next run the schedule does not name counts as one extra instant, one it does name as none |
| `JobDispatch.ExecutionsAreScheduled` | backend/app/services/job_dispatch.py:21-67 | when the schedule names the first next run, every run makes at most one execution for each scheduled instant |
| `JobDispatch.OneExecutionTooMany` | backend/app/services/job_dispatch.py:38-63 | when it does not, one pass at the first next run makes an execution before any scheduled instant has come |
| `JobDispatch.InstantsBoundExactlyWhen` | backend/app/services/job_dispatch.py:21-67 | every run keeps the executions within the scheduled instants if and only if the schedule names the first next run |
| `JobDispatch.SetAfterMidnight` | backend/app/services/job_dispatch.py:57-63 | for instance a daily job at midnight whose first next run is any other moment: one pass at it makes an execution while no scheduled instant has come |
| `TaxCalculator.ExtractingUndoesAdding` | backend/app/services/tax_calculator.py:8-30 | adding tax to any amount and extracting it again gives back the same amount and tax |
| `TaxCalculator.AddingUndoesExtractingExactlyWhen` | backend/app/services/tax_calculator.py:8-30 | extracting and adding gives a total back exactly when truncation cut off less than a yen divided by one plus the rate |
| `TaxCalculator.WholeYenTotals` | backend/app/services/tax_calculator.py:32-50 | in whole yen: at ten percent exactly the totals that are 10 modulo 11 do not come back, at eight percent those that are 13 or 26 modulo 27 |
| `TaxCalculator.TotalsCutLittle` | backend/app/services/tax_calculator.py:8-30 | the totals that come back are exactly those that adding tax to some amount produces |
| `TaxCalculator.OneHundredNineIsNoTotal` | backend/app/services/tax_calculator.py:19-25 | no amount becomes 109 yen with ten percent added |
| `InvoiceTax.ComputeInvoiceTax` | backend/app/services/invoice_tax.py:47-87 | accepted exactly for lines that are not negative and at ten, eight or zero percent, and at least one; the first bad line in order is the error; otherwise one entry a rate that occurs, ascending, each truncated once from its whole base |
| `InvoiceTax.RateTaxBounds` | backend/app/services/invoice_tax.py:68-70 | one truncation a rate loses nothing against truncating line by line, and gains at most one yen for each line but the first |
| `InvoiceTax.InvoiceTotals` | backend/app/services/invoice_tax.py:64-87 | the taxable total is the sum of the lines; the tax lies between the line-by-line tax and that plus lines less rates |
| `InvoiceTax.ComputationIsUnique` | backend/app/services/invoice_tax.py:47-87 | the lines leave only one computation |
| `SalesClosing.AddLine` | backend/app/services/sales_closing.py:119-130 | putting a line under its key keeps groups complete, disjoint and in input order |
| `SalesClosing.Group` | backend/app/services/sales_closing.py:119-130 | fails with the complaint of the first bad line; otherwise groups by customer and closing date |
| `SalesClosing.SalesDraftBooks` | backend/app/services/sales_closing.py:149-169 | the draft of an invoice always balances and books receivable, sales and tax; the unbalanced error cannot occur |
| `SalesClosing.SalesDraftNames` | backend/app/services/sales_closing.py:149-165 | the draft of an invoice names its customer and closing date, has a line for each rate under that rate, and no other lines than these, the receivable and the tax |
| `SalesClosing.InvoiceFor` | backend/app/services/sales_closing.py:132-193 | one group becomes one invoice, or fails with the complaint about its first bad rate or else its terms |
| `SalesClosing.InvoiceAll` | backend/app/services/sales_closing.py:132-193 | all groups become invoices, one each and in order, or the first group that has a complaint is refused with it |
| `SalesClosing.Close` | backend/app/services/sales_closing.py:104-203 | each refusal in its order, accepted exactly when every line can be grouped and invoiced; among groups the complaint of the earliest closing date, and there of the first customer, is raised; the result has one correct invoice a customer and closing date, sorted |
| `SalesClosing.ClosableExactlyWhen` | backend/app/services/sales_closing.py:112-147 | the input a closing accepts: customers distinct in the terms, line identifiers distinct, and each line not negative, at a legal rate, under terms of its customer that are in range |
| `SalesClosing.GroupingRefusedExactlyWhen` | backend/app/services/sales_closing.py:120-129 | what a single line is refused with: a negative amount first, then missing terms, then the closing day |
| `SalesClosing.EveryLineIsInvoicedOnce` | backend/app/services/sales_closing.py:119-130 | each line lies in exactly one invoice |
| `SalesClosing.DueDateIsEveryLines` | backend/app/services/sales_closing.py:141-148 | an invoice's due date is the payment date of each of its lines |
| `SalesClosing.ClosingConservesSales` | backend/app/services/sales_closing.py:196-203 | the closing's taxable total is that of the sales lines, and it asks for exactly that plus tax |
| `BadDebt.EntryIsProper` | backend/app/services/bad_debt_journal_draft.py:162-178 | the contained tax is less than the loss |
| `BadDebt.EntryMeans` | backend/app/services/bad_debt_journal_draft.py:162-177 | a receivable without a given rate is taken at ten percent; the deduction is the whole yen of the tax contained, and has a line only when books are kept without tax |
| `BadDebt.ItemRefusedExactlyWhen` | backend/app/services/bad_debt_journal_draft.py:158-170 | only a positive loss needs a rate, and it must be zero, eight or ten percent |
| `BadDebt.EntriesAre` | backend/app/services/bad_debt_journal_draft.py:158-160 | the write-offs are those of the positive losses, in their order |
| `BadDebt.WriteOffOne` | backend/app/services/bad_debt_journal_draft.py:173-218 | taking the whole loss from the allowance and giving back what the tax line needs is plain greedy use on the net loss |
| `BadDebt.WriteOffAll` | backend/app/services/bad_debt_journal_draft.py:158-219 | the loop stops at the first bad rate; otherwise it refines plain greedy use, draft by draft |
| `BadDebt.WriteOffBooks` | backend/app/services/bad_debt_journal_draft.py:188-219 | every write-off draft balances |
| `BadDebt.WriteOffDraftIs` | backend/app/services/bad_debt_journal_draft.py:188-219 | the draft of a receivable names it, and its lines are what the allowance left can pay of the net loss, the rest as a loss, the tax, and the receivable |
| `BadDebt.WriteOffsAre` | backend/app/services/bad_debt_journal_draft.py:158-219 | each receivable in turn is drafted with the allowance that the ones before it left |
| `BadDebt.YearEndDraftsAre` | backend/app/services/bad_debt_journal_draft.py:221-253 | one draft for each of reversal and provision that is positive, the reversal first, with their two lines |
| `BadDebt.Generate` | backend/app/services/bad_debt_journal_draft.py:127-271 | every refusal in its order; otherwise used = min(opening, net losses), expense = max(0, net losses - opening), and the closing balance is the target under both methods |
| `BadDebt.WriteOffsDebit` | backend/app/services/bad_debt_journal_draft.py:188-219 | the write-off drafts together debit the allowance, the losses and the taxes with those closed forms |
| `BadDebt.WriteOffsCredit` | backend/app/services/bad_debt_journal_draft.py:210-216 | and credit the receivables with the losses, nothing else |
| `BadDebt.LedgerAgreesExactlyWhen` | backend/app/services/bad_debt_journal_draft.py:221-269 | the allowance account after posting the drafts equals the reported closing balance if and only if the method is the difference method or the target is not negative |
| `BadDebt.NegativeTargetIsNotBooked` | backend/app/services/bad_debt_journal_draft.py:221-253 | a result of the reversal method with a target of minus one: it closes at minus one while nothing is drafted |
| `BadDebt.WriteOffIsSplit` | backend/app/services/bad_debt_journal_draft.py:173-186 | written off = allowance used + expense + tax line; there is expense only once the allowance is gone |
| `BadDebt.DeductionIgnoresTreatment` | backend/app/services/bad_debt_journal_draft.py:19-20 | the deductible tax is the same however the books are kept |
| `BadDebt.OrderChangesNoTotal` | backend/app/services/bad_debt_journal_draft.py:158-186 | the order of the receivables changes no total |
| `BadDebtAssessment.UsedOnce` | backend/app/services/bad_debt_assessment.py:166-280 | no receivable is used twice: its loss, its own reserve and its share of the general base exclude each other and never exceed it; a loss is negative exactly for a stopped trade receivable below the memorandum yen |
| `BadDebtAssessment.ReceivableAcceptedExactlyWhen` | backend/app/services/bad_debt_assessment.py:148-165 | what a receivable must be to be assessed |
| `BadDebtAssessment.ReceivableRefusedWith` | backend/app/services/bad_debt_assessment.py:148-165 | the complaints, in the order in which they are looked for |
| `BadDebtAssessment.TreatmentMeans` | backend/app/services/bad_debt_assessment.py:197-280 | which receivables are written off, left to a person, or reserved for individually |
| `BadDebtAssessment.LossMeans` | backend/app/services/bad_debt_assessment.py:197-240 | how much is lost: what was agreed, everything, or everything but one yen after a year without business |
| `BadDebtAssessment.ReserveMeans` | backend/app/services/bad_debt_assessment.py:242-272 | how much is reserved individually, half of what is open on a mere filing, to the nearest yen and the even one of two |
| `BadDebtAssessment.AssessedLimit` | backend/app/services/bad_debt_assessment.py:282-331 | an assessment never asks for a negative allowance, and with a rate of at most one its losses and allowance together never exceed the receivables |
| `BadDebtAssessment.AssessedExactlyWhen` | backend/app/services/bad_debt_assessment.py:282-310 | an assessment is accepted exactly when the receivables are distinct and each is acceptable, and there is a rate whenever one of them is left to the general reserve |
| `BadDebtAssessment.AssessedReserves` | backend/app/services/bad_debt_assessment.py:291-331 | the total limit is the individual reserves and, exactly when some receivable is left to it, the general reserve: the rate on what cannot be offset, cut to a yen |
| `BadDebtAssessment.OffsetMeans` | backend/app/services/bad_debt_assessment.py:291-298 | only what is left to the general reserve is offset there |
| `BadDebtAssessment.RateMeans` | backend/app/services/bad_debt_reserve.py:26-33 | the rate of the general reserve: the given positive one, or that of the five industries |
| `BadDebtAssessment.AssessedLedgerAgrees` | backend/app/services/bad_debt_journal_draft.py:127-269 | for every assessment the allowance account after posting the drafts equals the reported closing balance, under both methods |
| `BadDebtAssessment.AssessedLossIsSplit` | backend/app/services/bad_debt_journal_draft.py:158-160 | the assessed losses are the losses drafted plus those left out, which are told from the receivables: the cut amount of an agreed cut with a remainder, and what a stopped trade receivable lacks to the memorandum yen |
| `BadDebtAssessment.LeftOutExactlyWhen` | backend/app/services/bad_debt_assessment.py:197-240 | a positive loss goes undrafted exactly for an agreed cut with a remainder; any loss is left out exactly there and for a stopped trade receivable below the memorandum yen |
| `BadDebtAssessment.AgreedCutIsNotDrafted` | backend/app/services/bad_debt_assessment.py:197-205 | one receivable of 100 with 60 cut by agreement: the assessment counts a loss of 60, the result writes off nothing |
| `OrderFulfillment.ShipAll` | backend/app/services/order_fulfillment.py:162-193 | the shipment loop fails exactly when the order's quantity is exceeded, at the shipment where that happens first |
| `OrderFulfillment.ProcessOrder` | backend/app/services/order_fulfillment.py:162-226 | status, remaining quantity, backlog and delay of one order |
| `OrderFulfillment.ProgressMeans` | backend/app/services/order_fulfillment.py:195-226 | completed once everything is shipped, held while the credit is neither approved nor on warning, late by the days since the delivery date while anything is missing |
| `OrderFulfillment.SalesMean` | backend/app/services/order_fulfillment.py:168-193 | one sale for each shipment, in order: its price in whole yen, or what the sales before leave of the order's amount when it fills the order |
| `OrderFulfillment.RoundedMeans` | backend/app/services/order_fulfillment.py:178-179 | prices are rounded to the nearest yen, a half away from zero |
| `OrderFulfillment.RecognizedIsNear` | backend/app/services/order_fulfillment.py:178-179 | after k shipments of an unfilled order recognised sales are within k/2 yen of the price of what was shipped |
| `OrderFulfillment.FilledOrderIsRecognized` | backend/app/services/order_fulfillment.py:175-176 | a filled order, and only a filled one, is completed and recognises exactly its amount |
| `OrderFulfillment.BacklogIsNear` | backend/app/services/order_fulfillment.py:7-9 | the backlog is the price of the remaining quantity up to (k+1)/2 yen |
| `OrderFulfillment.WholePricesRoundNothing` | backend/app/services/order_fulfillment.py:178-179 | with whole-yen shipments nothing is rounded, so the recognised amount is exact |
| `OrderFulfillment.BacklogCanBeNegative` | backend/app/services/order_fulfillment.py:195-196 | of four pieces at half a yen, three single shipments recognise three yen of two, so the backlog is minus one |
| `OrderFulfillment.BacklogIsNotNegativeExactlyWhen` | backend/app/services/order_fulfillment.py:168-196 | an order has no negative backlog exactly when its shipments fill it or, each rounded to a yen, do not cost more than its amount |
| `OrderFulfillment.SaleIsNotNegativeExactlyWhen` | backend/app/services/order_fulfillment.py:174-193 | no sales entry of an order is negative exactly when the shipments before the one that fills it do not cost more than its amount |
| `OrderFulfillment.LastSaleCanBeNegative` | backend/app/services/order_fulfillment.py:175-176 | the fourth half-yen piece is booked as a sale of minus one |
| `OrderFulfillment.NoSaleIsNegativeExactlyWhen` | backend/app/services/order_fulfillment.py:159-228 | over all accepted orders and shipments, no sales entry is negative exactly when that holds of each order |
| `OrderFulfillment.EntriesAddUp` | backend/app/services/order_fulfillment.py:181-193 | the sales entries of an order add up to what it recognises |
| `OrderFulfillment.GroupShipments` | backend/app/services/order_fulfillment.py:151-157 | shipments are gathered by order, or refused with the complaint about the first bad one |
| `OrderFulfillment.PreparedIs` | backend/app/services/order_fulfillment.py:168-171 | an order is processed with exactly its own shipments, by date and then by identifier |
| `OrderFulfillment.ProcessOrders` | backend/app/services/order_fulfillment.py:159-226 | all orders in turn, or the first one exceeded, named by the shipment with which that happens |
| `OrderFulfillment.AddTo` | backend/app/services/order_fulfillment.py:230-233 | an open amount is added to its customer's line, found by searching the lines |
| `OrderFulfillment.CustomerBacklogs` | backend/app/services/order_fulfillment.py:230-243 | each customer has one backlog line, carrying that customer's open amounts only |
| `OrderFulfillment.BacklogLines` | backend/app/services/order_fulfillment.py:230-243 | a customer has a line exactly when an order of it is open; the line has the number and the sum of its open orders and the name on the first of them |
| `OrderFulfillment.BacklogTotal` | backend/app/services/order_fulfillment.py:254-254 | the reported backlog is the sum of the positive backlogs |
| `OrderFulfillment.Process` | backend/app/services/order_fulfillment.py:126-263 | accepted exactly when orders and shipments are valid and no order is exceeded; each refusal in its order, about the first order or shipment at fault |
| `OrderFulfillment.AcceptedExactlyWhen` | backend/app/services/order_fulfillment.py:132-173 | the input that is accepted, on the fields of orders and shipments |
| `OrderFulfillment.ResultIsOrdered` | backend/app/services/order_fulfillment.py:228-243 | the sales of all orders are ordered by date and then by line, the backlogs by customer |
| `OrderFulfillment.ListedIds` | backend/app/services/order_fulfillment.py:255-263 | the late and the held orders are listed, in the order of the orders |
| `OrderFulfillment.OrdersAreConserved` | backend/app/services/order_fulfillment.py:245-254 | recognised + backlog = order amounts; the reported total backlog fits this if and only if no order has a negative backlog, on accepted input if and only if every order is filled or its rounded shipments cost at most its amount |
| `OrderFulfillment.ShipmentOrderDoesNotMatter` | backend/app/services/order_fulfillment.py:168-171 | shuffling the shipments changes neither acceptance nor the result |
| `OrderClosing.EntriesCloseExactlyWhen` | backend/app/services/order_fulfillment.py:23-24 | the sales closing takes the entries of accepted orders as they are if and only if the customers' terms are unique, no two shipments get one line identifier, no order is overrun before its last shipment, and each order that has shipped has a legal rate and a customer with valid terms |
| `OrderClosing.InvoicedIsRecognized` | backend/app/services/sales_closing.py:196-203 | the invoices of such a closing ask, before tax, for exactly what the orders recognised |
| `OrderClosing.IdsAreShipments` | backend/app/services/order_fulfillment.py:183-183 | the line identifiers of the entries are, up to order, those of the shipments |
| `OrderClosing.IdsCanCollide` | backend/app/services/order_fulfillment.py:183-183 | shipments of different orders with different identifiers can get one line identifier: a-b-c |
| `OrderClosing.NoHyphenNoCollision` | backend/app/services/order_fulfillment.py:183-183 | without a hyphen in any order identifier they cannot |
| `SalaryDeduction.TableIsSchedule` | backend/app/services/salary_deduction.py:6-42 | the table's pieces meet at every threshold: it is a schedule of shrinking shares cut to a yen, between 550,000 and 1,950,000 |
| `SalaryDeduction.MorePayMoreIncome` | backend/app/services/salary_deduction.py:6-42 | whole yen of more pay never mean less income |
| `SalaryDeduction.NegativeIncomeExactlyWhen` | backend/app/services/salary_deduction.py:6-42 | income after the deduction is negative exactly below 550,000 |
| `IncomeTax.QuickFormulaIsMarginal` | backend/app/services/income_tax.py:6-33 | the quick formula is the tax slice by slice; its truncation and its floor at zero never act |
| `IncomeTax.TaxIsMonotone` | backend/app/services/income_tax.py:19-33 | a higher income is never taxed less, and at most at 45 percent of the rise |
| `IncomeTax.BasicDeductionShrinks` | backend/app/services/income_deduction.py:28-35 | the basic deduction never grows with income |
| `IncomeTax.BasicDeductionSteps` | backend/app/services/income_deduction.py:15-35 | 160,000 for each of the three thresholds that the income does not exceed |
| `IncomeTax.EachDependentCounts` | backend/app/services/income_deduction.py:38-42 | nothing without dependents, and 380,000 more for each |
| `Withholding.SettlementCloses` | backend/app/services/year_end_adjustment.py:44-79 | withheld - refund + collection is the year's tax in hundreds, and only one of the two occurs |
| `Withholding.SettlementMeans` | backend/app/services/year_end_adjustment.py:51-70 | refused exactly for a negative argument; the tax on what the deductions leave, less the housing credit, neither below nothing |
| `Withholding.AnnualTaxMeans` | backend/app/services/monthly_withholding.py:35-46 | the annual tax exists exactly for pay of 550,000 or more, and is that of the income less the deductions, with 2.1 percent on top |
| `Withholding.MonthlyMeans` | backend/app/services/monthly_withholding.py:49-72 | the month's estimate is the whole yen of a twelfth of that tax, nothing without pay |
| `Withholding.BonusMeans` | backend/app/services/monthly_withholding.py:75-119 | a bonus is charged the whole yen by which it raises the annual tax, nothing when it does not |
| `Withholding.MonthlyRefusedExactlyWhen` | backend/app/services/monthly_withholding.py:49-69 | the estimate is refused exactly for positive annual pay below 550,000 |
| `Withholding.LowPayIsSettled` | backend/app/services/year_end_adjustment.py:44-79 | the year-end computation accepts the pay the estimate refuses: no tax is due and all that was withheld is refunded |
| `Withholding.TwelveMonths` | backend/app/services/monthly_withholding.py:71-72 | twelve truncated twelfths differ from the year's tax by a multiple of four between -8 and 96 |
| `Withholding.LevelMonthsSettle` | backend/app/services/year_end_adjustment.py:57-79 | twelve level months settle to at most 8 yen collected or 96 refunded |
| `Withholding.BoundsAreReached` | backend/app/services/year_end_adjustment.py:72-79 | 94,000 a month collects 8 yen and 174,000 a month refunds 96 |
| `Withholding.BonusYearSettles` | backend/app/services/monthly_withholding.py:75-119 | with a bonus that does not lower the annual tax the year settles within 12 collected or 99 refunded |
| `Withholding.WholeYenBonusSettles` | backend/app/services/monthly_withholding.py:75-119 | that is so for whole yen of pay and bonus and no insurance on the bonus |
| `Withholding.LoweringBonusIsRefunded` | backend/app/services/monthly_withholding.py:113-116 | when insurance on the bonus lowers the annual tax, nothing is withheld from the bonus and the year end pays back the fall of the tax, up to 12 yen less and 100 yen more |
| `Withholding.MorePayMoreTax` | backend/app/services/monthly_withholding.py:35-46 | more whole yen of pay never lower the annual tax |
| `Calibration.GroupShare` | backend/app/services/ai_inference_log.py:159-166 | a group's share of both sums is its summed gap over all logs |
| `Calibration.EceFromGroups` | backend/app/services/ai_inference_log.py:152-167 | the loop returns the absolute and the signed sum over all groups |
| `Calibration.GroupByWidth` | backend/app/services/ai_inference_log.py:202-206 | each log is put into the bin of its confidence, counted from the end for an index below zero; an index error exactly when some confidence has no bin |
| `Calibration.MissesNoBinExactlyWhen` | backend/app/services/ai_inference_log.py:204-206 | twenty bins have no place exactly for a confidence of -1.05 or less |
| `Calibration.BinsRefineBands` | backend/app/services/ai_inference_log.py:24-28 | every band edge is a bin edge |
| `Calibration.CoarseIsNeverAboveBinned` | backend/app/services/ai_inference_log.py:107-109 | the three-band error is never above the twenty-bin error |
| `Calibration.CoarseIsNeverBelowTheGap` | backend/app/services/ai_inference_log.py:107-128 | the three-band error is never below the overall gap either |
| `Calibration.CoarseCanHideEverything` | backend/app/services/ai_inference_log.py:173-176 | and can be zero while the binned error is not |
| `Calibration.BinsKeepTheGap` | backend/app/services/ai_inference_log.py:207-207 | the signed sum over the bins is that of all logs |
| `Calibration.AutoCommitIsTheLastBin` | backend/app/services/ai_inference_log.py:25-27 | the suggestions at or above the automatic threshold are exactly the last bin |
| `Calibration.OrderedIsAscending` | backend/app/services/ai_inference_log.py:210-210 | the sort orders the logs and keeps them all |
| `Calibration.SliceByMass` | backend/app/services/ai_inference_log.py:211-218 | the slices in turn are the sorted logs, and differ in size by one at most |
| `Calibration.ComputeCalibrationStats` | backend/app/services/ai_inference_log.py:97-144 | the whole report against its definition, empty input included; an index error exactly when an applied log has no bin |
| `Calibration.BandRowsAre` | backend/app/services/ai_inference_log.py:114-122 | the three bands are split at 0.70 and 0.90 and end below 1.01 |
| `Calibration.BandReportMeans` | backend/app/services/ai_inference_log.py:123-141 | a band's mean confidence, its accuracy as the share of suggestions nobody corrected, and their distance |
| `Calibration.AutoCommitMeans` | backend/app/services/ai_inference_log.py:25-28 | what is said of the suggestions taken over unseen, and that the warning means fewer than 0.95 of them were right |
| `Calibration.ReportIsConsistent` | backend/app/services/ai_inference_log.py:152-167 | signed gap = mean confidence - accuracy; its absolute value is at most the binned and the adaptive error, and with every confidence in range |signed gap| <= coarse error <= binned error |
| `Zengin.ToZenginCharset` | backend/app/services/zengin_transfer.py:133-169 | conversion character by character; refused exactly when a converted character is not allowed |
| `Zengin.CharsetIsIdempotent` | backend/app/services/zengin_transfer.py:133-169 | converting accepted text again changes nothing |
| `Zengin.YenSignIsRejected` | backend/app/services/zengin_transfer.py:48-78 | text with a yen sign, a full-width yen sign or a full-width backslash is never accepted, although the yen sign is listed and the tables map the other two to it |
| `Zengin.OnlyTheYenSignIsLost` | backend/app/services/zengin_transfer.py:48-48 | the listed symbols other than the yen sign are accepted as they are |
| `Zengin.AmountReadsBack` | backend/app/services/zengin_transfer.py:186-193 | an accepted amount is digits of the full width that denote the amount |
| `Zengin.StripMeans` | backend/app/services/zengin_transfer.py:179-179 | blanks at both ends of a number are taken off, all of them, and nothing else |
| `Zengin.FieldsReadBack` | backend/app/services/zengin_transfer.py:202-253 | a record is as long as its fields, and each field is found at its offset |
| `Zengin.DataRecordReadsBack` | backend/app/services/zengin_transfer.py:222-242 | a data record is 120 characters with the amount in characters 81 to 90 |
| `Zengin.DataRecordNamesTheAccount` | backend/app/services/zengin_transfer.py:222-242 | bank, branch, account type, account number and recipient, cut out of a data record by their offsets, are the line's own |
| `Zengin.DataRecordRest` | backend/app/services/zengin_transfer.py:222-242 | the customer code is the line's own too, and every other character is a fixed code or a blank |
| `Zengin.HeaderNamesTheConsignor` | backend/app/services/zengin_transfer.py:202-219 | consignor, bank, branch and account, cut out of the header, are the request's own |
| `Zengin.HeaderNamesTheDay` | backend/app/services/zengin_transfer.py:210-210 | and the day of transfer reads back as the request's month and day |
| `Zengin.AmountFitsExactlyWhen` | backend/app/services/zengin_transfer.py:186-193 | an amount is accepted exactly when it is whole yen and has no more digits than the field |
| `Zengin.FullWidthConverts` | backend/app/services/zengin_transfer.py:149-151 | full-width digits and letters become the one-byte capitals |
| `Zengin.OthersConvert` | backend/app/services/zengin_transfer.py:137-152 | what the other symbols, hiragana and one-byte characters become |
| `Zengin.AcceptedAlphabet` | backend/app/services/zengin_transfer.py:154-168 | accepted text holds only digits, capitals, half-width kana and the listed symbols other than the yen sign, and text of these alone is accepted as it is |
| `Zengin.LineIsRefused` | backend/app/services/zengin_transfer.py:271-282 | what a line is refused with, in order: its amount, its fee, the fee against the amount |
| `Zengin.ResultsName` | backend/app/services/zengin_transfer.py:283-291 | the reported lines name the recipient, the payable amount and the fee of each line in turn |
| `Zengin.TrailerReadsBack` | backend/app/services/zengin_transfer.py:244-253 | the trailer is 120 characters with the count and the total at their offsets |
| `Zengin.WriteDetails` | backend/app/services/zengin_transfer.py:271-293 | the detail loop stops at the first refused line; otherwise records, results and totals are those of all lines |
| `Zengin.Generate` | backend/app/services/zengin_transfer.py:259-313 | each refusal in its order, accepted exactly when the total fits and every record is 120 bytes |
| `Zengin.RecordsAreFixed` | backend/app/services/zengin_transfer.py:298-303 | every record of an accepted file is 120 characters of one byte each |
| `Zengin.FileReadsBack` | backend/app/services/zengin_transfer.py:295-313 | details read by offset give each transfer amount, the trailer their number and their sum, and payable = transferred + fees held back |
| `Zengin.EncodedFileSplitsBack` | backend/app/services/zengin_transfer.py:315-317 | splitting the encoded file at its line ends gives the records back |

## Left out

- Decimal precision: sums and products are exact reals; the 28-digit context of the decimal type and the binary
  rounding and final four-digit rounding of the calibration figures are not modelled.
- Persistence: sessions, HTTP, signatures, logging and audit rows are not modelled; a commit is one step, and the
  revocation made before a reuse error is taken as persisted (the calling endpoint is not part of this model).
- Concurrency inside `rotate` and inside one dispatch pass: both take no row locks and are modelled as serialised
  calls, each with a single reading of the clock.
- ReceivableMatching.CandidatesAre: name similarity is an arbitrary function of the two names, so nothing is said
  about which names match; the order of candidates is by due date and identifier.
- JournalNumbering.ParsePrint: digits are ASCII digits; the pattern's acceptance of other Unicode digits is not
  modelled.
- JournalNumbering.NumbersAreUniqueAndCallsSucceed: an insert that succeeds is visible to every later read, so the
  visibility of uncommitted rows between transactions is not modelled.
- Webhook.AttemptsAreCounted: workers do not crash; the query's order, limit and tenant filter are not modelled.
- OrderClosing.EntriesCloseExactlyWhen: day numbers are read as dates by a given function; the endpoints that call the
  two services one after the other are not part of this model.
- Webhook.Delivery.Attempt: the stored error text and status code are not modelled; the jitter is a parameter.
- RateLimit.RateLimiter.Dispatch: the client address is given as the key; proxy headers are not modelled.
- JobDispatch.JobStore.DispatchDueJobs: the execution's job type, retry counters and status transitions after
  `pending` are not modelled; between passes workers may change anything but the number of executions of a job, the
  jobs' schedules and their next runs.
- JobScheduler.ComputeNextRun: years beyond 9999, where the dates of the language end, are not modelled; the time zone
  conversion of the input is taken as done.
- PaymentTerms.ComputePaymentDate: holidays are a list of day numbers, and dates have no upper bound.
- SalesClosing.Close: descriptions and the printed invoice identifier are not modelled; customer and closing date
  identify the invoice. The rate of a revenue line is carried as the line's reference text.
- BadDebt.Generate: the basis, the customer name and the description of a draft are not modelled.
- ReceivableJournal.Generate: partner names and descriptions are not modelled.
- BadDebtAssessment.AssessedLimit: the basis and the note of an assessment are not modelled.
- OrderFulfillment.Process: descriptions are not modelled.
- Calibration.AutoCommitIsTheLastBin: confidences are not negative, as the request schema demands; one between -0.1
  and -0.05 would be counted in the last bin from the end.
- Calibration.ReportIsConsistent: the coarse error is compared for confidences below 1.01, the upper edge of the last
  band, above which a log is in no band.
- Zengin.ToZenginCharset: the long table of full-width kana and upper-casing outside the one-byte set are parameters,
  assumed to touch no one-byte character and no yen sign or full-width backslash and to produce no small letter; the set of offending characters in the error is not modelled.
- Zengin.RecordsAreFixed: a character outside ASCII and half-width kana counts as two bytes, whether it has two or
  cannot be encoded; both are refused.
- Single-formula calculators, corporate and consumption tax variants, depreciation, payroll, approval and
  authentication services: real code, but easier members next to those above.
