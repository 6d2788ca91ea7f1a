# Billing tracker: allocation engine and controllers

The billing tracker records monthly subscription payments for customers. Two back
ends share one data model:

- a Hono/Drizzle server (`server/`);
- an Express/Prisma backend (`backend/`).

A *payment batch* covers a range of months of one year. It holds one *month row*
per month, and each row has:

- the amount put towards that month;
- the debt or advance left after it;
- a status: Unpaid, Partially Paid, Paid, Advance Paid or Off.

At the centre is the **allocation engine**, `generateMonthlyPayments`. In one
forward pass it:

- splits a lump payment over a month range, the last month taking the remainder;
- carries any surplus forward as advance;
- records any shortfall as debt;
- classifies each month.

Around it sit the controllers:

- **Bill creation** in both back ends: defaults, minimum-payment threshold, overlap
  check, carried balance, the paused ("Off") variant, batch totals and deletion.
- **Customer controllers**: creation, deletion, listing with bill summaries,
  batching in slices of 50, and the per-year payment history.
- **Analytics controllers**: the period filter, revenue, nearest-plan profit,
  payment-method totals and the paid/active rate.

The project takes each source file's own form:

- The engine and the controllers' loops are **methods with loops**. Each is proved
  equal to a specification function (`Helpers.Allocate`, `ServerBill.ServerDecide`,
  `AnalyticsCommon.TallyOf`, `CustomerCommon.GroupBy`, ...).
- What the source promises is proved about those functions as lemmas.
- Storage is the class `Ledger.Store`. It holds the customers, the payment batches
  with their month rows nested inside, and the plans.
- Operations that change storage are methods that modify it.
- The wall clock is the parameter `Ledger.Clock`: year, month, seconds and today's
  date string.

| file | module | source |
|---|---|---|
| ledger.dfy | `Ledger` | data model shared by both back ends: rows, batches, customers, plans, `Store`, sums, year-descending order |
| helpers.dfy | `Helpers` | `server/src/utils/helpers.ts` |
| utils.dfy | `Utils` | `backend/src/utils/utils.ts` |
| bill_common.dfy | `BillCommon` | request defaults, the Off variant and batch totals, identical in both bill controllers |
| server_bill.dfy | `ServerBill` | `server/src/controllers/billController.ts` |
| backend_bill.dfy | `BackendBill` | `backend/src/controllers/bill.controller.ts` |
| customer_common.dfy | `CustomerCommon` | customer views, bill summaries, name order, grouping by year |
| server_customer.dfy | `ServerCustomer` | `server/src/controllers/customerController.ts` |
| backend_customer.dfy | `BackendCustomer` | `backend/src/controllers/customer.controller.ts` |
| analytics_common.dfy | `AnalyticsCommon` | date strings, contributing rows, profit map, nearest plan, method totals, rate, running totals |
| server_analytics.dfy | `ServerAnalytics` | `server/src/controllers/analyticsController.ts` |
| backend_analytics.dfy | `BackendAnalytics` | `backend/src/controllers/analytics.controller.ts` |

The documented workflow and the code disagree in places; the model follows the code:

- The documented bill-creation workflow has an overlap check and carries a balance
  across all years. In the code:
  - the server has no overlap check and carries the newest balance of any year;
  - the backend has the overlap check but carries a balance only from the same year.
- The backend checks the amount before looking up the customer. The server, as
  documented, looks up the customer first.
- The batch insert is documented as atomic. The server inserts the header and then
  each row separately.
- A `ValidationError` is documented for negative amounts. Neither back end checks for
  negative amounts as such; a negative amount is refused only as below the minimum,
  so it gets through for a paused bill, or for a backwards range whose minimum is
  itself negative.
- The backend analytics `reduce` fails on an empty plan list. The model returns an
  error result (`Err(ReduceOfEmptyArray)`) exactly when there are no plans and some
  row contributes. The backend's `catch` turns that failure into a 500 response.
- Backend analytics counts every stored customer in `totalCustomers`, not only those
  without a deletion date.
- "Carry continuity" is documented: two chained allocations equal one allocation
  over the combined range. The last-month-takes-the-remainder rule makes that false,
  so it is not claimed.

## Model

| member | source | states |
|---|---|---|
| Helpers.PaymentStatus | server/src/utils/helpers.ts:40-48 | Unpaid exactly for 0; Partially Paid exactly for a non-zero amount below the required one; Advance Paid exactly above it; Paid exactly on equality; never Off. The backend's copy (backend/src/utils/utils.ts:3-8) is the same function |
| Helpers.GenerateMonthlyPayments | server/src/utils/helpers.ts:50-100 | the loop returns exactly `Allocate(start, end, rate, amount, initialAdvance, stamp)`; that specification does not take the opening debt, so `initialDebt` cannot influence any row |
| Helpers.AllocateShape | server/src/utils/helpers.ts:65-97 | one row per month from start to end (none when start > end), row i for month start+i; every row has the same paidVia, paymentDate, note and createdAt |
| Helpers.AllocateIncreasing | server/src/utils/helpers.ts:67-87 | the row months strictly increase |
| Helpers.AllocateConserves | server/src/utils/helpers.ts:68-73 | on a non-empty range the row amounts add up to exactly the amount paid |
| Helpers.ShareAt | server/src/utils/helpers.ts:68-73 | row i's amount is the rule "last month takes what is left, others min(rate, left)" applied to what the earlier rows left |
| Helpers.AllocateShares | server/src/utils/helpers.ts:68-73 | every row but the last takes min(rate, what is left); the last takes everything that is left |
| Helpers.CapsAt | server/src/utils/helpers.ts:68-73 | for non-negative inputs, row i takes between 0 and what is left; a non-last row takes at most the rate, and exactly the rate when at least that much is left |
| Helpers.AllocateCaps | server/src/utils/helpers.ts:68-73 | the same bounds for every row at once |
| Helpers.AllocateChain | server/src/utils/helpers.ts:75-93 | every row is the settlement of its own amount plus the previous row's advance (the opening advance for the first row): its status classifies that effective amount, not the raw one |
| Helpers.SettleBalances | server/src/utils/helpers.ts:75-93 | one month settled with a positive rate and non-negative inputs has non-negative debt and advance, not both positive; debt > 0 exactly for Unpaid/Partially Paid, advance > 0 exactly for Advance Paid; never Off |
| Helpers.AllocateBalances | server/src/utils/helpers.ts:75-93 | the same balance and status facts for every row of an allocation |
| Helpers.AllocateLedgerIdentity | server/src/utils/helpers.ts:62-84 | amount paid + opening advance + total row debt = months × rate + the last row's advance |
| Helpers.AllocateExamples | server/src/utils/helpers.ts:50-100 | the worked cases: 310 for one month at 310 is Paid; 300 leaves debt 10; 320 leaves advance 10 and is Advance Paid; 320 over two months splits 310 + 10 and leaves debt 300; 50 with advance 100 leaves debt 160, Partially Paid |
| Utils.GenerateMonthlyPayments | backend/src/utils/utils.ts:50-98 | the backend loop returns the same `Allocate` specification, with rows that have no creation time; `initialDebt` is never read |
| Utils.MainCount | backend/src/utils/utils.ts:22-24 | the whole-month loop runs at most monthsCovered times and stops after December |
| Utils.DistributePayment | backend/src/utils/utils.ts:10-48 | the loops with their `break` return exactly `Distribution(...)` |
| Utils.DistributionMain | backend/src/utils/utils.ts:22-34 | the first MainCount entries are consecutive from startMonth, each for the full rate, Paid, with the given paidVia and date; at most one entry follows |
| Utils.DistributionWithinYear | backend/src/utils/utils.ts:22-45 | no entry is for a month after 12 |
| Utils.DistributionExtra | backend/src/utils/utils.ts:37-45 | there is an extra entry exactly when the remainder is positive and startMonth + monthsCovered ≤ 12; it holds the remainder and is Paid exactly when the remainder reaches the rate, else Partially Paid |
| Utils.DistributionExtraFollows | backend/src/utils/utils.ts:22-45 | when the covered months fit the year, every entry (the extra one included) is for month startMonth + its position |
| Ledger.OfCustomer | server/src/controllers/billController.ts:88-92 | a payment is selected exactly when it belongs to the customer |
| Ledger.OfCustomerYear | backend/src/controllers/bill.controller.ts:79-89 | a payment is selected exactly when it belongs to the customer and the year |
| Ledger.ByYearDescSorted | server/src/controllers/billController.ts:88-92 | ordering by year descending gives a year-descending permutation of the batches |
| Ledger.OfCustomerByYearDesc | server/src/controllers/customerController.ts:95-110 | taking one customer's batches out of a year-ordered list equals ordering that customer's batches |
| Ledger.OrFallback | server/src/controllers/billController.ts:60 | JavaScript's `n || fallback`: a given non-zero number, else the fallback; the bill controllers use it for `endMonth || startMonth`, the analytics controllers for the year and month queries against the clock |
| Ledger.HighestMonth | server/src/controllers/billController.ts:96-104 | the first row of a month-descending query is a stored row whose month no other row exceeds |
| Ledger.HighestMonthOfIncreasing | backend/src/controllers/bill.controller.ts:84-97 | with rows in ascending month order, the last row is the highest-month row |
| Ledger.SumPaidIsSumOfAllMonths | backend/src/controllers/customer.controller.ts:173-175 | the nested reduce over batches and rows equals the sum over all month rows |
| BillCommon.RateOf | server/src/controllers/billController.ts:17 | the monthly rate given, else 310 |
| BillCommon.PaidViaOf | server/src/controllers/billController.ts:21 | the payment method given, else 'Cash' |
| BillCommon.ResolveYear | server/src/controllers/billController.ts:57-59 | an explicit year wins; otherwise next year exactly when startMonth is before the current month, else the current year; the backend (bill.controller.ts:25) uses the same rule |
| BillCommon.MonthCount | server/src/controllers/billController.ts:61 | start + count − 1 = end |
| BillCommon.OffMonths | server/src/controllers/billController.ts:115-127 | one row per month from the start month, amount 0, status Off, debt and advance held at the carried values |
| BillCommon.OffMonthsTotals | backend/src/controllers/bill.controller.ts:103-133 | an Off batch has amount 0, totals n × carried debt and n × carried advance, increasing months, every row Off |
| BillCommon.Header | server/src/controllers/billController.ts:142-157 | the stored header's totalDebt/totalAdvance are the sums of its rows' debt/advance |
| BillCommon.BatchMonthsShape | server/src/controllers/billController.ts:115-140 | either variant yields one row per month of the range, increasing, every month inside [start, end], all with the request's paidVia, date, note and creation time |
| BillCommon.BatchMonthsNonNegative | server/src/controllers/billController.ts:115-140 | with a positive rate, a non-negative carried balance and a non-negative amount, every row and both totals are non-negative |
| BillCommon.Without | server/src/controllers/billController.ts:347 | the batches kept are exactly those with another id |
| BillCommon.WithoutUnique | server/src/controllers/billController.ts:347 | with distinct ids, deleting removes exactly that one batch and keeps the order of the rest |
| ServerBill.MinimumServer | server/src/controllers/billController.ts:73-77 | floor(0.3 × rate × n) for other rates; for 310 at least both 100 × n and 0.3 × 310 × n |
| ServerBill.MinimumAtDefaultRate | server/src/controllers/billController.ts:74-76 | at rate 310 the minimum is exactly 100 × n for n ≥ 0: the 30 % term never wins |
| ServerBill.MinimumNonNegative | server/src/controllers/billController.ts:73-77 | the minimum is never negative for a positive rate and at least one month |
| ServerBill.FirstBilled | server/src/controllers/billController.ts:94-107 | the loop stops at the first batch that has rows, or finds none |
| ServerBill.CarriedBalance | server/src/controllers/billController.ts:85-108 | the loop with `break` computes `LatestBalance` of the year-ordered batches |
| ServerBill.FirstBilledIsNewest | server/src/controllers/billController.ts:88-107 | in year-descending order, the batch found has the latest year among batches with rows |
| ServerBill.LatestBalanceIsNewest | server/src/controllers/billController.ts:85-108 | the balance is the advance/debt of the highest-month row of one of the customer's batches with rows, of a year no other such batch exceeds; 0/0 when no batch has rows |
| ServerBill.LatestBalanceNonNegative | server/src/controllers/billController.ts:85-108 | out of storage with non-negative balances, the carried balance is non-negative |
| ServerBill.CreateBill | server/src/controllers/billController.ts:41-191 | the result is `ServerDecide`; on success exactly the new batch is appended, on failure nothing changes |
| ServerBill.StoreBatch | server/src/controllers/billController.ts:142-170 | the header insert followed by the row loop stores the header with exactly those rows |
| ServerBill.ServerCheckOrder | server/src/controllers/billController.ts:63-83 | validation failure exactly for an invalid request; "Customer not found" exactly for a valid request with no active customer; an amount error exactly when the customer exists, the bill is not Off and the amount is below the minimum; success otherwise |
| ServerBill.ServerBatchShape | server/src/controllers/billController.ts:110-157 | the new batch has the given id, customer and resolved year, totals equal to its row sums, one increasing row per month; Off gives amount 0 and totals n × the carried values; otherwise the rows are `Allocate` from the carried advance |
| ServerBill.ServerBatchConserves | server/src/controllers/billController.ts:129-140 | a non-Off batch over a non-empty range stores exactly the amount paid |
| ServerBill.ServerKeepsBalancesNonNegative | server/src/controllers/billController.ts:142-170 | with a positive rate, adding the batch keeps every stored debt and advance non-negative |
| ServerBill.DeleteTransaction | server/src/controllers/billController.ts:335-354 | success exactly for a stored id; the batch goes with its rows and nothing else changes; "Transaction not found" leaves storage untouched |
| BackendBill.MinimumBackend | backend/src/controllers/bill.controller.ts:28-31 | floor(0.95 × rate × n) for other rates; for 310 at least both 200 × n and floor(0.65 × 310 × n) |
| BackendBill.MinimumAtDefaultRate | backend/src/controllers/bill.controller.ts:29-30 | at rate 310 the minimum is floor(201.5 × n) for n ≥ 0, where the 200 × n floor never binds; for a backwards range (n < 0) it is exactly 200 × n |
| BackendBill.MinimumNonNegative | backend/src/controllers/bill.controller.ts:28-31 | never negative for a positive rate and at least one month |
| BackendBill.HttpStatus | backend/src/controllers/bill.controller.ts:33-77 | 201 exactly on success; 404 for a missing customer; 400 for a low amount or an existing payment |
| BackendBill.SameYearBalance | backend/src/controllers/bill.controller.ts:91-99 | the advance/debt of the highest month of the last same-year batch; 0/0 when there is none or it has no rows |
| BackendBill.CreateBill | backend/src/controllers/bill.controller.ts:6-158 | the result is `BackendDecide`; on success exactly the new batch is appended, otherwise nothing changes |
| BackendBill.BackendCheckOrder | backend/src/controllers/bill.controller.ts:33-77 | the amount error comes first and whatever the customer (400); then 404 exactly when the customer is missing; then "Payment already exist" exactly when a same-year batch of the customer has a month in range; success otherwise |
| BackendBill.BackendBatchShape | backend/src/controllers/bill.controller.ts:101-143 | the same shape as the server's batch, with the same-year carried balance and rows without a creation time |
| BackendBill.BackendBatchConserves | backend/src/controllers/bill.controller.ts:115-125 | a non-Off batch over a non-empty range stores exactly the amount paid |
| BackendBill.BackendBatchRange | backend/src/controllers/bill.controller.ts:101-143 | every month of the new batch lies in [start, end] of the request's customer and year |
| BackendBill.BackendNoDoubleBilling | backend/src/controllers/bill.controller.ts:53-77 | if no month of a customer and year is billed twice, it stays so after the insert |
| BackendBill.ClearMonths | backend/src/controllers/bill.controller.ts:275-279 | the first step clears exactly the rows of that batch |
| BackendBill.ClearThenDelete | backend/src/controllers/bill.controller.ts:273-287 | clearing the rows and then deleting the header equals deleting the batch with its rows |
| BackendBill.DeleteTransaction | backend/src/controllers/bill.controller.ts:252-300 | 404 for an unknown id with storage untouched; otherwise exactly that batch is gone and nothing else changes |
| CustomerCommon.FindById | server/src/controllers/customerController.ts:291-299 | the position of a customer with that id, or −1 exactly when there is none |
| CustomerCommon.Totals | server/src/controllers/customerController.ts:115-131 | totalPaid is the sum of all month amounts |
| CustomerCommon.TotalsOfConsistent | server/src/controllers/customerController.ts:126-127 | when every header's totals are its rows' sums, totalDebt/totalAdvance are the sums of all rows' debt/advance |
| CustomerCommon.Views | server/src/controllers/customerController.ts:112-148 | one entry per customer, in order, each that customer's view |
| CustomerCommon.ViewCoversOwnBatches | server/src/controllers/customerController.ts:112-137 | a customer's listed batches are exactly its own, a permutation of them, in year-descending order |
| CustomerCommon.ByNameSortedPerm | server/src/controllers/customerController.ts:76-80 | ordering by name gives a name-sorted permutation |
| CustomerCommon.OfYear | server/src/controllers/customerController.ts:182-190 | a batch is kept exactly when it is of that year |
| CustomerCommon.Years | server/src/controllers/customerController.ts:221-230 | the history's years are distinct |
| CustomerCommon.YearsSnoc | server/src/controllers/customerController.ts:221-230 | a batch adds its year at the end exactly when the year is new: first-seen order |
| CustomerCommon.YearsMembers | server/src/controllers/customerController.ts:221-230 | a year is listed exactly when some batch has that year |
| CustomerCommon.FindYear | server/src/controllers/customerController.ts:221 | `find` returns the first group of that year, or none |
| CustomerCommon.GroupByYears | server/src/controllers/customerController.ts:221-230 | one history group per distinct year, in first-seen order |
| CustomerCommon.GroupByRowsAt | backend/src/controllers/customer.controller.ts:227-261 | each group's rows are the opening batch's rows followed by every later batch of that year |
| ServerCustomer.NewCustomer | server/src/controllers/customerController.ts:18-45 | validation failure exactly for a missing field; "Customer ID already exists" exactly for a taken customerId; otherwise a customer with that customerId, the request's name, address, phone and stdId, the new id, today's registration date and no deletion date |
| ServerCustomer.NewCustomerKeepsIdsUnique | server/src/controllers/customerController.ts:22-30 | a successful creation keeps customerIds unique |
| ServerCustomer.CreateCustomer | server/src/controllers/customerController.ts:18-54 | the result is `NewCustomer`; only success appends a customer |
| ServerCustomer.SlicesPartition | server/src/controllers/customerController.ts:88-91 | the slices concatenate to the whole list; each has 1 to size items, all but the last exactly size |
| ServerCustomer.ProcessBatchesPointwise | server/src/controllers/customerController.ts:56-70 | a batch function that maps item by item gives, over the slices, the same map of the whole list |
| ServerCustomer.ProcessBatches | server/src/controllers/customerController.ts:56-70 | the loop returns the concatenation of `processBatch` over the consecutive slices |
| ServerCustomer.ActiveCustomers | server/src/controllers/customerController.ts:76-79 | exactly the customers without a deletion date |
| ServerCustomer.ListingSpec | server/src/controllers/customerController.ts:72-161 | one entry per active customer, in name order (a sorted permutation); each lists exactly its own batches with their totals |
| ServerCustomer.IdsOf | server/src/controllers/customerController.ts:93 | the ids of the slice, in order |
| ServerCustomer.BucketIsOwnQuery | server/src/controllers/customerController.ts:95-113 | a customer's bucket of the slice-wide year-ordered query equals its own year-ordered batches |
| ServerCustomer.GroupByCustomer | server/src/controllers/customerController.ts:101-110 | the `Map` loop puts every payment into exactly its own customer's bucket, in the original order |
| ServerCustomer.Summarize | server/src/controllers/customerController.ts:112-137 | the accumulators end at `Totals` of the customer's batches, which are listed unchanged |
| ServerCustomer.ViewsAppend | server/src/controllers/customerController.ts:90-148 | the views of consecutive slices concatenate to the views of the whole list |
| ServerCustomer.ListCustomer | server/src/controllers/customerController.ts:112-147 | one customer's entry built from the buckets is that customer's view |
| ServerCustomer.ListBatch | server/src/controllers/customerController.ts:91-148 | one slice's loop yields the views of the slice's customers |
| ServerCustomer.GetAllCustomers | server/src/controllers/customerController.ts:72-161 | the slice loop returns `Listing` of the stored customers and payments |
| ServerCustomer.FindActive | server/src/controllers/customerController.ts:171-180 | a stored customer with that id and no deletion date, exactly when one exists |
| ServerCustomer.HistoryByYear | server/src/controllers/customerController.ts:197-231 | one group per distinct year in first-seen order, each holding all that year's month rows |
| ServerCustomer.DetailsSpec | server/src/controllers/customerController.ts:163-259 | "Customer not found" exactly for an absent or soft-deleted customer; otherwise exactly its batches (of the year, when a non-zero year is given), year-descending, with their totals |
| ServerCustomer.AddToHistory | server/src/controllers/customerController.ts:221-230 | one batch extends its year's group or opens a new one |
| ServerCustomer.AddAmounts | server/src/controllers/customerController.ts:212-214 | the inner loop adds the batch's month amounts to totalPaid |
| ServerCustomer.CollectPayments | server/src/controllers/customerController.ts:192-231 | the loop lists the batches, ends with their `Totals` and builds the year history `GroupBy` |
| ServerCustomer.GetCustomerById | server/src/controllers/customerController.ts:163-259 | the result is `Details`: the corrected reading, in which each listed batch keeps its own rows |
| ServerCustomer.ListedPaymentsAsWritten | server/src/controllers/customerController.ts:216-230 | what the code lists: the first batch of each year shows every row of that year, because its array is also the year's breakdown |
| ServerCustomer.JoinYear | server/src/controllers/customerController.ts:223-224 | a batch of a year already seen appends its rows to the shared array of that year's first batch |
| ServerCustomer.OpenYear | server/src/controllers/customerController.ts:225-229 | a batch of a new year opens a group whose breakdown is that batch's own array |
| ServerCustomer.ShareMonths | server/src/controllers/customerController.ts:202-231 | with the arrays shared as in the code, each listed array ends as `ListedPaymentsAsWritten` says |
| ServerCustomer.ListPaymentsAsWritten | server/src/controllers/customerController.ts:192-231 | the loop as written returns `ListedPaymentsAsWritten` |
| ServerCustomer.ListedPaymentsAliasing | server/src/controllers/customerController.ts:216-229 | two batches of 2024 with one row each: the first is listed with both rows |
| ServerCustomer.DeleteCustomer | server/src/controllers/customerController.ts:289-314 | fails exactly for an unknown id and changes nothing then; otherwise only sets that customer's deletion date to today |
| ServerCustomer.SoftDeleteHides | server/src/controllers/customerController.ts:301-307 | after the soft delete that customer is no longer active; other customers' activity is unchanged |
| ServerCustomer.SoftDeleteEffects | server/src/controllers/customerController.ts:289-314 | afterwards the customer's details are "Customer not found" and a bill for it fails; other customers' details are unchanged |
| BackendCustomer.NewCustomer | backend/src/controllers/customer.controller.ts:4-43 | "Missing required fields" exactly when name, address, phone or customerId is missing or empty; duplicate error exactly for a taken customerId; otherwise the fields given, with registerAt given or today |
| BackendCustomer.NewCustomerKeepsIdsUnique | backend/src/controllers/customer.controller.ts:16-26 | a successful creation keeps customerIds unique |
| BackendCustomer.CreateCustomer | backend/src/controllers/customer.controller.ts:4-58 | the result is `NewCustomer`; only success appends a customer |
| BackendCustomer.WithoutCustomer | backend/src/controllers/customer.controller.ts:135-137 | exactly the customers with another id remain |
| BackendCustomer.NotOfCustomer | backend/src/controllers/customer.controller.ts:114-127 | exactly the batches of other customers remain, rows included |
| BackendCustomer.RemoveSoftDeleted | backend/src/controllers/customer.controller.ts:107-137 | setting the deletion date and then deleting the row equals deleting it |
| BackendCustomer.DeleteCustomer | backend/src/controllers/customer.controller.ts:88-152 | 400 exactly for an id that is not 24 hex digits; failure for an unknown id; otherwise the customer and all its batches are gone, nothing else changes |
| BackendCustomer.OthersKeepBatches | backend/src/controllers/customer.controller.ts:114-127 | another customer's batches are unchanged by the delete |
| BackendCustomer.OthersKeepRow | backend/src/controllers/customer.controller.ts:135-137 | another customer is found after the delete exactly when before, with the same row |
| BackendCustomer.ListingSpec | backend/src/controllers/customer.controller.ts:154-180 | every customer, in name order (a sorted permutation), with exactly its batches year-descending; totalPaid is the sum of month amounts, debt/advance the sums of batch totals |
| BackendCustomer.ListingsAgree | backend/src/controllers/customer.controller.ts:154-180 | when no customer is soft-deleted, the backend listing equals the server listing |
| BackendCustomer.Briefs | backend/src/controllers/customer.controller.ts:236-244 | the first batch of a year is projected row by row to seven fields |
| BackendCustomer.Fulls | backend/src/controllers/customer.controller.ts:232 | later batches' rows are appended whole |
| BackendCustomer.LaterRowsErased | backend/src/controllers/customer.controller.ts:227-261 | up to the projection, a year's group holds all that year's rows in order |
| BackendCustomer.HistoryByYear | backend/src/controllers/customer.controller.ts:227-261 | one group per distinct year in first-seen order: the first batch projected, later ones whole, and projected all the year's rows |
| BackendCustomer.DetailsSpec | backend/src/controllers/customer.controller.ts:197-271 | 404 exactly for an unknown id; otherwise exactly its batches (of the year, when given), year-descending, with the summary sums |
| BackendCustomer.DeleteEffects | backend/src/controllers/customer.controller.ts:107-138 | afterwards the details of the deleted customer are 404 and every other customer's are unchanged |
| BackendCustomer.OthersKeepYearBatches | backend/src/controllers/customer.controller.ts:114-127 | another customer's batches of any year are unchanged, so its carried balance and overlap check are too |
| BackendCustomer.PaymentsByYear | backend/src/controllers/customer.controller.ts:227-261 | the `reduce` with its mutated accumulator returns `GroupBy(payments, Briefs, Fulls)` |
| BackendCustomer.GetCustomerDetails | backend/src/controllers/customer.controller.ts:197-286 | the result is `Details` of the stored customers and payments |
| AnalyticsCommon.Digits | server/src/controllers/analyticsController.ts:20 | `toString` of a natural number is a non-empty string of decimal digits |
| AnalyticsCommon.PadStart2 | server/src/controllers/analyticsController.ts:20 | `padStart(2, '0')` gives length max(2, length) |
| AnalyticsCommon.DigitsRoundTrip | server/src/controllers/analyticsController.ts:20 | reading the digits back gives the number |
| AnalyticsCommon.Pad2RoundTrip | server/src/controllers/analyticsController.ts:20 | a month 0-99 pads to two digits that read back as the month |
| AnalyticsCommon.YearRoundTrip | server/src/controllers/analyticsController.ts:20-21 | a four-digit year prints as four digits that read back as the year |
| AnalyticsCommon.MonthYearTail | server/src/controllers/analyticsController.ts:18-21 | 'mm-yyyy' strings are equal exactly when month and year are |
| AnalyticsCommon.DateStringShape | server/src/controllers/analyticsController.ts:18-21 | a 'dd-mm-yyyy' date has length 10, ends with '-mm-yyyy', and its last five characters are '-yyyy' |
| AnalyticsCommon.MonthTail | backend/src/controllers/analytics.controller.ts:12-14 | a date ends with 'mm-yyyy' exactly when it is of that month and year |
| AnalyticsCommon.YearTail | backend/src/controllers/analytics.controller.ts:12-14 | a date ends with '-yyyy' exactly when it is of that year |
| AnalyticsCommon.Contributing | server/src/controllers/analyticsController.ts:81 | a row contributes exactly when it is not Off and its amount is positive |
| AnalyticsCommon.InView | server/src/controllers/analyticsController.ts:61-75 | Monthly keeps exactly the rows of the selected month; Yearly keeps every row |
| AnalyticsCommon.RevenuePositive | server/src/controllers/analyticsController.ts:81-82 | revenue is non-negative, and positive exactly when some row contributes |
| AnalyticsCommon.KeyIndex | server/src/controllers/analyticsController.ts:85-86 | the position of the key, or −1 exactly when it is absent |
| AnalyticsCommon.Put | server/src/controllers/analyticsController.ts:100-101 | assigning a record key replaces its entry in place, or appends a new one |
| AnalyticsCommon.PutSpec | server/src/controllers/analyticsController.ts:99-102 | after the assignment the key holds the value; other keys keep their entries; keys stay distinct |
| AnalyticsCommon.ProfitMapShape | server/src/controllers/analyticsController.ts:37-39 | the profit map has distinct keys and is empty exactly when there are no plans |
| AnalyticsCommon.ProfitMapSpec | server/src/controllers/analyticsController.ts:37-39 | an amount is a key exactly when some plan has it, and maps to the profit of the last such plan (later entries overwrite) |
| AnalyticsCommon.NearestIndex | server/src/controllers/analyticsController.ts:88-93 | the `reduce` keeps a key nearest to the amount, the first one on ties |
| AnalyticsCommon.ExactIsNearest | server/src/controllers/analyticsController.ts:84-95 | an exact match is also what the nearest-key rule picks, so the profit is the nearest key's profit |
| AnalyticsCommon.MethodsSpec | server/src/controllers/analyticsController.ts:99-102 | a method is a key exactly when it is non-empty and some row was paid by it; its value is the sum of those rows' amounts |
| AnalyticsCommon.MethodsTotal | server/src/controllers/analyticsController.ts:99-102 | method totals plus the rows without a method add up to the rows' amounts |
| AnalyticsCommon.MethodsWithinRevenue | server/src/controllers/analyticsController.ts:99-102 | method totals are at most revenue |
| AnalyticsCommon.PaidWithinActive | server/src/controllers/analyticsController.ts:110-144 | paid rows ≤ active rows ≤ rows |
| AnalyticsCommon.Rate | server/src/controllers/analyticsController.ts:146-149 | round-half-up of 100 × paid / active when active > 0, else 0 |
| AnalyticsCommon.RateBounds | server/src/controllers/analyticsController.ts:146-149 | with 0 ≤ paid ≤ active the rate lies in 0..100 |
| AnalyticsCommon.TallyOfSnoc | server/src/controllers/analyticsController.ts:79-107 | the running totals of a prefix plus one row are one loop step from the prefix's totals |
| ServerAnalytics.RouteView | server/src/routes/analyticsRoutes.ts:14 | Yearly exactly for the query 'Yearly', Monthly otherwise |
| ServerAnalytics.LikeLiteral | server/src/controllers/analyticsController.ts:26 | a LIKE pattern without wildcards matches exactly itself |
| ServerAnalytics.LikeSuffix | server/src/controllers/analyticsController.ts:26 | '%' followed by a literal matches exactly the strings ending with it |
| ServerAnalytics.FilterMatches | server/src/controllers/analyticsController.ts:18-31 | on 'dd-mm-yyyy' dates the filter selects exactly the dates of the year, and of the month in the Monthly view |
| ServerAnalytics.RegisteredLike | server/src/controllers/analyticsController.ts:23-26 | the count of customers whose registration date matches, at most their number |
| ServerAnalytics.DeletedLike | server/src/controllers/analyticsController.ts:28-31 | the count of customers whose deletion date matches, at most their number |
| ServerAnalytics.YearPayments | server/src/controllers/analyticsController.ts:41-45 | exactly the batches of the year whose customer is active |
| ServerAnalytics.YearPaymentsAllActive | server/src/controllers/analyticsController.ts:41-45 | when every customer is active, the join is the plain year filter |
| ServerAnalytics.LookupProfit | server/src/controllers/analyticsController.ts:84-95 | the branch computes `PlanProfit`: the exact plan, else the nearest, else 0 |
| ServerAnalytics.CountRow | server/src/controllers/analyticsController.ts:80-106 | one row moves the accumulators by exactly one `Step` |
| ServerAnalytics.TallyBatch | server/src/controllers/analyticsController.ts:79-107 | the inner loop extends the totals of the rows seen by the batch's rows |
| ServerAnalytics.TallyPayments | server/src/controllers/analyticsController.ts:60-108 | the nested loops end at `TallyOf` of all viewed rows |
| ServerAnalytics.GetAnalytics | server/src/controllers/analyticsController.ts:7-171 | the result is `Report` of the stored tables |
| ServerAnalytics.ReportSpec | server/src/controllers/analyticsController.ts:7-171 | revenue is the sum of contributing rows, positive exactly when there are any; method totals as in `MethodsSpec` and at most revenue; 0 profit without plans; rate in 0..100 |
| ServerAnalytics.NoPlansNoProfit | server/src/controllers/analyticsController.ts:84-95 | with no plans every row's profit is 0 |
| ServerAnalytics.ProfitNearest | server/src/controllers/analyticsController.ts:87-94 | with plans, a row's profit is the profit of the nearest plan amount, the earlier one on ties |
| BackendAnalytics.BackendView | backend/src/controllers/analytics.controller.ts:6 | Monthly exactly when the query is absent or 'Monthly' |
| BackendAnalytics.SuffixMatches | backend/src/controllers/analytics.controller.ts:12-31 | on 'dd-mm-yyyy' dates the suffix test selects exactly the dates of the period |
| BackendAnalytics.FiltersAgree | backend/src/controllers/analytics.controller.ts:12-31 | on such dates the backend's `endsWith` and the server's LIKE agree |
| BackendAnalytics.RegisteredWith | backend/src/controllers/analytics.controller.ts:17-23 | the count of registration dates ending with the suffix, at most the number of customers |
| BackendAnalytics.DeletedWith | backend/src/controllers/analytics.controller.ts:24-30 | the count of deletion dates ending with the suffix, at most the number of customers |
| BackendAnalytics.NoneDeleted | backend/src/controllers/analytics.controller.ts:24-30 | with no deletion dates stored the count is 0 |
| BackendAnalytics.QueriedPayments | backend/src/controllers/analytics.controller.ts:36-46 | exactly the batches of the year, and in the Monthly view only those with a row of the month |
| BackendAnalytics.QueriedSameRows | backend/src/controllers/analytics.controller.ts:36-59 | narrowing the query to batches with a row of the month changes none of the rows considered |
| BackendAnalytics.BackendPlanProfit | backend/src/controllers/analytics.controller.ts:65-74 | fails exactly when there are no plans (the empty `reduce`) |
| BackendAnalytics.BackendProfitAgrees | backend/src/controllers/analytics.controller.ts:65-74 | with plans it gives the server's `PlanProfit`: the exact plan, else the nearest, earlier on ties |
| BackendAnalytics.CountRow | backend/src/controllers/analytics.controller.ts:61-84 | fails exactly on a contributing row with no plans; otherwise one `Step` |
| BackendAnalytics.TallyBatch | backend/src/controllers/analytics.controller.ts:61-85 | the inner `forEach` ends at `Totals` of the rows seen plus the batch's rows |
| BackendAnalytics.TallyPayments | backend/src/controllers/analytics.controller.ts:56-86 | the nested `forEach` ends at `Totals` of all viewed rows |
| BackendAnalytics.GetAnalytics | backend/src/controllers/analytics.controller.ts:4-139 | the result is `Report` of the stored tables |
| BackendAnalytics.ReportSpec | backend/src/controllers/analytics.controller.ts:4-139 | failure exactly when there are no plans and some row contributes; otherwise totalCustomers is the number of stored customers, revenue, profit and method totals are those of the contributing rows, method totals do not exceed revenue, rate in 0..100 |
| BackendAnalytics.ReportsAgree | backend/src/controllers/analytics.controller.ts:4-139 | with plans and only active customers, revenue, profit, methods, debt, advance and rate equal the server's |

## Findings

| source | as written | input that shows it | evidently intended | confidence | as-written member | corrected member |
|---|---|---|---|---|---|---|
| server/src/controllers/customerController.ts:216-229 | `paymentsWithMonths` gets the same `months` array that opens the year's `monthlyBreakdown`; the later `push(...months)` of another batch of that year also grows the first batch's listed rows | two batches of year 2024 of one customer with one row each: the first batch is listed with both rows | every listed batch shows only its own rows, and the history alone merges a year's rows (as the backend does by copying) | not executed | ServerCustomer.ListPaymentsAsWritten, ServerCustomer.ListedPaymentsAliasing | ServerCustomer.GetCustomerById |

## Left out

- HTTP, routing, JSON shaping, `formatDates`/`formatBill`/`toISOString` and the date/locale helpers are not modelled. Today's date string, the current year and month, and the timestamps are parameters.
- zod parsing of a bill is one predicate, `ServerBill.ValidRequest`: the start month, and the end month when given, lie in 1..12. zod's defaults become `Option` fields, and the customer schema's `min(1)` becomes "present and non-empty".
- Money is `int`. The stored `real` columns are not floating point here. `Math.floor` of a percentage becomes integer division, and `Math.round` of the rate becomes round-half-up of the exact fraction.
- AnalyticsCommon.Rate: rounds the exact percentage, not its IEEE double. Where the double falls just below a half the source rounds down and the model rounds up, so the model's rate can exceed the source's by one (23 paid of 40 active: the double is 57.49999999999999, the source gives 57, the model 58).
- Database failures and the `catch`-all 500/error results are left out. The server's non-atomic insert is modelled as the header insert followed by the row loop (`ServerBill.StoreBatch`); a failure between the two is not modelled.
- SQL and Prisma orderings are the stored order, stably sorted where the query orders. Ties (same year, same name) and the default order without `orderBy` are taken as the stored order. Name order is plain code-unit order, without collation.
- `getCustomerBills`, `getAllTransactions` and `getRecentTransactions` in both bill controllers are left out. They are read-only queries that attach rows to batches.
- Plan CRUD, `updateCustomer`, the user controller and the `transactions` table are left out. The backend's `deleteCustomer` also clears `transactions`, which has no model here.
- The batch's `updatedAt` stamp is the clock's seconds. Prisma's automatic `updatedAt` is not modelled.
- ServerCustomer.ProcessBatches: requires a positive `batchSize`, because the source loop never ends otherwise.
- In both analytics controllers and in the server's `getCustomerById`, a non-numeric `year` or `month` query (NaN, which is falsy) is the absent value `None`, which falls back to the clock or drops the filter.
- BackendCustomer.Details: a non-numeric `year` query is a truthy string in the backend, so the source filters on `year: NaN`; that case is not modelled, and the model's `None` stands only for an absent `year`.
- Record keys for `paymentMethods` are kept in insertion order. JavaScript puts integer-like keys first, which the model does not reproduce.
- LIKE matching in the analytics filter is modelled with SQLite's ASCII case folding. The patterns hold only digits and '-' (`ServerAnalytics.TailLiteral`, `ServerAnalytics.LikeLiteral`), so folding cannot change a match.
- `viewType` given several times in an Express query (an array) is treated as a value other than 'Monthly'.
- BackendBill.SameYearBalance: reads the top row through `Ledger.HighestMonth`, which takes the first of several rows sharing the highest month, where the backend's ascending read takes the last. Every batch either workflow stores has strictly increasing months (`BillCommon.BatchMonthsShape`), and on those the two agree (`Ledger.HighestMonthOfIncreasing`).
- Backend deletion is a hard delete, so the backend's `deletedAt` count is non-zero only for rows that the backend did not create.
- ServerAnalytics.RegisteredLike and ServerAnalytics.DeletedLike state only the bound `n ≤ |cs|` in their own contract. What they select is stated through `FilterMatches` on well-formed dates.
- BackendAnalytics.RegisteredWith and BackendAnalytics.DeletedWith state only the bound `n ≤ |cs|` in their own contract. What they select is stated through `SuffixMatches`.
