# Finance tracker ledger — a Dafny model

This project models the logic at the centre of the finance tracker. It
covers the in-memory ledger of income and expense transactions and the three
operations the page applies to it: add, delete and update. It also covers
every view derived from the ledger:

- the summary cards: total income, total expenses and the balance;
- the four financial alerts and the seven-day spending window;
- the expense-by-category pie data;
- the 31-day income/expense trend series;
- the transaction list's type filter, its date sort and its delete confirmation;
- the edit dialog's prefill, validation and construction of the updated record.

Records are an immutable `Transaction` datatype and the ledger is a
`seq<Transaction>`. Every view is a pure function of that sequence. Amounts
are exact `real` numbers. Dates are integer day numbers, counted in UTC days
from 1970-01-01. The record field `type` is called `kind`, because `type` is
a Dafny keyword. The clock is always a parameter:

- `nowMs` is the instant in milliseconds, used for the alert window;
- `today` is a day number, used for the trend chart.

Number parsing and formatting are parameters too. `parse` returns `None`
where `parseFloat` gives NaN. Fresh ids are also a parameter.

Modules, one per source file, plus a shared helper module:

| file | module | models |
|---|---|---|
| seqs.dfy | `Seqs` | order-preserving filter, distinctness, first occurrence (helpers) |
| types.dfy | `Types` | src/types/transaction.ts |
| ledger.dfy | `Ledger` | src/pages/Index.tsx |
| totals.dfy | `Totals` | src/components/SummaryCards.tsx |
| alerts.dfy | `Alerts` | src/components/FinancialAlerts.tsx |
| expense_chart.dfy | `ExpenseChart` | src/components/ExpenseChart.tsx |
| trend_chart.dfy | `TrendChart` | src/components/TrendChart.tsx |
| transaction_list.dfy | `TransactionList` | src/components/TransactionList.tsx |
| edit_dialog.dfy | `EditDialog` | src/components/EditTransactionDialog.tsx |

Notes on the source's behaviour:

- Delete removes every record carrying the id, each copy of it, and keeps
  the order of the rest. It removes exactly one record when ids are unique
  (`Ledger.DeleteUnique`).
- The category breakdown exists only for expenses. It takes no type argument.
- `handleSubmit` in the edit dialog does not check the date; the date input's
  `required` attribute does, in the browser. Submission does not check that
  the category belongs to the selected type's list either
  (`EditDialog.CategoryNotChecked`).

## Model

| member | source | states |
|---|---|---|
| Types.WithId | src/pages/Index.tsx:35-38 | the new record carries the supplied id and exactly the draft's fields |
| Types.CategoryListsWellFormed | src/types/transaction.ts:12-32 | six distinct income names, ten distinct expense names, and no name in both lists |
| Ledger.Load | src/pages/Index.tsx:19-28 | a missing, empty or unparsable stored value leaves the ledger empty; otherwise the parsed records are the ledger |
| Ledger.Add | src/pages/Index.tsx:34-40 | the result is one longer; its head has the fresh id and the draft's fields; its tail is the old ledger unchanged |
| Ledger.AddKeepsValid | src/pages/Index.tsx:35-39 | adding with an id not in use keeps ids unique and amounts positive |
| Ledger.Delete | src/pages/Index.tsx:42-44 | each record with a different id keeps every copy it had, each record with the id loses all of them, and the id is gone afterwards |
| Ledger.DeleteUnique | src/pages/Index.tsx:42-44 | with unique ids, deleting the id at position k removes just that record and keeps the others in order |
| Ledger.DeleteAbsent | src/pages/Index.tsx:43 | deleting an id that no record carries changes nothing |
| Ledger.DeleteIdempotent | src/pages/Index.tsx:43 | deleting the same id twice equals deleting it once |
| Ledger.DeleteKeepsValid | src/pages/Index.tsx:42-44 | deletion keeps ids unique and amounts positive |
| Ledger.Update | src/pages/Index.tsx:51-53 | length and the id at every position are kept; the matching positions hold the new record and every other position is unchanged |
| Ledger.UpdateAbsent | src/pages/Index.tsx:52 | updating with an id no record carries changes nothing |
| Ledger.UpdateUnique | src/pages/Index.tsx:52 | with unique ids, the update replaces the one record with that id in its own position |
| Ledger.UpdateKeepsValid | src/pages/Index.tsx:52 | the multiset of ids is unchanged, so ids stay unique; amounts stay positive |
| Ledger.UpdateIdempotent | src/pages/Index.tsx:52 | applying the same update twice equals applying it once |
| Totals.Summarize | src/components/SummaryCards.tsx:10-18 | balance is income minus expenses and equals the signed sum; income plus expenses is the sum of all amounts; all three figures are zero for an empty ledger; the totals are non-negative when the amounts are |
| Totals.IncomePlusExpensesIsAll | src/components/SummaryCards.tsx:10-16 | every record is income or an expense, so the two totals add up to the sum of all amounts |
| Totals.BalanceIsSignedSum | src/components/SummaryCards.tsx:18 | the balance is the sum of the amounts counted positive for income and negative for expenses |
| Totals.BalanceTone | src/components/SummaryCards.tsx:58 | the balance is styled as a success exactly when expenses do not exceed income |
| Totals.AddTotals | src/pages/Index.tsx:34-40 | adding raises the total of the draft's own kind by its amount and leaves the other total alone |
| Totals.DeleteBalance | src/pages/Index.tsx:42-44 | with unique ids, deleting a record takes its signed amount out of the balance |
| Totals.UpdateBalance | src/pages/Index.tsx:51-53 | with unique ids, an update swaps the old record's signed amount for the new one's |
| Alerts.RecentWindowInDays | src/components/FinancialAlerts.tsx:21-24 | a record is recent exactly when its day is at or after the first window day; the window spans eight calendar days when now is exactly a UTC midnight and seven otherwise; records dated today always count |
| Alerts.RecentAtMostTotal | src/components/FinancialAlerts.tsx:14-28 | with non-negative amounts, recent expenses lie between zero and total expenses |
| Alerts.Measure | src/components/FinancialAlerts.tsx:10-28 | the alert figures are the summary cards' income, expenses and balance, and the recent expenses of the seven-day window; with non-negative amounts the recent expenses lie between zero and total expenses |
| Alerts.Evaluate | src/components/FinancialAlerts.tsx:30-79 | each alert appears exactly when its own condition holds, at most once, in rule order, and no other alert appears; the deficit and healthy alerts never appear together |
| Alerts.EvaluateAlerts | src/components/FinancialAlerts.tsx:10-79 | each of the four alerts, with its figure, appears exactly when its condition over the ledger's totals, recent expenses and emptiness holds; no other alert appears; rule order is kept |
| Alerts.EmptyLedgerAlerts | src/components/FinancialAlerts.tsx:72-79 | an empty ledger yields the start-recording notice alone |
| Alerts.RendersNothing | src/components/FinancialAlerts.tsx:81 | nothing is rendered exactly when none of the four conditions holds |
| Alerts.HighSpendingMeansOverspending | src/components/FinancialAlerts.tsx:46 | with non-negative amounts, the warning implies total spending above 30% of income |
| Alerts.SalaryAndRentScenario | src/components/FinancialAlerts.tsx:30-79 | income 5000 and an expense of 1500 give only the healthy-finances alert, with 3500, at any instant |
| Alerts.DeficitScenario | src/components/FinancialAlerts.tsx:33-43 | a lone expense of 6000 gives only the negative-balance alert, with 6000 |
| ExpenseChart.Find | src/components/ExpenseChart.tsx:21 | the lookup fails exactly when no slice has the name, and otherwise points at a slice with that name |
| ExpenseChart.StepExisting | src/components/ExpenseChart.tsx:22-23 | adding to the found slice keeps the grouping invariant for the records seen so far |
| ExpenseChart.StepNew | src/components/ExpenseChart.tsx:24-25 | pushing a slice for an unseen category keeps the grouping invariant |
| ExpenseChart.Accumulate | src/components/ExpenseChart.tsx:20-28 | the fold yields one slice per distinct category, no name twice, in first-seen order, each slice holding its category's sum, the slices summing to all amounts |
| ExpenseChart.CategoryData | src/components/ExpenseChart.tsx:18-28 | the slice names are exactly the categories of the expense records, each once, in first-seen order; each value is that category's expense sum; the values add up to total expenses; no slice exactly when no expense |
| ExpenseChart.ShowsPlaceholder | src/components/ExpenseChart.tsx:30-41 | the placeholder shows exactly when the ledger holds no expense |
| TrendChart.TrendSeries | src/components/TrendChart.tsx:13-36 | 31 points, from today minus 30 to today, on consecutive days with no gap; each point holds its own day's income and expense sums |
| TrendChart.DailySeries | src/components/TrendChart.tsx:16-36 | n points, the i-th for day start + i |
| TrendChart.QuietDay | src/components/TrendChart.tsx:18-29 | a day with no record has zero income and zero expense |
| TrendChart.DayTotalsCoverDay | src/components/TrendChart.tsx:19-29 | a day's income and expense add up to the sum of all that day's amounts |
| TrendChart.SeriesTotalIsRangeTotal | src/components/TrendChart.tsx:18-29 | summed over the series, each line equals the total of that kind over the records dated within the series' days |
| TrendChart.TrendTotals | src/components/TrendChart.tsx:13-29 | the income and expense lines sum to the income and expense totals of the records dated in the window |
| TrendChart.TrendTotalsAllInWindow | src/components/TrendChart.tsx:13-29 | when every record falls in the window, the lines sum to the summary cards' totals |
| TrendChart.OutsideWindowIgnored | src/components/TrendChart.tsx:16-21 | dropping the records dated outside the window leaves the chart unchanged |
| TransactionList.Insert | src/components/TransactionList.tsx:31 | inserting into a date-descending list keeps it date-descending and adds exactly that record |
| TransactionList.SortByDateDesc | src/components/TransactionList.tsx:31 | the result is ordered by date, most recent first, and is a permutation of the input |
| TransactionList.SortIsStable | src/components/TransactionList.tsx:31 | records of the same date keep their input order |
| TransactionList.SortKeepsSorted | src/components/TransactionList.tsx:31 | sorting an already ordered list changes nothing |
| TransactionList.Visible | src/components/TransactionList.tsx:29-31 | the list is date-descending and holds each admitted record as often as the ledger does, and no other record |
| TransactionList.AllTypesListsEverything | src/components/TransactionList.tsx:30 | with the filter "all", the list is a permutation of the whole ledger |
| TransactionList.ShowsEmptyMessage | src/components/TransactionList.tsx:75-76 | the placeholder shows exactly when the filter admits no record |
| TransactionList.SignPrefix | src/components/TransactionList.tsx:108 | "+" exactly for income and "-" exactly for an expense |
| TransactionList.PrefixIsSignOfContribution | src/components/TransactionList.tsx:108 | for a positive amount, the prefix is the sign of the record's contribution to the balance |
| TransactionList.ListAgreesWithBalance | src/components/TransactionList.tsx:29-31 | the signed amounts of the unfiltered list add up to the summary cards' balance |
| TransactionList.RequestDelete | src/components/TransactionList.tsx:124 | the ledger is untouched and the id becomes pending; a dialog opens unless the id is empty |
| TransactionList.CancelDelete | src/components/TransactionList.tsx:137 | dismissing the dialog leaves the ledger and clears the pending id |
| TransactionList.ConfirmDelete | src/components/TransactionList.tsx:48-54 | with a non-empty pending id, exactly the records carrying it go, every other record keeps all its copies, and nothing is pending afterwards; otherwise nothing changes |
| TransactionList.ConfirmTwice | src/components/TransactionList.tsx:48-54 | a second confirmation does nothing |
| TransactionList.ConfirmKeepsValid | src/components/TransactionList.tsx:48-54 | confirming keeps a valid ledger valid |
| TransactionList.RequestThenConfirm | src/components/TransactionList.tsx:48-54 | with unique ids, asking to delete the record at k and confirming removes just that record |
| EditDialog.TrimStart | src/components/EditTransactionDialog.tsx:62 | the result is a suffix of the text, everything dropped is white space, and it does not start with white space |
| EditDialog.TrimEnd | src/components/EditTransactionDialog.tsx:62 | the result is a prefix of the text, everything dropped is white space, and it does not end with white space |
| EditDialog.Trim | src/components/EditTransactionDialog.tsx:62 | the result is a piece of the text with only white space before and after it, neither starts nor ends with white space, and is empty exactly when the text is blank |
| EditDialog.TrimFixpoint | src/components/EditTransactionDialog.tsx:62 | a text is its own trim exactly when it has no white space at either end |
| EditDialog.TrimIdempotent | src/components/EditTransactionDialog.tsx:62 | trimming twice equals trimming once |
| EditDialog.NormalizeDescription | src/components/EditTransactionDialog.tsx:62 | blank text becomes an absent description; anything else becomes its non-empty trim |
| EditDialog.Prefill | src/components/EditTransactionDialog.tsx:30-38 | the form takes the record's type, category, date and formatted amount; an absent description becomes empty text |
| EditDialog.CategoryOptions | src/components/EditTransactionDialog.tsx:40 | income offers the income list, six distinct names, and an expense the expense list, ten; no name is in both |
| EditDialog.CategoryOptionsPartition | src/types/transaction.ts:12-32 | every listed category is offered for exactly one of the two types |
| EditDialog.Submit | src/components/EditTransactionDialog.tsx:42-66 | missing fields exactly when there is no record, no category or no amount text; otherwise an invalid amount exactly when the text does not parse to a positive number; otherwise an update that keeps the id, takes the form's fields and the parsed amount, and normalises the description |
| EditDialog.PrefillSubmitRoundTrip | src/components/EditTransactionDialog.tsx:30-63 | submitting an unchanged prefilled form gives back the same record when its amount text parses back to its amount |
| EditDialog.SubmitIdempotent | src/components/EditTransactionDialog.tsx:42-63 | submitting the same form against the updated record yields the same record again |
| EditDialog.CategoryNotChecked | src/components/EditTransactionDialog.tsx:40-63 | an income record with the expense category "Rent" is accepted, since submission never consults the offered list |
| EditDialog.SubmitThenUpdate | src/components/EditTransactionDialog.tsx:56-63 | applying a submitted update to a valid ledger holding the edited record keeps it valid and replaces just that record |

## Left out

- Persistence: `localStorage` and JSON. `Ledger.Load` takes the stored text and the parser as parameters. Saving is not modelled, and neither is the JSON round trip.
- Id generation: `crypto.randomUUID()` is a `freshId` parameter. Uniqueness is a precondition of `Ledger.AddKeepsValid`.
- Clocks and calendars: `Date.now()`, `new Date()`, ISO date parsing and the date-fns helpers. Dates are UTC day numbers, and `nowMs` and `today` are parameters.
- TrendChart.TrendSeries: compares integer days. The source compares local-time days with `isSameDay` on UTC-parsed dates, so a timezone offset can shift records by a day; that offset is not modelled.
- TrendChart.TrendSeries: always has 31 points. The source starts the window 30×24 hours before now and `eachDayOfInterval` counts local calendar days, so when a daylight-saving change fell within the last 30 days and local time is within an hour of midnight, the chart holds 30 or 32 days.
- Number parsing and formatting: `parseFloat` and `Number.prototype.toString` are the `parse` and `format` parameters. `parse` returning `Some(x)` stands for any non-NaN result, so `Infinity` is not singled out.
- Floating point: sums are exact `real` arithmetic, with no IEEE rounding.
- EditDialog.Submit: the form's date is always a day number, so an empty date input cannot be expressed. `handleSubmit` does not check the date; the date input's `required` attribute makes the browser block an empty date before `handleSubmit` runs, and that browser check is not modelled.
- Locale formatting (`Intl.NumberFormat`, `toLocaleDateString`, the `dd/MM` axis labels), toasts, dialogs, icons, colours and chart rendering: presentation only.
- AddTransactionDialog: it is not part of this model. Its output reaches the ledger as the `Draft` given to `Ledger.Add`.
- Stored records that do not match the record shape (wrong field types, non-array JSON): the parser parameter either yields well-formed records or fails.
