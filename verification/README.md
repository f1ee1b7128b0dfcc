# Expense tracker ledger, modelled in Dafny

This project models the client side of a personal expense tracker (a React
app). It covers:

- **the ledger store**: the reducer over expenses, the monthly budget, the
  loading and error flags and the `lastUpdated` stamp;
- **the request helper**: a bearer header, then up to five attempts with a
  linearly growing wait;
- **identifier normalisation**: `id ?? _id`;
- **the store operations**: add, update, delete, set budget, import, refresh,
  initial load, and the current month's expenses;
- **the error auto-clear timer**;
- **CSV import and export** in the top bar: sanitising and parsing amounts,
  validating rows, size limit, and the `Map`-based dedup;
- **the views that compute from the ledger**:
  - the sidebar's budget panel;
  - the expense list's sort, limit, total and badge colours;
  - the twelve-month trend chart.

Modules follow the source files:

| Module | Covers |
|---|---|
| `Ledger` | the reducer |
| `Requests` | `apiRequest` |
| `Store` | the context operations |
| `ErrorTimer` | the 5-second effect |
| `Dedup` | the `Map.set` fold |
| `Csv` | `TopBar` |
| `BudgetView` | `Sidebar` |
| `ExpenseListView` | `ExpenseList` |
| `TrendView` | `TrendChart` |
| `Values` | shared types: options, results, JS numbers, digits |
| `Calendar` | shared types: dates and months |
| `Records` | shared types: the expense record |

How the model stands in for the runtime:

- The network is a script: attempt `i` of a request meets outcome `script[i]`.
- Time is a parameter.
- Two things are also parameters, with only their agreement assumed where a
  lemma needs it:
  - how a CSV cell's date text parses (`parseDate`);
  - how a number prints (`showNumber`).
- Ledger dates are calendar dates; months are compared as (year, month) pairs.
- A JS number in the budget is `Num`: finite, ±Infinity or NaN.
- Amounts are exact reals.

Behaviour of the code worth knowing:

- **401 is retried.** An HTTP 401 throws inside the retry loop's `try`, so it is
  retried like any other failure. It is not terminal, and later attempts still
  send the header built before the first one (`Requests.UnauthorizedIsRetried`).
- **Infinity is a valid budget.** `setMonthlyBudget` rejects only NaN and
  negative numbers (`Store.BudgetInfinityAccepted`). The reducer's SET_BUDGET
  stores anything (`Ledger.SetBudgetDoesNotValidate`).
- **Unique identifiers are not enforced.** The reducer never checks them.
  ADD_EXPENSE keeps them unique exactly when the new identifier is fresh
  (`Ledger.AddPreservesUniqueIdsIff`). Update and delete preserve them.
- **The error timer is keyed on the message.** It re-arms only when the error
  value changes, so showing the same message twice keeps the first deadline
  (`ErrorTimer.RepeatedMessageKeepsOldDeadline`).
- **The dedup key is not injective.** An underscore inside a field can make two
  different rows collide (`Csv.DedupKeyNotInjective`).
- **Badge colours can come from `Object.prototype`.** `colors[category]` finds
  inherited members for names such as `constructor`
  (`ExpenseListView.CategoryColor`).

## Model

| member | source | states |
|---|---|---|
| Records.Normalize | src/context/ExpenseContext.jsx:184 | a present `id` is kept, otherwise `_id` becomes the id; the result has an id iff either field was present; no other field changes |
| Records.NormalizeIdempotent | src/context/ExpenseContext.jsx:205 | normalising a normalised record changes nothing |
| Records.NormalizeReconcilesIdentifiers | src/context/ExpenseContext.jsx:268 | a record labelled by `_id` and the same record labelled by `id` get the same canonical id and the same data |
| Records.NormalizeAll | src/context/ExpenseContext.jsx:133-135 | every record of a fetched list is normalised, in order, none dropped |
| Records.ExpensesIn | src/context/ExpenseContext.jsx:317-320 | the month filter is an order-preserving subsequence of the ledger, keeps only records of that month, and keeps each record of that month as many times as the ledger holds it |
| Ledger.Reduce | src/context/ExpenseContext.jsx:19-80 | only the data actions and FETCH_SUCCESS change the expenses; only SET_BUDGET and FETCH_SUCCESS with a budget change the budget; only the fetch actions change loading; only FETCH_ERROR sets a new error; `lastUpdated` is kept or stamped now; the categories never change; an unknown action changes nothing |
| Ledger.ReplaceById | src/context/ExpenseContext.jsx:47-49 | same length; exactly the positions whose id equals the payload's hold the payload, the rest are unchanged |
| Ledger.RemoveById | src/context/ExpenseContext.jsx:56 | an order-preserving subsequence with no record of that id, keeping every other record; its length drops by the number of matches |
| Ledger.AddAppendsOne | src/context/ExpenseContext.jsx:37-42 | ADD_EXPENSE appends exactly the payload after the unchanged ledger, leaves budget and flags alone and stamps the time |
| Ledger.ImportAppendsInOrder | src/context/ExpenseContext.jsx:67-72 | IMPORT_EXPENSES appends the whole batch in order after the unchanged ledger |
| Ledger.UpdateReplacesMatching | src/context/ExpenseContext.jsx:44-51 | UPDATE_EXPENSE keeps length and order and replaces exactly the records with the payload's id |
| Ledger.UpdateUnknownIdIsNoOp | src/context/ExpenseContext.jsx:47-49 | updating an id nobody has leaves the expenses unchanged |
| Ledger.UpdatePreservesUniqueIds | src/context/ExpenseContext.jsx:44-51 | an update keeps unique identifiers unique |
| Ledger.DeleteRemovesAll | src/context/ExpenseContext.jsx:53-58 | DELETE_EXPENSE removes every record with the id, keeps all others in order, and touches nothing else |
| Ledger.DeleteUnknownIdIsNoOp | src/context/ExpenseContext.jsx:56 | deleting an id nobody has leaves the expenses unchanged |
| Ledger.DeletePreservesUniqueIds | src/context/ExpenseContext.jsx:53-58 | a delete keeps unique identifiers unique |
| Ledger.SubsequencePreservesUniqueIds | src/context/ExpenseContext.jsx:56 | dropping records from a list with unique ids leaves unique ids |
| Ledger.AddPreservesUniqueIdsIff | src/context/ExpenseContext.jsx:37-42 | after an add, ids are unique iff the added id was fresh; the reducer does not check this |
| Ledger.FlagActionsTouchOnlyFlags | src/context/ExpenseContext.jsx:19-80 | FETCH_START sets loading and clears the error; FETCH_ERROR clears loading and sets the message; CLEAR_ERROR clears the error; none touches anything else |
| Ledger.UnknownActionIsIdentity | src/context/ExpenseContext.jsx:77-78 | an unknown action returns the same state |
| Ledger.FetchSuccessFallbacks | src/context/ExpenseContext.jsx:24-32 | FETCH_SUCCESS clears both flags and stamps the time; a missing list or budget keeps the old one, a present one replaces it |
| Ledger.SetBudgetDoesNotValidate | src/context/ExpenseContext.jsx:60-65 | SET_BUDGET stores any number, NaN and negatives included, and leaves the expenses |
| Requests.AuthHeader | src/context/ExpenseContext.jsx:84-89 | the bearer header is present iff the stored token is truthy, and then carries that token |
| Requests.AttemptError | src/context/ExpenseContext.jsx:95-105 | a 401 throws the session-expired message; an HTTP failure throws the server's message when it has one, otherwise "HTTP error! status: " followed by the status in decimal, so never an empty message; a network failure keeps its own message |
| Requests.ExecuteFrom | src/context/ExpenseContext.jsx:91-112 | a request succeeds iff some attempt succeeds, with the body of the first success; otherwise it fails with the last attempt's message |
| Requests.ApiRequest | src/context/ExpenseContext.jsx:83-113 | at most five attempts, stopping at the first success; every earlier attempt failed; an error only after five failures, carrying the fifth one's message; wait k is 1000·(k+1) ms; the token is cleared iff some attempt met a 401 |
| Requests.SuccessOnFifthAttempt | src/context/ExpenseContext.jsx:91-112 | four failures then a success return the success |
| Requests.UnauthorizedIsRetried | src/context/ExpenseContext.jsx:95-110 | a 401 followed by a success returns the success: the 401 is retried |
| Requests.ExhaustedSurfacesLastError | src/context/ExpenseContext.jsx:102-109 | five failures surface the fifth failure's message verbatim |
| Store.SetMonthlyBudget | src/context/ExpenseContext.jsx:238-248 | rejected iff NaN or negative; a rejection shows "Invalid budget amount" and keeps the budget; otherwise the budget is stored and is non-negative |
| Store.BudgetZeroAccepted | src/context/ExpenseContext.jsx:240 | a zero budget is accepted and stored |
| Store.BudgetNegativeRejected | src/context/ExpenseContext.jsx:240-243 | a negative budget is rejected and the old budget stays |
| Store.BudgetInfinityAccepted | src/context/ExpenseContext.jsx:239-240 | +Infinity passes the check and is stored |
| Store.AddExpense | src/context/ExpenseContext.jsx:171-195 | succeeds iff the request does; then the normalised created record is appended; otherwise the ledger is unchanged and the message (or "Failed to add expense") is shown |
| Store.UpdateExpense | src/context/ExpenseContext.jsx:198-216 | on success every record with the answer's id becomes the normalised answer, others unchanged; on failure the ledger is unchanged, the request's message is returned, and it or the fallback is shown |
| Store.DeleteExpense | src/context/ExpenseContext.jsx:219-235 | on success the ledger becomes an order-preserving subsequence with every other record and none with that id, shorter by the number of records with that id; on failure it is unchanged, the request's message is returned, and it or the fallback is shown |
| Store.CreateAll | src/context/ExpenseContext.jsx:253-264 | the batch of creates succeeds iff every create does, yielding each normalised record in submission order; a failure carries some failing request's message |
| Store.ImportExpenses | src/context/ExpenseContext.jsx:251-281 | all or nothing: every create succeeded and the ledger grows by the normalised created records, record i from request i, or the ledger is unchanged and a failing request's message is shown |
| Store.ImportOneFailureCommitsNothing | src/context/ExpenseContext.jsx:251-281 | one failing create leaves the ledger exactly as it was |
| Store.ListOf | src/context/ExpenseContext.jsx:293-295 | an array answer is normalised record by record; anything else becomes the empty list |
| Store.ReceiveList | src/context/ExpenseContext.jsx:292-308 | the GET and its dispatch: ends not loading with the budget kept; success replaces the ledger with the normalised list and clears the error; failure keeps the ledger, returns the request's message and shows it or the fallback |
| Store.RefreshExpenses | src/context/ExpenseContext.jsx:289-310 | succeeds iff the request does; an array answer replaces the ledger with its normalised records and clears the error, any other answer empties it; a failure keeps the ledger, returns the request's message and shows it or "Failed to refresh expenses" |
| Store.LoadInitialData | src/context/ExpenseContext.jsx:120-151 | the stored budget, when there is one, is applied unchecked before the fetch; afterwards loading is off and the ledger is the fetched list with no error, or unchanged with the request's message or "Failed to load expenses" shown |
| Store.CurrentMonthExpenses | src/context/ExpenseContext.jsx:312-321 | an order-preserving subsequence of the ledger holding its records dated in the current month, each as many times as the ledger holds it, and nothing else |
| ErrorTimer.InitialSessionMatches | src/context/ExpenseContext.jsx:161-168 | at start no timer is pending and no error is shown |
| ErrorTimer.Rearm | src/context/ExpenseContext.jsx:161-168 | an unchanged error keeps the pending timer; a changed error cancels it and arms a new one 5000 ms ahead iff the new error is truthy |
| ErrorTimer.Dispatch | src/context/ExpenseContext.jsx:161-168 | the store moves by the reducer; an action that leaves the error alone leaves the timer alone; a new timer is always 5000 ms from now |
| ErrorTimer.Tick | src/context/ExpenseContext.jsx:163-165 | before the deadline nothing happens; at the deadline the error is cleared with the expenses and budget kept, and the timer of a shown error is gone |
| ErrorTimer.DispatchKeepsTimerMatching | src/context/ExpenseContext.jsx:161-168 | after any action, a pending timer belongs to the error on screen, and a truthy error on screen has a timer |
| ErrorTimer.TickKeepsTimerMatching | src/context/ExpenseContext.jsx:163-165 | a timer firing keeps that invariant |
| ErrorTimer.TickClearsOnlyItsOwnError | src/context/ExpenseContext.jsx:163-166 | a timer that changes the error was armed for the error on screen and clears it: a stale timer never clears a newer error |
| ErrorTimer.NewErrorGetsFullDelay | src/context/ExpenseContext.jsx:161-168 | a new truthy error arms a timer for itself 5000 ms ahead |
| ErrorTimer.RepeatedMessageKeepsOldDeadline | src/context/ExpenseContext.jsx:168 | the same message set again keeps the earlier deadline, so the repeat is cleared before 5000 ms |
| Dedup.Put | src/components/TopBar.jsx:68 | `Map.set`: an existing key keeps its position and takes the new value; a new key is appended; keys stay distinct |
| Dedup.Build | src/components/TopBar.jsx:65-69 | the map built by the loop has distinct keys, is no longer than the input and is non-empty for a non-empty input |
| Dedup.BuildKeys | src/components/TopBar.jsx:65-69 | a key is in the built map iff some input row has it |
| Dedup.BuildLastWriteWins | src/components/TopBar.jsx:66-69 | each map entry's value is the last input row with that key |
| Dedup.BuildFirstOccurrenceOrder | src/components/TopBar.jsx:65-69 | map entries are ordered by the first occurrence of their key in the input |
| Dedup.CollapseSizeIsDistinctKeyCount | src/components/TopBar.jsx:72 | the number of submitted records (`unique.size`) is the number of distinct keys |
| Dedup.CollapseOfRepeat | src/components/TopBar.jsx:65-71 | a value put twice under its own key comes out of the map once |
| Dedup.CollapseKeepsMembers | src/components/TopBar.jsx:65-71 | every submitted value is one of the survivors, and a non-empty batch submits at least one and at most all of them |
| Dedup.CollapseIsMapSemantics | src/components/TopBar.jsx:65-71 | the submitted list has one value per distinct key, in first-occurrence order of the keys, each equal to the last row with its key |
| Csv.Sanitize | src/components/TopBar.jsx:57 | the result has only digits, `.` and `-`, is a subsequence of the input, and equals the input when it already was so |
| Csv.SanitizeKeepsEveryKeptChar | src/components/TopBar.jsx:57 | every digit, `.` and `-` survives as often as it occurs |
| Csv.SanitizeIdempotent | src/components/TopBar.jsx:57 | sanitising twice is sanitising once |
| Csv.ParseDecimal | src/components/TopBar.jsx:57 | `parseFloat` on sanitised text reads a number only when there is a digit; a negative value needs a leading `-`; text starting with a digit reads a non-negative number |
| Csv.ParseDecimalDefinedIff | src/components/TopBar.jsx:57-58 | sanitised text reads as a number iff, after at most one leading `-`, it starts with a digit or with `.` and a digit; "--5", ".-5" and "-.-5" are NaN and the row is dropped |
| Csv.ParseDecimalWithPoint | src/components/TopBar.jsx:57 | for all digit strings `w` and `f`, not both empty, `[-]w.f` followed by text that does not start with a digit reads as ±(w + f / 10^|f|): the longest numeric prefix is read and the rest ignored |
| Csv.ParseDecimalWithoutPoint | src/components/TopBar.jsx:57 | `[-]w` followed by text starting with neither a digit nor a point reads as ±w |
| Csv.ParseDecimalOfCents | src/components/TopBar.jsx:57 | "12.50" reads as 12.5 |
| Csv.ParseDecimalStopsAtSecondPoint | src/components/TopBar.jsx:57 | "1.2.3" reads as 1.2 |
| Csv.ParseDecimalOfNat | src/components/TopBar.jsx:57 | the decimal text of a natural number reads back as that number |
| Csv.ParseDecimalOfNegatedNat | src/components/TopBar.jsx:57 | a leading minus before such text reads back as the negated number |
| Csv.ValidateRow | src/components/TopBar.jsx:56-60 | a row survives iff it has a date, a category, an amount parsing to a positive number and a parseable date; a survivor carries those fields and the note or "" |
| Csv.AmountOf | src/components/TopBar.jsx:57 | the amount is `parseFloat` of the cell with every character other than digits, `.` and `-` removed; so it is read only when the cell holds a digit, and a cell of kept characters only is read as it stands |
| Csv.AmountOfStripsCurrency | src/components/TopBar.jsx:57 | the cell "$12.50" reads as 12.5 |
| Csv.Validations | src/components/TopBar.jsx:56-60 | one verdict per row, in row order, each the row's validation |
| Csv.Present | src/components/TopBar.jsx:61 | `.filter(Boolean)`: an order-preserving selection of the present values, one per present value, and nothing else |
| Csv.ValidRows | src/components/TopBar.jsx:56-61 | the survivors are, in row order, the passing verdicts: an order-preserving subsequence of the rows' verdicts, one survivor per passing row, each the validation of some row |
| Csv.SurvivorsAreWellFormed | src/components/TopBar.jsx:57-61 | every survivor has a positive amount, a non-empty date and a non-empty category |
| Csv.DedupKey | src/components/TopBar.jsx:67 | the key is the four fields with three separators: its length is theirs plus three |
| Csv.DedupKeySeparators | src/components/TopBar.jsx:67 | the key holds the fields' underscores plus exactly three, so a separator cannot be told from an underscore inside a field |
| Csv.DedupKeyNotInjective | src/components/TopBar.jsx:67 | two different rows can share a key, and then only the later one is submitted |
| Csv.HandleImport | src/components/TopBar.jsx:42-71 | no file does nothing; over 2 MiB is refused; no surviving row is "Invalid CSV"; otherwise a non-empty batch, no larger than the survivors and drawn from them, is submitted |
| Csv.SubmittedBatchIsMapSemantics | src/components/TopBar.jsx:63-71 | the submitted batch is one record per distinct key of the survivors, in first-occurrence order, each the last survivor with its key |
| Csv.DuplicateRowsImportedOnce | src/components/TopBar.jsx:56-71 | two identical valid rows are submitted as one record |
| Csv.MissingDatesAreInvalidCsv | src/components/TopBar.jsx:58-63 | a batch whose rows all lack a date is refused as "Invalid CSV" |
| Csv.ExportRows | src/components/TopBar.jsx:16-27 | an empty ledger is refused with "No expenses to export"; otherwise one row per record in ledger order with a missing note written as "" |
| Csv.ExportAll | src/components/TopBar.jsx:22-27 | row i holds record i's date, category, amount and note or "" |
| Csv.ExportThenImportRow | src/components/TopBar.jsx:22-60 | an exported record with a category and positive amount reads back as a candidate with the same category, amount and note, given that dates and numbers read back as written |
| ExpenseListView.Insert | src/components/ExpenseList.jsx:11-12 | inserting one record adds exactly that record to the multiset and nothing else |
| ExpenseListView.InsertKeepsOrder | src/components/ExpenseList.jsx:12 | inserting into a newest-first list keeps it newest-first |
| ExpenseListView.SortNewestFirst | src/components/ExpenseList.jsx:11-12 | the sort yields a permutation of the ledger, newest date first |
| ExpenseListView.SliceEnd | src/components/ExpenseList.jsx:13 | a missing or zero limit shows everything; a positive limit is clamped to the length; a negative one counts back from the end, not below zero |
| ExpenseListView.DisplayedAreNewest | src/components/ExpenseList.jsx:11-13 | the shown records are a prefix of the sorted ledger, none older than any hidden record, all drawn from the ledger |
| ExpenseListView.Displayed | src/components/ExpenseList.jsx:11-13 | the list shows as many records as the slice end says, newest first, each drawn from the ledger no more often than it occurs there |
| ExpenseListView.TotalSpent | src/components/ExpenseList.jsx:11-15 | the list total is the sum of the displayed slice only: added to the amounts of the sorted records the slice leaves out, it gives the ledger total; when the slice shows everything it is the ledger total |
| ExpenseListView.SortKeepsTotal | src/components/ExpenseList.jsx:11-15 | sorting does not change what the amounts add up to |
| ExpenseListView.TotalSpentWithoutLimit | src/components/ExpenseList.jsx:13-15 | with no limit the list's total is the ledger's total |
| ExpenseListView.CategoryColor | src/components/ExpenseList.jsx:17-29 | a known category gets its own class list; an inherited `Object.prototype` name yields that member; any other name gets the "Misc" colours |
| ExpenseListView.CategoryColors | src/components/ExpenseList.jsx:17-29 | each of the ledger's eight categories gets a class list, no two alike; other plain names share the "Misc" colour |
| BudgetView.TotalExpenses | src/components/Sidebar.jsx:13-14 | this month's spending is non-negative when no amount is negative, and zero when no record is dated this month |
| BudgetView.Remaining | src/components/Sidebar.jsx:15 | with no budget the remaining amount is 0; with a finite budget remaining plus spending is the budget; an infinite or NaN budget stays as it is |
| BudgetView.Progress | src/components/Sidebar.jsx:16 | progress is 0 unless the budget is finite and positive, and then it is spending as a percentage of the budget |
| BudgetView.BandOf | src/components/Sidebar.jsx:112-114 | green up to 75, yellow above 75 up to 90, red above 90 |
| BudgetView.BandMonotone | src/components/Sidebar.jsx:112-114 | more progress never gives a calmer colour |
| BudgetView.BarWidth | src/components/Sidebar.jsx:116 | the bar's width is the progress capped at 100 |
| BudgetView.LabelOf | src/components/Sidebar.jsx:106-107 | "Remaining" iff the remaining amount is non-negative (NaN counts as over), showing its absolute value |
| BudgetView.PercentageAgainstBudget | src/components/Sidebar.jsx:16 | for a positive budget the percentage passes 100 exactly when spending passes the budget, and is non-negative for non-negative spending |
| BudgetView.PanelIsConsistent | src/components/Sidebar.jsx:13-16 | for a positive finite budget: "Over" iff spending exceeds the budget iff progress exceeds 100, and then the bar is full and red; within budget the label shows what is left |
| BudgetView.NoUsableBudgetShowsEmptyBar | src/components/Sidebar.jsx:16 | with no budget, or a zero, negative or infinite one, the bar is empty and green |
| BudgetView.InfiniteBudgetNeverOver | src/components/Sidebar.jsx:15-16 | an infinite budget shows infinite remaining and zero progress |
| BudgetView.OnBudgetChange | src/components/Sidebar.jsx:28-36 | the effect opens the editor with an empty input iff there is no budget, and otherwise closes it with the budget in the input |
| BudgetView.StartEditing | src/components/Sidebar.jsx:59 | the pencil button opens the editor without touching the input |
| BudgetView.Cancel | src/components/Sidebar.jsx:23-26 | cancel closes editing and puts the store's budget, or null, back in the input |
| BudgetView.InputText | src/components/Sidebar.jsx:74 | a null input shows as "" |
| BudgetView.SaveLabel | src/components/Sidebar.jsx:86 | the save button reads "Set Budget" iff there is no budget |
| BudgetView.EditorShown | src/components/Sidebar.jsx:68 | with no budget the editor is shown whatever the panel's own state |
| BudgetView.EditorFollowsBudget | src/components/Sidebar.jsx:28-68 | after the effect, the editor shows iff there is no budget, and then with an empty input; cancelling without a budget leaves the editor on screen |
| Calendar.FromMonthIndex | src/components/TrendChart.jsx:37 | an out-of-range month rolls into a valid month with the same month count |
| Calendar.MonthsBefore | src/components/TrendChart.jsx:37 | stepping back n months gives a valid month exactly n months earlier |
| Calendar.NextOfMonthsBefore | src/components/TrendChart.jsx:36-37 | consecutive offsets give consecutive months across year boundaries |
| Calendar.MonthsBeforeInjective | src/components/TrendChart.jsx:36-37 | different offsets give different months |
| Calendar.OnOrBeforeTransitive | src/components/ExpenseList.jsx:12 | date order is transitive |
| TrendView.Window | src/components/TrendChart.jsx:36-37 | twelve months, the k-th being 11 − k months before the current one |
| TrendView.WindowShape | src/components/TrendChart.jsx:36-37 | the window ends at the current month, each month is followed by the next one across a year change, and none repeats |
| TrendView.WindowMembership | src/components/TrendChart.jsx:36-44 | a month is charted iff it is the current month or one of the eleven before it |
| TrendView.Label | src/components/TrendChart.jsx:38 | a label is the month's short name, a space and the year's last two digits |
| TrendView.MonthNamesDistinct | src/components/TrendChart.jsx:38 | each of the twelve short month names names its own month, so no two months share a name |
| TrendView.LabelsDistinct | src/components/TrendChart.jsx:36-39 | no two chart points share a label |
| TrendView.BucketTotals | src/components/TrendChart.jsx:41-47 | each total is the sum of the amounts of that month's records |
| TrendView.BucketsPartition | src/components/TrendChart.jsx:41-47 | over distinct months, the totals add up to the sum over records in any of those months: each record is counted once |
| TrendView.GenerateMonthlyData | src/components/TrendChart.jsx:31-51 | twelve labels and twelve totals, point k labelling and totalling window month k |
| TrendView.ChartTotalIsWindowTotal | src/components/TrendChart.jsx:41-47 | the chart's points add up to the spending of the last twelve months |
| TrendView.MonthTotalZeroIffEmpty | src/components/TrendChart.jsx:46 | with positive amounts, a month's total is zero iff it has no record |
| TrendView.ShowsEmptyState | src/components/TrendChart.jsx:55 | "Not enough data" is shown when every monthly total is zero; with positive amounts that is exactly when no record falls in the last twelve months (proved in `TrendView.EmptyStateIffNoRecentExpense`) |
| TrendView.EmptyStateIffNoRecentExpense | src/components/TrendChart.jsx:55 | with positive amounts, "Not enough data" shows iff no record falls in the last twelve months |
| TrendView.LastPointIsSidebarTotal | src/components/TrendChart.jsx:41-47 | the chart's last point equals the sidebar's spending for the current month |

## Left out

- **Side effects.** These are replaced by parameters or by the script:
  - `fetch`, HTTP headers other than `Authorization`, and request bodies;
  - `localStorage`, the redirect to `/login`, `console` logging, `setTimeout` delays and React rendering.
  - Waits are recorded as numbers, not slept.
- **Concurrency.** `Promise.all` is modelled as running the create requests in
  order. The failure it reports is the first in submission order, whereas at
  run time it is the first to settle.
- Store.ImportExpenses: all or nothing holds for the local ledger only.
  `Promise.all` starts every create at once and a rejection cancels none of
  them, so the creates that succeeded stay on the server and come back with
  the next fetch. The model stops at the first failure and says nothing about
  the server.
- **Network timing.** Concurrent intents, hung connections and last-response-wins
  between fetch cycles are not modelled.
- **The `retries` argument of `apiRequest`.** It is fixed at its default of 5,
  because no caller passes another value.
- **CSV parsing.** PapaParse and its quoting rules (RFC 4180) are out:
  - the model starts from the parsed rows, as header-to-text maps;
  - `Papa.unparse` and the download link are out;
  - parser errors reported through `error:` are out.
- **Numbers.** IEEE-754 rounding, `toFixed` and `toLocaleString` are out.
  - Amounts are exact reals.
  - `parseFloat` is modelled on sanitised text, without exponents: sanitising
    cannot leave one, because it removes `e`. Its value is proved for every
    `[-]int.frac` prefix followed by any text (`Csv.ParseDecimalWithPoint`).
- **Dates and time zones.** JS `Date` parsing and time zones are out.
  - CSV date validity is the parameter `parseDate`.
  - Ledger dates are calendar dates and are assumed valid.
  - The two-digit-year mapping that `Date` applies to years 0–99 is not modelled.
- **Untyped values.**
  - `null` and `undefined` are one missing value.
  - The `limit` prop of the expense list is an integer or missing. Fractional,
    NaN and string limits are not modelled.
- ExpenseListView.SortNewestFirst: stability among records with the same date
  is not stated. The sort is a stable insertion sort, but only order and
  permutation are proved.
- **Known defects, left out as written.** The sidebar's save button calls an
  undefined `setBudget` (src/components/Sidebar.jsx:7). The trend chart calls
  `useMemo` after an early return (src/components/TrendChart.jsx:63). Both are
  React runtime behaviour, not ledger logic.
- **The rest of the repository.** This covers:
  - the server;
  - `App.jsx`, `ErrorBoundary` and `ThemeToggle`;
  - the add and edit forms;
  - notifications and date formatting for display.
