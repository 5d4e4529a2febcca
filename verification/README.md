# Expense tracker: a Dafny model of the store and the derived views

This project models the logic of a small single-page expense tracker:

- the page store (`Index.tsx`):
  - the expense list, the list filter and the loading flag;
  - the one load on mount, which replaces the list wholesale;
  - adding a record in front of the list and deleting records by id;
  - changing the filter;
  - the current-month selection.
- the list panel (`ExpenseList.tsx`): the category filter, then a stable sort by transaction date, newest first.
- the summary cards (`ExpenseSummary.tsx`):
  - the total, the count and the average;
  - the per-category breakdown with percentages, sorted by amount;
  - the top category.
- the category chart (`CategoryChart.tsx`): the same per-category fold, each bar carrying its category's display configuration.
- the add-expense form (`ExpenseForm.tsx`):
  - the keystroke filter on the amount field (`^\d*\.?\d{0,2}$`);
  - the reading of the amount text as a number;
  - the submit guard and the form reset.
- the category registry (`expense.ts`): the seven categories, `CATEGORY_CONFIG` and `CATEGORIES`.

Modelling choices:

- Amounts are integer cents, and percentages and averages are `real`s. This keeps the arithmetic exact.
- A transaction date is a `(year, month, day)` triple. `DayKey` stands in for `getTime()`; on real calendar dates it orders exactly as the calendar does.
- `Array.prototype.filter` is modelled once, as `Seqs.Keep`.
- `Array.prototype.sort` with a `b.x - a.x` comparator is modelled once, as `StableSort.Sort`. That function is a stable insertion sort in descending key order. ECMA-262 (2019 edition onwards) requires `sort` to be stable.
- The `record[k] = (record[k] || 0) + amount` fold followed by `Object.entries` is modelled once, as `CategoryTotals.Tallies`. Its entries come out in the order in which each category first occurs, because string keys that are not array indices enumerate in insertion order.
- The summary and the chart both use that fold. `CategoryChart.ChartMatchesBreakdown` proves that they produce the same rows.

The modules follow the source files:

- `Wrappers` holds `Option`.
- `Seqs` and `StableSort` are the generic array operations.
- `ExpenseTypes` is `expense.ts`.
- `Text` is `String.prototype.trim`.
- `ExpenseForm`, `ExpenseStore`, `ExpenseList`, `CategoryTotals`, `ExpenseSummary` and `CategoryChart` follow the components.
- `SeedData` holds the eight records that the simulated fetch resolves with, as a worked instance of the views.

The seed list adds up to 641.48: 64148 cents, an average of 80.185 per record.

## Model

| member | source | states |
|---|---|---|
| ExpenseTypes.FromName | src/types/expense.ts:10-17 | a string reads back as a category exactly when it is that category's identifier; every other string is no category |
| ExpenseTypes.NameRoundTrip | src/types/expense.ts:10-17 | reading back a category's identifier yields that category |
| ExpenseTypes.NamesDistinct | src/types/expense.ts:10-17 | two categories have the same identifier only if they are the same category, so object keys never collide |
| ExpenseTypes.Config | src/types/expense.ts:19-27 | the configuration table is total: every category has a non-empty label, colour and icon |
| ExpenseTypes.ConfigDistinct | src/types/expense.ts:19-27 | different categories have different labels, colours and icons |
| ExpenseTypes.IndexOf | src/types/expense.ts:29 | every category has a position in `CATEGORIES` |
| ExpenseTypes.CategoriesEnumerateAll | src/types/expense.ts:29 | `CATEGORIES` lists each of the seven categories exactly once, from food to other |
| ExpenseTypes.FilterFromValue | src/components/ExpenseList.tsx:41-43 | a selector value that reads back as a filter is that filter's value |
| ExpenseTypes.FilterValueRoundTrip | src/components/ExpenseList.tsx:75-85 | every option the filter selector offers (`'all'` and each category) reads back as the filter it stands for |
| ExpenseTypes.DayKeyOrder | src/components/ExpenseList.tsx:32 | on real dates, the timestamp stand-in is smaller exactly when the date is earlier, and equal exactly when the dates are equal |
| Seqs.Keep | src/components/ExpenseList.tsx:26 | `filter` keeps exactly the elements satisfying the predicate and never lengthens the array |
| Seqs.KeepCounts | src/pages/Index.tsx:45 | every kept element occurs as often as in the input; every dropped element occurs zero times |
| Seqs.KeepSubsequence | src/pages/Index.tsx:45 | what `filter` keeps appears in the input's order |
| Seqs.KeepConcat | src/components/ExpenseList.tsx:26 | filtering a concatenation is concatenating the filtered parts |
| Seqs.KeepIdempotent | src/components/ExpenseList.tsx:26 | filtering twice with the same predicate is filtering once |
| StableSort.Sort | src/components/ExpenseList.tsx:31-33 | the sorted array is a permutation of the input, with keys non-increasing |
| StableSort.SortStable | src/components/ExpenseList.tsx:31-33 | for every key, the elements carrying it come out in their input order (stability) |
| StableSort.SortIdempotent | src/components/ExpenseList.tsx:31-33 | an array already in order is returned unchanged |
| StableSort.SortTwice | src/components/ExpenseList.tsx:31-33 | sorting a sorted result again changes nothing |
| StableSort.SortSum | src/components/ExpenseSummary.tsx:30 | sorting preserves any integer sum over the elements |
| StableSort.SortRealSum | src/components/ExpenseSummary.tsx:30 | sorting preserves any real-valued sum over the elements |
| StableSort.SortTiesRanked | src/components/ExpenseSummary.tsx:30 | if the input is strictly increasing in a rank, every run of equal keys in the output is still increasing in that rank |
| StableSort.SortDistinctBy | src/components/ExpenseSummary.tsx:30 | sorting never makes two elements agree on a field they differed on |
| StableSort.SortMembers | src/components/CategoryChart.tsx:27 | the sorted output has exactly the input's elements |
| StableSort.SortMap | src/components/CategoryChart.tsx:20-27 | mapping then sorting equals sorting then mapping, when the map keeps the sort key |
| Text.Trim | src/components/ExpenseForm.tsx:51 | `trim` removes a whitespace prefix and suffix and nothing else; the result is empty exactly when the text is blank; otherwise it neither starts nor ends with whitespace |
| Text.TrimIdempotent | src/components/ExpenseForm.tsx:57 | trimming a trimmed description changes nothing |
| ExpenseForm.AcceptsAmountText | src/components/ExpenseForm.tsx:35 | the scan accepts exactly the empty text and the language of `^\d*\.?\d{0,2}$` |
| ExpenseForm.EmptyMatchesPattern | src/components/ExpenseForm.tsx:35 | the empty text is already in the pattern's language, so the `value === ''` test adds nothing |
| ExpenseForm.AcceptsPrefixClosed | src/components/ExpenseForm.tsx:33-38 | deleting the last character of an accepted amount yields an accepted amount, so backspacing at the end is never refused |
| ExpenseForm.AcceptsDeleteClosed | src/components/ExpenseForm.tsx:33-38 | deleting any one character of an accepted amount yields an accepted amount, so a deletion anywhere in the field is never refused |
| ExpenseForm.HandleAmountChange | src/components/ExpenseForm.tsx:33-38 | an accepted edit replaces the stored amount text; a refused edit leaves it unchanged |
| ExpenseForm.AmountChangeKeepsInvariant | src/components/ExpenseForm.tsx:33-38 | the stored amount text is always one the filter accepts |
| ExpenseForm.InitialFormInvariant | src/components/ExpenseForm.tsx:14-17 | the form starts with an accepted (empty) amount text |
| ExpenseForm.ParseAmount | src/components/ExpenseForm.tsx:51 | `parseFloat` of an accepted text is `NaN` exactly when the text has no digit; otherwise it is a non-negative number |
| ExpenseForm.ParseAmountExact | src/components/ExpenseForm.tsx:58 | for an accepted text with a digit, the parsed number of cents divided by 100 equals the text's exact decimal value |
| ExpenseForm.DigitsValueAppend | src/components/ExpenseForm.tsx:58 | the value of a digit string split in two is the high part shifted by the low part's length, plus the low part |
| ExpenseForm.SubmitAsWritten | src/components/ExpenseForm.tsx:48-69 | the submit is refused exactly when the trimmed description is empty, the amount text is empty, or the parsed number is `<= 0`; on refusal the form is unchanged; otherwise the trimmed description, parsed amount, category and date are sent and the form resets |
| ExpenseForm.DotAmountPassesGuard | src/components/ExpenseForm.tsx:51 | the amount text `"."` passes the filter and the guard, and `NaN` is sent as the amount |
| ExpenseForm.AsWrittenNaNOnlyForDot | src/components/ExpenseForm.tsx:51-58 | `"."` is the only accepted text for which a sent amount is `NaN` |
| ExpenseForm.Submit | src/components/ExpenseForm.tsx:48-69 | the corrected submit is refused exactly when the trimmed description is empty or the amount is `NaN` or not positive; what it sends is a trimmed, non-blank description with a positive amount |
| ExpenseForm.SubmitRefusesEmptyAmount | src/components/ExpenseForm.tsx:51 | an empty amount text is refused |
| ExpenseForm.SubmitAgreesAsWritten | src/components/ExpenseForm.tsx:48-69 | for every amount text other than `"."`, the corrected submit refuses the same forms as the source and sends the same payload |
| ExpenseForm.SubmitKeepsInvariant | src/components/ExpenseForm.tsx:63-67 | after a submit, refused or not, the stored amount text is still accepted |
| ExpenseStore.Add | src/pages/Index.tsx:34-41 | the new record goes in front of the previous list with the supplied id and timestamp and the payload's fields; the rest of the list is unchanged |
| ExpenseStore.Delete | src/pages/Index.tsx:44-46 | exactly the records with a different id remain, each as often as before, in their original order |
| ExpenseStore.DeleteAbsent | src/pages/Index.tsx:44-46 | deleting an id that no record has leaves the list unchanged |
| ExpenseStore.DeleteIdempotent | src/pages/Index.tsx:44-46 | deleting the same id twice is deleting it once |
| ExpenseStore.DeleteUndoesAdd | src/pages/Index.tsx:34-46 | deleting the record just added under a fresh id restores the previous list |
| ExpenseStore.AddKeepsUniqueIds | src/pages/Index.tsx:34-41 | adding under an unused id keeps the ids unique |
| ExpenseStore.DeleteKeepsUniqueIds | src/pages/Index.tsx:44-46 | deleting keeps the ids unique |
| ExpenseStore.DeleteRemovesOne | src/pages/Index.tsx:44-46 | when ids are unique, deleting an id in use removes exactly one record |
| ExpenseStore.CurrentMonth | src/pages/Index.tsx:54-63 | exactly the records dated in the current month and year remain, each as often as before, in list order |
| ExpenseStore.FinishLoad | src/pages/Index.tsx:17-31 | loading always ends; a successful fetch replaces the list with the fetched data; a failed fetch keeps the list; the filter is untouched |
| ExpenseStore.FailedLoadOnMount | src/pages/Index.tsx:12-31 | a failed load on mount leaves an empty list, filter `'all'`, not loading |
| ExpenseStore.AddExpense | src/pages/Index.tsx:34-41 | adding changes only the list, and changes it as `Add` does |
| ExpenseStore.DeleteExpense | src/pages/Index.tsx:44-46 | deleting changes only the list, and changes it as `Delete` does |
| ExpenseStore.ChangeFilter | src/pages/Index.tsx:49-51 | the filter is replaced; the list and the loading flag are unchanged |
| ExpenseStore.InitialStateInvariant | src/pages/Index.tsx:12-14 | the initial state satisfies the store invariant: unique ids, and records with a trimmed non-blank description and a positive amount |
| ExpenseStore.AddKeepsInvariant | src/pages/Index.tsx:34-41 | adding a payload the corrected submit sends, under a fresh id, keeps the store invariant; in particular no record with a `NaN` or non-positive amount enters the modelled store |
| ExpenseStore.DeleteKeepsInvariant | src/pages/Index.tsx:44-46 | deleting keeps the store invariant |
| ExpenseStore.LoadKeepsInvariant | src/pages/Index.tsx:17-31 | finishing the load keeps the store invariant when the fetched data satisfies it |
| SeedData.SeedLoadKeepsInvariant | src/data/mockExpenses.ts:3-77 | the records the fetch resolves with have distinct ids, trimmed non-blank descriptions and positive amounts, so the load on mount keeps the store invariant |
| ExpenseList.FilterExpenses | src/components/ExpenseList.tsx:24-27 | `'all'` returns the list itself; a category keeps exactly that category's records, each as often as before, in list order |
| ExpenseList.CategoryViewSizes | src/components/ExpenseList.tsx:24-27 | the seven single-category views partition the list: their sizes add up to its size |
| ExpenseList.SortByDate | src/components/ExpenseList.tsx:30-34 | the sorted list is a permutation of the filtered list with timestamps non-increasing; on real dates no record is followed by a later-dated one |
| ExpenseList.SortByDateStable | src/components/ExpenseList.tsx:30-34 | records with the same date keep their list order |
| ExpenseList.SortByDateIdempotent | src/components/ExpenseList.tsx:30-34 | a list already newest first is shown in its own order |
| ExpenseList.VisibleExpenses | src/components/ExpenseList.tsx:24-34 | the panel shows a permutation of the filtered records, newest first |
| CategoryTotals.Bump | src/components/ExpenseSummary.tsx:21 | one step of the fold updates an existing key in place (the keys stay the same) or appends a new key at the end |
| CategoryTotals.BumpAmountFor | src/components/ExpenseSummary.tsx:21 | after a step, the record's category holds that record's amount more and every other key holds the same |
| CategoryTotals.BumpSum | src/components/ExpenseSummary.tsx:21 | after a step, the entries add up to the record's amount more |
| CategoryTotals.FirstIndex | src/components/ExpenseSummary.tsx:20-24 | the position of a category's first record: it is before the end exactly when the category occurs |
| CategoryTotals.TalliesListed | src/components/ExpenseSummary.tsx:20-24 | the record has a key for exactly the categories that occur in the list |
| CategoryTotals.TalliesAmounts | src/components/ExpenseSummary.tsx:20-24 | each key holds the sum of its category's records, and the entries add up to the list's total |
| CategoryTotals.TalliesDistinct | src/components/ExpenseSummary.tsx:20-24 | no key appears twice among the entries |
| CategoryTotals.TalliesOrdered | src/components/ExpenseSummary.tsx:24 | `Object.entries` lists the keys in order of each category's first occurrence in the list |
| CategoryTotals.TalliesCorrect | src/components/ExpenseSummary.tsx:17-24 | the conjunction of the four facts above: what the fold builds |
| CategoryTotals.TallyIsCategorySum | src/components/ExpenseSummary.tsx:20-24 | each entry holds its category's total |
| CategoryTotals.TalliesEmpty | src/components/ExpenseSummary.tsx:20-24 | the record is empty exactly when the list is |
| ExpenseSummary.Percentage | src/components/ExpenseSummary.tsx:28 | the percentage is 0 when the total is not positive; otherwise it times the total equals the amount times 100 |
| ExpenseSummary.BreakdownRows | src/components/ExpenseSummary.tsx:17-31 | one row per entry of the fold; no category has two rows; each row holds its category's total and that total's percentage of the grand total |
| ExpenseSummary.RowOccurs | src/components/ExpenseSummary.tsx:17-31 | every row's category occurs in the list |
| ExpenseSummary.BreakdownCategories | src/components/ExpenseSummary.tsx:17-31 | a category has a row exactly when it occurs in the list |
| ExpenseSummary.BreakdownSorted | src/components/ExpenseSummary.tsx:30 | rows are in non-increasing order of amount |
| ExpenseSummary.BreakdownSumsToTotal | src/components/ExpenseSummary.tsx:12-31 | the row amounts add up to the total spent |
| ExpenseSummary.PercentagesSumTo100 | src/components/ExpenseSummary.tsx:28 | with exact arithmetic the percentages add up to 100 when the total is positive; otherwise every percentage is 0 |
| ExpenseSummary.BreakdownTiesInFirstOccurrenceOrder | src/components/ExpenseSummary.tsx:24-30 | rows with equal amounts keep the order in which their categories first occur in the list |
| ExpenseSummary.TopCategory | src/components/ExpenseSummary.tsx:34-37 | there is no top category exactly for an empty list; otherwise the top category is a breakdown row holding its category's total, and no row and no occurring category has a larger total; among categories tied for the largest total it is the one whose first record comes earliest in the list |
| ExpenseSummary.FirstRowFirstAmongTies | src/components/ExpenseSummary.tsx:24-37 | the first breakdown row's category occurs no later in the list than any other row tied with it |
| ExpenseSummary.FirstRowIsMaximal | src/components/ExpenseSummary.tsx:34-37 | the first row's amount bounds every row and every occurring category's total |
| ExpenseSummary.Average | src/components/ExpenseSummary.tsx:79 | the average is 0 for no transactions; otherwise average times count equals the total |
| ExpenseSummary.Summarize | src/components/ExpenseSummary.tsx:12-37 | the cards show the list's total and count, an average that times the count gives the total (0 for no transactions), and the top category, present exactly when the count is non-zero |
| ExpenseSummary.EmptySummary | src/components/ExpenseSummary.tsx:63-79 | an empty list shows zero total, zero count, zero average and no top category |
| CategoryChart.GrandTotal | src/components/CategoryChart.tsx:18 | summing the per-category totals gives the total spent |
| CategoryChart.ChartMatchesBreakdown | src/components/CategoryChart.tsx:11-28 | without the configuration field, the chart's bars are exactly the summary's breakdown rows, in the same order |
| CategoryChart.ChartConfigs | src/components/CategoryChart.tsx:25 | every bar carries its own category's configuration entry |
| CategoryChart.ChartRows | src/components/CategoryChart.tsx:11-28 | one bar per entry of the fold; no category has two bars; each bar holds its category's total, its percentage and its configuration |
| CategoryChart.ChartSorted | src/components/CategoryChart.tsx:27 | bars are in non-increasing order of amount |
| CategoryChart.ChartEmpty | src/components/CategoryChart.tsx:46 | there are no bars, so the empty-chart message shows, exactly when the list is empty |
| CategoryChart.ChartPercentagesInRange | src/components/CategoryChart.tsx:24 | with no negative amounts, every bar's percentage (its width) lies between 0 and 100 |
| SeedData.SeedTallies | src/data/mockExpenses.ts:3-68 | the fold over the seed records gives six entries: food, transport, entertainment, utilities, shopping, health, with their totals |
| SeedData.SeedCategorySums | src/data/mockExpenses.ts:3-68 | each category's total in the seed, and no `other` spending |
| SeedData.SeedTotalAndAverage | src/data/mockExpenses.ts:3-68 | the seed totals 641.48 with an average of 80.185 per record |
| SeedData.SeedTop | src/data/mockExpenses.ts:3-68 | the top category of the seed is shopping at 199.99 |
| SeedData.SeedBottom | src/data/mockExpenses.ts:3-68 | the seed's breakdown has six rows and ends with entertainment at 15.99 |
| SeedData.SeedListOrder | src/data/mockExpenses.ts:3-68 | the seed is already newest first, so the list shows it in fetch order |

## Left out

- Rendering, styling, animation and the loading skeletons are left out. They are presentation only. `isLoading` is modelled as state; which skeleton it selects is not.
- Focus handling (`useRef`, `focus()`) is left out. It has no effect on data.
- The pass-through setters are left out: `handleDescriptionChange`, `handleCategoryChange` and `handleDateChange` store the event's value unchanged. The model's form state is simply assigned.
- The `useMemo` and `useCallback` caching is left out. Each view is a pure function of its inputs.
- `fetchExpenses` is left out: its 800 ms `setTimeout` and its promise. The load's result is a parameter (`LoadOutcome`). `console.error` on failure has no effect on state and is left out too.
- `crypto.randomUUID()` and `new Date().toISOString()` are parameters of `Add`, and so is today's date for the form reset. Uniqueness of ids is a precondition of the id lemmas, not a property of the UUID generator.
- Date-string parsing, time zones and invalid dates are left out. The model uses the calendar date the string denotes. `new Date('YYYY-MM-DD')` parses as UTC, while `getMonth()` reads local time, so for a user whose time zone is behind UTC every record dated the 1st of a month is counted in the previous month, whatever the time of day; for a user at or ahead of UTC the calendar fields agree. `ExpenseStore.CurrentMonth` compares calendar fields directly and does not model that shift. An invalid date's `NaN` timestamp, which makes the sort comparator inconsistent, is excluded by `ValidDates` in the ordering lemmas.
- `currentMonthExpenses` is computed by the page but never rendered. It is modelled as a function only.
- `toFixed` formatting of money and percentages is left out. It is display only.
- Floating point is left out. Amounts are exact cents and percentages are exact reals, so `PercentagesSumTo100` holds exactly, where the source's doubles may only come close.
- An add that happens while the load is still pending is lost when the load lands. `FinishLoad` replaces the list wholesale, as the source does. No lemma states this race separately.
- ExpenseForm.ParseAmount: models `parseFloat` only on texts the amount filter accepts. The form never stores any other text (`FormInvariant`). General `parseFloat` behaviour — exponents, signs, leading whitespace, `Infinity` — is not modelled.
- ExpenseStore.LoadKeepsInvariant: assumes that the fetched data already satisfies the invariant, because the source does not check fetched records. For the one fetch the page makes, which resolves with the seed, `SeedData.SeedLoadKeepsInvariant` discharges the assumption.
- ExpenseStore.AddKeepsInvariant: requires the payload the corrected submit sends. The form as written can send a `NaN` amount (see Findings), and the store would then hold a record with no positive amount.
- ExpenseStore.CurrentMonth: compares calendar fields and does not reproduce the UTC/local-time shift described above.

## Findings

| source | as written | input that shows it | evidently intended | confidence | as-written member | corrected member |
|---|---|---|---|---|---|---|
| src/components/ExpenseForm.tsx:51 | `!amount \|\| parseFloat(amount) <= 0` refuses only an empty or non-positive amount, and `NaN <= 0` is false | description `"Lunch"`, amount text `"."` (accepted by the filter at line 35): the guard passes and `onAddExpense` receives amount `NaN` | refuse any amount that does not parse to a positive number | not executed | ExpenseForm.DotAmountPassesGuard | ExpenseForm.Submit |
