# Expense tracker core in Dafny

This project models the state and the derived values of the `ExpenseTracker`
React component (`ExpenseTracker.js`), a personal income and expense log:

- **State** (`tracker.dfy`): the component's state variables become the
  fields of the class `Tracker.ExpenseTracker`. These are the transaction
  log `expenses` (newest first), the add form's `description`, `amount`,
  `category` and `type` (here `kind`), and the list `filter`.
  - `addTransaction` and `deleteTransaction` are methods that update those
    fields.
  - `getCategoryStats` is a method. It builds the dictionary from category
    to running sum in a loop, reads it back in key order with percentages,
    and sorts the result.
- **Records and totals** (`ledger.dfy`):
  - the add guard and the new log after an add (`AddEntry`);
  - deletion by id;
  - the `filteredExpenses` list;
  - `totalIncome`, `totalExpenses` and `balance`.
- **Breakdown** (`breakdown.dfy`): the category breakdown as pure functions.
  - Grouping is a left fold in the order of the log.
  - Percentages are a share of the expense total.
  - The descending sort by amount is stable, like `Array.prototype.sort`.
- **Categories** (`categories.dfy`): the seven-row category table, and the
  label and colour lookups with their fallbacks.
- **Trimming** (`text.dfy`): JavaScript's `String.prototype.trim`, with its
  exact set of whitespace and line-terminator code points.
- **A worked session** (`scenario.dfy`): a salary and two expenses, with
  their totals and breakdown.

Modelling choices:

- Amounts are exact `real`s.
- The amount field is represented by what `parseFloat` makes of it:
  `None` stands for an empty field or text that is not a number.
- The clock reading `Date.now()` that becomes a record's id is a parameter
  of `AddTransaction`.
- A record (`Ledger.Transaction`, the object built at `ExpenseTracker.js`
  lines 35-42) holds its id, description, amount, category and type; its type
  is `Ledger.Kind`, `Income` or `Expense`.
- The category table (`Categories.Table`, lines 23-31) holds the seven rows
  with their values, labels and colours, in the form's order.
- `type` is a Dafny keyword, so the record's type field is called `kind`.
  For the same reason the table's `label` field is called `caption`.

## Model

| member | source | states |
|---|---|---|
| Text.TrimStartSpec | ExpenseTracker.js:34 | trimming the start keeps a suffix of the input; everything cut off is whitespace; the result does not start with whitespace |
| Text.TrimEndSpec | ExpenseTracker.js:34 | trimming the end keeps a prefix of the input; everything cut off is whitespace; the result does not end with whitespace |
| Text.TrimEmptyIff | ExpenseTracker.js:34 | `description.trim()` is empty if and only if the text is all whitespace |
| Text.TrimTrimmed | ExpenseTracker.js:37 | neither end of `description.trim()` is whitespace |
| Text.Trim | ExpenseTracker.js:34 | no contract of its own: `description.trim()` as the trimmed start followed by the trimmed end; TrimEmptyIff, TrimTrimmed, TrimCharacterization, TrimFixedIff and TrimIdempotent state its properties |
| Text.TrimStartAt | ExpenseTracker.js:34 | leading whitespace up to the first other character is exactly what is removed |
| Text.TrimEndAt | ExpenseTracker.js:34 | trailing whitespace after the last other character is exactly what is removed |
| Text.WhitespaceJoin | ExpenseTracker.js:34 | two all-whitespace pieces make an all-whitespace string |
| Text.TrimCharacterization | ExpenseTracker.js:37 | the trimmed text is the slice between the leading and the trailing whitespace |
| Text.TrimEndOfCore | ExpenseTracker.js:37 | trimming the end of a suffix stops at the same last character |
| Text.TrimFixedIff | ExpenseTracker.js:37 | trim leaves a string unchanged if and only if neither of its ends is whitespace |
| Text.TrimIdempotent | ExpenseTracker.js:37 | trimming an already trimmed description changes nothing |
| Ledger.Accepts | ExpenseTracker.js:34 | no contract of its own: the add guard `description.trim() && amount && parseFloat(amount) > 0`; AcceptsIff states it without Trim |
| Ledger.AcceptsIff | ExpenseTracker.js:34 | the add guard holds if and only if the description has a non-whitespace character and the amount parses to a positive number |
| Ledger.AddEntry | ExpenseTracker.js:33-47 | a rejected add leaves the log as it was; an accepted one puts one record in front with the clock id, trimmed description, parsed amount, category and type, followed by the old log |
| Ledger.AddPreservesInvariants | ExpenseTracker.js:33-47 | every add keeps all records positive with trimmed, non-empty descriptions; with a fresh clock reading it keeps ids distinct |
| Ledger.AcceptsTrimmed | ExpenseTracker.js:34-37 | the guard accepts a trimmed, non-empty description with a positive amount, and trimming leaves that description unchanged |
| Ledger.AddRecordRoundTrip | ExpenseTracker.js:36-43 | re-entering a well-formed record's own fields adds exactly that record in front of the log |
| Ledger.WithoutId | ExpenseTracker.js:49-51 | `expenses.filter(e => e.id !== id)` keeps exactly the records whose id differs, never more records than before |
| Ledger.WithoutIdAppend | ExpenseTracker.js:50 | deletion filters piece by piece, so the order of the remaining records is kept |
| Ledger.WithoutAbsentId | ExpenseTracker.js:50 | deleting an id that no record has leaves the log unchanged |
| Ledger.DeleteRemovesOne | ExpenseTracker.js:50 | with distinct ids, deleting a record's id removes exactly that record and keeps the others in order |
| Ledger.OthersKeepTheirIds | ExpenseTracker.js:50 | with distinct ids, no record before or after a given one has its id |
| Ledger.AddThenDelete | ExpenseTracker.js:33-51 | deleting the id of the record just added, when that id was fresh, gives back the log from before the add |
| Ledger.OfKind | ExpenseTracker.js:60-66 | `filter(e => e.type === kind)` keeps exactly the records of that type, never more records than before |
| Ledger.OfKindAppend | ExpenseTracker.js:60-66 | selecting by type works piece by piece and keeps the order |
| Ledger.Filtered | ExpenseTracker.js:53-58 | filter 'expense' keeps exactly the expenses, 'income' exactly the incomes, and 'all' or any other value the whole log |
| Ledger.FilteredAppend | ExpenseTracker.js:53-58 | the filtered list keeps the log's order |
| Ledger.SumAmounts | ExpenseTracker.js:60-66 | no contract of its own: `reduce((sum, e) => sum + e.amount, 0)` as a left fold; SumAmountsAppend and SumAmountsPositive state its properties |
| Ledger.TotalIncome | ExpenseTracker.js:60-62 | no contract of its own: the sum of the income records; TotalsAppend, TotalsPartition, TotalsNonNegative and AddEffectOnTotals state its properties |
| Ledger.TotalExpenses | ExpenseTracker.js:64-66 | no contract of its own: the sum of the expense records; TotalsAppend, TotalsPartition, TotalsNonNegative and AddEffectOnTotals state its properties |
| Ledger.Balance | ExpenseTracker.js:68 | no contract of its own: income minus expenses; BalanceIsSignedSum relates it to an independent signed sum |
| Ledger.SumAmountsAppend | ExpenseTracker.js:60-66 | the running sum of `reduce` over two pieces is the sum of their sums |
| Ledger.TotalsAppend | ExpenseTracker.js:60-66 | both totals are 0 on an empty log and add up across pieces of the log |
| Ledger.BalanceIsSignedSum | ExpenseTracker.js:68 | the balance equals an independent sum that counts income positive and expenses negative |
| Ledger.TotalsPartition | ExpenseTracker.js:60-66 | income plus expenses is the sum of all amounts |
| Ledger.SumAmountsPositive | ExpenseTracker.js:60-66 | with positive amounts, a sum is non-negative and is zero only for no records |
| Ledger.TotalsNonNegative | ExpenseTracker.js:60-66 | on a well-formed log both totals are non-negative, and each is zero if and only if no record has that type |
| Ledger.AddEffectOnTotals | ExpenseTracker.js:33-47 | an accepted add raises the total of its own type by its amount and leaves the other total alone |
| Breakdown.Categories | ExpenseTracker.js:77-78 | the keys of the grouped entries, one per entry, in order |
| Breakdown.Accumulate | ExpenseTracker.js:75 | no contract of its own: one `stats[c] = (stats[c] \|\| 0) + amount` on the entries in key order; AccumulateCategories, AccumulateDistinct, AccumulateAmounts and AccumulateSum state its properties |
| Breakdown.AccumulateCategories | ExpenseTracker.js:74-76 | `stats[c] = (stats[c] \|\| 0) + amount` keeps the keys in order and appends `c` as the last key exactly when it is new |
| Breakdown.AccumulateDistinct | ExpenseTracker.js:74-76 | the update keeps keys distinct; it adds `amount` to `c`'s entry (starting from 0) and leaves every other entry alone |
| Breakdown.AccumulateAmounts | ExpenseTracker.js:74-76 | the amount of each entry after the update, position by position |
| Breakdown.AccumulateSum | ExpenseTracker.js:74-76 | each update raises the sum of all entries by `amount` |
| Breakdown.OfCategory | ExpenseTracker.js:72-76 | exactly the records of one category |
| Breakdown.OfCategoryAppend | ExpenseTracker.js:72-76 | selecting one category works piece by piece and keeps the order |
| Breakdown.FirstIndex | ExpenseTracker.js:72-76 | the position of a category's first record, or the length when it has none |
| Breakdown.FirstIndexUnique | ExpenseTracker.js:72-76 | any position with the first-occurrence property is the first index |
| Breakdown.FirstIndexSnoc | ExpenseTracker.js:72-76 | appending a record keeps every first index that already lies in the log; a category not yet seen gets the new record's position if the record has it |
| Breakdown.Grouped | ExpenseTracker.js:72-76 | no contract of its own: the `forEach` as a left fold of Accumulate over the records; GroupedKeys, GroupedAmounts and GroupedSum state its properties, and Tracker.Tally is proved equal to it |
| Breakdown.GroupedKeys | ExpenseTracker.js:72-78 | the dictionary has one key per category that occurs among the records, and no other, in order of first occurrence |
| Breakdown.GroupedKeysStep | ExpenseTracker.js:72-78 | one more step of the `forEach` keeps that key order |
| Breakdown.GroupedKeyStep | ExpenseTracker.js:72-78 | after one more record, a category is a key exactly when it occurs in the records |
| Breakdown.GroupedOrderStep | ExpenseTracker.js:72-78 | after one more record, the keys are still ordered by first occurrence |
| Breakdown.GroupedAmounts | ExpenseTracker.js:72-76 | each key's value is the sum of the amounts of that category's records |
| Breakdown.GroupedAmountsStep | ExpenseTracker.js:72-76 | one more step of the `forEach` keeps each key's value equal to its category sum |
| Breakdown.GroupedAmountStep | ExpenseTracker.js:72-76 | one more record adds its amount to its own category's sum only |
| Breakdown.GroupedAmountAt | ExpenseTracker.js:72-76 | after one more record, each entry holds the sum of its category's records |
| Breakdown.AccumulateAmountAt | ExpenseTracker.js:74-76 | one fold step keeps each entry equal to the sum of its category's records |
| Breakdown.NewCategoryHasNoRecords | ExpenseTracker.js:72-76 | a category that is not yet a key has no records so far |
| Breakdown.NoRecordsOfCategory | ExpenseTracker.js:72-76 | a category that no record has selects no records |
| Breakdown.GroupedSum | ExpenseTracker.js:72-76 | the values of the dictionary sum to the sum of all amounts |
| Breakdown.Percentage | ExpenseTracker.js:81 | no contract of its own: `amt / totalExpenses * 100` when the total is positive, 0 otherwise, as an exact ratio |
| Breakdown.WithPercentages | ExpenseTracker.js:77-82 | no contract of its own: each entry with its category, amount and percentage, in key order; WithPercentagesSums states its sums and Tracker.Entries is proved equal to it |
| Breakdown.WithPercentagesSums | ExpenseTracker.js:77-82 | attaching percentages keeps the amounts; the percentages sum to the amounts' sum over the total, times 100 |
| Breakdown.InsertByAmount | ExpenseTracker.js:83 | no contract of its own: one insertion step of the stable descending sort; the InsertByAmount lemmas below state its properties |
| Breakdown.InsertByAmountPermutes | ExpenseTracker.js:83 | inserting adds exactly one entry and keeps both sums |
| Breakdown.InsertByAmountSorted | ExpenseTracker.js:83 | inserting into a list sorted by decreasing amount keeps it sorted |
| Breakdown.InsertByAmountStable | ExpenseTracker.js:83 | inserting keeps the relative order of entries with equal amounts |
| Breakdown.InsertByAmountDistinct | ExpenseTracker.js:83 | inserting a new category keeps the categories distinct |
| Breakdown.SortedCons | ExpenseTracker.js:83 | an entry no smaller than every entry of a list sorted by decreasing amount can go in front of it |
| Breakdown.SortByAmount | ExpenseTracker.js:83 | `sort((a, b) => b.amount - a.amount)` gives a permutation sorted by decreasing amount, stable for equal amounts, with both sums unchanged |
| Breakdown.SortStep | ExpenseTracker.js:83 | inserting the first entry into the sorted rest gives a sorted permutation of the whole list, with equal amounts in their original order |
| Breakdown.SortByAmountDistinct | ExpenseTracker.js:83 | sorting keeps the categories distinct |
| Breakdown.CategoryStats | ExpenseTracker.js:70-84 | no contract of its own: `getCategoryStats()` as group, attach percentages, sort; CategoryStatsEntries, CategoryStatsSums, CategoryStatsOrder, ListsIffSpentOn and CategoryStatsEmpty state it |
| Breakdown.CategoryStatsFromGrouped | ExpenseTracker.js:70-84 | every entry of the breakdown is one of the dictionary's entries with its percentage, and every such entry is in the breakdown |
| Breakdown.CategoryStatsEntries | ExpenseTracker.js:70-84 | the categories are distinct; a category is listed if and only if it has an expense; its amount is its expenses' sum and its percentage that amount's share of total expenses |
| Breakdown.ListsIffSpentOn | ExpenseTracker.js:70-84 | a category appears in the breakdown if and only if some expense record has it |
| Breakdown.SpentOnIffKey | ExpenseTracker.js:72-78 | a category has an expense record if and only if it is a key of the dictionary |
| Breakdown.ListsIffKey | ExpenseTracker.js:70-84 | a category is listed in the breakdown if and only if it is a key of the dictionary |
| Breakdown.KeyListed | ExpenseTracker.js:77-83 | an entry with its percentage that is among the results lists its category |
| Breakdown.ListedKey | ExpenseTracker.js:77-83 | a listed category whose entry comes from the dictionary is one of its keys |
| Breakdown.ListsIffKeyOf | ExpenseTracker.js:77-83 | any arrangement of the entries with percentages lists exactly the dictionary's keys |
| Breakdown.CategoryStatsSums | ExpenseTracker.js:70-84 | the amounts sum to total expenses, and the percentages sum to 100 when that total is positive |
| Breakdown.CategoryStatsOrder | ExpenseTracker.js:70-84 | sorted by decreasing amount, a permutation of the entries in first-occurrence order, and equal amounts keep that order |
| Breakdown.CategoryStatsEmpty | ExpenseTracker.js:70-84 | with no expense records the breakdown is empty |
| Categories.FindIndex | ExpenseTracker.js:94 | the first row with the value, or the table's length when there is none |
| Categories.Find | ExpenseTracker.js:94 | `categories.find(...)` returns a row with that value, and nothing if and only if no row has it |
| Categories.Label | ExpenseTracker.js:97-99 | no contract of its own: `getCategoryLabel`, the found row's label or 'Other'; LookupKnown, LookupUnknown and LabelOtherIff state it |
| Categories.Color | ExpenseTracker.js:93-95 | no contract of its own: `getCategoryColor`, the found row's colour or 'bg-gray-500'; LookupKnown and LookupUnknown state it |
| Categories.LookupKnown | ExpenseTracker.js:93-99 | every table row's value gets back that row's own label and colour |
| Categories.DistinctValues | ExpenseTracker.js:23-31 | no two rows of the table share a value |
| Categories.LookupUnknown | ExpenseTracker.js:93-99 | a value outside the table gets the label 'Other' and the colour 'bg-gray-500' |
| Categories.LabelOtherIff | ExpenseTracker.js:97-99 | the label is 'Other' if and only if the value is 'other' or is not in the table |
| Categories.CaptionOther | ExpenseTracker.js:23-31 | only the 'other' row is labelled 'Other' |
| Tracker.DictionaryHas | ExpenseTracker.js:71-76 | the dictionary's keys are exactly the grouped categories |
| Tracker.DictionaryAt | ExpenseTracker.js:71-76 | with distinct keys, the dictionary maps each grouped category to its sum |
| Tracker.DictionaryAccumulate | ExpenseTracker.js:74-76 | `stats[c] = (stats[c] \|\| 0) + amount` on the dictionary of a grouping gives the dictionary of one more fold step |
| Tracker.GroupedSnoc | ExpenseTracker.js:72-76 | grouping one more record is one more fold step |
| Tracker.TallyStep | ExpenseTracker.js:74-76 | one dictionary update keeps the key list in insertion order and the sums of one more fold step |
| Tracker.Tally | ExpenseTracker.js:71-76 | the `forEach` loop leaves the dictionary of the grouping fold, with its keys in insertion order |
| Tracker.Entries | ExpenseTracker.js:77-82 | `Object.entries(stats).map(...)` yields each key's entry, in key order, with its percentage |
| Tracker.ExpenseTracker.constructor | ExpenseTracker.js:5-10 | the initial state: empty log, empty form, category 'food', type 'expense', filter 'all' |
| Tracker.ExpenseTracker.AddTransaction | ExpenseTracker.js:33-47 | the new log is `AddEntry` of the old state; the description and amount are cleared exactly when the add is accepted; the other fields are unchanged; records stay well formed |
| Tracker.ExpenseTracker.DeleteTransaction | ExpenseTracker.js:49-51 | the new log is the old one without the id's records; the form and filter are unchanged; records stay well formed |
| Tracker.ExpenseTracker.GetCategoryStats | ExpenseTracker.js:70-84 | the result is the breakdown `CategoryStats` of the current log, whose properties are the Breakdown lemmas above |
| Scenario.EnterSalary | ExpenseTracker.js:33-47 | adding the salary to an empty log gives a log holding just that record |
| Scenario.EnterLunch | ExpenseTracker.js:33-47 | adding the lunch puts it in front of the salary |
| Scenario.EnterBus | ExpenseTracker.js:33-47 | adding the bus fare puts it in front of the lunch |
| Scenario.SessionLog | ExpenseTracker.js:33-47 | adding Salary (income 1000), Lunch (food 50) and Bus (transport 30) gives the log Bus, Lunch, Salary |
| Scenario.SessionKinds | ExpenseTracker.js:60-66 | in that log the incomes are Salary, and the expenses are Bus then Lunch |
| Scenario.SessionSums | ExpenseTracker.js:60-66 | those incomes sum to 1000 and those expenses to 80 |
| Scenario.SessionTotals | ExpenseTracker.js:60-68 | income 1000, expenses 80, balance 920 |
| Scenario.SessionGrouped | ExpenseTracker.js:72-76 | the dictionary is transport 30, then food 50 |
| Scenario.SessionPercentages | ExpenseTracker.js:77-82 | transport gets 37.5% and food 62.5% |
| Scenario.SessionSort | ExpenseTracker.js:83 | sorting puts food before transport |
| Scenario.SessionBreakdown | ExpenseTracker.js:70-84 | the breakdown is food (50, 62.5%) then transport (30, 37.5%) |

## Left out

- Persistence is not modelled: loading from `localStorage` at startup, `JSON.parse` and `JSON.stringify`, and the save after every change. A corrupt stored value would make `JSON.parse` throw; it would not give an empty log.
- The `date` field (`new Date().toISOString()`) and `formatDate` are not modelled. Both depend on the clock and the locale, and nothing else reads the date.
- `Date.now()` is a parameter of `AddTransaction`. Nothing guarantees that two adds get different ids. Unique ids are therefore an assumption of the lemmas that need them (`AddPreservesInvariants`, `DeleteRemovesOne`, `AddThenDelete`), not an invariant of the class.
- `parseFloat` on the amount text is not modelled. The model starts from its reading: a number, or `None` for an empty field or NaN.
- Floating point is not modelled. Amounts and sums are exact reals, so the model has no rounding in `reduce`.
- Rounding of percentages is not modelled. A percentage is the exact ratio `amount / total * 100`. The source rounds it to one decimal with `toFixed(1)`, which also turns it into a string. This is why the percentages sum to exactly 100 in the model.
- `Object.entries` is modelled as returning keys in insertion order. JavaScript lists integer-like keys first in numeric order; category values come from the table, which has no such value. The lemmas also assume that category values are table values: for a name that every JavaScript object inherits (`constructor`, `toString`, `__proto__` and the like), `stats[e.category] || 0` would read the inherited member instead of starting from 0. The category select offers only table values, so this cannot happen in the component.
- The JSX rendering, the React hooks and the setters called from input handlers are not modelled. Those setters (`setDescription`, `setCategory`, `setFilter` and the others) only assign a field.
