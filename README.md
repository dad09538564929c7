# Personal finance manager: statistics, record guards and reports

This project is a Dafny model of the logic at the centre of a personal finance
manager. The manager is an Express/Mongoose backend with a React frontend. The
model covers five parts.

- **Transaction statistics.** One pass over the requester's transactions, with
  an optional date range. It produces the income total, the expense total, the
  net amount, the count, and a per-category `{income, expenses}` dictionary.
- **Budget statistics.** One pass over the requester's active budgets. It
  produces the count, the total amount and a per-category sum.
- **Savings goals.**
  - The schema: required fields, defaults, `min: 0` bounds, the priority enum,
    and the virtuals `progressPercentage` and `remainingAmount`.
  - Creation and update field selection.
  - The deposit `addAmountToGoal`, which completes a goal once its target is
    reached.
  - The statistics endpoint, with its guarded, rounded overall progress.
- **The by-id guard every handler repeats.** A missing record is 404. A record
  of another user is 401. Only then does the handler read, write or delete.
- **The reports page.**
  - The date range it sends to the statistics endpoint.
  - The category breakdown under the category selector.
  - The monthly trend of the latest six months.
  - The five largest expenses and incomes.
  - The income share shown per category.

Layout, one module per file:

| file | module | models |
|---|---|---|
| `common.dfy` | `Common` | `Option`, ids, and the folds `Filter`, `Count` and `Sum` with their laws |
| `grouping.dfy` | `Grouping` | the `if (!m[k]) m[k] = 0; m[k] += v` dictionaries (`GroupSum`) and JavaScript key order (`FirstSeen`) |
| `calendar.dfy` | `Calendar` | calendar days as `getFullYear/getMonth/getDate` see them |
| `text.dfy` | `Text` | decimal strings, `padStart`, the `YYYY-MM` month key, and `localeCompare` as lexicographic order |
| `access.dfy` | `Access` | the 404-then-401 guard and the get/update/delete shapes built on it |
| `transactions.dfy` | `Transactions` | the transaction controller |
| `budgets.dfy` | `Budgets` | the budget controller |
| `savings_goal_model.dfy` | `SavingsGoalModel` | the savings-goal schema and virtuals |
| `savings_goals.dfy` | `SavingsGoals` | the savings-goal controller, with the fetched document as a class |
| `reports.dfy` | `Reports` | the report helpers of the reports page |

Modelling choices:

- Amounts are integers, for example cents.
- A record store is a `map` from id to record. A listing query receives the
  records as a sequence in the database's order.
- The current time `now` is a parameter.
- Where the source mutates state inside a loop, the model is a method with a
  loop. This covers the three `forEach` statistics, the breakdown, and the
  monthly accumulation. Each method is proved equal to a recursive function,
  and the properties are proved about that function.
- The deposit mutates the fetched document in place, so the document is the
  class `SavingsGoals.GoalDocument`.

## Model

| member | source | states |
|---|---|---|
| Access.Check | backend/controllers/transactionController.js:98-107 | the existence check comes first: a missing id is NotFound whoever asks; a foreign record is NotAuthorized; otherwise the handler may act (each an if-and-only-if) |
| Access.GetById | backend/controllers/transactionController.js:22-33 | the record is returned exactly when both checks pass, and only to its owner; otherwise the guard's failure |
| Access.UpdateById | backend/controllers/transactionController.js:70-85 | on either failure the store is returned unchanged; after both checks only the addressed record changes, to the patched record, which is returned |
| Access.DeleteById | backend/controllers/transactionController.js:98-111 | on either failure the store is unchanged; after both checks exactly the addressed record is removed |
| Access.ForeignRecordsAreUntouchable | backend/controllers/budgetController.js:77-80 | for a record of another user, get, update and delete all answer 401 and leave the store as it was |
| Access.MissingRecordsAreNotFound | backend/controllers/transactionController.js:98-102 | for a missing id, get, update and delete all answer 404 whoever asks, and leave the store as it was |
| Transactions.NewTransaction | backend/controllers/transactionController.js:44-54 | the owner is the requester; the date defaults to now and the tags to the empty list; the other fields come from the body |
| Transactions.CreateTransaction | backend/controllers/transactionController.js:42-57 | the stored and returned record is the new document built from the body, with the requester as owner and the date and tags defaults; its creator can read it back and every other user is refused with 401 |
| Transactions.GetTransaction | backend/controllers/transactionController.js:20-33 | 404 for a missing id, 401 for another user's record, the record for its owner |
| Transactions.Patched | backend/controllers/transactionController.js:68-85 | each of type, category, amount, description, date and tags takes the sent value when sent and keeps the stored value otherwise; the owner never changes; an empty body changes nothing |
| Transactions.UpdateTransaction | backend/controllers/transactionController.js:66-87 | 404, then 401, with the store unchanged; otherwise the patched record is written and returned, still owned by the requester |
| Transactions.DeleteTransaction | backend/controllers/transactionController.js:96-111 | 404, then 401, with the store unchanged; otherwise exactly that record is removed |
| Transactions.StatsQuery | backend/controllers/transactionController.js:122-133 | with both dates given, each transaction of the requester dated within the range, both ends included, occurs as often as in the collection and no other transaction occurs; with either date missing, the same for all of the requester's transactions; the count is the number of matching transactions |
| Transactions.GetTransactionStats | backend/controllers/transactionController.js:120-167 | count, totals and breakdown are those of the query's transactions; the net amount is income minus expenses |
| Transactions.AccumulateStats | backend/controllers/transactionController.js:135-165 | the count is the number of transactions; the income total sums the "income" amounts, and the expense total sums every other type; together they sum all amounts; the dictionary is the breakdown fold |
| Transactions.BreakdownMeaning | backend/controllers/transactionController.js:150-162 | the breakdown's keys are exactly the categories present; each bucket holds the income and expenses of exactly that category's transactions; the buckets add up to the income and expense totals |
| Transactions.BreakdownIsTwoGroupSums | backend/controllers/transactionController.js:151-161 | the breakdown's income and expense columns are each a grouped sum that starts from zero on first sight of a key |
| Transactions.IncomeAndExpensesPartitionAmounts | backend/controllers/transactionController.js:144-148 | every transaction is counted once, as income or as expense: the two totals add up to the sum of all amounts |
| Grouping.GroupSumKeys | backend/controllers/budgetController.js:136-139 | the dictionary has an entry for exactly the keys of the records |
| Grouping.GroupSumAt | backend/controllers/budgetController.js:136-139 | each key's entry is the sum of the values of exactly the records with that key |
| Grouping.GroupSumTotal | backend/controllers/budgetController.js:136-139 | the entries add up to the sum of all values: each record is counted in exactly one entry |
| Grouping.FirstSeenMeaning | frontend/src/pages/Reports.jsx:100-111 | the dictionary's keys in insertion order: each key present occurs once, and nothing else occurs |
| Budgets.NewBudget | backend/controllers/budgetController.js:44-55 | the owner is the requester; the start date defaults to now; isActive is the schema default; the other fields come from the body |
| Budgets.CreateBudget | backend/controllers/budgetController.js:42-58 | the stored and returned budget is the new document built from the body, with the requester as owner, the startDate default and the schema's isActive default; its owner can read it back |
| Budgets.GetBudget | backend/controllers/budgetController.js:20-33 | 404 for a missing id, 401 for another user's budget, the budget for its owner |
| Budgets.Patched | backend/controllers/budgetController.js:69-86 | each of the eight whitelisted fields takes the sent value when sent and keeps the stored value otherwise; the owner never changes; an empty body changes nothing |
| Budgets.UpdateBudget | backend/controllers/budgetController.js:67-88 | 404, then 401, with the store unchanged; otherwise the patched budget is written and returned |
| Budgets.DeleteBudget | backend/controllers/budgetController.js:97-112 | 404, then 401, with the store unchanged; otherwise exactly that budget is removed |
| Budgets.ActiveBudgets | backend/controllers/budgetController.js:123 | each active budget of the requester occurs as often as in the collection and no other budget occurs; the count is the number of matching budgets |
| Budgets.GetBudgetStats | backend/controllers/budgetController.js:121-142 | totalBudgets and activeBudgets both count the active budgets; the total and the breakdown are over those budgets |
| Budgets.AccumulateStats | backend/controllers/budgetController.js:125-140 | both counters equal the number of budgets; the total sums their amounts; the breakdown's keys are exactly the categories present, and its values add up to the total |
| SavingsGoalModel.Build | deployment-package/backend/models/SavingsGoal.js:3-45 | a document saves exactly when name, targetAmount and targetDate are given, the amounts are at least 0 and the priority is in the enum; a saved document keeps every given field; a missing currentAmount is 0, isActive true, priority "medium" and category "General" |
| SavingsGoalModel.RoundedRatio | deployment-package/backend/models/SavingsGoal.js:49 | Math.round of a quotient: the nearest integer, with halves rounded up |
| SavingsGoalModel.RoundedRatioUnique | deployment-package/backend/models/SavingsGoal.js:49 | only one integer meets the rounding contract |
| SavingsGoalModel.ProgressPercentage | deployment-package/backend/models/SavingsGoal.js:48-50 | a finite value exactly when the target is not zero, rounded from 100 * current / target for a positive and for a negative target alike; a zero target gives Infinity, -Infinity or NaN |
| SavingsGoalModel.ProgressPercentageBounds | deployment-package/backend/models/SavingsGoal.js:48-50 | on a saved goal with a positive target the percentage is at least 0, at most 100 while the target is not reached, and at least 100 once it is |
| SavingsGoalModel.ProgressPercentageIsNotCapped | deployment-package/backend/models/SavingsGoal.js:48-50 | the percentage is not capped: 250 of a target of 100 reports 250 |
| SavingsGoalModel.RemainingAmount | deployment-package/backend/models/SavingsGoal.js:53-55 | the remaining amount plus the current amount is the target; it is at most 0 exactly when the target is reached |
| SavingsGoals.CreateFields | deployment-package/backend/controllers/savingsGoalController.js:44-54 | creation passes the requester as owner and the body's name, targetAmount, targetDate, description, priority and category as sent, and never passes currentAmount or isActive |
| SavingsGoals.CreateSavingsGoal | deployment-package/backend/controllers/savingsGoalController.js:42-60 | a new goal is stored exactly when it passes validation; it is the document built from the selected fields: the body's name, targetAmount, targetDate and description, its priority or "medium", its category or "General", owned by the requester, at 0 and active; a rejected goal is a server error and stores nothing |
| SavingsGoals.CreateIgnoresClientProgress | deployment-package/backend/controllers/savingsGoalController.js:44 | whatever the client sends as currentAmount or isActive, creation gives the same result |
| SavingsGoals.GetSavingsGoal | deployment-package/backend/controllers/savingsGoalController.js:20-33 | 404 for a missing id, 401 for another user's goal, the goal for its owner |
| SavingsGoals.Patched | deployment-package/backend/controllers/savingsGoalController.js:68-85 | each of the eight updatable fields, currentAmount and isActive included, takes the sent value when sent and keeps the stored value otherwise; the owner never changes |
| SavingsGoals.UpdateSavingsGoal | deployment-package/backend/controllers/savingsGoalController.js:66-87 | 404, then 401, with the store unchanged; otherwise the overwritten goal is stored and returned |
| SavingsGoals.UpdateCanLeaveReachedGoalActive | deployment-package/backend/controllers/savingsGoalController.js:81-85 | an update can raise currentAmount past the target and leave the goal active, because the update has no completion check |
| SavingsGoals.DeleteSavingsGoal | deployment-package/backend/controllers/savingsGoalController.js:96-111 | 404, then 401, with the store unchanged; otherwise exactly that goal is removed |
| SavingsGoals.Deposited | deployment-package/backend/controllers/savingsGoalController.js:135-140 | a deposit adds exactly the amount; afterwards the goal is active exactly when it was active and is still below target; nothing else changes |
| SavingsGoals.GoalDocument.Load | deployment-package/backend/controllers/savingsGoalController.js:124 | the fetched document holds the stored goal |
| SavingsGoals.GoalDocument.AddAmount | deployment-package/backend/controllers/savingsGoalController.js:135-140 | the in-place update leaves the document equal to the deposited goal: current amount grown by the amount, inactive once the target is reached, never reactivated |
| SavingsGoals.Save | deployment-package/backend/controllers/savingsGoalController.js:142 | a document that passes the schema's validators replaces the stored one; one that fails is a server error and changes nothing |
| SavingsGoals.AddAmountToGoal | deployment-package/backend/controllers/savingsGoalController.js:120-146 | 404, then 401, with the store unchanged; otherwise the deposited goal is saved; a returned goal that reached its target is inactive; no failure changes the store |
| SavingsGoals.DepositKeepsValid | deployment-package/backend/models/SavingsGoal.js:13-22 | a non-negative deposit keeps a saved goal valid, so it saves |
| SavingsGoals.OverdrawingDepositIsRejected | deployment-package/backend/models/SavingsGoal.js:18-22 | a deposit that would make currentAmount negative fails at save and leaves the store unchanged |
| SavingsGoals.CompletedStaysCompleted | deployment-package/backend/controllers/savingsGoalController.js:135-142 | once a goal is inactive, no sequence of deposits reactivates it, and the current amount moves by exactly their sum |
| SavingsGoals.ReachingTargetCompletes | deployment-package/backend/controllers/savingsGoalController.js:138-140 | a non-empty run of deposits that ends at or above the target leaves the goal completed |
| SavingsGoals.TotalProgress | deployment-package/backend/controllers/savingsGoalController.js:176-178 | 0 when the summed target is not positive; otherwise the rounded percentage of the target reached |
| SavingsGoals.GetSavingsGoalStats | deployment-package/backend/controllers/savingsGoalController.js:152-180 | totalGoals counts the requester's goals, activeGoals the active ones among them and completedGoals the inactive ones; the summed targets and amounts, and the guarded progress |
| SavingsGoals.AccumulateStats | deployment-package/backend/controllers/savingsGoalController.js:156-178 | activeGoals counts the active goals and completedGoals the others, and the two add up to totalGoals; the totals sum targets and current amounts |
| SavingsGoals.TotalProgressBounds | deployment-package/backend/controllers/savingsGoalController.js:176-178 | for saved goals the overall progress is at least 0, and at most 100 while no goal is overfunded |
| Reports.WeekStart | frontend/src/pages/Reports.jsx:33-34 | the week range starts on a valid day strictly before now, and seven days after it is now |
| Reports.ReportRange | frontend/src/pages/Reports.jsx:28-49 | the end is now and the start is a valid day not after it; week: seven days back; quarter: day 1 of the quarter's first month; year: January 1; month and any other value: day 1 of the current month |
| Reports.CategoryBreakdown | frontend/src/pages/Reports.jsx:77-92 | the loop builds the breakdown fold of exactly the selected transactions |
| Reports.AllSelectsEverything | frontend/src/pages/Reports.jsx:80 | with "all" selected, every transaction reaches the breakdown |
| Reports.SelectedCategoryOnly | frontend/src/pages/Reports.jsx:80-83 | with a category selected, that category is the only possible key |
| Reports.IncomeShare | frontend/src/pages/Reports.jsx:232-235 | a share is shown exactly when income plus expenses is positive; it is the income as a percentage of that sum |
| Reports.IncomeShareBounds | frontend/src/pages/Reports.jsx:232-235 | with non-negative amounts the share is between 0 and 100, and it is 100 exactly when there are no expenses |
| Text.DecimalRoundTrip | frontend/src/pages/Reports.jsx:98 | a year or month written in decimal reads back as the same number |
| Text.MonthDigitsFormat | frontend/src/pages/Reports.jsx:98 | the month part of the key is two digits spelling the 1-based month |
| Text.MonthKeyFormat | frontend/src/pages/Reports.jsx:98 | a month key is the year, a dash, then the two-digit month |
| Text.ParseYearRoundTrip | frontend/src/pages/Reports.jsx:98 | the year part of a key reads back as the year, negative years included |
| Text.MonthKeyRoundTrip | frontend/src/pages/Reports.jsx:98 | a month key reads back as its date's year and month, so distinct months have distinct keys |
| Text.StrLessTotal | frontend/src/pages/Reports.jsx:112 | the key comparison is a strict total order on distinct keys |
| Text.StrLessTransitive | frontend/src/pages/Reports.jsx:112 | the key comparison is transitive |
| Text.StrLessIrreflexive | frontend/src/pages/Reports.jsx:112 | no key sorts before itself |
| Text.DigitsOrder | frontend/src/pages/Reports.jsx:112 | on digit strings of one length, string order is numeric order |
| Text.MonthKeyOrderIsChronological | frontend/src/pages/Reports.jsx:98-112 | for four-digit years, sorting keys as strings is sorting months chronologically |
| Text.MonthKeyOrderAcrossDigitCounts | frontend/src/pages/Reports.jsx:98-112 | keys of years with different digit counts do not sort chronologically: 1000-01 sorts before 999-01 |
| Reports.SortByKeyAscending | frontend/src/pages/Reports.jsx:111-112 | entries with distinct keys come out of the sort in strictly ascending key order |
| Reports.Entries | frontend/src/pages/Reports.jsx:111 | Object.entries lists one entry per key, in key order, each paired with that key's bucket |
| Reports.SortByKey | frontend/src/pages/Reports.jsx:111-112 | the sort is a permutation of the entries |
| Reports.LastSix | frontend/src/pages/Reports.jsx:113 | slice(-6) is the suffix of length min(6, n) |
| Reports.LastSixMeaning | frontend/src/pages/Reports.jsx:113 | slice(-6) keeps min(6, n) entries, still ascending, and every entry dropped sorts before every entry kept |
| Reports.TrendMeaning | frontend/src/pages/Reports.jsx:111-113 | the trend has min(6, n) entries for n months, in ascending key order, each with its own month's bucket; every month left out sorts before every month listed |
| Reports.MonthlyTrend | frontend/src/pages/Reports.jsx:94-114 | getMonthlyTrend is the trend of the transactions' month keys |
| Reports.TrendBy | frontend/src/pages/Reports.jsx:95-113 | the loop builds the monthly buckets and the keys in insertion order, then sorts and keeps the last six |
| Reports.TrendMonths | frontend/src/pages/Reports.jsx:111-113 | the trend lists the latest min(6, n) of the n months present, ascending, and any month present but not listed sorts before all listed months |
| Reports.TrendBuckets | frontend/src/pages/Reports.jsx:100-108 | each listed month holds the income and the expenses of exactly that month's transactions |
| Reports.SortByAmountSorted | frontend/src/pages/Reports.jsx:119 | the sort leaves amounts in non-increasing order |
| Reports.SortByAmount | frontend/src/pages/Reports.jsx:119 | the sort is a permutation of the transactions |
| Reports.FirstFive | frontend/src/pages/Reports.jsx:120 | slice(0, 5) is the prefix of length min(5, n) |
| Reports.FirstFiveMeaning | frontend/src/pages/Reports.jsx:120 | slice(0, 5) keeps min(5, n) elements, still sorted, and nothing left out is larger than anything kept |
| Reports.TopMeaning | frontend/src/pages/Reports.jsx:116-128 | at most five transactions, all of the requested type, largest first, taken from the input; none left out is larger than one listed; with fewer than five of the type, all are listed |
| Reports.Top | frontend/src/pages/Reports.jsx:116-128 | the list holds min(5, n) transactions, where n counts the transactions of the requested type |
| Reports.TopFromInput | frontend/src/pages/Reports.jsx:116-128 | the top list is taken from the whole input, and no transaction of the kind left out of it has a larger amount than one listed |
| Reports.TopExpenses | frontend/src/pages/Reports.jsx:116-121 | min(5, n) of the n expenses, largest amount first, taken from the input; no expense left out has a larger amount than one listed |
| Reports.TopIncome | frontend/src/pages/Reports.jsx:123-128 | min(5, n) of the n incomes, largest amount first, taken from the input; no income left out has a larger amount than one listed |

## Left out

- Floating point. Amounts are exact integers. The model says nothing about
  rounding error in JavaScript sums, about `parseFloat`, about `toFixed(1)` in
  the income share, or about `formatCurrency`.
- Time of day, time zones and daylight saving time. Dates are calendar days.
  Three consequences follow:
  - the week range goes back seven days, not 7 × 24 hours;
  - the statistics range compares days, so a transaction later on the same
    day as `endDate` is counted;
  - the month of a transaction is the month of its calendar day.
- Parsing dates from strings, and `toISOString`.
- The database. `find`, `sort`, `findById`, `findByIdAndUpdate` and
  `findByIdAndDelete` are modelled as operations on a map or a sequence.
  - The order of `.sort({ date: -1 })` and `.sort({ createdAt: -1 })` is left
    to the database, so the listing handlers are not modelled.
  - Database failures (the 500 "Server error" paths) appear only where
    validation at save rejects a document.
- Express routing, the `protect` middleware, status codes and JSON bodies.
  Only the guard's decision is modelled.
- The Transaction and Budget schemas are not part of this model. Saving a
  transaction or a budget is assumed to succeed. The default of a budget's
  `isActive` is a parameter.
- Categories that name a property every JavaScript object inherits
  (`constructor`, `toString`, `valueOf`, `hasOwnProperty`, `__proto__` and the
  other `Object.prototype` names) are not modelled. The breakdowns are plain
  object literals, so `!breakdown[category]` is false for such a name and the
  zero entry is never created; `+=` then works on the inherited value.
  - In the transaction breakdown and the report's breakdown the entry is the
    inherited value, so `.income += …` writes `NaN` onto the inherited object
    (or onto the shared prototype), and the key is not listed.
  - In the budget breakdown `+=` on an inherited function creates an own
    property holding a string, such as
    `"function toString() { [native code] }100"`, and that key is listed with
    the string as its value; for `__proto__` the key is not listed.

  The model treats every category as an ordinary key that starts at zero. The
  members below are stated for that model:
- Transactions.AccumulateStats: its breakdown is the model's fold, which for
  an inherited property name differs from the source's object.
- Transactions.GetTransactionStats: the breakdown it returns is the model's fold,
  with the same gap as Transactions.AccumulateStats.
- Transactions.BreakdownMeaning: its key set and per-category buckets do not
  hold of the source for a category with an inherited property name.
- Budgets.AccumulateStats: its breakdown is the model's fold, which for an
  inherited property name differs from the source's object.
- Budgets.GetBudgetStats: the breakdown it returns is the model's fold, with the
  same gap as Budgets.AccumulateStats.
- Grouping.GroupSumAt: read as the budget breakdown, an entry for an inherited
  property name is a string in the source, where the model's is the sum.
- Grouping.GroupSumKeys: read as the budget breakdown, a `__proto__` category
  is not listed in the source, where the model lists it.
- Reports.CategoryBreakdown: the same gap as the transaction breakdown.
- Access.UpdateById: each request is modelled as one atomic step on the store,
  and requests as sequential. In the source the existence and owner checks
  (`findById`) and the write (`findByIdAndUpdate`) are two database calls. A
  record deleted between them makes the update answer 200 with `null`.
- Access.DeleteById: sequential and atomic in the same way; the check and
  `findByIdAndDelete` are two calls in the source.
- SavingsGoals.AddAmountToGoal: sequential and atomic in the same way. The
  source reads the document (`findById`), changes it in memory and writes it
  back with `save`. Two concurrent deposits can then lose one increment (last
  write wins).
- SavingsGoals.CompletedStaysCompleted: the amount moves by the sum of the
  deposits only when the deposits run one after another, as above.
- Transactions.Patched: the model assumes Mongoose 6 or later, where an update
  drops keys whose value is `undefined`, so a field the client leaves out is
  not written. Mongoose 5 wrote such keys as `null`, which would clear the
  stored field. A client that sends `null` itself is not modelled either.
- Budgets.Patched: the same Mongoose assumption as Transactions.Patched.
- SavingsGoals.Patched: the same Mongoose assumption as Transactions.Patched.
- Text.StrLessTotal: `localeCompare` is modelled as code-point lexicographic
  order. Month keys hold only digits and a dash, where the two orders agree.
- Grouping.FirstSeen: JavaScript lists integer-like keys first in ascending
  order. Categories that look like integers would be listed in a different
  order than the one modelled.
- Reports.SortByAmountSorted: `Array.prototype.sort` is stable. The model
  sorts stably, but stability is not stated as a property.
- Reports.CategoryBreakdown: its contract ties the loop to the breakdown fold.
  The totals per category and the key set are stated by
  Transactions.BreakdownMeaning and Reports.SelectedCategoryOnly.
- `calculateProgress` in the savings-goals page, and the other pages, are
  React state and network calls.
- `getDaysRemaining` and date display.
