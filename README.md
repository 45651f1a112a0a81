# Expense tracker budget pipeline, modelled in Dafny

`app.py` is a Streamlit dashboard. Underneath the widgets it runs a small
budget pipeline over an uploaded bank statement, and this project models
that pipeline:

- **Loading.** Rows with an empty cell are dropped (`dropna`). The `Date`
  column is parsed, and rows whose date does not parse are dropped. The
  `Amount` column is converted to numbers. Then the `Type`, `Category` and
  `YearMonth` columns are derived (module `Ledger`).
- **Categorising.** The rule-based categoriser `categorize` lower-cases the
  description and runs an ordered keyword cascade (module `Categorizer`).
- **Dashboard figures** (module `Aggregates`):
  - total income;
  - total expense, stored as a magnitude;
  - the balance;
  - the monthly expense series and the per-category expense sums.
- **Overspending detector.** A month is flagged when its expense is above
  1.2 times the mean monthly expense (module `Overspending`).
- **Advice.** The three categories with the most spending are picked, and
  one tip is produced per category (module `Advisor`).
- **Chat summary lists.** The top categories and the flagged months are
  each joined with ", " (module `Summary`).

How the model represents things:

- **Data.** Amounts are exact `real`s. Dates are `(year, month, day)`
  triples. A month bucket is a `(year, month)` pair.
  - `Ledger.MonthTextOrder` proves that the "YYYY-MM" text key orders
    months the way the calendar does. pandas' `groupby` sorts by that text
    key, so the proof is what allows the series to be sorted by calendar
    order.
- **Parsers.** The date parser and the number parser are function
  parameters (`string -> Option<...>`).
- **The loading frame.** The source changes a frame in place. `Ledger.Load`
  models this as a method that threads the frame from one step to the next.
- **The advice loop.** `Advisor.Advise` is a method whose `while` loop
  appends one tip per top category. It is proved against the function
  `Advisor.AdviceFor`.

The cleaning steps look meant to drop bad rows one by one, and a row with a
non-numeric amount might be expected to go the same way. The code instead
calls `df['Amount'].astype(float)` (app.py:19), which raises for the whole
frame. `Ledger.Load` follows the code: it fails the whole load with
`NonNumericAmount` when any surviving row has a non-numeric amount.

A missing required column also fails the load. Each missing column raises a
`KeyError` at its first use: `Date` at line 17, `Amount` at line 19 and
`Description` at line 40. The model reports these failures in that same
order.

## Model

| member | source | states |
|---|---|---|
| Categorizer.CategorizeFollowsRules | app.py:23-38 | the if/elif cascade gives the same label as a first-match search of the ordered keyword table (Food, Transport, Utilities, Shopping, Salary, Entertainment) over the lower-cased text |
| Categorizer.FirstMatchIsFirst | app.py:25-38 | the first-match search returns rule k exactly when rule k matches and no earlier rule does |
| Categorizer.CategorizePrecedence | app.py:25-38 | a description gets the label of rule k iff rule k matches and no earlier rule matches; it gets Other iff no rule matches |
| Categorizer.CategorizeIgnoresCase | app.py:24 | categorising a description and categorising its lower-cased form give the same label |
| Categorizer.CategorizeByLowerText | app.py:24-38 | descriptions with equal lower-cased forms get equal labels, and the empty description is Other |
| Categorizer.TransportBeforeUtilities | app.py:27-30 | a text containing both "uber" and "bill" and no Food keyword is Transport, not Utilities |
| Categorizer.UberBillExample | app.py:27-30 | "Uber bill" is categorised as Transport |
| Categorizer.SalaryExample | app.py:25-34 | "Salary" passes the four earlier groups and is categorised as Salary |
| Categorizer.ZomatoExample | app.py:25-26 | "Zomato" is categorised as Food |
| Text.LowerIdempotent | app.py:24 | lower-casing twice is the same as lower-casing once |
| Ledger.TypeOf | app.py:20 | the type is Income exactly when the amount is positive; an Expense amount is at most zero, zero included |
| Ledger.Load | app.py:13-41 | the load fails for a missing Date, then a missing Amount column; it fails with NonNumericAmount iff some surviving row's amount is not numeric; then it fails for a missing Description; otherwise it succeeds with one derived, well-formed record per surviving row, in order, carrying that row's description, date and amount |
| Ledger.SurvivorsAreOrderedSubsequence | app.py:14-18 | row dropping keeps exactly the rows with no empty cell and a parseable date, in file order: the survivors are the rows at strictly increasing kept positions, and every passing row is kept |
| Ledger.ExpenseAmountsNonPositive | app.py:20 | in a loaded ledger every Expense amount is at most zero and every Income amount is positive |
| Ledger.MonthTextOrder | app.py:41 | one month is before another iff its "YYYY-MM" text is lexicographically smaller, so groupby's text order is calendar order |
| Ledger.MonthTextShape | app.py:41 | two months have the same "YYYY-MM" text iff they are the same month, and the text has no comma |
| Aggregates.TotalsNonNegative | app.py:47-48 | total expense and total income are never negative, and total income is positive iff some row is Income |
| Aggregates.BalanceIsNetAmount | app.py:49 | the balance equals the plain sum of every amount in the ledger |
| Aggregates.SumOverKeysTotal | app.py:57 | summing per-key groups over distinct keys that cover every expense row gives the sum of all expense amounts |
| Aggregates.ExpenseMonths | app.py:57 | the month index is strictly increasing in calendar order and holds exactly the months with an expense row |
| Aggregates.MonthlyExpenseSpec | app.py:57-58 | the monthly series is sorted by month, has exactly the months with an expense row as keys, each value is that month's expense magnitude and never negative, and the values add up to the total expense |
| Aggregates.CategorySumsKeys | app.py:97 | the grouped category sums name each category at most once, and name exactly the categories that hold an expense row |
| Aggregates.CategorySumsValues | app.py:97 | each grouped category sum is the negated expense magnitude of its category and is at most zero, and the sums add up to minus the total expense |
| Overspending.AboveThreshold | app.py:80-86 | an expense is above 1.2 times the mean of n months iff 5·n·expense > 6·total, so the division by n is never needed |
| Overspending.Predict | app.py:80-87 | the prediction table has one row per month, in order, with that month and its expense, and the row is flagged iff its expense is strictly above 1.2 times the mean of all months; an empty series gives an empty table |
| Overspending.AtRiskMonths | app.py:132 | a month is listed iff some row of the prediction table for that month is flagged |
| Overspending.EqualMonthsWithinBudget | app.py:80-87 | when every month spends the same amount, no month is flagged |
| Overspending.SomeMonthWithinBudget | app.py:80-87 | in a non-empty series of non-negative expenses at least one month is not flagged |
| Overspending.LedgerHasMonthWithinBudget | app.py:57-87 | a ledger with an expense row gives a non-empty prediction table with at least one month not flagged |
| Overspending.ThresholdExample | app.py:80-87 | for monthly expenses 100, 100, 100 and 500 the threshold is 240 and only the last month is flagged |
| Advisor.SortAscendingSpec | app.py:98 | sort_values gives a series in ascending value order that is a permutation of its input |
| Advisor.SortAscendingSum | app.py:98 | sorting does not change the sum of the series |
| Advisor.CategoryExpenseSpec | app.py:97-98 | the category expense series is in non-increasing order, names exactly the categories with an expense row, each once, each value is that category's expense magnitude and never negative, and the values add up to the total expense |
| Advisor.TopCategoriesSpec | app.py:99 | at most three categories are listed, in non-increasing order, with no category twice, and each is an expense category with its own magnitude |
| Advisor.TopCategoriesAreTop | app.py:97-99 | when fewer than three categories are listed, all expense categories are listed; no category left out spends more than any listed one |
| Advisor.AdviceForSpec | app.py:106-117 | Salary and Other get the generic tip and the other five categories a fixed tip; the generic tip names its category |
| Advisor.AdviceForInjective | app.py:106-117 | no two different categories get the same tip |
| Advisor.Advise | app.py:104-117 | the advice list has one tip per top category, in the same order, and each tip is the category's tip |
| Text.SplitJoin | app.py:131-132 | joining comma-free fields with ", " and splitting the result at ", " gives back the same fields |
| Summary.TopCategoryListRoundTrip | app.py:131 | the top-category list is empty iff no category is listed; otherwise splitting it at ", " gives the labels of the top categories in order |
| Summary.AtRiskMonthListRoundTrip | app.py:132 | the overspending-months list is empty iff no month is flagged; otherwise splitting it at ", " gives the "YYYY-MM" labels of the flagged months in order |
| Summary.AtRiskMonthNamesDistinct | app.py:132 | two flagged months have the same label iff they are the same month |
| Overspending.AtRiskMonthsInOrder | app.py:83-87 | when the monthly series is sorted by month, the flagged months come out sorted by month |
| Summary.AtRiskMonthListOrdered | app.py:132 | the overspending-months list of a ledger names the flagged months in strictly increasing calendar order, with no label twice |
| Summary.EmptyLedger | app.py:47-132 | an empty ledger has zero totals, no monthly or category entries, an empty prediction table, no top categories and two empty summary lists |
| Summary.SampleTotals | app.py:47-49 | a ledger with a 450 Zomato expense and a 50000 salary credit has income 50000, expense 450 and balance 49550 |
| Summary.SampleMonths | app.py:57-132 | that ledger's monthly series is January 2024 with 450, which is not flagged, so the overspending-months list is empty |
| Summary.SampleCategories | app.py:97-131 | that ledger's top categories are Food with 450, and the summary lists "Food" |

## Left out

- **Widgets and output.** The Streamlit page setup, upload widget, metrics, dataframe displays, warnings, success boxes and text input are left out. They are user-interface output only.
- **CSV reading and date recognition.** `pd.read_csv` and the format inference of `pd.to_datetime` are library behaviour.
  - The date parser is an abstract per-cell function parameter.
  - Likewise, `astype(float)` is an abstract `string -> Option<real>` parameter.
- **Column checks.** A table is modelled by three column-presence flags plus its rows. Columns other than the three required ones appear only as extra cells that `dropna` inspects.
- **Description type.** A description is assumed to be text. A non-text `Description` cell, which would make `lower()` raise, is not modelled.
- **Charts.** The matplotlib charts (app.py:60-66, 73-76) are rendering only.
  - The pie chart's `category_sum` (app.py:70-71) is the same series as `category_expense`. It is modelled once, as `Advisor.CategoryExpense`.
- **Prompt and assistant call.** Building the chat prompt and the HTTP request to the local LM Studio endpoint (app.py:135-158) are not modelled. Neither is reading the reply or handling its errors. This is network I/O to an external model.
  - Only the two lists that the summary text carries are modelled.
  - The three `:,.0f` amounts in the summary are not modelled, because number formatting is left out.
- **Floating point.** Amounts are exact reals.
  - The threshold `mean * 1.2` is exact six-fifths of the mean, so float rounding at the boundary is not captured.
  - The `:,.0f` thousands formatting is not modelled.
- **Lower-casing.** `Text.Lower` lower-cases ASCII letters only. Full Unicode `str.lower` is not modelled.
- **Date range.** Years are limited to 1677-2262, the range pandas timestamps can hold. This is also what makes every year print as four digits.
- Advisor.SortAscendingSpec: states no tie order. `Advisor.SortAscending` keeps tied entries in their input order, which is alphabetical category order. pandas' `sort_values` (app.py:98) promises no order among ties. No contract states a tie order, so when categories tie at the third place the model's top three, and the top-category list and advice built from it, may differ from the program's.
- **Frame updates.** The in-place updates to the dataframe are modelled as successive frame values inside `Ledger.Load`. Aliasing of the frame is not modelled, because nothing else holds a reference to it.
