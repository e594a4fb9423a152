# Personal finance tracker — ledger and aggregates in Dafny

This project models the core of a small personal finance tracker. The tracker keeps an
append-only table of transactions. Each row has the columns `Date`, `Category`, `Amount`,
`Type` and `Description`. Over that table the tracker computes:

- a textual summary: total income, total expenses and the balance;
- a listing of the rows, newest first;
- a spreadsheet export with a per-category summary sheet for income and one for expenses;
- the figures behind three charts: an expense breakdown by category, a month × type
  table of sums, and an income / expenses / balance bar chart.

Modules, one per concern:

- `Lex` (`lex.dfy`): Python's string order, used by the sort and by every `groupby`. It is a
  total order. Comparing strings that start with equal-length pieces reduces to comparing
  those pieces.
- `Dates` (`dates.dfy`): calendar days, the `%Y-%m-%d` stamp, reading a stamp back, and the
  month key. The stamps are exactly the `YYYY-MM-DD` strings that name a real day. Stamps are
  zero-padded, so their string order is chronological order. Two stamps share a month key
  exactly when they fall in the same calendar month.
- `Grouping` (`grouping.dfy`): group-by-key-and-sum over a sequence of (key, amount) entries.
  The result lists the keys that occur, strictly ascending. Each key carries the sum filed
  under it, and the values add up to the overall sum. Looking the result up at a larger key
  index with 0 for missing keys loses nothing.
- `Ledger` (`ledger.dfy`, from `src/main.py`): the row type, per-type totals, the balance, the
  newest-first sort, per-category summaries, and the summary, listing and export reports. It
  also holds the `FinanceTracker` class, whose `transactions` field is the table that
  `AddTransaction` appends to.
- `Charts` (`charts.dfy`, from `src/visualizer.py`): the pie chart's expense breakdown, the
  monthly table with its income and expense lines, and the overview bars with the colour rule.
- `Wrappers` (`wrappers.dfy`): an `Option` type.

`Type` is the field `kind` in `Ledger.Row`, because `type` is a keyword in Dafny. Amounts are
exact `real`s.

Three behaviours of the code shape the model:

- `add_transaction` validates nothing. Negative amounts and any type string are appended as given.
- `unstack(fill_value=0)` fills absent (month, type) cells of the monthly table with 0.
- `sort_values` is not stable, so rows with equal dates have no promised order.

## Model

| member | source | states |
|---|---|---|
| `Ledger.FinanceTracker.constructor` | src/main.py:13-15 | The tracker starts from the table that loading returned. |
| `Ledger.FinanceTracker.AddTransaction` | src/main.py:24-35 | Appends exactly one row at the end, with no check on amount or type. The row's `Date` is today's stamp, a `YYYY-MM-DD` string naming a real day, and its other fields are as passed. `description` defaults to the empty string. Earlier rows are unchanged and keep their order. |
| `Ledger.FinanceTracker.AddFromMenu` | src/main.py:127-137 | Menu choice '1' appends a row of type `Income` and choice '2' a row of type `Expense`. Both use the entered category, amount and description. |
| `Ledger.TotalAfterAppend` | src/main.py:50-51 | Appending a row adds its amount to the total of its own type only. |
| `Ledger.BalanceAfterAppend` | src/main.py:50-52 | The balance is income minus expenses. An Income row raises it by its amount and an Expense row lowers it. A row of any other type leaves it unchanged. |
| `Ledger.TotalOfAbsentKind` | src/main.py:50-51 | A type that no row carries totals 0. |
| `Ledger.ShowSummary` | src/main.py:44-52 | An empty table yields only "no transactions". Otherwise the summary holds the Income total, the Expense total and their difference. |
| `Ledger.SortCorrect` | src/main.py:73 | The sorted listing is a permutation of the table (same multiset of rows). Its dates are non-increasing in string order. |
| `Ledger.InsertOrdered` | src/main.py:73 | Inserting a row into a newest-first sequence keeps it newest-first. |
| `Ledger.InsertPermutes` | src/main.py:73 | Inserting a row adds exactly that row to the multiset. |
| `Ledger.ListingChronological` | src/main.py:73 | For rows stamped by the tracker, a row earlier in the listing is on a day no older than a later one. |
| `Ledger.SortTotal` | src/main.py:73 | Sorting does not change any type's total. |
| `Ledger.AppendedIsListed` | src/main.py:34-35 | A newly appended row appears in the listing. |
| `Ledger.ViewTransactions` | src/main.py:62-76 | An empty table lists nothing. Otherwise the listing is every row exactly as often as in the table, newest first. |
| `Ledger.CategoryEntriesFacts` | src/main.py:95-96 | The type-filtered (category, amount) entries sum to the type's total. Their keys are that type's categories. Per category they sum to the category total. They are empty exactly when no row has the type. |
| `Ledger.ByCategoryCorrect` | src/main.py:95-96 | The per-category summary of a type has as keys exactly the distinct categories of that type, strictly ascending. Each value is its category's amount sum, and the values add up to the type's total. The summary is empty exactly when no row has the type. |
| `Ledger.ByCategoryAfterAppend` | src/main.py:95-96 | Appending a row changes a type's category summary only at the row's own category, by the row's amount. |
| `Ledger.ExportToExcel` | src/main.py:80-101 | An empty table exports nothing. Otherwise the workbook holds all rows. The Income (Expense) summary sheet exists exactly when some Income (Expense) row exists, and it is that type's category breakdown. |
| `Dates.FormatIsIso` | src/main.py:27 | Every stamp the tracker writes has the `YYYY-MM-DD` shape. |
| `Dates.FormatThenParse` | src/main.py:27 | A stamp is a calendar date, and reading it back gives the day it was made from. |
| `Dates.ParseThenFormat` | src/visualizer.py:60 | Every `YYYY-MM-DD` string naming a real day is the stamp of that day, so the dates the monthly chart accepts are exactly the tracker's stamps. |
| `Dates.FormatOrder` | src/main.py:27 | The string order of two stamps is the chronological order of their days. Equal stamps mean equal days. |
| `Dates.MonthKeyOfFormat` | src/visualizer.py:60-61 | The month key of a stamp is its zero-padded year and month. |
| `Dates.MonthKeyOrder` | src/visualizer.py:60-61 | Two stamps share a month key exactly when they are in the same year and month, whatever the day. Month keys order months chronologically. |
| `Grouping.GroupKeys` | src/main.py:95-96 | A group-by result is strictly ascending by key, has exactly the keys that occur, and is empty only for empty input. |
| `Grouping.GroupValue` | src/visualizer.py:64 | A key's value in a group-by result is the sum filed under it, and 0 for an absent key. |
| `Grouping.GroupSum` | src/visualizer.py:27 | The values of a group-by result add up to the sum of all amounts. |
| `Grouping.GroupEntries` | src/visualizer.py:27 | Every line of a group-by result is its key with the sum filed under that key. |
| `Grouping.FilledColumnSum` | src/visualizer.py:64 | A column filled with 0 at keys its group lacks still adds up to the group's sum. |
| `Charts.ExpensePieChart` | src/visualizer.py:16-27 | An empty table, or one without Expense rows, gives no breakdown. Otherwise the pie is drawn from the non-empty Expense category breakdown. |
| `Charts.MonthEntriesFacts` | src/visualizer.py:60-64 | The (month, amount) entries of one type sum per month to that month's total for the type. Their months are months of the table, and they add up to the type's total. |
| `Charts.ColumnCorrect` | src/visualizer.py:64 | One type's column has a cell for every month of the table. Each cell is that (month, type) sum, or 0, and the column adds up to the type's total. |
| `Charts.ByMonthTypeCorrect` | src/visualizer.py:60-64 | The monthly table covers every month present and every type present, both strictly ascending. Each cell is the (month, type) amount sum, or 0 when no row matches. Each type's column adds up to that type's total. |
| `Charts.ColumnOf` | src/visualizer.py:72-78 | A type's column is found exactly when the type is among the table's columns, and it is that column. |
| `Charts.MonthlyTrend` | src/visualizer.py:53-78 | An empty table gives no chart. Otherwise the chart's table is the monthly table, with at least one month. The Income (Expense) line is drawn exactly when some Income (Expense) row exists, with one point per month holding that month's sum. |
| `Charts.BalanceChart` | src/visualizer.py:91-103 | An empty table gives no chart. Otherwise there are three bars: total income, total expenses, and the balance, which is income minus expenses. The colours are green and red for the first two bars. The balance bar is blue `#3498db` exactly when the balance is at least 0, and red `#e74c3c` otherwise. |
| `Charts.BalanceChartMatchesSummary` | src/visualizer.py:97-99 | The overview bars show the same income, expenses and balance as the textual summary. |

## Left out

- Reading and writing the CSV store (`load_data`, `save_data`) is file I/O. The constructor takes the loaded table as a parameter, and `AddTransaction` does not persist.
- The Excel writer calls and their error handling are file I/O. `ExportToExcel` models which sheets are written and with what content.
- The interactive menu loop and input parsing are console I/O. This includes the `float(...)` conversion that raises on bad text. `AddFromMenu` models only the two menu choices that add a row.
- All printing, number formatting and matplotlib/seaborn rendering are left out. This covers figure layout, label offsets, pie colours, saving and showing.
- The wall clock is a parameter: `AddTransaction` takes `today` as a `Dates.Day`.
- Dates.ValidDay: only four-digit years (1000–9999) are modelled, because `%Y` pads differently below 1000 on some platforms.
- Amounts are exact reals. Floating-point rounding, which makes the source's sums depend on summation order, is not modelled. NaN amounts or missing cells in a loaded file are not modelled either.
- Charts.ByMonthType: every `Date` must be a `YYYY-MM-DD` string naming a real day (`AllCalendarDates`). Every row the tracker adds is one (`Dates.FormatThenParse`). Three cases are not modelled: impossible dates such as `2024-02-30`, on which `pd.to_datetime` raises and no chart is drawn; other formats that `pd.to_datetime` parses or rejects; and days outside the range a pandas timestamp can hold, on which it also raises.
- Charts.ExpensePieChart: models the breakdown the pie is drawn from, not the drawing. With negative amounts a category can sum below 0. `plt.pie` then raises, and no chart is produced; that error path is not modelled.
- `create_monthly_trend` rewrites the `Date` column and adds a `Month` column on the table it shares with the tracker. The model computes the monthly table as a function of the rows and does not model this aliasing.
- The "Insufficient data for monthly trends" branch is not modelled as a separate outcome. A non-empty table always yields at least one month (`Charts.MonthlyTrend`), so the branch is never taken.
- Ledger.SortNewestFirst: the model's sort places rows with equal dates in one particular order. The source's unstable sort promises none, so only sortedness and permutation are stated.
