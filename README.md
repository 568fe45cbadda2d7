# Transaction analytics ledger engine, modelled in Dafny

The Transaction_analytics application reads a bank export into a ledger of
operations. Each operation has a date, a card, a signed amount, a currency,
a status, a category and a description. The application reduces the ledger
to the figures shown on its pages and reports. This project models those
reductions:

- `format_date` and `get_greeting`, and the week, month, year and "ALL"
  windows of `filter_by_date`;
- the per-card expense table of `get_cards`;
- the five largest operations of `get_top_transactions`, built by its
  append loop;
- the expense and income breakdowns by category of `get_expenses` and
  `get_income`, with the seven-plus-"Остальное" folding;
- the three-month reports `spending_by_category`, `spending_by_weekday` and
  `spending_by_workday`, and the record list that `write_report` returns
  and writes;
- the cashback service `profitable_categories`, over one calendar month.

Amounts are whole kopecks (`int`), so sums are exact. A rounding to two
decimals of roubles is a rounding to the nearest kopeck (`Basics.DivRound`).
A date and time is a `Calendar.DateTime` record. It is compared field by
field, and the subset type `Instant` holds only values a Python `datetime`
can take. "Now" is always a parameter.

A pandas `groupby(key).sum()` is a sequence of `Grouping.Group` entries with
distinct keys in ascending code-point order. Its specification is
`Ledger.SumsByKey`. A `sort_values(ascending=False)` is
`Grouping.SortDescending`, a stable insertion sort. Its contracts promise
only what pandas promises: a permutation in non-increasing order.
`Basics.Selects` states that a mask keeps exactly the rows that satisfy it,
in ledger order.

Modules, one per file:

- `Basics`: Option, rounding, masks;
- `Text`: digit strings, code-point order;
- `Calendar`: ordinals, weekdays, window starts, month arithmetic;
- `DateText`: `format_date`, strftime forms, `get_greeting`;
- `Grouping`: groupby-sum and sorting;
- `Ledger`: rows, row predicates, per-key sums;
- `Utils`: `src/utils.py`;
- `Reports`: `src/reports.py`;
- `Services`: `src/services.py`.

## Model

| member | source | states |
|---|---|---|
| Basics.DivRound | src/services.py:60 | rounding a quotient to a whole kopeck: the result is within half a divisor of the exact quotient, a tie goes to the even quotient (Python's `round`), and the sign of the dividend is kept |
| Basics.Filter | src/utils.py:151-153 | a boolean mask: the result is no longer than the frame, and every kept row comes from the frame and satisfies the mask |
| Basics.FilterSelects | src/utils.py:151-153 | a mask keeps exactly the rows that satisfy it, in frame order: their positions are strictly ascending, and a position is kept exactly when its row satisfies the mask |
| Basics.SelectsUnique | src/utils.py:151-153 | that characterisation fixes the masked frame uniquely |
| Basics.FilterEmpty | src/utils.py:176 | a masked frame is empty exactly when no row satisfies the mask |
| Text.ValuePad | src/utils.py:40 | reading back a zero-padded number gives the number when it fits the width |
| Text.PadValue | src/utils.py:40 | a digit string is the zero-padding of its value to its own width |
| Text.StrLessTotal | src/utils.py:338 | the code-point order on category keys is total: two different keys are ordered one way or the other |
| Text.StrLessTransitive | src/utils.py:338 | the code-point order is transitive |
| Grouping.GroupSum | src/utils.py:338 | `groupby(...).sum()` over (key, amount) pairs: keys strictly ascending, exactly the keys that occur, each entry holding the sum of its key's amounts, and the grand total kept |
| Grouping.GroupSumEntries | src/utils.py:338 | the grouped frame has distinct keys, and each entry carries its key's sum |
| Grouping.DistinctKeysCount | src/utils.py:338 | a frame with distinct keys has as many entries as keys |
| Grouping.SortDescending | src/utils.py:340 | `sort_values(ascending=False)`: the same rows, as a multiset, in non-increasing order of the sort column |
| Grouping.SortKeys | src/utils.py:340 | sorting keeps the set of keys |
| Grouping.SortDistinct | src/utils.py:340 | sorting keeps the keys distinct |
| Grouping.SortTotal | src/utils.py:340 | sorting keeps the grand total |
| Grouping.SortKeepsProperty | src/utils.py:340 | any property every row has still holds for every sorted row |
| Grouping.Magnitudes | src/utils.py:339 | `abs` of the amount column: the same keys in the same places, each amount replaced by its magnitude |
| Grouping.MagnitudesTotal | src/utils.py:339 | when no amount is positive, the magnitudes add up to the magnitude of the sum |
| Grouping.PrefixDominates | src/utils.py:213-215 | the first `m` rows of a sorted frame are at least as large as every row after them |
| Grouping.FilterNonIncreasing | src/utils.py:345-347 | masking a sorted frame keeps it sorted |
| Grouping.FilterDistinct | src/utils.py:345-347 | masking a frame with distinct keys keeps them distinct |
| Grouping.KeysOfFilter | src/utils.py:362-364 | keeping the rows whose key is in a set leaves exactly the keys in that set |
| Grouping.KeysOfFilterOut | src/utils.py:345-347 | dropping the rows whose key is in a set leaves exactly the other keys |
| Grouping.FilterSplitTotals | src/utils.py:345-364 | two complementary masks split the grand total between them |
| Calendar.Weekday | src/utils.py:142 | `weekday()` is an index in 0..6 |
| Calendar.WeekdayAnchors | src/utils.py:142 | the numbering is Python's: 0001-01-01 and 27 December 2021 are Mondays (0), 25 December 2021 is a Saturday (5), the 26th a Sunday (6) |
| Calendar.WeekdayStep | src/utils.py:142 | the day before has the previous weekday, Sunday (6) before Monday (0) |
| Calendar.OrdinalOrder | src/utils.py:142 | comparing day ordinals compares calendar days, and equal ordinals mean the same day |
| Calendar.MinusDays | src/utils.py:142 | `t - timedelta(days=n)`: the day ordinal drops by `n` and the time of day is kept |
| Calendar.WeekStart | src/utils.py:141-143 | Monday of the week of `f` at 00:00:00: a Monday, `weekday(f)` days before `f`, not after `f` |
| Calendar.MonthStart | src/utils.py:144-145 | day 1 of the month of `f` at 00:00:00: an instant is at or after it exactly when it falls in that month of that year or later |
| Calendar.YearStart | src/utils.py:146-147 | January 1 of the year of `f` at 00:00:00: an instant is at or after it exactly when its year is that year or later |
| Calendar.MonthsBefore | src/reports.py:61 | `f - relativedelta(months=n)`: `n` months earlier, the day clamped to the target month's length, the time kept, not after `f`, and a valid datetime whenever its year is at least 1 |
| Calendar.MonthWindow | src/services.py:38-40 | day 1 00:00:00 to the last day (leap years included) 23:59:59: an instant is inside exactly when it falls in that year and month |
| Ledger.ExpenseTotal | src/utils.py:335 | a sum of expenses is never positive, and it is negative when there is something to sum |
| Ledger.IncomeTotal | src/utils.py:402 | a sum of incomes is never negative, and it is positive when there is something to sum |
| Ledger.EarliestDate | src/utils.py:149 | `min()` of the date column: one of the rows' dates, no later than any of them |
| Ledger.KeyedSums | src/utils.py:338 | the (key, amount) column pair has the rows' keys, the rows' per-key sums and the rows' total |
| Ledger.SumByKey | src/utils.py:338 | groupby-sum over ledger rows: keys ascending and distinct, exactly the keys that occur, each entry the sum of its rows, and the entries adding up to the total |
| Ledger.KeyTotalOfExpenses | src/utils.py:338 | a key that occurs among expense rows sums to a negative amount |
| Ledger.KeyTotalOfIncomes | src/utils.py:405 | a key that occurs among income rows sums to a positive amount |
| Ledger.GroupsOfExpenses | src/utils.py:338 | every group of expense rows has a negative sum |
| Ledger.GroupsOfIncomes | src/utils.py:405 | every group of income rows has a positive sum |
| Ledger.MagnitudesOfExpenses | src/utils.py:338-339 | the magnitudes of the grouped expense sums are positive, one per category, each the magnitude of its category's sum, and add up to the magnitude of the total |
| Ledger.SortedIncomeSums | src/utils.py:405-407 | the grouped income sums, sorted: non-increasing, one per category, positive, each its category's sum, adding up to the total |
| DateText.ParseFormatIso | src/utils.py:40 | reading the `YYYY-MM-DD HH:MM:SS` text of an instant gives the instant back |
| DateText.ParseIso | src/utils.py:40 | any text that reads as an instant is that instant's canonical text |
| DateText.ParseIsoExactly | src/utils.py:40 | a text reads as an instant exactly when it is that instant's zero-padded canonical text (the narrowing of strptime is listed under "Left out") |
| DateText.FormatDate | src/utils.py:27-48 | a datetime is returned unchanged, another type gives `now`, and a string gives the instant it spells or, failing that, `now` |
| DateText.FormatDateBadDay | tests/test_utils.py:46 | May 32 is not a date, so it falls back to `now` |
| DateText.FormatDayMonthYear | src/utils.py:221 | `strftime("%d.%m.%Y")`: ten characters whose digit fields read back as the day, the month and the year |
| DateText.FormatDayMonthYearTime | src/reports.py:74-76 | `strftime("%d.%m.%Y %H:%M:%S")`: the date form followed by fields that read back as hour, minute and second |
| DateText.Greeting | src/utils.py:51-70 | morning exactly for hours 5 to 11, afternoon for hours 12 to 17 or a non-datetime argument, evening for 18 to 22, night otherwise |
| Utils.PeriodStart | src/utils.py:141-149 | the window start for "W", "M" and "Y" as in WeekStart, MonthStart and YearStart; for any other code, the earliest row date |
| Utils.FilterByDate | src/utils.py:121-156 | an empty ledger comes back empty; otherwise exactly the rows dated in [start, finish], in ledger order |
| Utils.FilterByDateAll | src/utils.py:148-153 | for a code other than "W", "M" and "Y", exactly the rows dated no later than the finish |
| Utils.CardRecords | src/utils.py:181-183 | per card group: the number without its first character, the magnitude of the sum, and 1% of it rounded to the kopeck |
| Utils.CardTable | src/utils.py:169-180 | card expenses exist exactly when the grouped card table is non-empty, and every card sums to a negative amount |
| Utils.GetCards | src/utils.py:159-194 | empty exactly when no completed rouble card expense exists; otherwise one record per card, cards ascending, each describing that card's group sum, with positive spending and non-negative cashback |
| Utils.TopRows | src/utils.py:207-215 | min(5, counted rows) completed rouble operations, largest magnitude first, drawn from the ledger, each at least as large as any operation left out |
| Utils.GetTopTransactions | src/utils.py:197-235 | the append loop builds, in order, one record (day, amount, category, description) per chosen operation |
| Utils.ExpenseCategories | src/utils.py:338-343 | expense categories, largest first: distinct, exactly the categories that occur, each the positive magnitude of its sum, adding up to the magnitude of the total |
| Utils.GetExpenses | src/utils.py:317-381 | nothing exactly when there is no completed rouble expense; otherwise `total_amount` is the positive magnitude of their sum |
| Utils.MainEntries | src/utils.py:345-347 | dropping transfers and cash from a sorted, distinct frame leaves it sorted and distinct, with exactly the other keys |
| Utils.MainList | src/utils.py:345-347 | the categories other than transfers and cash, largest first, each with the magnitude of its sum |
| Utils.FoldOverflow | src/utils.py:349-356 | the folded list has min(8, n) entries, starts with the first seven, has "Остальное" as its eighth entry on overflow, and keeps the grand total of positive amounts |
| Utils.FoldOverflowFacts | src/utils.py:350-353 | with positive amounts, the overflow entry carries exactly the sum of the entries after the seventh |
| Utils.GetExpensesMain | src/utils.py:345-359 | `main` has min(8, main categories) entries; its first seven or fewer are distinct main categories, largest first, with their magnitudes; with seven or fewer main categories it lists exactly those |
| Utils.FoldPrefix | src/utils.py:349-356 | folding a sorted list of positive entries with a property keeps min(8, n) entries, the first seven still sorted and still carrying the property |
| Utils.GetExpensesOverflow | src/utils.py:349-353 | with more than seven main categories, the eighth entry is "Остальное" with the sum of the rest; every listed category is at least as large as any folded one, and folded categories are not listed |
| Utils.OverflowFacts | src/utils.py:349-353 | the same facts for any sorted list of more than seven distinct positive entries |
| Utils.FoldedCategories | src/utils.py:350-351 | in a sorted list with distinct keys, the entries after the seventh are no larger than the first seven and carry other keys |
| Utils.GetExpensesTransfersAndCash | src/utils.py:362-366 | `transfers_and_cash` holds just the transfers and cash categories that occur (at most two), largest first, with their magnitudes |
| Utils.TransferEntries | src/utils.py:362-364 | keeping transfers and cash from a sorted, distinct frame leaves at most two entries, sorted, with exactly those keys |
| Utils.TransfersList | src/utils.py:362-366 | the transfers and cash entries of the expense categories carry their sums' magnitudes |
| Utils.GetExpensesConservation | src/utils.py:335-366 | `main` and `transfers_and_cash` add up to `total_amount` |
| Utils.GetIncome | src/utils.py:384-423 | nothing exactly when there is no completed rouble income; otherwise a positive total, and categories largest first, distinct, exactly those that occur, each its positive sum, adding up to the total |
| Reports.ReportFinish | src/reports.py:56-59 | no date gives `now`; a date gives the instant it spells, or `now` when it spells none |
| Reports.RollingWindow | src/reports.py:61-67 | the window is three calendar months long: a row no later than the end and less than three months before it is inside, and a row inside is at most three months before the end |
| Reports.CategoryRows | src/reports.py:74-80 | the report rows of the selected operations, in order |
| Reports.SpendingByCategory | src/reports.py:44-86 | an empty ledger gives no rows; otherwise exactly the completed rouble expenses of the category inside the window, in ledger order, each projected to its report row |
| Reports.KeyCountPositive | src/reports.py:125 | a key occurs exactly when it counts at least one row |
| Reports.RoundedMean | src/reports.py:127 | `abs(round(mean, 2))`: within half a kopeck of the magnitude of the mean |
| Reports.Averaged | src/reports.py:125-127 | each group's sum divided by its count, as a rounded magnitude |
| Reports.AveragedKeys | src/reports.py:125-127 | averaging keeps the keys and their ascending order |
| Reports.CountsPositive | src/reports.py:125 | every key of a grouped frame counts at least one row |
| Reports.MeanByKey | src/reports.py:124-127 | `groupby(...).mean()`: keys ascending and distinct, exactly the keys that occur, each the rounded magnitude of its rows' mean |
| Reports.MeansBounded | src/reports.py:119-125 | grouping rows keyed from a fixed label set gives at most as many entries as labels |
| Reports.WeekdayLabel | src/reports.py:119-122 | the label is one of the seven weekday labels |
| Reports.SpendingByWeekday | src/reports.py:89-138 | empty for an empty ledger or when no counted expense is in the window; otherwise at most seven groups, one per weekday that has such expenses, each the rounded magnitude of that weekday's mean |
| Reports.DayKind | src/reports.py:171-182 | the label is "Рабочий" or "Выходной" |
| Reports.DayLabelsAnchored | src/reports.py:119-122 | Monday 27 December 2021 is "1. ПН" and a working day; Saturday the 25th is "6. СБ" and Sunday the 26th "7. ВС", both the weekend |
| Reports.WeekendDays | src/reports.py:171-182 | a day is "Выходной" exactly when its weekday label is "6. СБ" or "7. ВС" |
| Reports.SpendingByWorkday | src/reports.py:141-198 | empty for an empty ledger or when no counted expense is in the window; otherwise at most two groups, the weekend first, each the rounded magnitude of its mean |
| Reports.WeekendFirst | src/reports.py:184-186 | two ascending labels out of "Выходной" and "Рабочий" put "Выходной" first |
| Reports.ReportFile.constructor | src/reports.py:21-41 | a new report file is empty |
| Reports.ReportFile.Write | src/reports.py:30-37 | the file holds exactly the records the report produced, and the same records are returned |
| Services.QualifiesInMonth | src/services.py:36-54 | a row qualifies exactly when it is a completed rouble expense, dated in the chosen month, of a category other than transfers, cash and "Другое" |
| Services.Cashback | src/services.py:60 | `round(abs(sum) / 100, 2)`: within half a kopeck of 1% of the sum's magnitude |
| Services.Cashbacks | src/services.py:60 | the cashback of every group, keys unchanged |
| Services.CashbackFacts | src/services.py:57-60 | one cashback entry per category, each the cashback of its category's sum |
| Services.ProfitableCategories | src/services.py:19-70 | nothing for empty data or a month outside 1..12; otherwise one entry per qualifying category, each its cashback, cashbacks non-increasing |
| Services.ProfitableKeys | src/services.py:45-58 | a category is listed exactly when a qualifying expense of it falls in the month, and transfers, cash and "Другое" are never listed |
| Services.NoQualifyingExpense | src/services.py:56-70 | without a qualifying expense in the month the result is empty |
| Services.DecemberSpent | src/services.py:45-54 | in a sample ledger the transfer, the November row and the failed payment are masked out |
| Services.DecemberSums | src/services.py:57-60 | the sample's category sums give cashbacks of 315, 128 and 18 kopecks |
| Services.DecemberCashback | src/services.py:57-64 | the sample ledger for December 2021 gives pharmacies 3.15, car sharing 1.28 and phone 0.18, in that order |

## Left out

- File and spreadsheet input (`import_excel_operations`, `read_json`), JSON text output, the pages in `src/views.py`, `main.py` and `config.py` are not part of this model.
- `get_exchange_rates` and `get_stock_price` make HTTP calls and are not part of this model.
- Logging is left out everywhere.
- `datetime.now()` is a parameter `now` rather than a clock.
- Amounts are exact kopecks, not floats. Binary rounding drift of pandas sums is not modelled. Every rounding is to the nearest kopeck with ties to even.
- Microseconds are not modelled. Instants carry whole seconds.
- DateText.ParseIso: reads only the zero-padded `YYYY-MM-DD HH:MM:SS` form. strptime also reads one-digit month, day, hour, minute and second fields and a space-padded field (`2025-5-31 09:42:13`); the model rejects those texts.
- DateText.ParseIsoExactly: "parses exactly when canonical" holds for the model's reader only; strptime also parses the unpadded texts named above.
- DateText.FormatDate: through ParseIso, an unpadded or space-padded text falls back to `now`, where Python reads the date.
- Reports.ReportFinish: through FormatDate, an unpadded finish text gives `now`, where Python reads the date.
- DateText.FormatDayMonthYear: the year is always written with four digits. Some C libraries write years below 1000 unpadded under `%Y`; those years are not modelled.
- DateText.FormatDayMonthYearTime: the same four-digit year as FormatDayMonthYear, so years below 1000 are not modelled.
- Calendar.MonthsBefore: the three-month window start is computed on an extended calendar when the end falls in the first three months of year 1. There, Python raises instead.
- Services.ProfitableCategories: a year outside 1..9999 with a valid month and non-empty data makes Python's `datetime` raise. The model requires such a year not to occur, rather than modelling the exception.
- Grouping.SortDescending: the order among equal sums is that of a stable sort. pandas does not promise this, so no contract states it.
- Utils.TopRows: as for sorting, which of several operations with equal magnitudes is chosen is not specified.
- The in-place column rewrites of the source are modelled as new values, computed from the grouped or masked frame. This covers the date reformatting, the weekday column and the amount overwrite in the reports, the card and cashback columns of `get_cards`, and the `loc[7]` row of `get_expenses`. The only mutable state kept is the report file.
- Reports.ReportFile.Write: the file is the object's record list. The JSON encoding and the file system are left out.
- `spending_by_category`, `spending_by_weekday` and `spending_by_workday` are modelled with the finish given as text or absent, through `Reports.ReportFinish`. A datetime argument passes through `format_date` unchanged, as `DateText.FormatDate` shows.
- Every row is assumed to have a category. pandas `groupby` drops rows whose category is missing, so for such a ledger `main` and `transfers_and_cash` together could fall short of `total_amount`; `Utils.GetExpensesConservation` is stated for ledgers without missing categories.
