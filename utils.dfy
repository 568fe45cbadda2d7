/** The ledger reductions behind the main and events pages: the date
    window filter, the per-card expense table, the five largest operations,
    and the expense and income breakdowns by category. */
module Utils {
  import opened Basics
  import opened Calendar
  import opened DateText
  import opened Ledger
  import opened Grouping

  // ---------------------------------------------------------------------
  // filter_by_date

  /** The end of the window: the given datetime, or `now` for an argument
      of any other type (a string is not parsed here). */
  function FilterFinish(input: DateArg, now: Instant): Instant
  {
    if input.DateValue? then input.value else now
  }

  /** The start of the window for a period code: Monday of the finish's
      week ("W"), day 1 of its month ("M"), January 1 of its year ("Y"),
      each at 00:00:00; for any other code the earliest row date. */
  function PeriodStart(rows: seq<Transaction>, finish: Instant, period: string): (start: Instant)
    requires rows != []
    ensures period == "W" ==>
      && Weekday(start) == 0 && start.hour == 0 && start.minute == 0 && start.second == 0
      && DayOrdinal(finish) - DayOrdinal(start) == Weekday(finish)
    ensures period == "M" ==> forall d: Instant {:trigger AtMost(start, d)} ::
      AtMost(start, d) <==> d.year > finish.year || (d.year == finish.year && d.month >= finish.month)
    ensures period == "Y" ==> forall d: Instant {:trigger AtMost(start, d)} ::
      AtMost(start, d) <==> d.year >= finish.year
    ensures period != "W" && period != "M" && period != "Y" ==>
      && (exists i :: 0 <= i < |rows| && rows[i].date == start)
      && forall i :: 0 <= i < |rows| ==> AtMost(start, rows[i].date)
  {
    if period == "W" then WeekStart(finish)
    else if period == "M" then MonthStart(finish)
    else if period == "Y" then YearStart(finish)
    else EarliestDate(rows)
  }

  /** `filter_by_date`: an empty ledger comes back unchanged; otherwise the
      result is made of exactly the rows dated inside [start, finish], in
      ledger order. */
  function FilterByDate(rows: seq<Transaction>, input: DateArg, period: string, now: Instant): (r: seq<Transaction>)
    ensures rows == [] ==> r == []
    ensures rows != [] ==>
      var finish := FilterFinish(input, now);
      var start := PeriodStart(rows, finish, period);
      Selects(r, rows, (t: Transaction) => InWindow(t, start, finish))
  {
    if rows == [] then rows
    else
      var finish := FilterFinish(input, now);
      var start := PeriodStart(rows, finish, period);
      FilterSelects(rows, (t: Transaction) => InWindow(t, start, finish));
      Filter(rows, (t: Transaction) => InWindow(t, start, finish))
  }

  /** With a period code other than "W", "M" and "Y" the filter keeps
      exactly the rows dated no later than the finish. */
  lemma FilterByDateAll(rows: seq<Transaction>, input: DateArg, period: string, now: Instant)
    requires period != "W" && period != "M" && period != "Y"
    ensures Selects(FilterByDate(rows, input, period, now), rows,
                    (t: Transaction) => AtMost(t.date, FilterFinish(input, now)))
  {
    var finish := FilterFinish(input, now);
    var before := (t: Transaction) => AtMost(t.date, finish);
    if rows == [] {
      assert SelectsAt([], [], rows, before);
    } else {
      var start := PeriodStart(rows, finish, period);
      FilterCongruence(rows, (t: Transaction) => InWindow(t, start, finish), before);
      FilterSelects(rows, before);
    }
  }

  // ---------------------------------------------------------------------
  // get_cards

  /** A completed rouble expense paid with a card. */
  predicate IsCardExpense(t: Transaction)
  {
    IsExpense(t) && t.card.Some?
  }

  /** `card[1:]`: the card number without its masking first character. */
  function LastDigits(card: string): string
  {
    if card == [] then [] else card[1..]
  }

  datatype CardRecord = CardRecord(lastDigits: string, totalSpent: nat, cashback: int)

  /** The record of one card group: its last digits, the magnitude of its
      sum, and one percent of that as cashback, rounded to the kopeck. */
  predicate DescribesCard(c: CardRecord, g: Group)
  {
    && c.lastDigits == LastDigits(g.key)
    && c.totalSpent == Abs(g.total)
    && c.cashback == DivRound(c.totalSpent, 100)
  }

  function CardRecords(g: seq<Group>): (r: seq<CardRecord>)
    ensures |r| == |g| && forall i :: 0 <= i < |g| ==> DescribesCard(r[i], g[i])
  {
    seq(|g|, i requires 0 <= i < |g| => CardRecord(LastDigits(g[i].key), Abs(g[i].total), DivRound(Abs(g[i].total), 100)))
  }

  lemma CardTable(rows: seq<Transaction>)
    ensures var spent := Filter(rows, IsCardExpense);
      && (spent == [] <==> forall i :: 0 <= i < |rows| ==> !IsCardExpense(rows[i]))
      && (SumByKey(spent, CardNumber) == [] <==> spent == [])
      && forall i :: 0 <= i < |SumByKey(spent, CardNumber)| ==> SumByKey(spent, CardNumber)[i].total < 0
  {
    var spent := Filter(rows, IsCardExpense);
    FilterEmpty(rows, IsCardExpense);
    var g := SumByKey(spent, CardNumber);
    GroupsOfExpenses(g, spent, CardNumber);
    if spent != [] {
      assert CardNumber(spent[0]) in KeySet(spent, CardNumber);
    }
  }

  /** `get_cards`: one record per distinct card among the completed rouble
      expenses made with a card, in ascending order of the card number;
      nothing when there is no such expense. */
  function GetCards(rows: seq<Transaction>): (r: seq<CardRecord>)
    ensures r == [] <==> forall i :: 0 <= i < |rows| ==> !IsCardExpense(rows[i])
    ensures exists g :: (SumsByKey(g, Filter(rows, IsCardExpense), CardNumber)
      && |g| == |r| && forall i :: 0 <= i < |r| ==> DescribesCard(r[i], g[i]))
    ensures forall i :: 0 <= i < |r| ==> r[i].totalSpent > 0 && r[i].cashback >= 0
  {
    var spent := Filter(rows, IsCardExpense);
    var g := SumByKey(spent, CardNumber);
    CardTable(rows);
    CardsDescribed(g, spent);
    if |rows| == 0 || |spent| == 0 then [] else CardRecords(g)
  }

  /** The records of the grouped card expenses describe those groups, each
      with a positive spending. */
  lemma CardsDescribed(g: seq<Group>, spent: seq<Transaction>)
    requires SumsByKey(g, spent, CardNumber)
    requires forall i :: 0 <= i < |g| ==> g[i].total < 0
    ensures exists h :: (SumsByKey(h, spent, CardNumber) && |h| == |CardRecords(g)|
      && forall i :: 0 <= i < |h| ==> DescribesCard(CardRecords(g)[i], h[i]))
    ensures forall i :: 0 <= i < |g| ==> CardRecords(g)[i].totalSpent > 0 && CardRecords(g)[i].cashback >= 0
  {
    var r := CardRecords(g);
    assert |g| == |r| && forall i :: 0 <= i < |g| ==> DescribesCard(r[i], g[i]);
  }

  // ---------------------------------------------------------------------
  // get_top_transactions

  datatype TopRecord = TopRecord(date: string, amount: int, category: string, description: string)

  function Magnitude(t: Transaction): int
  {
    Abs(t.amount)
  }

  /** The record of one operation: its day as `dd.mm.yyyy`, its signed
      amount, its category and its description. */
  function TopRecordOf(t: Transaction): TopRecord
  {
    TopRecord(FormatDayMonthYear(t.date), t.amount, t.category, t.description)
  }

  /** The (at most) five completed rouble operations of largest magnitude,
      largest first; each operation left out is no larger than any chosen. */
  function TopRows(rows: seq<Transaction>): (top: seq<Transaction>)
    ensures |top| == Min(5, |Filter(rows, IsCounted)|)
    ensures NonIncreasing(top, Magnitude)
    ensures multiset(top) <= multiset(Filter(rows, IsCounted))
    ensures forall t, u :: t in top && u in multiset(Filter(rows, IsCounted)) - multiset(top) ==>
      Magnitude(t) >= Magnitude(u)
  {
    var sorted := SortDescending(Filter(rows, IsCounted), Magnitude);
    var m := Min(5, |sorted|);
    PrefixDominates(sorted, Magnitude, m);
    sorted[..m]
  }

  /** `get_top_transactions`: builds one record per chosen operation, in
      order. */
  method GetTopTransactions(rows: seq<Transaction>) returns (top: seq<TopRecord>)
    ensures |top| == |TopRows(rows)|
    ensures forall i :: 0 <= i < |top| ==> top[i] == TopRecordOf(TopRows(rows)[i])
  {
    if |rows| == 0 {
      return [];
    }
    var counted := Filter(rows, IsCounted);
    if |counted| == 0 {
      return [];
    }
    var sorted := SortDescending(counted, Magnitude);
    var chosen := sorted[..Min(5, |sorted|)];
    top := [];
    var i := 0;
    while i < |chosen|
      invariant 0 <= i <= |chosen|
      invariant |top| == i
      invariant forall k :: 0 <= k < i ==> top[k] == TopRecordOf(chosen[k])
    {
      var operation := chosen[i];
      top := top + [TopRecord(FormatDayMonthYear(operation.date), operation.amount, operation.category, operation.description)];
      i := i + 1;
    }
  }

  // ---------------------------------------------------------------------
  // get_expenses

  const Others := "Остальное"

  datatype Expenses = Expenses(totalAmount: nat, main: seq<Group>, transfersAndCash: seq<Group>)

  predicate IsTransferOrCash(g: Group)
  {
    g.key == Transfers || g.key == Cash
  }

  predicate IsMainCategory(g: Group)
  {
    !IsTransferOrCash(g)
  }

  /** The categories of the completed rouble expenses, each with the
      magnitude of its sum, largest first. */
  function ExpenseCategories(rows: seq<Transaction>): (cats: seq<Group>)
    ensures NonIncreasing(cats, Amount)
    ensures DistinctKeys(cats) && Keys(cats) == KeySet(Filter(rows, IsExpense), Category)
    ensures forall i :: 0 <= i < |cats| ==>
      cats[i].total > 0 && cats[i].total == -KeyTotal(Filter(rows, IsExpense), Category, cats[i].key)
    ensures SumTotals(cats) == -Total(Filter(rows, IsExpense))
  {
    var spent := Filter(rows, IsExpense);
    var m := Magnitudes(SumByKey(spent, Category));
    MagnitudesOfExpenses(spent, Category);
    SortKeys(m, Amount);
    SortDistinct(m, Amount);
    SortTotal(m, Amount);
    SortKeepsProperty(m, Amount, (x: Group) => x.total > 0 && x.total == -KeyTotal(spent, Category, x.key));
    SortDescending(m, Amount)
  }

  /** More than seven categories: the first seven stay and the rest are
      folded into one "Остальное" entry carrying their sum. */
  function FoldOverflow(cats: seq<Group>): (r: seq<Group>)
    ensures |r| == Min(8, |cats|)
    ensures r[..Min(7, |r|)] == cats[..Min(7, |cats|)]
    ensures |cats| > 7 ==> r[7].key == Others && r[7].total >= 0
    ensures (forall i :: 0 <= i < |cats| ==> cats[i].total > 0) ==> SumTotals(r) == SumTotals(cats)
  {
    if |cats| > 7 then
      var r := cats[..7] + [Group(Others, Abs(SumTotals(cats[7..])))];
      assert r[..7] == cats[..7];
      FoldedTotal(cats);
      r
    else cats
  }

  /** Folding the entries after the seventh into one keeps the grand total
      when no amount is negative. */
  lemma FoldedTotal(cats: seq<Group>)
    requires |cats| > 7
    ensures (forall i :: 0 <= i < |cats| ==> cats[i].total > 0) ==>
      SumTotals(cats[..7] + [Group(Others, Abs(SumTotals(cats[7..])))]) == SumTotals(cats)
  {
    if forall i :: 0 <= i < |cats| ==> cats[i].total > 0 {
      var folded := cats[7..];
      assert forall j :: 0 <= j < |folded| ==> folded[j] == cats[7 + j];
      SumTotalsNonNegative(folded);
      assert cats == cats[..7] + folded;
      SumTotalsConcat(cats[..7], folded);
      SumTotalsConcat(cats[..7], [Group(Others, SumTotals(folded))]);
      SumTotalsCons(Group(Others, SumTotals(folded)), []);
    }
  }

  /** `get_expenses`: nothing when there is no completed rouble expense;
      otherwise the magnitude of their total, the categories other than
      transfers and cash (top seven plus an overflow entry), and the
      transfers and cash categories. */
  function GetExpenses(rows: seq<Transaction>): (r: Option<Expenses>)
    ensures r.None? <==> forall i :: 0 <= i < |rows| ==> !IsExpense(rows[i])
    ensures r.Some? ==> r.value.totalAmount == -Total(Filter(rows, IsExpense)) > 0
  {
    if |rows| == 0 then None
    else
      var spent := Filter(rows, IsExpense);
      FilterEmpty(rows, IsExpense);
      if |spent| == 0 then None
      else
        ExpenseTotal(spent);
        var cats := ExpenseCategories(rows);
        Some(Expenses(
          Abs(Total(spent)),
          FoldOverflow(Filter(cats, IsMainCategory)),
          Filter(cats, IsTransferOrCash)))
  }

  lemma ExpensesParts(rows: seq<Transaction>)
    requires GetExpenses(rows).Some?
    ensures GetExpenses(rows).value.main == FoldOverflow(Filter(ExpenseCategories(rows), IsMainCategory))
    ensures GetExpenses(rows).value.transfersAndCash == Filter(ExpenseCategories(rows), IsTransferOrCash)
  {
  }

  /** The categories other than transfers and cash. */
  function MainCategories(rows: seq<Transaction>): set<string>
  {
    KeySet(Filter(rows, IsExpense), Category) - {Transfers, Cash}
  }

  /** Keeping the entries other than transfers and cash of a sorted frame
      with distinct keys: still sorted and distinct, one per such key. */
  lemma MainEntries(cats: seq<Group>)
    requires DistinctKeys(cats) && NonIncreasing(cats, Amount)
    ensures var m := Filter(cats, IsMainCategory);
      && DistinctKeys(m) && Keys(m) == Keys(cats) - {Transfers, Cash} && |m| == |Keys(m)|
      && NonIncreasing(m, Amount)
  {
    var m := Filter(cats, IsMainCategory);
    KeysOfFilterOut(cats, IsMainCategory, {Transfers, Cash});
    FilterDistinct(cats, IsMainCategory);
    DistinctKeysCount(m);
    FilterNonIncreasing(cats, IsMainCategory, Amount);
  }

  /** The categories other than transfers and cash, largest first: distinct,
      one per such category. */
  lemma MainList(rows: seq<Transaction>)
    ensures var m := Filter(ExpenseCategories(rows), IsMainCategory);
      && DistinctKeys(m) && Keys(m) == MainCategories(rows) && |m| == |MainCategories(rows)|
      && NonIncreasing(m, Amount)
      && forall i :: 0 <= i < |m| ==>
           && m[i].key in MainCategories(rows)
           && m[i].total > 0 && m[i].total == -KeyTotal(Filter(rows, IsExpense), Category, m[i].key)
  {
    var cats := ExpenseCategories(rows);
    var m := Filter(cats, IsMainCategory);
    MainEntries(cats);
    forall i | 0 <= i < |m|
      ensures m[i].key in MainCategories(rows)
      ensures m[i].total > 0 && m[i].total == -KeyTotal(Filter(rows, IsExpense), Category, m[i].key)
    {
      assert m[i] in cats;
      assert m[i].key in Keys(m);
    }
  }

  /** With positive amounts, the overflow entry carries exactly the sum of
      the entries after the seventh. */
  lemma FoldOverflowFacts(m: seq<Group>)
    requires forall i :: 0 <= i < |m| ==> m[i].total > 0
    ensures |m| > 7 ==> FoldOverflow(m)[7] == Group(Others, SumTotals(m[7..]))
  {
    if |m| > 7 {
      var folded := m[7..];
      assert forall j :: 0 <= j < |folded| ==> folded[j] == m[7 + j];
      SumTotalsNonNegative(folded);
    }
  }

  /** `main` lists at most eight entries, and eight exactly when more than
      seven categories other than transfers and cash occur. Its first seven
      (or fewer) entries are such categories with the magnitude of their
      sums, largest first. */
  lemma GetExpensesMain(rows: seq<Transaction>)
    requires GetExpenses(rows).Some?
    ensures var main := GetExpenses(rows).value.main;
      && |main| == Min(8, |MainCategories(rows)|)
      && NonIncreasing(main[..Min(7, |main|)], Amount)
      && DistinctKeys(main[..Min(7, |main|)])
      && (|MainCategories(rows)| <= 7 ==> Keys(main) == MainCategories(rows))
      && forall i :: 0 <= i < Min(7, |main|) ==>
           && main[i].key in MainCategories(rows)
           && main[i].total == -KeyTotal(Filter(rows, IsExpense), Category, main[i].key)
  {
    ExpensesParts(rows);
    MainList(rows);
    var m := Filter(ExpenseCategories(rows), IsMainCategory);
    var spent := Filter(rows, IsExpense);
    FoldPrefix(m, (x: Group) => x.key in MainCategories(rows) && x.total == -KeyTotal(spent, Category, x.key));
  }

  /** Folding a sorted list of positive entries that all have property `P`
      lists min(8, n) entries whose first seven (or fewer) are still sorted
      and still have `P`. */
  lemma FoldPrefix(m: seq<Group>, P: Group -> bool)
    requires NonIncreasing(m, Amount)
    requires forall i :: 0 <= i < |m| ==> m[i].total > 0 && P(m[i])
    ensures var main := FoldOverflow(m);
      && |main| == Min(8, |m|)
      && NonIncreasing(main[..Min(7, |main|)], Amount)
      && (DistinctKeys(m) ==> DistinctKeys(main[..Min(7, |main|)]))
      && (|m| <= 7 ==> main == m)
      && forall i :: 0 <= i < Min(7, |main|) ==> P(main[i])
  {
    var main := FoldOverflow(m);
    FoldOverflowFacts(m);
    var n := Min(7, |main|);
    assert main[..n] == m[..n];
    if DistinctKeys(m) {
      forall i, j | 0 <= i < j < n ensures main[..n][i].key != main[..n][j].key {
        assert main[..n][i] == m[i] && main[..n][j] == m[j];
      }
    }
    forall i, j | 0 <= i < j < n ensures Amount(main[..n][i]) >= Amount(main[..n][j]) {
      assert main[..n][i] == m[i] && main[..n][j] == m[j];
    }
    forall i | 0 <= i < n ensures P(main[i]) {
      assert main[i] == main[..n][i] == m[i];
    }
  }

  /** `main` is the folding of the sorted list `m` of more than seven
      entries with keys `keys`: eight entries, the eighth "Остальное"
      carrying the sum of the entries of `m` after the seventh; each listed
      entry is at least as large as any folded one, and the folded keys are
      other keys of `keys`. */
  predicate Overflowed(main: seq<Group>, m: seq<Group>, keys: set<string>)
  {
    && |main| == 8 && |m| > 7
    && main[7] == Group(Others, SumTotals(m[7..]))
    && (forall i, j :: 0 <= i < 7 && 7 <= j < |m| ==> main[i].total >= m[j].total)
    && (forall j :: 7 <= j < |m| ==> m[j].key in keys && m[j].key !in Keys(main[..7]))
  }

  /** On overflow the eighth entry is "Остальное" carrying the sum of the
      categories not listed before it, and each listed category is at least
      as large as any folded one. */
  lemma GetExpensesOverflow(rows: seq<Transaction>)
    requires GetExpenses(rows).Some?
    requires |MainCategories(rows)| > 7
    ensures Overflowed(GetExpenses(rows).value.main, Filter(ExpenseCategories(rows), IsMainCategory), MainCategories(rows))
  {
    var m := Filter(ExpenseCategories(rows), IsMainCategory);
    var main := GetExpenses(rows).value.main;
    assert main == FoldOverflow(m) by {
      ExpensesParts(rows);
    }
    MainOverflow(rows);
    OverflowFacts(m, MainCategories(rows));
  }

  /** The main list is long enough to overflow. */
  lemma MainOverflow(rows: seq<Transaction>)
    requires |MainCategories(rows)| > 7
    ensures var m := Filter(ExpenseCategories(rows), IsMainCategory);
      && |m| > 7 && NonIncreasing(m, Amount) && DistinctKeys(m) && Keys(m) == MainCategories(rows)
      && forall i :: 0 <= i < |m| ==> m[i].total > 0
  {
    MainList(rows);
  }

  /** Folding a sorted list of more than seven distinct positive entries. */
  lemma OverflowFacts(m: seq<Group>, keys: set<string>)
    requires |m| > 7 && NonIncreasing(m, Amount) && DistinctKeys(m) && Keys(m) == keys
    requires forall i :: 0 <= i < |m| ==> m[i].total > 0
    ensures Overflowed(FoldOverflow(m), m, keys)
  {
    FoldOverflowFacts(m);
    FoldedCategories(m, keys);
    var main := FoldOverflow(m);
    assert main[..7] == m[..7];
    assert forall i :: 0 <= i < 7 ==> main[i] == m[i];
  }

  /** In a sorted list of distinct keys, the entries after the seventh are
      no larger than the first seven and carry other keys. */
  lemma FoldedCategories(m: seq<Group>, keys: set<string>)
    requires |m| > 7 && NonIncreasing(m, Amount) && DistinctKeys(m) && Keys(m) == keys
    ensures forall i, j :: 0 <= i < 7 && 7 <= j < |m| ==> m[i].total >= m[j].total
    ensures forall j :: 7 <= j < |m| ==> m[j].key in keys && m[j].key !in Keys(m[..7])
  {
    forall j | 7 <= j < |m| ensures m[j].key !in Keys(m[..7]) {
      assert forall i :: 0 <= i < 7 ==> m[..7][i] == m[i];
    }
  }

  /** `transfers_and_cash` holds just the transfers and cash categories
      that occur, with the magnitude of their sums, largest first. */
  lemma GetExpensesTransfersAndCash(rows: seq<Transaction>)
    requires GetExpenses(rows).Some?
    ensures var tc := GetExpenses(rows).value.transfersAndCash;
      && Keys(tc) == KeySet(Filter(rows, IsExpense), Category) * {Transfers, Cash}
      && |tc| <= 2
      && NonIncreasing(tc, Amount)
      && forall i :: 0 <= i < |tc| ==> tc[i].total == -KeyTotal(Filter(rows, IsExpense), Category, tc[i].key)
  {
    ExpensesParts(rows);
    TransfersList(rows);
  }

  /** Keeping the transfers and cash entries of a sorted frame with
      distinct keys: at most two, still sorted. */
  lemma TransferEntries(cats: seq<Group>)
    requires DistinctKeys(cats) && NonIncreasing(cats, Amount)
    ensures var tc := Filter(cats, IsTransferOrCash);
      && Keys(tc) == Keys(cats) * {Transfers, Cash}
      && |tc| <= 2
      && NonIncreasing(tc, Amount)
  {
    var tc := Filter(cats, IsTransferOrCash);
    KeysOfFilter(cats, IsTransferOrCash, {Transfers, Cash});
    FilterDistinct(cats, IsTransferOrCash);
    FilterNonIncreasing(cats, IsTransferOrCash, Amount);
    AtMostTwo(tc, Transfers, Cash);
  }

  lemma TransfersList(rows: seq<Transaction>)
    ensures var tc := Filter(ExpenseCategories(rows), IsTransferOrCash);
      && Keys(tc) == KeySet(Filter(rows, IsExpense), Category) * {Transfers, Cash}
      && |tc| <= 2
      && NonIncreasing(tc, Amount)
      && forall i :: 0 <= i < |tc| ==> tc[i].total == -KeyTotal(Filter(rows, IsExpense), Category, tc[i].key)
  {
    var cats := ExpenseCategories(rows);
    var tc := Filter(cats, IsTransferOrCash);
    TransferEntries(cats);
    forall i | 0 <= i < |tc| ensures tc[i].total == -KeyTotal(Filter(rows, IsExpense), Category, tc[i].key) {
      assert tc[i] in cats;
    }
  }

  lemma PairCardinality(a: set<string>, x: string, y: string)
    requires a <= {x, y}
    ensures |a| <= 2
  {
    var b := {x, y};
    assert b == a + (b - a);
  }

  lemma AtMostTwo(g: seq<Group>, x: string, y: string)
    requires DistinctKeys(g)
    requires forall i :: 0 <= i < |g| ==> g[i].key == x || g[i].key == y
    ensures |g| <= 2
  {
    DistinctKeysCount(g);
    PairCardinality(Keys(g), x, y);
  }

  /** Nothing is lost: `main` and `transfers_and_cash` add up to
      `total_amount`. */
  lemma GetExpensesConservation(rows: seq<Transaction>)
    requires GetExpenses(rows).Some?
    ensures var e := GetExpenses(rows).value;
      SumTotals(e.main) + SumTotals(e.transfersAndCash) == e.totalAmount
  {
    ExpensesParts(rows);
    MainList(rows);
    var cats := ExpenseCategories(rows);
    var m := Filter(cats, IsMainCategory);
    FilterSplitTotals(cats, IsMainCategory, IsTransferOrCash);
    FoldOverflowFacts(m);
  }

  // ---------------------------------------------------------------------
  // get_income

  datatype Income = Income(totalAmount: int, main: seq<Group>)

  /** `get_income`: nothing when there is no completed rouble income;
      otherwise their total and the sum of each category, largest first,
      adding up to the total. */
  function GetIncome(rows: seq<Transaction>): (r: Option<Income>)
    ensures r.None? <==> forall i :: 0 <= i < |rows| ==> !IsIncome(rows[i])
    ensures r.Some? ==> r.value.totalAmount == Total(Filter(rows, IsIncome)) > 0
    ensures r.Some? ==> var main := r.value.main;
      && NonIncreasing(main, Amount)
      && DistinctKeys(main) && Keys(main) == KeySet(Filter(rows, IsIncome), Category)
      && (forall i :: 0 <= i < |main| ==>
            main[i].total > 0 && main[i].total == KeyTotal(Filter(rows, IsIncome), Category, main[i].key))
      && SumTotals(main) == r.value.totalAmount
  {
    if |rows| == 0 then None
    else
      var earned := Filter(rows, IsIncome);
      FilterEmpty(rows, IsIncome);
      if |earned| == 0 then None
      else
        IncomeTotal(earned);
        SortedIncomeSums(earned, Category);
        Some(Income(Total(earned), SortDescending(SumByKey(earned, Category), Amount)))
  }
}
