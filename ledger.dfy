/** The ledger: one transaction per row of the bank export, the row
    predicates the reports combine, and the amount total. */
module Ledger {
  import opened Basics
  import opened Calendar
  import opened Grouping

  /** One ledger row. The amount is signed and counted in kopecks (1/100
      rouble): negative is an expense, positive an income. The card number
      is absent for operations made without a card; its first character is
      a masking prefix (`*7197`). */
  datatype Transaction = Transaction(
    date: Instant,
    card: Option<string>,
    amount: int,
    currency: string,
    status: string,
    category: string,
    description: string)

  const Rouble := "RUB"
  const Succeeded := "OK"
  const Transfers := "Переводы"
  const Cash := "Наличные"
  const Miscellaneous := "Другое"

  /** A completed operation in roubles: the only rows any report counts. */
  predicate IsCounted(t: Transaction)
  {
    t.currency == Rouble && t.status == Succeeded
  }

  predicate IsExpense(t: Transaction)
  {
    IsCounted(t) && t.amount < 0
  }

  predicate IsIncome(t: Transaction)
  {
    IsCounted(t) && t.amount > 0
  }

  /** The row is dated inside the closed window [start, finish]. */
  predicate InWindow(t: Transaction, start: DateTime, finish: DateTime)
  {
    AtMost(start, t.date) && AtMost(t.date, finish)
  }

  /** The sum of the amounts of `rows`. */
  function Total(rows: seq<Transaction>): int
  {
    if rows == [] then 0 else Total(rows[..|rows| - 1]) + rows[|rows| - 1].amount
  }

  /** A sum of expenses is never positive, and is negative unless there is
      nothing to sum. */
  lemma {:induction false} ExpenseTotal(rows: seq<Transaction>)
    requires forall i :: 0 <= i < |rows| ==> rows[i].amount < 0
    ensures Total(rows) <= 0
    ensures rows != [] ==> Total(rows) < 0
  {
    if rows != [] {
      ExpenseTotal(rows[..|rows| - 1]);
    }
  }

  /** A sum of incomes is never negative, and is positive unless there is
      nothing to sum. */
  lemma {:induction false} IncomeTotal(rows: seq<Transaction>)
    requires forall i :: 0 <= i < |rows| ==> rows[i].amount > 0
    ensures Total(rows) >= 0
    ensures rows != [] ==> Total(rows) > 0
  {
    if rows != [] {
      IncomeTotal(rows[..|rows| - 1]);
    }
  }

  /** The earliest date among the rows (the start of the "ALL" window). */
  function EarliestDate(rows: seq<Transaction>): (d: Instant)
    requires rows != []
    ensures exists i :: 0 <= i < |rows| && rows[i].date == d
    ensures forall i :: 0 <= i < |rows| ==> AtMost(d, rows[i].date)
  {
    if |rows| == 1 then rows[0].date
    else
      var rest := EarliestDate(rows[1..]);
      assert forall i :: 1 <= i < |rows| ==> rows[i] == rows[1..][i - 1];
      if AtMost(rows[0].date, rest) then rows[0].date else rest
  }

  // ---------------------------------------------------------------------
  // groupby(key)["Сумма платежа"].sum() over ledger rows

  function Category(t: Transaction): string
  {
    t.category
  }

  /** The card number of a row, the empty text when the row has none. */
  function CardNumber(t: Transaction): string
  {
    match t.card
    case Some(c) => c
    case None => ""
  }

  /** The keys that occur among the rows. */
  function KeySet(rows: seq<Transaction>, key: Transaction -> string): set<string>
  {
    set i | 0 <= i < |rows| :: key(rows[i])
  }

  /** The sum of the amounts of the rows whose key is `k`. */
  function KeyTotal(rows: seq<Transaction>, key: Transaction -> string, k: string): int
  {
    if rows == [] then 0
    else KeyTotal(rows[..|rows| - 1], key, k) + (if key(rows[|rows| - 1]) == k then rows[|rows| - 1].amount else 0)
  }

  /** `g` is the grouped sum of `rows` by `key`: one entry per key that
      occurs, keys ascending, each carrying the sum of its rows. */
  ghost predicate SumsByKey(g: seq<Group>, rows: seq<Transaction>, key: Transaction -> string)
  {
    && KeysAscending(g)
    && Keys(g) == KeySet(rows, key)
    && forall i :: 0 <= i < |g| ==> g[i].total == KeyTotal(rows, key, g[i].key)
  }

  /** The (key, amount) column pair of the rows. */
  function Keyed(rows: seq<Transaction>, key: Transaction -> string): (pairs: seq<Group>)
    ensures |pairs| == |rows|
    ensures forall i :: 0 <= i < |rows| ==> pairs[i] == Group(key(rows[i]), rows[i].amount)
  {
    seq(|rows|, i requires 0 <= i < |rows| => Group(key(rows[i]), rows[i].amount))
  }

  lemma {:induction false} KeyedSums(rows: seq<Transaction>, key: Transaction -> string)
    ensures Keys(Keyed(rows, key)) == KeySet(rows, key)
    ensures forall k :: SumFor(Keyed(rows, key), k) == KeyTotal(rows, key, k)
    ensures SumTotals(Keyed(rows, key)) == Total(rows)
  {
    var pairs := Keyed(rows, key);
    assert Keys(pairs) == KeySet(rows, key) by {
      forall k | k in KeySet(rows, key) ensures k in Keys(pairs) {
        var i :| 0 <= i < |rows| && key(rows[i]) == k;
        assert pairs[i].key == k;
      }
    }
    if rows != [] {
      var init := rows[..|rows| - 1];
      KeyedSums(init, key);
      assert pairs[..|pairs| - 1] == Keyed(init, key);
    }
  }

  /** The rows summed by key, as `groupby(key).sum()` lays them out. */
  function SumByKey(rows: seq<Transaction>, key: Transaction -> string): (g: seq<Group>)
    ensures SumsByKey(g, rows, key)
    ensures DistinctKeys(g)
    ensures |g| == |KeySet(rows, key)|
    ensures SumTotals(g) == Total(rows)
  {
    var pairs := Keyed(rows, key);
    KeyedSums(rows, key);
    var g := GroupSum(pairs);
    GroupSumEntries(pairs);
    DistinctKeysCount(g);
    g
  }

  /** A key that occurs among expense rows sums to a negative amount. */
  lemma {:induction false} KeyTotalOfExpenses(rows: seq<Transaction>, key: Transaction -> string, k: string)
    requires forall i :: 0 <= i < |rows| ==> rows[i].amount < 0
    ensures KeyTotal(rows, key, k) <= 0
    ensures k in KeySet(rows, key) ==> KeyTotal(rows, key, k) < 0
  {
    if rows != [] {
      var init := rows[..|rows| - 1];
      KeyTotalOfExpenses(init, key, k);
      if k in KeySet(rows, key) && key(rows[|rows| - 1]) != k {
        var i :| 0 <= i < |rows| && key(rows[i]) == k;
        assert init[i] == rows[i];
      }
    }
  }

  /** A key that occurs among income rows sums to a positive amount. */
  lemma {:induction false} KeyTotalOfIncomes(rows: seq<Transaction>, key: Transaction -> string, k: string)
    requires forall i :: 0 <= i < |rows| ==> rows[i].amount > 0
    ensures KeyTotal(rows, key, k) >= 0
    ensures k in KeySet(rows, key) ==> KeyTotal(rows, key, k) > 0
  {
    if rows != [] {
      var init := rows[..|rows| - 1];
      KeyTotalOfIncomes(init, key, k);
      if k in KeySet(rows, key) && key(rows[|rows| - 1]) != k {
        var i :| 0 <= i < |rows| && key(rows[i]) == k;
        assert init[i] == rows[i];
      }
    }
  }

  /** Every group of expense rows has a negative sum. */
  lemma GroupsOfExpenses(g: seq<Group>, rows: seq<Transaction>, key: Transaction -> string)
    requires SumsByKey(g, rows, key)
    requires forall i :: 0 <= i < |rows| ==> rows[i].amount < 0
    ensures forall i :: 0 <= i < |g| ==> g[i].total < 0
  {
    forall i | 0 <= i < |g| ensures g[i].total < 0 {
      assert g[i].key in Keys(g);
      KeyTotalOfExpenses(rows, key, g[i].key);
    }
  }

  /** Every group of income rows has a positive sum. */
  lemma GroupsOfIncomes(g: seq<Group>, rows: seq<Transaction>, key: Transaction -> string)
    requires SumsByKey(g, rows, key)
    requires forall i :: 0 <= i < |rows| ==> rows[i].amount > 0
    ensures forall i :: 0 <= i < |g| ==> g[i].total > 0
  {
    forall i | 0 <= i < |g| ensures g[i].total > 0 {
      assert g[i].key in Keys(g);
      KeyTotalOfIncomes(rows, key, g[i].key);
    }
  }

  /** The magnitudes of the grouped sums of expense rows: positive, one per
      key, adding up to the magnitude of the total. */
  lemma MagnitudesOfExpenses(rows: seq<Transaction>, key: Transaction -> string)
    requires forall i :: 0 <= i < |rows| ==> rows[i].amount < 0
    ensures var m := Magnitudes(SumByKey(rows, key));
      && DistinctKeys(m) && Keys(m) == KeySet(rows, key)
      && (forall i :: 0 <= i < |m| ==> m[i].total > 0 && m[i].total == -KeyTotal(rows, key, m[i].key))
      && SumTotals(m) == -Total(rows)
  {
    var g := SumByKey(rows, key);
    GroupsOfExpenses(g, rows, key);
    MagnitudesTotal(g);
    var m := Magnitudes(g);
    forall i | 0 <= i < |m| ensures m[i].total > 0 && m[i].total == -KeyTotal(rows, key, m[i].key) {
      assert m[i] == Group(g[i].key, Abs(g[i].total));
    }
  }

  /** The grouped sums of income rows, largest first: positive, one per
      key, adding up to the total. */
  lemma SortedIncomeSums(rows: seq<Transaction>, key: Transaction -> string)
    requires forall i :: 0 <= i < |rows| ==> rows[i].amount > 0
    ensures var main := SortDescending(SumByKey(rows, key), Amount);
      && NonIncreasing(main, Amount)
      && DistinctKeys(main) && Keys(main) == KeySet(rows, key)
      && (forall i :: 0 <= i < |main| ==> main[i].total > 0 && main[i].total == KeyTotal(rows, key, main[i].key))
      && SumTotals(main) == Total(rows)
  {
    var g := SumByKey(rows, key);
    GroupsOfIncomes(g, rows, key);
    SortKeys(g, Amount);
    SortDistinct(g, Amount);
    SortTotal(g, Amount);
    SortKeepsProperty(g, Amount, (x: Group) => x.total > 0 && x.total == KeyTotal(rows, key, x.key));
  }
}
