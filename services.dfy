/** The cashback service: for a chosen calendar month, the categories of
    completed rouble expenses worth a raised cashback rate, each with the
    1% cashback its spending would have earned, largest first. */
module Services {
  import opened Basics
  import opened Calendar
  import opened Ledger
  import opened Grouping

  /** The categories that never qualify for raised cashback. */
  predicate Excluded(category: string)
  {
    category == Transfers || category == Cash || category == Miscellaneous
  }

  /** A completed rouble expense of a qualifying category, dated inside the
      calendar month (year, month). */
  predicate Qualifies(t: Transaction, year: int, month: int)
    requires 1 <= month <= 12
  {
    var w := MonthWindow(year, month);
    IsExpense(t) && InWindow(t, w.0, w.1) && !Excluded(t.category)
  }

  /** A row qualifies exactly when it is a completed rouble expense of a
      category other than transfers, cash and "other", dated in the month. */
  lemma QualifiesInMonth(t: Transaction, year: int, month: int)
    requires 1 <= month <= 12
    ensures Qualifies(t, year, month) <==>
      IsExpense(t) && t.date.year == year && t.date.month == month && !Excluded(t.category)
  {
    var w := MonthWindow(year, month);
    assert InWindow(t, w.0, w.1) <==> AtMost(w.0, t.date) && AtMost(t.date, w.1);
  }

  /** The cashback of a spending sum: 1% of its magnitude, to the nearest
      kopeck. */
  function Cashback(sum: int): (c: nat)
    ensures 2 * Abs(Abs(sum) - 100 * c) <= 100
  {
    DivRound(Abs(sum), 100)
  }

  /** Each grouped sum replaced by its cashback. */
  function Cashbacks(g: seq<Group>): (r: seq<Group>)
    ensures |r| == |g|
    ensures forall i :: 0 <= i < |g| ==> r[i] == Group(g[i].key, Cashback(g[i].total))
  {
    seq(|g|, i requires 0 <= i < |g| => Group(g[i].key, Cashback(g[i].total)))
  }

  /** `profitable_categories`: nothing for an empty list or a month outside
      1..12; otherwise one entry per qualifying category that occurs in the
      month, carrying the cashback of its spending, with cashbacks
      non-increasing. */
  function ProfitableCategories(data: seq<Transaction>, year: int, month: int): (r: seq<Group>)
    requires |data| == 0 || month < 1 || month > 12 || 1 <= year <= 9999
    ensures |data| == 0 || month < 1 || month > 12 ==> r == []
    ensures 1 <= month <= 12 ==>
      var spent := Filter(data, (t: Transaction) => Qualifies(t, year, month));
      && NonIncreasing(r, Amount)
      && DistinctKeys(r) && Keys(r) == KeySet(spent, Category)
      && forall i :: 0 <= i < |r| ==> r[i].total == Cashback(KeyTotal(spent, Category, r[i].key))
  {
    if |data| == 0 then []
    else if month < 1 || month > 12 then []
    else
      var spent := Filter(data, (t: Transaction) => Qualifies(t, year, month));
      if |spent| > 0 then
        var c := Cashbacks(SumByKey(spent, Category));
        CashbackFacts(spent);
        SortKeys(c, Amount);
        SortDistinct(c, Amount);
        SortKeepsProperty(c, Amount, (x: Group) => x.total == Cashback(KeyTotal(spent, Category, x.key)));
        SortDescending(c, Amount)
      else
        assert KeySet(spent, Category) == {};
        []
  }

  /** The cashback entries of grouped rows: one per key, each the cashback
      of its key's sum. */
  lemma CashbackFacts(rows: seq<Transaction>)
    ensures var c := Cashbacks(SumByKey(rows, Category));
      && DistinctKeys(c) && Keys(c) == KeySet(rows, Category)
      && forall i :: 0 <= i < |c| ==> c[i].total == Cashback(KeyTotal(rows, Category, c[i].key))
  {
    CashbacksOf(SumByKey(rows, Category), rows);
  }

  lemma CashbacksOf(g: seq<Group>, rows: seq<Transaction>)
    requires SumsByKey(g, rows, Category) && DistinctKeys(g)
    ensures var c := Cashbacks(g);
      && DistinctKeys(c) && Keys(c) == KeySet(rows, Category)
      && forall i :: 0 <= i < |c| ==> c[i].total == Cashback(KeyTotal(rows, Category, c[i].key))
  {
    var c := Cashbacks(g);
    assert forall i :: 0 <= i < |c| ==> c[i].key == g[i].key;
    assert Keys(c) == Keys(g);
  }

  /** The listed categories are exactly the qualifying ones that occur:
      none of them is a transfer, cash or "other" category, and each has a
      qualifying expense in the month. */
  lemma ProfitableKeys(data: seq<Transaction>, year: int, month: int, k: string)
    requires 1 <= month <= 12 && 1 <= year <= 9999
    ensures k in Keys(ProfitableCategories(data, year, month)) <==>
      exists i :: 0 <= i < |data| && Qualifies(data[i], year, month) && data[i].category == k
    ensures k in Keys(ProfitableCategories(data, year, month)) ==> !Excluded(k)
  {
    var p := (t: Transaction) => Qualifies(t, year, month);
    var spent := Filter(data, p);
    FilterKeeps(data, p);
    if k in KeySet(spent, Category) {
      var j :| 0 <= j < |spent| && spent[j].category == k;
      assert spent[j] in data;
    }
  }

  /** A non-empty list without a qualifying expense in the month gives
      nothing. */
  lemma NoQualifyingExpense(data: seq<Transaction>, year: int, month: int)
    requires 1 <= month <= 12 && 1 <= year <= 9999
    requires forall i :: 0 <= i < |data| ==> !Qualifies(data[i], year, month)
    ensures ProfitableCategories(data, year, month) == []
  {
    FilterEmpty(data, (t: Transaction) => Qualifies(t, year, month));
  }

  /** A December 2021 ledger: three qualifying categories, a transfer, a
      November expense and a pending one. */
  function DecemberLedger(): seq<Transaction>
  {
    [ Transaction(DateTime(2021, 12, 5, 10, 0, 0), Some("*7197"), -31500, "RUB", "OK", "Аптеки", "Аптека"),
      Transaction(DateTime(2021, 12, 10, 12, 30, 0), Some("*7197"), -1800, "RUB", "OK", "Связь", "МТС"),
      Transaction(DateTime(2021, 12, 31, 23, 59, 59), Some("*5091"), -12800, "RUB", "OK", "Каршеринг", "Ситидрайв"),
      Transaction(DateTime(2021, 12, 1, 0, 0, 0), None, -50000, "RUB", "OK", "Переводы", "Перевод"),
      Transaction(DateTime(2021, 11, 30, 23, 59, 59), Some("*7197"), -10000, "RUB", "OK", "Аптеки", "Аптека"),
      Transaction(DateTime(2021, 12, 15, 9, 0, 0), Some("*7197"), -9900, "RUB", "FAILED", "Связь", "МТС") ]
  }

  /** Which rows of that ledger qualify for December 2021: the first three. */
  lemma DecemberRows()
    ensures forall i :: 0 <= i < 6 ==> (Qualifies(DecemberLedger()[i], 2021, 12) <==> i < 3)
  {
    var d := DecemberLedger();
    forall i | 0 <= i < 6 ensures Qualifies(d[i], 2021, 12) <==> i < 3 {
      QualifiesInMonth(d[i], 2021, 12);
    }
  }

  /** The qualifying expenses of December 2021 in that ledger. */
  lemma DecemberSpent()
    ensures Filter(DecemberLedger(), (t: Transaction) => Qualifies(t, 2021, 12)) == DecemberLedger()[..3]
  {
    var d := DecemberLedger();
    var p := (t: Transaction) => Qualifies(t, 2021, 12);
    DecemberRows();
    FilterPrefix(d, p, 3);
  }

  /** The sums and cashbacks of the December 2021 categories. */
  lemma DecemberSums()
    ensures KeySet(DecemberLedger()[..3], Category) == {"Аптеки", "Каршеринг", "Связь"}
    ensures Cashback(KeyTotal(DecemberLedger()[..3], Category, "Аптеки")) == 315
    ensures Cashback(KeyTotal(DecemberLedger()[..3], Category, "Каршеринг")) == 128
    ensures Cashback(KeyTotal(DecemberLedger()[..3], Category, "Связь")) == 18
  {
    var spent := DecemberLedger()[..3];
    assert spent[0].category == "Аптеки" && spent[1].category == "Связь" && spent[2].category == "Каршеринг";
    assert "Аптеки"[0] != "Каршеринг"[0] && "Аптеки"[0] != "Связь"[0] && "Каршеринг"[0] != "Связь"[0];
    KeyTotalOfThree(spent, Category, "Аптеки");
    KeyTotalOfThree(spent, Category, "Связь");
    KeyTotalOfThree(spent, Category, "Каршеринг");
    assert KeyTotal(spent, Category, "Аптеки") == -31500;
    assert KeyTotal(spent, Category, "Связь") == -1800;
    assert KeyTotal(spent, Category, "Каршеринг") == -12800;
  }

  lemma KeyTotalOfThree(rows: seq<Transaction>, key: Transaction -> string, k: string)
    requires |rows| == 3
    ensures KeyTotal(rows, key, k) ==
      (if key(rows[0]) == k then rows[0].amount else 0)
      + (if key(rows[1]) == k then rows[1].amount else 0)
      + (if key(rows[2]) == k then rows[2].amount else 0)
  {
    var two := rows[..2];
    var one := two[..1];
    assert rows[..|rows| - 1] == two && two[..|two| - 1] == one && one[..|one| - 1] == [];
    assert two[1] == rows[1] && one[0] == rows[0];
    assert KeyTotal(one, key, k) == (if key(rows[0]) == k then rows[0].amount else 0);
  }

  /** Three distinct keys with distinct values, sorted by non-increasing
      value, can only be in one order. */
  lemma ThreeSorted(r: seq<Group>, a: string, b: string, c: string, va: int, vb: int, vc: int)
    requires a != b && a != c && b != c && va > vb > vc
    requires DistinctKeys(r) && Keys(r) == {a, b, c} && NonIncreasing(r, Amount)
    requires forall i :: 0 <= i < |r| ==>
      (r[i].key == a ==> r[i].total == va) && (r[i].key == b ==> r[i].total == vb) && (r[i].key == c ==> r[i].total == vc)
    ensures r == [Group(a, va), Group(b, vb), Group(c, vc)]
  {
    DistinctKeysCount(r);
    assert |r| == 3;
    assert r[0].key in Keys(r) && r[1].key in Keys(r) && r[2].key in Keys(r);
    assert a in Keys(r) && b in Keys(r) && c in Keys(r);
  }

  /** Worked example: pharmacies 315.00 roubles of spending give 3.15 of
      cashback, car sharing 1.28 and phone 0.18; the transfer, the November
      expense and the failed payment count for nothing. */
  lemma DecemberCashback()
    ensures ProfitableCategories(DecemberLedger(), 2021, 12)
      == [Group("Аптеки", 315), Group("Каршеринг", 128), Group("Связь", 18)]
  {
    DecemberSpent();
    DecemberSums();
    var spent := DecemberLedger()[..3];
    var r := ProfitableCategories(DecemberLedger(), 2021, 12);
    assert "Аптеки"[0] != "Каршеринг"[0] && "Аптеки"[0] != "Связь"[0] && "Каршеринг"[0] != "Связь"[0];
    ThreeSorted(r, "Аптеки", "Каршеринг", "Связь", 315, 128, 18);
  }
}
