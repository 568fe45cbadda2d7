/** The three-month spending reports: the rows of one category, the mean
    expense per weekday and the mean expense on working days and at
    weekends, each over the window [finish - 3 months, finish], and the
    report file that keeps the records a report returns. */
module Reports {
  import opened Basics
  import opened Calendar
  import opened DateText
  import opened Ledger
  import opened Grouping
  import opened Text

  // ---------------------------------------------------------------------
  // The analysis window

  /** The end of the window: `now` when no date is given, otherwise the
      date read by `format_date` (which falls back to `now` on a text that
      is not a valid `YYYY-MM-DD HH:MM:SS` date). */
  function ReportFinish(date: Option<string>, now: Instant): (finish: Instant)
    ensures date.None? ==> finish == now
    ensures date.Some? ==> finish == now || date.value == FormatIso(finish)
    ensures forall t: Instant {:trigger FormatIso(t)} :: date == Some(FormatIso(t)) ==> finish == t
  {
    match date
    case None => now
    case Some(s) => FormatDate(Text(s), now)
  }

  /** A completed rouble expense dated inside the three-month window that
      ends at `finish`, both ends included. */
  predicate SpentInWindow(t: Transaction, finish: Instant)
  {
    IsExpense(t) && InWindow(t, RollingStart(finish), finish)
  }

  /** The window starts three calendar months before its end: a row dated
      no later than the end and less than three months before it is inside,
      and a row inside is at most three months before the end. */
  lemma RollingWindow(finish: Instant, d: Instant)
    ensures MonthIndex(finish) - 3 < MonthIndex(d) && AtMost(d, finish) ==> AtMost(RollingStart(finish), d)
    ensures AtMost(RollingStart(finish), d) ==> MonthIndex(finish) - 3 <= MonthIndex(d)
  {
    var s := RollingStart(finish);
    assert MonthIndex(s) == MonthIndex(finish) - 3;
    if MonthIndex(s) < MonthIndex(d) {
      assert s.year < d.year || (s.year == d.year && s.month < d.month);
    }
    if AtMost(s, d) {
      assert s.year < d.year || (s.year == d.year && s.month <= d.month);
    }
  }

  // ---------------------------------------------------------------------
  // spending_by_category

  /** One row of the category report: the date as `dd.mm.yyyy HH:MM:SS`
      and the card, amount, currency, category and description columns. */
  datatype CategoryRow = CategoryRow(
    date: string,
    card: Option<string>,
    amount: int,
    currency: string,
    category: string,
    description: string)

  function CategoryRowOf(t: Transaction): CategoryRow
  {
    CategoryRow(FormatDayMonthYearTime(t.date), t.card, t.amount, t.currency, t.category, t.description)
  }

  /** The report rows of the selected transactions, in the same order. */
  function CategoryRows(f: seq<Transaction>): (r: seq<CategoryRow>)
    ensures |r| == |f|
    ensures forall i :: 0 <= i < |f| ==> r[i] == CategoryRowOf(f[i])
  {
    seq(|f|, i requires 0 <= i < |f| => CategoryRowOf(f[i]))
  }

  /** `spending_by_category`: an empty ledger gives no rows; otherwise the
      report holds, in ledger order, exactly the completed rouble expenses
      of `category` inside the window, each projected to its report row. */
  function SpendingByCategory(rows: seq<Transaction>, category: string, date: Option<string>, now: Instant): (r: seq<CategoryRow>)
    ensures rows == [] ==> r == []
    ensures var finish := ReportFinish(date, now);
      exists f :: && Selects(f, rows, (t: Transaction) => t.category == category && SpentInWindow(t, finish))
                  && r == CategoryRows(f)
    ensures forall i :: 0 <= i < |r| ==>
      r[i].category == category && r[i].amount < 0 && r[i].currency == Rouble
  {
    var finish := ReportFinish(date, now);
    var p := (t: Transaction) => t.category == category && SpentInWindow(t, finish);
    var f := Filter(rows, p);
    FilterSelects(rows, p);
    CategoryRowsKeep(f, category, finish);
    assert rows == [] ==> CategoryRows(f) == [];
    if |rows| > 0 then CategoryRows(f) else []
  }

  lemma CategoryRowsKeep(f: seq<Transaction>, category: string, finish: Instant)
    requires forall i :: 0 <= i < |f| ==> f[i].category == category && SpentInWindow(f[i], finish)
    ensures forall i :: 0 <= i < |f| ==>
      CategoryRows(f)[i].category == category && CategoryRows(f)[i].amount < 0 && CategoryRows(f)[i].currency == Rouble
  {
  }

  // ---------------------------------------------------------------------
  // groupby(label).mean() followed by abs(round(mean, 2))

  /** The number of rows whose key is `k`. */
  function KeyCount(rows: seq<Transaction>, key: Transaction -> string, k: string): nat
  {
    if rows == [] then 0
    else KeyCount(rows[..|rows| - 1], key, k) + (if key(rows[|rows| - 1]) == k then 1 else 0)
  }

  /** A key occurs among the rows exactly when it counts at least one row. */
  lemma {:induction false} KeyCountPositive(rows: seq<Transaction>, key: Transaction -> string, k: string)
    ensures k in KeySet(rows, key) <==> KeyCount(rows, key, k) > 0
  {
    if rows != [] {
      var init := rows[..|rows| - 1];
      KeyCountPositive(init, key, k);
      if k in KeySet(rows, key) && key(rows[|rows| - 1]) != k {
        var i :| 0 <= i < |rows| && key(rows[i]) == k;
        assert init[i] == rows[i];
      }
      if k in KeySet(init, key) {
        var i :| 0 <= i < |init| && key(init[i]) == k;
        assert rows[i] == init[i];
      }
    }
  }

  /** The magnitude of the mean `n / c`, rounded to a whole kopeck. */
  function RoundedMean(n: int, c: int): (m: nat)
    requires c > 0
    ensures 2 * Abs(Abs(n) - m * c) <= c
  {
    var q := DivRound(n, c);
    assert (-q) * c == -(q * c);
    Abs(q)
  }

  /** `g` is the per-key mean of `rows`: one entry per key that occurs,
      keys ascending, each carrying the magnitude of the mean amount of its
      rows to the nearest kopeck. */
  ghost predicate MeansByKey(g: seq<Group>, rows: seq<Transaction>, key: Transaction -> string)
  {
    && KeysAscending(g)
    && Keys(g) == KeySet(rows, key)
    && forall i :: 0 <= i < |g| ==>
         && KeyCount(rows, key, g[i].key) > 0
         && g[i].total >= 0
         && 2 * Abs(Abs(KeyTotal(rows, key, g[i].key)) - g[i].total * KeyCount(rows, key, g[i].key))
              <= KeyCount(rows, key, g[i].key)
  }

  /** Each sum divided by the count of its key, as a rounded magnitude. */
  function Averaged(sums: seq<Group>, count: string -> nat): (g: seq<Group>)
    requires forall i :: 0 <= i < |sums| ==> count(sums[i].key) > 0
    ensures |g| == |sums|
    ensures forall i :: 0 <= i < |sums| ==> g[i] == Group(sums[i].key, RoundedMean(sums[i].total, count(sums[i].key)))
  {
    seq(|sums|, i requires 0 <= i < |sums| => Group(sums[i].key, RoundedMean(sums[i].total, count(sums[i].key))))
  }

  /** Averaging keeps the keys and their order. */
  lemma AveragedKeys(sums: seq<Group>, count: string -> nat)
    requires forall i :: 0 <= i < |sums| ==> count(sums[i].key) > 0
    ensures Keys(Averaged(sums, count)) == Keys(sums)
    ensures KeysAscending(sums) ==> KeysAscending(Averaged(sums, count))
  {
    var g := Averaged(sums, count);
    assert forall i :: 0 <= i < |g| ==> g[i].key == sums[i].key;
  }

  /** Every key of a grouped sum counts at least one row. */
  lemma CountsPositive(sums: seq<Group>, rows: seq<Transaction>, key: Transaction -> string)
    requires Keys(sums) == KeySet(rows, key)
    ensures forall i :: 0 <= i < |sums| ==> KeyCount(rows, key, sums[i].key) > 0
  {
    forall i | 0 <= i < |sums| ensures KeyCount(rows, key, sums[i].key) > 0 {
      assert sums[i].key in Keys(sums);
      KeyCountPositive(rows, key, sums[i].key);
    }
  }

  /** The rows averaged by key, as `groupby(key).mean()` lays them out. */
  function MeanByKey(rows: seq<Transaction>, key: Transaction -> string): (g: seq<Group>)
    ensures MeansByKey(g, rows, key)
    ensures DistinctKeys(g) && |g| == |KeySet(rows, key)|
  {
    var sums := SumByKey(rows, key);
    var count := (k: string) => KeyCount(rows, key, k);
    CountsPositive(sums, rows, key);
    AveragedKeys(sums, count);
    var g := Averaged(sums, count);
    AscendingIsDistinct(g);
    g
  }

  /** Grouping rows whose keys all lie in `labels` gives at most as many
      entries as labels, each keyed by one of them. */
  lemma MeansBounded(g: seq<Group>, rows: seq<Transaction>, key: Transaction -> string, labels: set<string>)
    requires DistinctKeys(g) && Keys(g) == KeySet(rows, key)
    requires forall i :: 0 <= i < |rows| ==> key(rows[i]) in labels
    ensures Keys(g) <= labels
    ensures |g| <= |labels|
  {
    DistinctKeysCount(g);
    assert labels == Keys(g) + (labels - Keys(g));
  }

  // ---------------------------------------------------------------------
  // spending_by_weekday

  const WeekdayLabels: seq<string> := ["1. ПН", "2. ВТ", "3. СР", "4. ЧТ", "5. ПТ", "6. СБ", "7. ВС"]

  /** The weekday label of a row: Monday is "1. ПН", Sunday "7. ВС". */
  function WeekdayLabel(t: Transaction): (name: string)
    ensures name in set i | 0 <= i < 7 :: WeekdayLabels[i]
  {
    WeekdayLabels[Weekday(t.date)]
  }

  lemma WeekdayLabelCount()
    ensures |set i | 0 <= i < 7 :: WeekdayLabels[i]| == 7
  {
    var labels := set i | 0 <= i < 7 :: WeekdayLabels[i];
    assert labels == {"1. ПН", "2. ВТ", "3. СР", "4. ЧТ", "5. ПТ", "6. СБ", "7. ВС"} by {
      forall k | k in labels ensures k in {"1. ПН", "2. ВТ", "3. СР", "4. ЧТ", "5. ПТ", "6. СБ", "7. ВС"} {
        var i :| 0 <= i < 7 && WeekdayLabels[i] == k;
      }
      assert WeekdayLabels[0] in labels && WeekdayLabels[1] in labels && WeekdayLabels[2] in labels;
      assert WeekdayLabels[3] in labels && WeekdayLabels[4] in labels;
      assert WeekdayLabels[5] in labels && WeekdayLabels[6] in labels;
    }
  }

  /** `spending_by_weekday`: no groups for an empty ledger or when no
      completed rouble expense lies in the window; otherwise one group per
      weekday on which such an expense occurs (at most seven), labels
      ascending, each carrying the magnitude of the mean expense of that
      weekday to the nearest kopeck. */
  function SpendingByWeekday(rows: seq<Transaction>, date: Option<string>, now: Instant): (r: seq<Group>)
    ensures rows == [] ==> r == []
    ensures (forall i :: 0 <= i < |rows| ==> !SpentInWindow(rows[i], ReportFinish(date, now))) ==> r == []
    ensures MeansByKey(r, Filter(rows, (t: Transaction) => SpentInWindow(t, ReportFinish(date, now))), WeekdayLabel)
    ensures |r| <= 7
  {
    var finish := ReportFinish(date, now);
    var spent := Filter(rows, (t: Transaction) => SpentInWindow(t, finish));
    FilterEmpty(rows, (t: Transaction) => SpentInWindow(t, finish));
    if |rows| == 0 || |spent| == 0 then []
    else
      var r := MeanByKey(spent, WeekdayLabel);
      WeekdayLabelCount();
      MeansBounded(r, spent, WeekdayLabel, set i | 0 <= i < 7 :: WeekdayLabels[i]);
      r
  }

  // ---------------------------------------------------------------------
  // spending_by_workday

  const Working := "Рабочий"
  const Weekend := "Выходной"
  const DayKinds: set<string> := {Weekend, Working}

  /** Monday to Friday is a working day, Saturday and Sunday the weekend. */
  function DayKind(t: Transaction): (kind: string)
    ensures kind in DayKinds
  {
    if Weekday(t.date) < 5 then Working else Weekend
  }

  /** On the anchor days of the calendar: Monday 27 December 2021 is
      "1. ПН" and a working day, Saturday the 25th "6. СБ" and Sunday the
      26th "7. ВС" are the weekend. */
  lemma DayLabelsAnchored(t: Transaction)
    ensures t.date == DateTime(2021, 12, 27, 0, 0, 0) ==> WeekdayLabel(t) == "1. ПН" && DayKind(t) == Working
    ensures t.date == DateTime(2021, 12, 25, 20, 2, 48) ==> WeekdayLabel(t) == "6. СБ" && DayKind(t) == Weekend
    ensures t.date == DateTime(2021, 12, 26, 0, 0, 0) ==> WeekdayLabel(t) == "7. ВС" && DayKind(t) == Weekend
  {
    WeekdayAnchors();
  }

  /** The weekend is exactly Saturday and Sunday. */
  lemma WeekendDays(t: Transaction)
    ensures DayKind(t) == Weekend <==> WeekdayLabel(t) == "6. СБ" || WeekdayLabel(t) == "7. ВС"
  {
    var w := Weekday(t.date);
    assert WeekdayLabel(t) == WeekdayLabels[w];
    if w < 5 {
      assert WeekdayLabels[w][0] != '6' && WeekdayLabels[w][0] != '7';
    }
  }

  /** `spending_by_workday`: no groups for an empty ledger or when no
      completed rouble expense lies in the window; otherwise at most two
      groups, the weekend one first, each carrying the magnitude of the
      mean expense of its kind of day to the nearest kopeck. */
  function SpendingByWorkday(rows: seq<Transaction>, date: Option<string>, now: Instant): (r: seq<Group>)
    ensures rows == [] ==> r == []
    ensures (forall i :: 0 <= i < |rows| ==> !SpentInWindow(rows[i], ReportFinish(date, now))) ==> r == []
    ensures MeansByKey(r, Filter(rows, (t: Transaction) => SpentInWindow(t, ReportFinish(date, now))), DayKind)
    ensures |r| <= 2
    ensures |r| == 2 ==> r[0].key == Weekend && r[1].key == Working
  {
    var finish := ReportFinish(date, now);
    var spent := Filter(rows, (t: Transaction) => SpentInWindow(t, finish));
    FilterEmpty(rows, (t: Transaction) => SpentInWindow(t, finish));
    if |rows| == 0 || |spent| == 0 then []
    else
      var r := MeanByKey(spent, DayKind);
      KindCount();
      MeansBounded(r, spent, DayKind, DayKinds);
      WeekendFirst(r);
      r
  }

  lemma KindCount()
    ensures |DayKinds| == 2
  {
    assert |Weekend| != |Working|;
  }

  /** Two ascending labels among "Выходной" and "Рабочий" put the weekend
      first. */
  lemma WeekendFirst(r: seq<Group>)
    requires KeysAscending(r) && Keys(r) <= DayKinds
    ensures |r| == 2 ==> r[0].key == Weekend && r[1].key == Working
  {
    if |r| == 2 {
      assert r[0].key in Keys(r) && r[1].key in Keys(r);
      assert StrLess(r[0].key, r[1].key);
      StrLessIrreflexive(r[0].key);
      assert !StrLess(Working, Weekend);
    }
  }

  // ---------------------------------------------------------------------
  // write_report

  /** The report file: the records last written to it. */
  class ReportFile<R> {
    var contents: seq<R>

    constructor ()
      ensures contents == []
    {
      contents := [];
    }

    /** The decorated report's records are written to the file and handed
        back unchanged. */
    method Write(records: seq<R>) returns (result: seq<R>)
      modifies this
      ensures contents == records
      ensures result == records
    {
      contents := records;
      result := records;
    }
  }
}
