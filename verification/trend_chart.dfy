/**
  The trend chart's data: one point per calendar day from thirty days before
  "today" up to "today" inclusive, each holding that day's income and
  expense sums. "Today" is a parameter, a day number.
 */
module TrendChart {
  import opened Seqs
  import opened Types
  import opened Totals

  /** Days from `today - 30` to `today`, both included. */
  const WindowDays: nat := 31

  /** One chart point: `{ date, receita, despesa }`, with the day kept as a day number. */
  datatype DayPoint = DayPoint(day: Day, income: real, expense: real)

  /** The records dated `d` first, then those of kind `k`, summed. */
  function DayTotal(s: seq<Transaction>, d: Day, k: TransactionType): real {
    SumAmounts(Filter(Filter(s, OnDay(d)), IsKind(k)))
  }

  /** The chart point of day `d`. */
  function Point(s: seq<Transaction>, d: Day): (p: DayPoint)
    ensures p.day == d
  {
    DayPoint(d, DayTotal(s, d, Income), DayTotal(s, d, Expense))
  }

  /** Records dated in the half-open day range `[lo, hi)`. */
  function InRange(lo: Day, hi: Day): Transaction -> bool {
    (t: Transaction) => lo <= t.date < hi
  }

  /** The points of the `n` consecutive days starting at `start`. */
  function DailySeries(s: seq<Transaction>, start: Day, n: nat): (r: seq<DayPoint>)
    ensures |r| == n
    ensures forall i :: 0 <= i < n ==> r[i] == Point(s, start + i)
  {
    seq(n, i requires 0 <= i < n => Point(s, start + i))
  }

  /** `chartData`: the points from `today - 30` to `today`. */
  function TrendSeries(s: seq<Transaction>, today: Day): (r: seq<DayPoint>)
    ensures |r| == WindowDays
    ensures r[0].day == today - 30 && r[WindowDays - 1].day == today
    ensures forall i :: 0 <= i < |r| - 1 ==> r[i + 1].day == r[i].day + 1
    ensures forall i :: 0 <= i < |r| ==> today - 30 <= r[i].day <= today
    ensures forall i :: 0 <= i < |r| ==> r[i] == Point(s, today - 30 + i)
  {
    DailySeries(s, today - 30, WindowDays)
  }

  /** A point's figure for kind `k`. */
  function Value(p: DayPoint, k: TransactionType): real {
    if k == Income then p.income else p.expense
  }

  /** The sum over the series of the figures for kind `k`. */
  function SeriesTotal(r: seq<DayPoint>, k: TransactionType): real {
    if r == [] then 0.0 else SeriesTotal(r[..|r| - 1], k) + Value(r[|r| - 1], k)
  }

  /** A day with no record has zero income and zero expense. */
  lemma QuietDay(s: seq<Transaction>, d: Day)
    requires forall t :: t in s ==> t.date != d
    ensures Point(s, d).income == 0.0 && Point(s, d).expense == 0.0
  {
    FilterDropsAll(s, OnDay(d));
  }

  /** A day's income and expense together are the sum of all that day's amounts. */
  lemma DayTotalsCoverDay(s: seq<Transaction>, d: Day)
    ensures Point(s, d).income + Point(s, d).expense == SumAmounts(Filter(s, OnDay(d)))
  {
    IncomePlusExpensesIsAll(Filter(s, OnDay(d)));
  }

  /** The kind-`k` total of the records dated in `[lo, hi)`, one day split off the end. */
  lemma RangeSplitLastDay(s: seq<Transaction>, lo: Day, hi: Day, k: TransactionType)
    requires lo < hi
    ensures TotalOf(Filter(s, InRange(lo, hi)), k)
         == TotalOf(Filter(s, InRange(lo, hi - 1)), k) + DayTotal(s, hi - 1, k)
  {
    var xs := Filter(s, IsKind(k));
    SumSplit(xs, InRange(lo, hi), InRange(lo, hi - 1), OnDay(hi - 1));
    FilterCommute(s, InRange(lo, hi), IsKind(k));
    FilterCommute(s, InRange(lo, hi - 1), IsKind(k));
    FilterCommute(s, OnDay(hi - 1), IsKind(k));
  }

  /** The last point of the series over `[lo, hi)`, split off. */
  lemma SeriesLast(s: seq<Transaction>, lo: Day, hi: Day, k: TransactionType)
    requires lo < hi
    ensures SeriesTotal(DailySeries(s, lo, hi - lo), k)
         == SeriesTotal(DailySeries(s, lo, (hi - 1) - lo), k) + DayTotal(s, hi - 1, k)
  {
    var r := DailySeries(s, lo, hi - lo);
    assert r[..|r| - 1] == DailySeries(s, lo, (hi - 1) - lo);
    assert r[|r| - 1] == Point(s, hi - 1);
  }

  /**
    Summed over the series of the days `[lo, hi)`, the figures for kind `k`
    are the kind-`k` total of the records dated within those days.
   */
  lemma {:induction false} SeriesTotalIsRangeTotal(s: seq<Transaction>, lo: Day, hi: Day, k: TransactionType)
    requires lo <= hi
    ensures SeriesTotal(DailySeries(s, lo, hi - lo), k) == TotalOf(Filter(s, InRange(lo, hi)), k)
    decreases hi - lo
  {
    if lo == hi {
      FilterDropsAll(s, InRange(lo, hi));
    } else {
      SeriesTotalIsRangeTotal(s, lo, hi - 1, k);
      SeriesLast(s, lo, hi, k);
      RangeSplitLastDay(s, lo, hi, k);
    }
  }

  /** The chart's income and expense lines sum to the totals of the records dated within the window. */
  lemma TrendTotals(s: seq<Transaction>, today: Day)
    ensures SeriesTotal(TrendSeries(s, today), Income) == TotalIncome(Filter(s, InRange(today - 30, today + 1)))
    ensures SeriesTotal(TrendSeries(s, today), Expense) == TotalExpenses(Filter(s, InRange(today - 30, today + 1)))
  {
    SeriesTotalIsRangeTotal(s, today - 30, today + 1, Income);
    SeriesTotalIsRangeTotal(s, today - 30, today + 1, Expense);
  }

  /** When every record falls within the window, the chart's lines sum to the summary totals. */
  lemma TrendTotalsAllInWindow(s: seq<Transaction>, today: Day)
    requires forall t :: t in s ==> today - 30 <= t.date <= today
    ensures SeriesTotal(TrendSeries(s, today), Income) == TotalIncome(s)
    ensures SeriesTotal(TrendSeries(s, today), Expense) == TotalExpenses(s)
  {
    TrendTotals(s, today);
    FilterKeepsAll(s, InRange(today - 30, today + 1));
  }

  /** A day within `[lo, hi)` has the same point whether or not the records outside are kept. */
  lemma PointInside(s: seq<Transaction>, lo: Day, hi: Day, d: Day)
    requires lo <= d < hi
    ensures Point(Filter(s, InRange(lo, hi)), d) == Point(s, d)
  {
    FilterImplied(s, InRange(lo, hi), OnDay(d));
  }

  /** Over the days `[lo, hi)`, the series is the same whether or not the records outside are kept. */
  lemma SeriesInside(s: seq<Transaction>, lo: Day, hi: Day)
    requires lo <= hi
    ensures DailySeries(Filter(s, InRange(lo, hi)), lo, hi - lo) == DailySeries(s, lo, hi - lo)
  {
    var inside := Filter(s, InRange(lo, hi));
    forall d | lo <= d < hi
      ensures Point(inside, d) == Point(s, d)
    {
      PointInside(s, lo, hi, d);
    }
  }

  /** Records dated outside the window do not change the chart. */
  lemma OutsideWindowIgnored(s: seq<Transaction>, today: Day)
    ensures TrendSeries(Filter(s, InRange(today - 30, today + 1)), today) == TrendSeries(s, today)
  {
    SeriesInside(s, today - 30, today + 1);
  }
}
