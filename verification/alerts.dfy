/**
  The financial alerts: four independent rules evaluated in a fixed order
  over the same totals as the summary cards, plus the expenses of the last
  seven days. "Now" is a parameter, as milliseconds since the epoch; a
  record's date is read as the instant of its day's UTC midnight.
 */
module Alerts {
  import opened Seqs
  import opened Types
  import opened Totals

  const DayMs: int := 24 * 60 * 60 * 1000
  const RecentDays: int := 7
  /** Recent spending above this share of income raises the warning. */
  const WarningRatio: real := 0.3
  /** Total spending below this share of income is called healthy. */
  const HealthyRatio: real := 0.7

  /** `sevenDaysAgo`, as an instant. */
  function RecentCutoff(nowMs: int): int {
    nowMs - RecentDays * DayMs
  }

  /** The record's day starts at or after the cutoff; there is no upper bound. */
  function IsRecent(nowMs: int): Transaction -> bool {
    (t: Transaction) => t.date * DayMs >= RecentCutoff(nowMs)
  }

  /** The expenses among the records dated at or after the cutoff. */
  function RecentExpenses(s: seq<Transaction>, nowMs: int): real {
    SumAmounts(Filter(Filter(s, IsRecent(nowMs)), IsKind(Expense)))
  }

  /**
    The first calendar day the recent window includes: six days before the
    current UTC day, or seven when "now" is exactly a UTC midnight.
   */
  function FirstRecentDay(nowMs: int): Day {
    if nowMs % DayMs == 0 then nowMs / DayMs - RecentDays else nowMs / DayMs - RecentDays + 1
  }

  /** The window in calendar days: a record is recent exactly when its day is at or after `FirstRecentDay`. */
  lemma RecentWindowInDays(nowMs: int, t: Transaction)
    ensures IsRecent(nowMs)(t) <==> t.date >= FirstRecentDay(nowMs)
    ensures nowMs >= 0 && t.date == nowMs / DayMs ==> IsRecent(nowMs)(t)
  {
    var q, rem := nowMs / DayMs, nowMs % DayMs;
    assert nowMs == q * DayMs + rem;
    var x := t.date - q + RecentDays;
    assert t.date * DayMs - RecentCutoff(nowMs) == x * DayMs - rem;
    if rem == 0 {
      assert x * DayMs >= 0 <==> x >= 0;
    } else {
      assert x * DayMs >= rem <==> x >= 1;
    }
  }

  /** With non-negative amounts, the recent expenses never exceed the total expenses. */
  lemma RecentAtMostTotal(s: seq<Transaction>, nowMs: int)
    requires NonNegativeAmounts(s)
    ensures 0.0 <= RecentExpenses(s, nowMs) <= TotalExpenses(s)
  {
    var expenses := Filter(s, IsKind(Expense));
    FilterCommute(s, IsRecent(nowMs), IsKind(Expense));
    FilteredSumAtMost(expenses, IsRecent(nowMs));
    SumNonNegative(Filter(expenses, IsRecent(nowMs)));
  }

  /** The alerts, one constructor per rule, each carrying the figure it reports. */
  datatype Alert =
    | NegativeBalance(deficit: real)
    | HighSpending(recentExpenses: real)
    | HealthyFinances(surplus: real)
    | StartRecording

  /** The position of each rule in the fixed evaluation order. */
  function Rank(a: Alert): nat {
    match a
    case NegativeBalance(_) => 0
    case HighSpending(_) => 1
    case HealthyFinances(_) => 2
    case StartRecording => 3
  }

  function Abs(x: real): real {
    if x < 0.0 then -x else x
  }

  /** The figures the rules read: the summary totals and the recent expenses. */
  datatype Figures = Figures(income: real, expenses: real, balance: real, recentExpenses: real)

  /** The rules' figures: the summary cards' totals and balance, and the recent expenses. */
  function Measure(s: seq<Transaction>, nowMs: int): (f: Figures)
    ensures f.income == Summarize(s).income && f.expenses == Summarize(s).expenses
    ensures f.balance == Summarize(s).balance && f.balance == f.income - f.expenses
    ensures f.recentExpenses == SumAmounts(Filter(Filter(s, IsRecent(nowMs)), IsKind(Expense)))
    ensures NonNegativeAmounts(s) ==> 0.0 <= f.recentExpenses <= f.expenses
  {
    assert NonNegativeAmounts(s) ==> 0.0 <= RecentExpenses(s, nowMs) <= TotalExpenses(s) by {
      if NonNegativeAmounts(s) {
        RecentAtMostTotal(s, nowMs);
      }
    }
    Figures(TotalIncome(s), TotalExpenses(s), Balance(s), RecentExpenses(s, nowMs))
  }

  predicate NegativeBalanceRule(f: Figures) {
    f.balance < 0.0
  }

  predicate HighSpendingRule(f: Figures) {
    f.recentExpenses > f.income * WarningRatio && f.income > 0.0
  }

  predicate HealthyRule(f: Figures) {
    f.balance > 0.0 && f.expenses < f.income * HealthyRatio && f.income > 0.0
  }

  /** Strictly increasing rule positions: each rule at most once, in rule order. */
  predicate InRuleOrder(r: seq<Alert>) {
    forall i, j :: 0 <= i < j < |r| ==> Rank(r[i]) < Rank(r[j])
  }

  /** `alerts.push(a)` when the rule's condition holds. */
  function Push(r: seq<Alert>, fires: bool, a: Alert): (r': seq<Alert>)
    requires InRuleOrder(r)
    requires forall x :: x in r ==> Rank(x) < Rank(a)
    ensures InRuleOrder(r')
    ensures forall x :: x in r' <==> x in r || (fires && x == a)
    ensures forall x :: x in r' ==> Rank(x) <= Rank(a)
  {
    if fires then r + [a] else r
  }

  /**
    The alerts for the figures `f` of a ledger that is empty exactly when
    `empty` holds, in rule order. Each fires exactly under its own
    condition, at most once, and no other alert appears.
   */
  function Evaluate(f: Figures, empty: bool): (r: seq<Alert>)
    ensures NegativeBalance(Abs(f.balance)) in r <==> NegativeBalanceRule(f)
    ensures HighSpending(f.recentExpenses) in r <==> HighSpendingRule(f)
    ensures HealthyFinances(f.balance) in r <==> HealthyRule(f)
    ensures StartRecording in r <==> empty
    ensures forall a :: a in r ==>
      a in [NegativeBalance(Abs(f.balance)), HighSpending(f.recentExpenses), HealthyFinances(f.balance), StartRecording]
    ensures InRuleOrder(r)
    ensures !(NegativeBalance(Abs(f.balance)) in r && HealthyFinances(f.balance) in r)
  {
    var errors := Push([], NegativeBalanceRule(f), NegativeBalance(Abs(f.balance)));
    var warnings := Push(errors, HighSpendingRule(f), HighSpending(f.recentExpenses));
    var successes := Push(warnings, HealthyRule(f), HealthyFinances(f.balance));
    Push(successes, empty, StartRecording)
  }

  /** The alert list for a ledger at instant `nowMs`. */
  function EvaluateAlerts(s: seq<Transaction>, nowMs: int): (r: seq<Alert>)
    ensures NegativeBalance(Abs(Balance(s))) in r <==> Balance(s) < 0.0
    ensures HighSpending(RecentExpenses(s, nowMs)) in r
        <==> RecentExpenses(s, nowMs) > TotalIncome(s) * WarningRatio && TotalIncome(s) > 0.0
    ensures HealthyFinances(Balance(s)) in r
        <==> Balance(s) > 0.0 && TotalExpenses(s) < TotalIncome(s) * HealthyRatio && TotalIncome(s) > 0.0
    ensures StartRecording in r <==> s == []
    ensures forall a :: a in r ==>
      a in [NegativeBalance(Abs(Balance(s))), HighSpending(RecentExpenses(s, nowMs)), HealthyFinances(Balance(s)), StartRecording]
    ensures InRuleOrder(r)
  {
    Evaluate(Measure(s, nowMs), s == [])
  }

  /** An empty ledger shows the start-recording notice and nothing else. */
  lemma EmptyLedgerAlerts(nowMs: int)
    ensures EvaluateAlerts([], nowMs) == [StartRecording]
  {
    assert Measure([], nowMs) == Figures(0.0, 0.0, 0.0, 0.0);
  }

  /** The alert component renders nothing exactly when no rule fires. */
  function RendersNothing(f: Figures, empty: bool): (r: bool)
    ensures r <==> !NegativeBalanceRule(f) && !HighSpendingRule(f) && !HealthyRule(f) && !empty
  {
    |Evaluate(f, empty)| == 0
  }

  /** The warning only fires when total spending is above the warning share of income. */
  lemma HighSpendingMeansOverspending(s: seq<Transaction>, nowMs: int)
    requires NonNegativeAmounts(s)
    requires HighSpendingRule(Measure(s, nowMs))
    ensures TotalExpenses(s) > TotalIncome(s) * WarningRatio
  {
    RecentAtMostTotal(s, nowMs);
  }

  /** A salary of 5000 and a rent of 1500: only the healthy-finances alert, whatever "now" is. */
  lemma SalaryAndRentScenario(nowMs: int, salary: Transaction, rent: Transaction)
    requires salary.kind == Income && salary.amount == 5000.0
    requires rent.kind == Expense && rent.amount == 1500.0
    ensures EvaluateAlerts([salary, rent], nowMs) == [HealthyFinances(3500.0)]
  {
    var s := [salary, rent];
    assert Filter(s, IsKind(Income)) == [salary];
    assert Filter(s, IsKind(Expense)) == [rent];
    SumSingle(rent);
    SumSingle(salary);
    assert TotalIncome(s) == 5000.0 && TotalExpenses(s) == 1500.0;
    RecentAtMostTotal(s, nowMs);
    var f := Measure(s, nowMs);
    assert !NegativeBalanceRule(f) && !HighSpendingRule(f) && HealthyRule(f);
  }

  /** A single expense of 6000 and no income: only the negative-balance alert, for 6000. */
  lemma DeficitScenario(nowMs: int, t: Transaction)
    requires t.kind == Expense && t.amount == 6000.0
    ensures EvaluateAlerts([t], nowMs) == [NegativeBalance(6000.0)]
  {
    assert Filter([t], IsKind(Income)) == [];
    assert Filter([t], IsKind(Expense)) == [t];
    SumSingle(t);
    assert TotalIncome([t]) == 0.0 && TotalExpenses([t]) == 6000.0;
    var f := Measure([t], nowMs);
    assert NegativeBalanceRule(f) && !HighSpendingRule(f) && !HealthyRule(f);
  }
}
