/**
  The summary cards: total income, total expenses and the balance, each a
  filter by kind followed by a sum of amounts. The alert rules read the
  same three figures, so they are defined once here.
 */
module Totals {
  import opened Seqs
  import opened Types
  import Ledger

  /** The `reduce((sum, t) => sum + t.amount, 0)` over a sequence of records. */
  function SumAmounts(s: seq<Transaction>): real {
    if s == [] then 0.0 else s[0].amount + SumAmounts(s[1..])
  }

  /** The sum of the amounts of the records of kind `k`. */
  function TotalOf(s: seq<Transaction>, k: TransactionType): real {
    SumAmounts(Filter(s, IsKind(k)))
  }

  function TotalIncome(s: seq<Transaction>): real {
    TotalOf(s, Income)
  }

  function TotalExpenses(s: seq<Transaction>): real {
    TotalOf(s, Expense)
  }

  function Balance(s: seq<Transaction>): real {
    TotalIncome(s) - TotalExpenses(s)
  }

  /** The amount a record contributes to the balance: positive for income, negative for an expense. */
  function Signed(t: Transaction): real {
    if t.kind == Income then t.amount else -t.amount
  }

  function SignedSum(s: seq<Transaction>): real {
    if s == [] then 0.0 else Signed(s[0]) + SignedSum(s[1..])
  }

  /** A single record sums to its own amount. */
  lemma SumSingle(t: Transaction)
    ensures SumAmounts([t]) == t.amount
  {
    assert [t][1..] == [];
  }

  predicate NonNegativeAmounts(s: seq<Transaction>) {
    forall t :: t in s ==> t.amount >= 0.0
  }

  /** Sums add up over concatenation. */
  lemma {:induction false} SumConcat(a: seq<Transaction>, b: seq<Transaction>)
    ensures SumAmounts(a + b) == SumAmounts(a) + SumAmounts(b)
  {
    if a == [] {
      assert a + b == b;
    } else {
      assert (a + b)[1..] == a[1..] + b;
      SumConcat(a[1..], b);
    }
  }

  lemma {:induction false} SignedSumConcat(a: seq<Transaction>, b: seq<Transaction>)
    ensures SignedSum(a + b) == SignedSum(a) + SignedSum(b)
  {
    if a == [] {
      assert a + b == b;
    } else {
      assert (a + b)[1..] == a[1..] + b;
      SignedSumConcat(a[1..], b);
    }
  }

  /** A sum of non-negative amounts is non-negative. */
  lemma {:induction false} SumNonNegative(s: seq<Transaction>)
    requires NonNegativeAmounts(s)
    ensures SumAmounts(s) >= 0.0
  {
    if s != [] {
      SumNonNegative(s[1..]);
    }
  }

  /** With non-negative amounts, a filtered sum never exceeds the whole sum. */
  lemma {:induction false} FilteredSumAtMost(s: seq<Transaction>, p: Transaction -> bool)
    requires NonNegativeAmounts(s)
    ensures SumAmounts(Filter(s, p)) <= SumAmounts(s)
  {
    if s != [] {
      FilteredSumAtMost(s[1..], p);
      SumConcat(if p(s[0]) then [s[0]] else [], Filter(s[1..], p));
    }
  }

  /**
    Splitting a sum: when every record passing `a` passes exactly one of `b`
    and `c`, and no other record passes either, the `a`-sum is the `b`-sum
    plus the `c`-sum.
   */
  lemma {:induction false} SumSplit(s: seq<Transaction>, a: Transaction -> bool, b: Transaction -> bool, c: Transaction -> bool)
    requires forall t :: a(t) == (b(t) || c(t))
    requires forall t :: !(b(t) && c(t))
    ensures SumAmounts(Filter(s, a)) == SumAmounts(Filter(s, b)) + SumAmounts(Filter(s, c))
  {
    if s != [] {
      var x, rest := s[0], s[1..];
      SumSplit(rest, a, b, c);
      SumConcat(if a(x) then [x] else [], Filter(rest, a));
      SumConcat(if b(x) then [x] else [], Filter(rest, b));
      SumConcat(if c(x) then [x] else [], Filter(rest, c));
    }
  }

  /** Every record is income or an expense, so the two totals add up to the sum of all amounts. */
  lemma IncomePlusExpensesIsAll(s: seq<Transaction>)
    ensures TotalIncome(s) + TotalExpenses(s) == SumAmounts(s)
  {
    var all := (t: Transaction) => true;
    SumSplit(s, all, IsKind(Income), IsKind(Expense));
    FilterKeepsAll(s, all);
  }

  /** The balance is the sum of the signed amounts. */
  lemma {:induction false} BalanceIsSignedSum(s: seq<Transaction>)
    ensures Balance(s) == SignedSum(s)
  {
    if s != [] {
      BalanceIsSignedSum(s[1..]);
      var x := s[0];
      SumConcat(if x.kind == Income then [x] else [], Filter(s[1..], IsKind(Income)));
      SumConcat(if x.kind == Expense then [x] else [], Filter(s[1..], IsKind(Expense)));
    }
  }

  /** The three summary figures. */
  datatype Summary = Summary(income: real, expenses: real, balance: real)

  /** The summary cards' figures, and how they reconcile with one another. */
  function Summarize(s: seq<Transaction>): (r: Summary)
    ensures r.balance == r.income - r.expenses
    ensures r.income + r.expenses == SumAmounts(s)
    ensures r.balance == SignedSum(s)
    ensures s == [] ==> r == Summary(0.0, 0.0, 0.0)
    ensures NonNegativeAmounts(s) ==> r.income >= 0.0 && r.expenses >= 0.0
  {
    IncomePlusExpensesIsAll(s);
    BalanceIsSignedSum(s);
    if NonNegativeAmounts(s) then
      SumNonNegative(Filter(s, IsKind(Income)));
      SumNonNegative(Filter(s, IsKind(Expense)));
      Summary(TotalIncome(s), TotalExpenses(s), Balance(s))
    else
      Summary(TotalIncome(s), TotalExpenses(s), Balance(s))
  }

  /** The two styles the balance card uses. */
  datatype Tone = SuccessTone | DestructiveTone

  /** The balance card is styled as a success exactly when expenses do not exceed income. */
  function BalanceTone(s: seq<Transaction>): (r: Tone)
    ensures r == SuccessTone <==> TotalExpenses(s) <= TotalIncome(s)
    ensures r == SuccessTone <==> SignedSum(s) >= 0.0
  {
    BalanceIsSignedSum(s);
    if Balance(s) >= 0.0 then SuccessTone else DestructiveTone
  }

  /** Adding a record raises the total of its own kind by its amount and leaves the other total alone. */
  lemma AddTotals(l: seq<Transaction>, draft: Draft, freshId: Id, k: TransactionType)
    ensures TotalOf(Ledger.Add(l, draft, freshId), k)
         == TotalOf(l, k) + (if draft.kind == k then draft.amount else 0.0)
  {
    var x := WithId(draft, freshId);
    assert Ledger.Add(l, draft, freshId) == [x] + l;
    FilterConcat([x], l, IsKind(k));
    SumConcat(Filter([x], IsKind(k)), Filter(l, IsKind(k)));
  }

  /** A record between two runs contributes its signed amount once. */
  lemma SignedSumAround(before: seq<Transaction>, x: Transaction, after: seq<Transaction>)
    ensures SignedSum(before + ([x] + after)) == SignedSum(before) + Signed(x) + SignedSum(after)
  {
    SignedSumConcat(before, [x] + after);
    SignedSumConcat([x], after);
    assert [x][1..] == [];
  }

  /** With unique ids, deleting the record at `k` takes its signed amount out of the balance. */
  lemma DeleteBalance(l: seq<Transaction>, k: nat)
    requires Ledger.UniqueIds(l)
    requires k < |l|
    ensures Balance(Ledger.Delete(l, l[k].id)) == Balance(l) - Signed(l[k])
  {
    var d := Ledger.Delete(l, l[k].id);
    assert SignedSum(d) == SignedSum(l) - Signed(l[k]) by {
      var before, after := l[..k], l[k + 1..];
      SplitAt(l, k);
      Ledger.DeleteUnique(l, k);
      SignedSumAround(before, l[k], after);
      SignedSumConcat(before, after);
    }
    BalanceIsSignedSum(l);
    BalanceIsSignedSum(d);
  }

  /** With unique ids, updating the record at `k` swaps its signed amount for the new one. */
  lemma UpdateBalance(l: seq<Transaction>, k: nat, u: Transaction)
    requires Ledger.UniqueIds(l)
    requires k < |l| && l[k].id == u.id
    ensures Balance(Ledger.Update(l, u)) == Balance(l) - Signed(l[k]) + Signed(u)
  {
    var r := Ledger.Update(l, u);
    assert SignedSum(r) == SignedSum(l) - Signed(l[k]) + Signed(u) by {
      var before, after := l[..k], l[k + 1..];
      SplitAt(l, k);
      SplitAt(r, k);
      Ledger.UpdateUnique(l, k, u);
      SignedSumAround(before, l[k], after);
      SignedSumAround(before, u, after);
    }
    BalanceIsSignedSum(l);
    BalanceIsSignedSum(r);
  }
}
