/**
  The expense chart's data: the expense records grouped by category, one
  slice per distinct category in the order each category is first seen,
  each slice holding the sum of that category's amounts. The grouping is a
  left fold that looks the category up among the slices built so far and
  either adds to that slice or appends a new one.
 */
module ExpenseChart {
  import opened Seqs
  import opened Types
  import opened Totals

  /** One pie slice: `{ name, value }`. */
  datatype Slice = Slice(name: string, value: real)

  function Names(acc: seq<Slice>): (r: seq<string>)
    ensures |r| == |acc|
    ensures forall i :: 0 <= i < |acc| ==> r[i] == acc[i].name
  {
    seq(|acc|, i requires 0 <= i < |acc| => acc[i].name)
  }

  function SumValues(acc: seq<Slice>): real {
    if acc == [] then 0.0 else acc[0].value + SumValues(acc[1..])
  }

  /** The categories of `xs`, in record order, repeats included. */
  function Categories(xs: seq<Transaction>): (r: seq<string>)
    ensures |r| == |xs|
    ensures forall i :: 0 <= i < |xs| ==> r[i] == xs[i].category
  {
    seq(|xs|, i requires 0 <= i < |xs| => xs[i].category)
  }

  function InCategory(c: string): Transaction -> bool {
    (t: Transaction) => t.category == c
  }

  /** `acc.find(item => item.name === name)`, as the position of the first match. */
  function Find(acc: seq<Slice>, name: string): (r: Option<nat>)
    ensures r.None? <==> name !in Names(acc)
    ensures r.Some? ==> r.value < |acc| && acc[r.value].name == name
  {
    if acc == [] then None
    else if acc[0].name == name then Some(0)
    else
      assert Names(acc) == [acc[0].name] + Names(acc[1..]);
      match Find(acc[1..], name)
      case None => None
      case Some(k) => Some(k + 1)
  }

  /** No name twice, and exactly the categories of `xs`. */
  ghost predicate GroupNames(acc: seq<Slice>, xs: seq<Transaction>) {
    && Distinct(Names(acc))
    && (forall c :: c in Names(acc) <==> c in Categories(xs))
  }

  /** Slices in the order their categories are first seen in `xs`. */
  ghost predicate GroupOrder(acc: seq<Slice>, xs: seq<Transaction>) {
    forall i, j :: 0 <= i < j < |acc| ==>
      FirstIndex(Categories(xs), acc[i].name) < FirstIndex(Categories(xs), acc[j].name)
  }

  /** Each slice holds the sum of its category's amounts. */
  ghost predicate GroupValues(acc: seq<Slice>, xs: seq<Transaction>) {
    forall i :: 0 <= i < |acc| ==> acc[i].value == SumAmounts(Filter(xs, InCategory(acc[i].name)))
  }

  /**
    What the slices built from `xs` are: one per distinct category of `xs`,
    no name twice, in first-seen order, each holding its category's sum,
    and all of them together holding the sum of `xs`.
   */
  ghost predicate Groups(acc: seq<Slice>, xs: seq<Transaction>) {
    && GroupNames(acc, xs)
    && GroupOrder(acc, xs)
    && GroupValues(acc, xs)
    && SumValues(acc) == SumAmounts(xs)
  }

  lemma SumValuesAppend(acc: seq<Slice>, x: Slice)
    ensures SumValues(acc + [x]) == SumValues(acc) + x.value
  {
    if acc != [] {
      assert (acc + [x])[1..] == acc[1..] + [x];
      SumValuesAppend(acc[1..], x);
    }
  }

  lemma {:induction false} SumValuesBump(acc: seq<Slice>, k: nat, a: real)
    requires k < |acc|
    ensures SumValues(acc[k := Slice(acc[k].name, acc[k].value + a)]) == SumValues(acc) + a
  {
    if k > 0 {
      SumValuesBump(acc[1..], k - 1, a);
      assert acc[k := Slice(acc[k].name, acc[k].value + a)][1..]
          == acc[1..][k - 1 := Slice(acc[k].name, acc[k].value + a)];
    }
  }

  lemma SumAppend(xs: seq<Transaction>, t: Transaction, p: Transaction -> bool)
    ensures SumAmounts(Filter(xs + [t], p)) == SumAmounts(Filter(xs, p)) + (if p(t) then t.amount else 0.0)
  {
    FilterAppend(xs, t, p);
    SumConcat(Filter(xs, p), if p(t) then [t] else []);
  }

  lemma CategoriesAppend(xs: seq<Transaction>, t: Transaction)
    ensures Categories(xs + [t]) == Categories(xs) + [t.category]
  {
  }

  /** Adding to a slice that already has the record's category. */
  lemma StepExisting(acc: seq<Slice>, xs: seq<Transaction>, t: Transaction, k: nat)
    requires Groups(acc, xs)
    requires k < |acc| && acc[k].name == t.category
    ensures Groups(acc[k := Slice(acc[k].name, acc[k].value + t.amount)], xs + [t])
  {
    var acc' := acc[k := Slice(acc[k].name, acc[k].value + t.amount)];
    assert GroupNames(acc', xs + [t]) by {
      ExistingNames(acc, xs, t, k);
    }
    assert GroupOrder(acc', xs + [t]) by {
      ExistingOrder(acc, xs, t, k);
    }
    assert GroupValues(acc', xs + [t]) by {
      ExistingValues(acc, xs, t, k);
    }
    assert SumValues(acc') == SumAmounts(xs + [t]) by {
      ExistingTotal(acc, xs, t, k);
    }
  }

  lemma ExistingNames(acc: seq<Slice>, xs: seq<Transaction>, t: Transaction, k: nat)
    requires GroupNames(acc, xs)
    requires k < |acc| && acc[k].name == t.category
    ensures GroupNames(acc[k := Slice(acc[k].name, acc[k].value + t.amount)], xs + [t])
  {
    var acc' := acc[k := Slice(acc[k].name, acc[k].value + t.amount)];
    CategoriesAppend(xs, t);
    assert Names(acc') == Names(acc);
    assert Names(acc)[k] == t.category;
  }

  lemma ExistingTotal(acc: seq<Slice>, xs: seq<Transaction>, t: Transaction, k: nat)
    requires SumValues(acc) == SumAmounts(xs)
    requires k < |acc|
    ensures SumValues(acc[k := Slice(acc[k].name, acc[k].value + t.amount)]) == SumAmounts(xs + [t])
  {
    SumValuesBump(acc, k, t.amount);
    SumConcat(xs, [t]);
    assert [t][1..] == [];
  }

  lemma ExistingOrder(acc: seq<Slice>, xs: seq<Transaction>, t: Transaction, k: nat)
    requires GroupOrder(acc, xs)
    requires forall c :: c in Names(acc) ==> c in Categories(xs)
    requires k < |acc|
    ensures GroupOrder(acc[k := Slice(acc[k].name, acc[k].value + t.amount)], xs + [t])
  {
    var cats := Categories(xs);
    var acc' := acc[k := Slice(acc[k].name, acc[k].value + t.amount)];
    CategoriesAppend(xs, t);
    forall c | c in cats
      ensures FirstIndex(cats + [t.category], c) == FirstIndex(cats, c)
    {
      FirstIndexAppend(cats, t.category, c);
    }
    forall i, j | 0 <= i < j < |acc'|
      ensures FirstIndex(cats + [t.category], acc'[i].name) < FirstIndex(cats + [t.category], acc'[j].name)
    {
      assert acc'[i].name == acc[i].name && acc'[j].name == acc[j].name;
      assert Names(acc)[i] in cats && Names(acc)[j] in cats;
    }
  }

  lemma ExistingValues(acc: seq<Slice>, xs: seq<Transaction>, t: Transaction, k: nat)
    requires GroupValues(acc, xs)
    requires Distinct(Names(acc))
    requires k < |acc| && acc[k].name == t.category
    ensures GroupValues(acc[k := Slice(acc[k].name, acc[k].value + t.amount)], xs + [t])
  {
    var acc' := acc[k := Slice(acc[k].name, acc[k].value + t.amount)];
    forall i | 0 <= i < |acc'|
      ensures acc'[i].value == SumAmounts(Filter(xs + [t], InCategory(acc'[i].name)))
    {
      SumAppend(xs, t, InCategory(acc[i].name));
      if i < k {
        assert Names(acc)[i] != Names(acc)[k];
      } else if i > k {
        assert Names(acc)[k] != Names(acc)[i];
      }
    }
  }

  /** Pushing a new slice for a category not yet seen. */
  lemma StepNew(acc: seq<Slice>, xs: seq<Transaction>, t: Transaction)
    requires Groups(acc, xs)
    requires t.category !in Names(acc)
    ensures Groups(acc + [Slice(t.category, t.amount)], xs + [t])
  {
    var c := t.category;
    var acc' := acc + [Slice(c, t.amount)];
    NewNames(acc, xs, t);
    NewOrder(acc, xs, t);
    NewValues(acc, xs, t);
    SumValuesAppend(acc, Slice(c, t.amount));
    SumConcat(xs, [t]);
    assert [t][1..] == [];
  }

  lemma NewNames(acc: seq<Slice>, xs: seq<Transaction>, t: Transaction)
    requires GroupNames(acc, xs)
    requires t.category !in Names(acc)
    ensures GroupNames(acc + [Slice(t.category, t.amount)], xs + [t])
  {
    CategoriesAppend(xs, t);
    assert Names(acc + [Slice(t.category, t.amount)]) == Names(acc) + [t.category];
  }

  lemma NewOrder(acc: seq<Slice>, xs: seq<Transaction>, t: Transaction)
    requires GroupOrder(acc, xs)
    requires forall c :: c in Names(acc) ==> c in Categories(xs)
    requires t.category !in Categories(xs)
    ensures GroupOrder(acc + [Slice(t.category, t.amount)], xs + [t])
  {
    var c := t.category;
    var cats := Categories(xs);
    var acc' := acc + [Slice(c, t.amount)];
    CategoriesAppend(xs, t);
    forall x | x in cats
      ensures FirstIndex(cats + [c], x) == FirstIndex(cats, x)
    {
      FirstIndexAppend(cats, c, x);
    }
    FirstIndexOfNew(cats, c);
    forall i, j | 0 <= i < j < |acc'|
      ensures FirstIndex(cats + [c], acc'[i].name) < FirstIndex(cats + [c], acc'[j].name)
    {
      assert Names(acc)[i] == acc'[i].name;
      if j < |acc| {
        assert Names(acc)[j] == acc'[j].name;
      }
    }
  }

  lemma NewValues(acc: seq<Slice>, xs: seq<Transaction>, t: Transaction)
    requires GroupValues(acc, xs)
    requires forall c :: c in Names(acc) ==> c in Categories(xs)
    requires t.category !in Categories(xs)
    ensures GroupValues(acc + [Slice(t.category, t.amount)], xs + [t])
  {
    var c := t.category;
    var acc' := acc + [Slice(c, t.amount)];
    forall i | 0 <= i < |acc'|
      ensures acc'[i].value == SumAmounts(Filter(xs + [t], InCategory(acc'[i].name)))
    {
      SumAppend(xs, t, InCategory(acc'[i].name));
      if i == |acc| {
        forall x | x in xs
          ensures !InCategory(c)(x)
        {
          var m :| 0 <= m < |xs| && xs[m] == x;
          assert Categories(xs)[m] == x.category;
        }
        FilterDropsAll(xs, InCategory(c));
      } else {
        assert Names(acc)[i] == acc'[i].name;
      }
    }
  }

  /**
    `expenses.reduce(..., [])`: the left fold, written as recursion on the
    last record. Each step adds the record's amount to the slice found for
    its category, or pushes a new slice when there is none.
   */
  function Accumulate(xs: seq<Transaction>): (r: seq<Slice>)
    ensures Groups(r, xs)
  {
    if xs == [] then []
    else
      var prefix, t := xs[..|xs| - 1], xs[|xs| - 1];
      assert xs == prefix + [t];
      var acc := Accumulate(prefix);
      match Find(acc, t.category)
      case Some(k) =>
        StepExisting(acc, prefix, t, k);
        acc[k := Slice(acc[k].name, acc[k].value + t.amount)]
      case None =>
        StepNew(acc, prefix, t);
        acc + [Slice(t.category, t.amount)]
  }

  /** The records the chart reads. */
  function Expenses(s: seq<Transaction>): seq<Transaction> {
    Filter(s, IsKind(Expense))
  }

  /** `categoryData`: the chart's slices for a ledger. */
  function CategoryData(s: seq<Transaction>): (r: seq<Slice>)
    ensures Distinct(Names(r))
    ensures forall c :: c in Names(r) <==> exists t :: t in s && t.kind == Expense && t.category == c
    ensures forall i, j :: 0 <= i < j < |r| ==>
      FirstIndex(Categories(Expenses(s)), r[i].name) < FirstIndex(Categories(Expenses(s)), r[j].name)
    ensures forall i :: 0 <= i < |r| ==>
      r[i].value == SumAmounts(Filter(Expenses(s), InCategory(r[i].name)))
    ensures SumValues(r) == TotalExpenses(s)
    ensures r == [] <==> forall t :: t in s ==> t.kind != Expense
  {
    var r := Accumulate(Expenses(s));
    SlicesCoverExpenses(s, r);
    r
  }

  /** Slices named after exactly the expense categories exist exactly when some expense does. */
  lemma SlicesCoverExpenses(s: seq<Transaction>, r: seq<Slice>)
    requires GroupNames(r, Expenses(s))
    ensures forall c :: c in Names(r) <==> exists t :: t in s && t.kind == Expense && t.category == c
    ensures r == [] <==> forall t :: t in s ==> t.kind != Expense
  {
    var xs := Expenses(s);
    CategoriesAreOf(xs);
    ExpensesEmpty(s);
    if r != [] {
      assert Names(r)[0] in Categories(xs);
    }
    if xs != [] {
      assert Categories(xs)[0] in Names(r);
    }
  }

  /** A name is among the categories of `xs` exactly when some record of `xs` has it. */
  lemma CategoriesAreOf(xs: seq<Transaction>)
    ensures forall c :: c in Categories(xs) <==> exists t :: t in xs && t.category == c
  {
    forall c | c in Categories(xs)
      ensures exists t :: t in xs && t.category == c
    {
      var m :| 0 <= m < |xs| && Categories(xs)[m] == c;
      assert xs[m] in xs;
    }
    forall c | exists t :: t in xs && t.category == c
      ensures c in Categories(xs)
    {
      var t :| t in xs && t.category == c;
      var m :| 0 <= m < |xs| && xs[m] == t;
      assert Categories(xs)[m] == c;
    }
  }

  lemma ExpensesEmpty(s: seq<Transaction>)
    ensures Expenses(s) == [] <==> forall t :: t in s ==> t.kind != Expense
  {
    if forall t :: t in s ==> t.kind != Expense {
      FilterDropsAll(s, IsKind(Expense));
    } else {
      var t :| t in s && t.kind == Expense;
      assert t in Expenses(s);
    }
  }

  /** The placeholder is shown exactly when the ledger holds no expense. */
  function ShowsPlaceholder(s: seq<Transaction>): (r: bool)
    ensures r <==> forall t :: t in s ==> t.kind != Expense
  {
    |CategoryData(s)| == 0
  }
}
