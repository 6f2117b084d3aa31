/**
  The record types of the finance tracker: a transaction is either income or
  an expense, carries a positive amount whose sign is implied by its kind,
  a calendar day and an optional free-text description.
 */
module Types {
  import opened Seqs

  datatype Option<T> = None | Some(value: T)

  /** `TransactionType`: exactly two variants. */
  datatype TransactionType = Income | Expense

  type Id = string

  /** A calendar date, as a day number counted from 1970-01-01 (UTC). */
  type Day = int

  /**
    One ledger entry. The source's field `type` is called `kind` here.
    An absent description (`None`) is distinct from an empty one (`Some("")`).
   */
  datatype Transaction = Transaction(
    id: Id,
    kind: TransactionType,
    category: string,
    amount: real,
    date: Day,
    description: Option<string>)

  /** A transaction's fields before an id is assigned (`Omit<Transaction, "id">`). */
  datatype Draft = Draft(
    kind: TransactionType,
    category: string,
    amount: real,
    date: Day,
    description: Option<string>)

  /** The draft's fields spread into a record together with `id`. */
  function WithId(d: Draft, id: Id): (t: Transaction)
    ensures t.id == id
    ensures ToDraft(t) == d
  {
    Transaction(id, d.kind, d.category, d.amount, d.date, d.description)
  }

  /** Everything but the id. */
  function ToDraft(t: Transaction): Draft {
    Draft(t.kind, t.category, t.amount, t.date, t.description)
  }

  /** A record is its own draft plus its own id. */
  lemma DraftRoundTrip(t: Transaction)
    ensures WithId(ToDraft(t), t.id) == t
  {
  }

  const IncomeCategories: seq<string> :=
    ["Salary", "Freelance", "Investment", "Business", "Gift", "Other Income"]

  const ExpenseCategories: seq<string> :=
    ["Groceries", "Rent", "Utilities", "Transportation", "Entertainment",
     "Healthcare", "Shopping", "Dining", "Education", "Other Expense"]

  /** Six income names, ten expense names, no repeats, no name in both lists. */
  lemma CategoryListsWellFormed()
    ensures |IncomeCategories| == 6 && Distinct(IncomeCategories)
    ensures |ExpenseCategories| == 10 && Distinct(ExpenseCategories)
    ensures forall c :: c in IncomeCategories ==> c !in ExpenseCategories
  {
  }

  /** Selectors used by the filters of the derived views. */
  function IsKind(k: TransactionType): Transaction -> bool {
    (t: Transaction) => t.kind == k
  }

  function OnDay(d: Day): Transaction -> bool {
    (t: Transaction) => t.date == d
  }
}
