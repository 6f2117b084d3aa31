/**
  The transaction list: the records admitted by the type filter, sorted by
  date with the most recent first, each shown with a sign prefix; and the
  delete confirmation, which removes the pending record only when an id is
  pending.
 */
module TransactionList {
  import opened Seqs
  import opened Types
  import opened Totals
  import Ledger

  /** The filter selector: `"all"`, or one transaction type. */
  datatype TypeFilter = AllTypes | OnlyType(kind: TransactionType)

  /** `filterType === "all" || t.type === filterType`. */
  function Admits(f: TypeFilter): Transaction -> bool {
    (t: Transaction) => f.AllTypes? || t.kind == f.kind
  }

  /** Most recent first: no record is dated after one listed before it. */
  predicate SortedByDateDesc(s: seq<Transaction>) {
    forall i, j :: 0 <= i < j < |s| ==> s[i].date >= s[j].date
  }

  /**
    Places `x` in front of the first record not dated after it, so that `x`
    stays ahead of the records of its own date it preceded in the input.
   */
  function Insert(x: Transaction, s: seq<Transaction>): (r: seq<Transaction>)
    requires SortedByDateDesc(s)
    ensures SortedByDateDesc(r)
    ensures |r| == |s| + 1
    ensures forall y :: y in r <==> y == x || y in s
    ensures multiset(r) == multiset{x} + multiset(s)
  {
    if s == [] || s[0].date <= x.date then
      SortedFront(x, s);
      [x] + s
    else
      var rest := Insert(x, s[1..]);
      InsertedAfterHead(x, s, rest);
      [s[0]] + rest
  }

  /** A record no older than the head of a sorted list can go in front of it. */
  lemma SortedFront(x: Transaction, s: seq<Transaction>)
    requires SortedByDateDesc(s)
    requires s == [] || s[0].date <= x.date
    ensures SortedByDateDesc([x] + s)
  {
    var r := [x] + s;
    forall i, j | 0 <= i < j < |r|
      ensures r[i].date >= r[j].date
    {
      if i == 0 && j > 1 {
        assert s[0].date >= s[j - 1].date;
      }
    }
  }

  /** The head of `s` stays in front when `x`, dated before it, goes into the tail. */
  lemma InsertedAfterHead(x: Transaction, s: seq<Transaction>, rest: seq<Transaction>)
    requires SortedByDateDesc(s) && s != [] && s[0].date > x.date
    requires SortedByDateDesc(rest)
    requires |rest| == |s|
    requires forall y :: y in rest <==> y == x || y in s[1..]
    requires multiset(rest) == multiset{x} + multiset(s[1..])
    ensures SortedByDateDesc([s[0]] + rest)
    ensures forall y :: y in [s[0]] + rest <==> y == x || y in s
    ensures multiset([s[0]] + rest) == multiset{x} + multiset(s)
  {
    assert s == [s[0]] + s[1..];
    var r := [s[0]] + rest;
    forall j | 0 < j < |r|
      ensures r[0].date >= r[j].date
    {
      assert r[j] in rest;
      if r[j] != x {
        var m :| 0 <= m < |s| - 1 && s[1..][m] == r[j];
        assert s[0].date >= s[m + 1].date;
      }
    }
    forall i, j | 0 <= i < j < |r|
      ensures r[i].date >= r[j].date
    {
      if i > 0 {
        assert r[i] == rest[i - 1] && r[j] == rest[j - 1];
      }
    }
  }

  /**
    The comparator `b.date - a.date` under a stable sort: records ordered by
    date, most recent first, records of the same date kept in input order.
   */
  function SortByDateDesc(s: seq<Transaction>): (r: seq<Transaction>)
    ensures SortedByDateDesc(r)
    ensures |r| == |s|
    ensures multiset(r) == multiset(s)
  {
    if s == [] then []
    else
      assert s == [s[0]] + s[1..];
      Insert(s[0], SortByDateDesc(s[1..]))
  }

  /** Inserting keeps the order among the records of any one date. */
  lemma {:induction false} InsertOnDay(x: Transaction, s: seq<Transaction>, d: Day)
    requires SortedByDateDesc(s)
    ensures Filter(Insert(x, s), OnDay(d)) == Filter([x], OnDay(d)) + Filter(s, OnDay(d))
    decreases |s|, 1
  {
    if s == [] || s[0].date <= x.date {
      FilterConcat([x], s, OnDay(d));
    } else {
      InsertPastHead(x, s, d);
    }
  }

  /** The step of `InsertOnDay` where `x` goes past the head of `s`. */
  lemma {:induction false} InsertPastHead(x: Transaction, s: seq<Transaction>, d: Day)
    requires SortedByDateDesc(s)
    requires s != [] && s[0].date > x.date
    ensures Filter(Insert(x, s), OnDay(d)) == Filter([x], OnDay(d)) + Filter(s, OnDay(d))
    decreases |s|, 0
  {
    var p := OnDay(d);
    var head, rest := s[0], s[1..];
    assert s == [head] + rest;
    var inserted := Insert(x, rest);
    assert Insert(x, s) == [head] + inserted;
    var h, xd, i, r := Filter([head], p), Filter([x], p), Filter(inserted, p), Filter(rest, p);
    InsertOnDay(x, rest, d);
    assert i == xd + r;
    FilterConcat([head], inserted, p);
    FilterConcat([head], rest, p);
    FilterSingle(x, p);
    FilterSingle(head, p);
    assert h == [] || xd == [];
    SwapPastEmpty(h, xd, r);
  }

  /** Two sequences one of which is empty can trade places in front of a third. */
  lemma SwapPastEmpty(a: seq<Transaction>, b: seq<Transaction>, c: seq<Transaction>)
    requires a == [] || b == []
    ensures a + (b + c) == b + (a + c)
  {
  }

  /** The sort is stable: the records of each date appear in their input order. */
  lemma {:induction false} SortIsStable(s: seq<Transaction>, d: Day)
    ensures Filter(SortByDateDesc(s), OnDay(d)) == Filter(s, OnDay(d))
  {
    if s != [] {
      var head, rest := s[0], s[1..];
      assert s == [head] + rest;
      SortIsStable(rest, d);
      InsertOnDay(head, SortByDateDesc(rest), d);
      FilterConcat([head], rest, OnDay(d));
    }
  }

  /** Sorting input that is already in order changes nothing. */
  lemma {:induction false} SortKeepsSorted(s: seq<Transaction>)
    requires SortedByDateDesc(s)
    ensures SortByDateDesc(s) == s
  {
    if s != [] {
      assert SortedByDateDesc(s[1..]);
      SortKeepsSorted(s[1..]);
    }
  }

  /** `filteredTransactions`: the admitted records, most recent first. */
  function Visible(s: seq<Transaction>, f: TypeFilter): (r: seq<Transaction>)
    ensures SortedByDateDesc(r)
    ensures forall t :: t in r <==> t in s && (f.AllTypes? || t.kind == f.kind)
    ensures forall t :: multiset(r)[t] == if f.AllTypes? || t.kind == f.kind then multiset(s)[t] else 0
  {
    FilterCount(s, Admits(f));
    SortByDateDesc(Filter(s, Admits(f)))
  }

  /** With the filter `"all"`, every record is listed. */
  lemma AllTypesListsEverything(s: seq<Transaction>)
    ensures multiset(Visible(s, AllTypes)) == multiset(s)
    ensures |Visible(s, AllTypes)| == |s|
  {
    FilterKeepsAll(s, Admits(AllTypes));
  }

  /** The list shows the placeholder exactly when the filter admits no record. */
  function ShowsEmptyMessage(s: seq<Transaction>, f: TypeFilter): (r: bool)
    ensures r <==> forall t :: t in s ==> !(f.AllTypes? || t.kind == f.kind)
  {
    var v := Visible(s, f);
    assert v != [] ==> v[0] in v;
    |v| == 0
  }

  /** The sign shown before an amount. */
  function SignPrefix(t: Transaction): (r: string)
    ensures r == "+" <==> t.kind == Income
    ensures r == "-" <==> t.kind == Expense
  {
    match t.kind
    case Income => "+"
    case Expense => "-"
  }

  /** For a positive amount, the prefix is the sign the record contributes to the balance. */
  lemma PrefixIsSignOfContribution(t: Transaction)
    requires t.amount > 0.0
    ensures SignPrefix(t) == "+" <==> Signed(t) > 0.0
    ensures SignPrefix(t) == "-" <==> Signed(t) < 0.0
  {
  }

  lemma {:induction false} InsertSignedSum(x: Transaction, s: seq<Transaction>)
    requires SortedByDateDesc(s)
    ensures SignedSum(Insert(x, s)) == Signed(x) + SignedSum(s)
  {
    if s != [] && s[0].date > x.date {
      InsertSignedSum(x, s[1..]);
    }
  }

  lemma {:induction false} SortSignedSum(s: seq<Transaction>)
    ensures SignedSum(SortByDateDesc(s)) == SignedSum(s)
  {
    if s != [] {
      SortSignedSum(s[1..]);
      InsertSignedSum(s[0], SortByDateDesc(s[1..]));
    }
  }

  /** Adding up the signed amounts of the unfiltered list gives the summary cards' balance. */
  lemma ListAgreesWithBalance(s: seq<Transaction>)
    ensures SignedSum(Visible(s, AllTypes)) == Balance(s)
  {
    FilterKeepsAll(s, Admits(AllTypes));
    SortSignedSum(s);
    BalanceIsSignedSum(s);
  }

  /** The ledger together with the id awaiting confirmation (`deleteId`). */
  datatype DeleteState = DeleteState(ledger: seq<Transaction>, pending: Option<Id>)

  /** `if (deleteId)`: an id is pending and is not the empty string. */
  predicate HasPending(st: DeleteState) {
    st.pending.Some? && st.pending.value != ""
  }

  /** The trash button: `setDeleteId(transaction.id)`. */
  function RequestDelete(st: DeleteState, id: Id): (r: DeleteState)
    ensures r.ledger == st.ledger && r.pending == Some(id)
    ensures HasPending(r) <==> id != ""
  {
    DeleteState(st.ledger, Some(id))
  }

  /** Closing the dialog without confirming: `setDeleteId(null)`. */
  function CancelDelete(st: DeleteState): (r: DeleteState)
    ensures r.ledger == st.ledger && !HasPending(r)
  {
    DeleteState(st.ledger, None)
  }

  /**
    `handleDelete`: with an id pending, the ledger loses exactly the records
    carrying it and nothing is pending afterwards; otherwise nothing changes.
   */
  function ConfirmDelete(st: DeleteState): (r: DeleteState)
    ensures HasPending(st) ==> r.pending == None
    ensures HasPending(st) ==> forall t :: t in r.ledger <==> t in st.ledger && t.id != st.pending.value
    ensures HasPending(st) ==> forall t ::
      multiset(r.ledger)[t] == if t.id != st.pending.value then multiset(st.ledger)[t] else 0
    ensures HasPending(st) ==> st.pending.value !in Ledger.Ids(r.ledger)
    ensures !HasPending(st) ==> r == st
    ensures !HasPending(r)
  {
    if HasPending(st) then DeleteState(Ledger.Delete(st.ledger, st.pending.value), None) else st
  }

  /** Confirming a second time does nothing. */
  lemma ConfirmTwice(st: DeleteState)
    ensures ConfirmDelete(ConfirmDelete(st)) == ConfirmDelete(st)
  {
  }

  /** Confirming keeps a valid ledger valid. */
  lemma ConfirmKeepsValid(st: DeleteState)
    requires Ledger.Valid(st.ledger)
    ensures Ledger.Valid(ConfirmDelete(st).ledger)
  {
    if HasPending(st) {
      Ledger.DeleteKeepsValid(st.ledger, st.pending.value);
    }
  }

  /** Asking to delete the record at `k` and confirming removes exactly that record when ids are unique. */
  lemma RequestThenConfirm(l: seq<Transaction>, k: nat, pending: Option<Id>)
    requires Ledger.UniqueIds(l)
    requires k < |l| && l[k].id != ""
    ensures ConfirmDelete(RequestDelete(DeleteState(l, pending), l[k].id)) == DeleteState(l[..k] + l[k + 1..], None)
  {
    Ledger.DeleteUnique(l, k);
  }
}
