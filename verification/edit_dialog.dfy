/**
  The edit dialog: the form is prefilled from the record being edited, and
  submitting it either rejects the input or yields the updated record, which
  keeps the original id and takes every other field from the form. Number
  parsing and formatting are parameters: `parse` returns `None` where
  `parseFloat` returns NaN.
 */
module EditDialog {
  import opened Seqs
  import opened Types
  import Ledger

  /** The dialog's form state; the amount is the text of the number input. */
  datatype EditForm = EditForm(
    kind: TransactionType,
    category: string,
    amountText: string,
    date: Day,
    description: string)

  /** The outcome of a submission. */
  datatype SubmitResult =
    | Updated(record: Transaction)
    | MissingFields
    | InvalidAmount

  /** The ECMAScript white space and line terminator characters, which `String.prototype.trim` removes. */
  predicate IsSpace(c: char) {
    || c == '\t' || c == '\n' || c == '\U{000B}' || c == '\U{000C}' || c == '\r' || c == ' '
    || c == '\U{00A0}' || c == '\U{1680}' || ('\U{2000}' <= c <= '\U{200A}')
    || c == '\U{2028}' || c == '\U{2029}' || c == '\U{202F}' || c == '\U{205F}'
    || c == '\U{3000}' || c == '\U{FEFF}'
  }

  /** Drops the leading white space. */
  function TrimStart(s: string): (r: string)
    ensures |r| <= |s| && r == s[|s| - |r|..]
    ensures forall i :: 0 <= i < |s| - |r| ==> IsSpace(s[i])
    ensures r == [] || !IsSpace(r[0])
  {
    if s == [] || !IsSpace(s[0]) then s else TrimStart(s[1..])
  }

  /** Drops the trailing white space. */
  function TrimEnd(s: string): (r: string)
    ensures |r| <= |s| && r == s[..|r|]
    ensures forall i :: |r| <= i < |s| ==> IsSpace(s[i])
    ensures r == [] || !IsSpace(r[|r| - 1])
  {
    if s == [] || !IsSpace(s[|s| - 1]) then s else TrimEnd(s[..|s| - 1])
  }

  /** `String.prototype.trim`. */
  function Trim(s: string): (r: string)
    ensures |r| <= |s|
    ensures r == [] || (!IsSpace(r[0]) && !IsSpace(r[|r| - 1]))
    ensures r == [] <==> forall i :: 0 <= i < |s| ==> IsSpace(s[i])
    ensures exists i :: SpaceAround(s, i, r)
  {
    TrimEnds(s);
    TrimBlank(s);
    TrimPiece(s);
    TrimEnd(TrimStart(s))
  }

  /** `r` sits at position `i` of `s`, with only white space before and after it. */
  predicate SpaceAround(s: string, i: int, r: string) {
    && 0 <= i <= |s| - |r|
    && r == s[i..i + |r|]
    && (forall k :: 0 <= k < i ==> IsSpace(s[k]))
    && (forall k :: i + |r| <= k < |s| ==> IsSpace(s[k]))
  }

  /** The trim is the piece of the text left between the leading and the trailing white space. */
  lemma TrimPiece(s: string)
    ensures SpaceAround(s, |s| - |TrimStart(s)|, TrimEnd(TrimStart(s)))
  {
    var t := TrimStart(s);
    var r := TrimEnd(t);
    var i := |s| - |t|;
    assert t == s[i..];
    forall k | i + |r| <= k < |s|
      ensures IsSpace(s[k])
    {
      assert s[k] == t[k - i];
    }
  }

  lemma TrimEnds(s: string)
    ensures var r := TrimEnd(TrimStart(s)); r == [] || (!IsSpace(r[0]) && !IsSpace(r[|r| - 1]))
  {
    var t := TrimStart(s);
    var r := TrimEnd(t);
    if r != [] {
      assert r[0] == t[0];
    }
  }

  lemma TrimBlank(s: string)
    ensures TrimEnd(TrimStart(s)) == [] <==> forall i :: 0 <= i < |s| ==> IsSpace(s[i])
  {
    var t := TrimStart(s);
    if TrimEnd(t) == [] {
      assert t == [];
    }
    BlankTrimStart(s);
  }

  /** Blank text loses everything to `TrimStart`. */
  lemma {:induction false} BlankTrimStart(s: string)
    ensures (forall i :: 0 <= i < |s| ==> IsSpace(s[i])) ==> TrimStart(s) == []
  {
    if s != [] {
      BlankTrimStart(s[1..]);
      assert forall i :: 0 <= i < |s| - 1 ==> s[1..][i] == s[i + 1];
    }
  }

  /** A string without white space at either end is its own trim, and only such a string is. */
  lemma TrimFixpoint(s: string)
    ensures Trim(s) == s <==> s == [] || (!IsSpace(s[0]) && !IsSpace(s[|s| - 1]))
  {
  }

  /** Trimming twice is trimming once. */
  lemma TrimIdempotent(s: string)
    ensures Trim(Trim(s)) == Trim(s)
  {
    TrimFixpoint(Trim(s));
  }

  /** `description.trim() || undefined`: blank text becomes an absent description. */
  function NormalizeDescription(text: string): (r: Option<string>)
    ensures r == None <==> forall i :: 0 <= i < |text| ==> IsSpace(text[i])
    ensures r.Some? ==> r.value == Trim(text) && r.value != ""
  {
    var t := Trim(text);
    if t == "" then None else Some(t)
  }

  /** The form's fields for a record: `description || ""` turns an absent description into empty text. */
  function Prefill(t: Transaction, format: real -> string): (f: EditForm)
    ensures f.kind == t.kind && f.category == t.category && f.date == t.date
    ensures f.amountText == format(t.amount)
    ensures t.description.None? ==> f.description == ""
    ensures t.description.Some? ==> f.description == t.description.value
  {
    var text := match t.description
      case None => ""
      case Some(d) => d;
    EditForm(t.kind, t.category, format(t.amount), t.date, text)
  }

  /** The category names offered for a type. */
  function CategoryOptions(k: TransactionType): (r: seq<string>)
    ensures k == Income ==> r == IncomeCategories
    ensures k == Expense ==> r == ExpenseCategories
    ensures Distinct(r)
    ensures k == Income ==> |r| == 6 && forall c :: c in r ==> c !in ExpenseCategories
    ensures k == Expense ==> |r| == 10 && forall c :: c in r ==> c !in IncomeCategories
  {
    CategoryListsWellFormed();
    if k == Income then IncomeCategories else ExpenseCategories
  }

  /** Every listed category is offered for exactly one of the two types. */
  lemma CategoryOptionsPartition(c: string)
    requires c in IncomeCategories + ExpenseCategories
    ensures c in CategoryOptions(Income) <==> c !in CategoryOptions(Expense)
  {
  }

  /** The first check: no record, no category or no amount text. */
  predicate FieldsMissing(original: Option<Transaction>, form: EditForm) {
    original.None? || form.category == "" || form.amountText == ""
  }

  /** The second check: the amount text is not a number, or not a positive one. */
  predicate AmountRejected(form: EditForm, parse: string -> Option<real>) {
    parse(form.amountText).None? || parse(form.amountText).value <= 0.0
  }

  /**
    `handleSubmit`: the two checks in order, then the original record with
    every field but the id taken from the form.
   */
  function Submit(original: Option<Transaction>, form: EditForm, parse: string -> Option<real>): (r: SubmitResult)
    ensures r == MissingFields <==> FieldsMissing(original, form)
    ensures r == InvalidAmount <==> !FieldsMissing(original, form) && AmountRejected(form, parse)
    ensures r.Updated? <==> !FieldsMissing(original, form) && !AmountRejected(form, parse)
    ensures r.Updated? ==> r.record.id == original.value.id && r.record.amount > 0.0
    ensures r.Updated? ==> r.record.kind == form.kind && r.record.category == form.category && r.record.date == form.date
    ensures r.Updated? ==> Some(r.record.amount) == parse(form.amountText)
    ensures r.Updated? ==> r.record.description == NormalizeDescription(form.description)
  {
    if FieldsMissing(original, form) then MissingFields
    else
      match parse(form.amountText)
      case None => InvalidAmount
      case Some(amount) =>
        if amount <= 0.0 then InvalidAmount
        else
          Updated(original.value.(
            kind := form.kind,
            category := form.category,
            amount := amount,
            date := form.date,
            description := NormalizeDescription(form.description)))
  }

  /** A description as the dialog stores it: absent, or non-empty with no white space at either end. */
  predicate NormalDescription(d: Option<string>) {
    d.None? || (d.value != [] && !IsSpace(d.value[0]) && !IsSpace(d.value[|d.value| - 1]))
  }

  /**
    Opening the dialog on a record and submitting it unchanged gives back the
    same record, when its amount text parses back to its amount.
   */
  lemma PrefillSubmitRoundTrip(t: Transaction, format: real -> string, parse: string -> Option<real>)
    requires t.category != "" && t.amount > 0.0
    requires format(t.amount) != "" && parse(format(t.amount)) == Some(t.amount)
    requires NormalDescription(t.description)
    ensures Submit(Some(t), Prefill(t, format), parse) == Updated(t)
  {
    var f := Prefill(t, format);
    assert NormalizeDescription(f.description) == t.description by {
      match t.description
      case None =>
      case Some(d) =>
        TrimFixpoint(d);
    }
    assert !FieldsMissing(Some(t), f) && !AmountRejected(f, parse);
  }

  /** Submitting the same form again after an update yields the same record. */
  lemma SubmitIdempotent(original: Transaction, form: EditForm, parse: string -> Option<real>)
    requires Submit(Some(original), form, parse).Updated?
    ensures Submit(Some(Submit(Some(original), form, parse).record), form, parse)
         == Submit(Some(original), form, parse)
  {
  }

  /** The type can change without the category following it: nothing ties the category to the offered list. */
  lemma CategoryNotChecked(t: Transaction, parse: string -> Option<real>)
    requires parse("10") == Some(10.0)
    ensures Submit(Some(t), EditForm(Income, "Rent", "10", t.date, ""), parse).Updated?
    ensures "Rent" !in CategoryOptions(Income)
  {
    assert "Rent" == ExpenseCategories[1];
  }

  /**
    Applying a submitted update to a valid ledger that holds the edited
    record keeps the ledger valid and replaces just that record.
   */
  lemma SubmitThenUpdate(l: seq<Transaction>, k: nat, form: EditForm, parse: string -> Option<real>)
    requires Ledger.Valid(l) && k < |l|
    requires Submit(Some(l[k]), form, parse).Updated?
    ensures Ledger.Valid(Ledger.Update(l, Submit(Some(l[k]), form, parse).record))
    ensures Ledger.Update(l, Submit(Some(l[k]), form, parse).record) == l[k := Submit(Some(l[k]), form, parse).record]
  {
    var u := Submit(Some(l[k]), form, parse).record;
    Ledger.UpdateKeepsValid(l, u);
    Ledger.UpdateUnique(l, k, u);
  }
}
