/**
  The ledger store: the in-memory sequence of transactions and the three
  operations the page applies to it. New records go to the front, deletion
  filters by id, and update replaces every record carrying the updated id
  in place.
 */
module Ledger {
  import opened Seqs
  import opened Types

  /** The ids in ledger order. */
  function Ids(l: seq<Transaction>): (r: seq<Id>)
    ensures |r| == |l|
    ensures forall i :: 0 <= i < |l| ==> r[i] == l[i].id
  {
    seq(|l|, i requires 0 <= i < |l| => l[i].id)
  }

  /** No two records share an id. */
  predicate UniqueIds(l: seq<Transaction>) {
    Distinct(Ids(l))
  }

  /** What the entry dialogs guarantee of every stored record. */
  predicate Valid(l: seq<Transaction>) {
    UniqueIds(l) && forall t :: t in l ==> t.amount > 0.0
  }

  /** The page's initial load: a missing, empty or unparsable stored value leaves the ledger empty. */
  function Load(stored: Option<string>, parse: string -> Option<seq<Transaction>>): (r: seq<Transaction>)
    ensures stored == None || stored == Some("") ==> r == []
    ensures stored.Some? && stored.value != "" && parse(stored.value) == None ==> r == []
    ensures stored.Some? && stored.value != "" && parse(stored.value).Some? ==> r == parse(stored.value).value
  {
    match stored
    case None => []
    case Some(text) =>
      if text == "" then []
      else
        match parse(text)
        case None => []
        case Some(l) => l
  }

  /** `handleAddTransaction`: the draft with `freshId` becomes the new head. */
  function Add(l: seq<Transaction>, draft: Draft, freshId: Id): (r: seq<Transaction>)
    ensures |r| == |l| + 1
    ensures r[0].id == freshId && ToDraft(r[0]) == draft
    ensures r[1..] == l
    ensures Ids(r) == [freshId] + Ids(l)
  {
    [WithId(draft, freshId)] + l
  }

  function IdIsNot(id: Id): Transaction -> bool {
    (t: Transaction) => t.id != id
  }

  /** `handleDeleteTransaction`: keep the records whose id differs. */
  function Delete(l: seq<Transaction>, id: Id): (r: seq<Transaction>)
    ensures forall t :: t in r <==> t in l && t.id != id
    ensures forall t :: multiset(r)[t] == if t.id != id then multiset(l)[t] else 0
    ensures id !in Ids(r)
    ensures |r| <= |l|
  {
    FilterCount(l, IdIsNot(id));
    Filter(l, IdIsNot(id))
  }

  /** `handleUpdateTransaction`: every record with the updated id becomes `u`. */
  function Update(l: seq<Transaction>, u: Transaction): (r: seq<Transaction>)
    ensures |r| == |l|
    ensures Ids(r) == Ids(l)
    ensures forall i :: 0 <= i < |l| && l[i].id == u.id ==> r[i] == u
    ensures forall i :: 0 <= i < |l| && l[i].id != u.id ==> r[i] == l[i]
  {
    seq(|l|, i requires 0 <= i < |l| => if l[i].id == u.id then u else l[i])
  }

  /** Adding with an id not yet in use keeps the ledger valid. */
  lemma AddKeepsValid(l: seq<Transaction>, draft: Draft, freshId: Id)
    requires Valid(l)
    requires freshId !in Ids(l)
    requires draft.amount > 0.0
    ensures Valid(Add(l, draft, freshId))
  {
    var x := WithId(draft, freshId);
    forall t | t in l
      ensures t.id != freshId
    {
      var k :| 0 <= k < |l| && l[k] == t;
      assert Ids(l)[k] == t.id;
    }
    UniqueCons(x, l);
  }

  /** A ledger with unique ids splits into a head whose id the tail does not reuse. */
  lemma UniqueTail(l: seq<Transaction>)
    requires UniqueIds(l) && l != []
    ensures UniqueIds(l[1..])
    ensures forall t :: t in l[1..] ==> t.id != l[0].id
  {
    var tail := l[1..];
    forall i, j | 0 <= i < j < |tail|
      ensures Ids(tail)[i] != Ids(tail)[j]
    {
      assert Ids(tail)[i] == Ids(l)[i + 1] && Ids(tail)[j] == Ids(l)[j + 1];
    }
    forall t | t in tail
      ensures t.id != l[0].id
    {
      var k :| 0 <= k < |tail| && tail[k] == t;
      assert Ids(l)[k + 1] == t.id;
    }
  }

  /** Putting a record in front of a ledger that does not use its id keeps ids unique. */
  lemma UniqueCons(x: Transaction, r: seq<Transaction>)
    requires UniqueIds(r)
    requires forall t :: t in r ==> t.id != x.id
    ensures UniqueIds([x] + r)
  {
    var c := [x] + r;
    forall i, j | 0 <= i < j < |c|
      ensures Ids(c)[i] != Ids(c)[j]
    {
      if i == 0 {
        assert c[j] == r[j - 1];
      } else {
        assert Ids(c)[i] == Ids(r)[i - 1] && Ids(c)[j] == Ids(r)[j - 1];
      }
    }
  }

  /** Filtering never introduces a repeated id. */
  lemma {:induction false} FilterKeepsUnique(l: seq<Transaction>, p: Transaction -> bool)
    requires UniqueIds(l)
    ensures UniqueIds(Filter(l, p))
  {
    if l != [] {
      UniqueTail(l);
      FilterKeepsUnique(l[1..], p);
      if p(l[0]) {
        UniqueCons(l[0], Filter(l[1..], p));
      }
    }
  }

  /** Deleting keeps the ledger valid. */
  lemma DeleteKeepsValid(l: seq<Transaction>, id: Id)
    requires Valid(l)
    ensures Valid(Delete(l, id))
  {
    FilterKeepsUnique(l, IdIsNot(id));
  }

  /** Deleting an id that is not present changes nothing. */
  lemma DeleteAbsent(l: seq<Transaction>, id: Id)
    requires id !in Ids(l)
    ensures Delete(l, id) == l
  {
    forall t | t in l
      ensures IdIsNot(id)(t)
    {
      var k :| 0 <= k < |l| && l[k] == t;
      assert Ids(l)[k] == t.id;
    }
    FilterKeepsAll(l, IdIsNot(id));
  }

  /** Deleting twice is deleting once. */
  lemma DeleteIdempotent(l: seq<Transaction>, id: Id)
    ensures Delete(Delete(l, id), id) == Delete(l, id)
  {
    FilterImplied(l, IdIsNot(id), IdIsNot(id));
  }

  /**
    With unique ids, deleting the id at position `k` removes exactly that one
    record and keeps the others in their order.
   */
  lemma DeleteUnique(l: seq<Transaction>, k: nat)
    requires UniqueIds(l)
    requires k < |l|
    ensures Delete(l, l[k].id) == l[..k] + l[k + 1..]
    ensures |Delete(l, l[k].id)| == |l| - 1
  {
    var p := IdIsNot(l[k].id);
    var before, after := l[..k], l[k + 1..];
    assert l == before + ([l[k]] + after);
    OthersKeepTheirIds(l, k);
    FilterKeepsAll(before, p);
    FilterKeepsAll(after, p);
    assert Filter([l[k]] + after, p) == after by {
      FilterConcat([l[k]], after, p);
      FilterDropsAll([l[k]], p);
    }
    FilterConcat(before, [l[k]] + after, p);
  }

  /** With unique ids, no record but the one at `k` carries `l[k].id`. */
  lemma OthersKeepTheirIds(l: seq<Transaction>, k: nat)
    requires UniqueIds(l)
    requires k < |l|
    ensures forall t :: t in l[..k] ==> IdIsNot(l[k].id)(t)
    ensures forall t :: t in l[k + 1..] ==> IdIsNot(l[k].id)(t)
  {
    forall t | t in l[..k]
      ensures t.id != l[k].id
    {
      var i :| 0 <= i < k && l[..k][i] == t;
      assert Ids(l)[i] != Ids(l)[k];
    }
    forall t | t in l[k + 1..]
      ensures t.id != l[k].id
    {
      var i :| 0 <= i < |l| - k - 1 && l[k + 1..][i] == t;
      assert Ids(l)[k] != Ids(l)[k + 1 + i];
    }
  }

  /** Updating with an id that is not present changes nothing. */
  lemma UpdateAbsent(l: seq<Transaction>, u: Transaction)
    requires u.id !in Ids(l)
    ensures Update(l, u) == l
  {
    forall i | 0 <= i < |l|
      ensures l[i].id != u.id
    {
      assert Ids(l)[i] == l[i].id;
    }
  }

  /**
    With unique ids, updating a present id replaces that one record in its
    position and leaves every other record as it was.
   */
  lemma UpdateUnique(l: seq<Transaction>, k: nat, u: Transaction)
    requires UniqueIds(l)
    requires k < |l| && l[k].id == u.id
    ensures Update(l, u) == l[k := u]
  {
    forall i | 0 <= i < |l| && i != k
      ensures l[i].id != u.id
    {
      if i < k {
        assert Ids(l)[i] != Ids(l)[k];
      } else {
        assert Ids(l)[k] != Ids(l)[i];
      }
    }
  }

  /** Updating keeps ids unique (the id sequence is unchanged), and keeps amounts positive. */
  lemma UpdateKeepsValid(l: seq<Transaction>, u: Transaction)
    requires Valid(l)
    requires u.amount > 0.0
    ensures Valid(Update(l, u))
    ensures multiset(Ids(Update(l, u))) == multiset(Ids(l))
  {
    var r := Update(l, u);
    forall t | t in r
      ensures t.amount > 0.0
    {
      var i :| 0 <= i < |r| && r[i] == t;
      assert l[i] in l;
    }
  }

  /** Applying the same update twice is applying it once. */
  lemma UpdateIdempotent(l: seq<Transaction>, u: Transaction)
    ensures Update(Update(l, u), u) == Update(l, u)
  {
  }
}
