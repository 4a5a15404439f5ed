/**
 * The store operations the handlers issue against the purchase-request
 * collection, over the collection's contents in insertion order: equality
 * filters, `find`, `findOne` and the status update of `findOneAndUpdate`.
 */
module RequestQueries {
  import opened Wrappers
  import opened PurchaseRequestSchema

  /** An equality filter; an absent key does not constrain. */
  datatype Filter = Filter(
    requester: Option<string>,
    itemName: Option<string>,
    approverEmail: Option<string>,
    status: Option<Status>)

  predicate Matches(r: Record, f: Filter) {
    && (f.requester.None? || r.requester == f.requester.value)
    && (f.itemName.None? || r.itemName == f.itemName.value)
    && (f.approverEmail.None? || r.approverEmail == f.approverEmail.value)
    && (f.status.None? || r.status == f.status.value)
  }

  /** `{ requester }` */
  function OwnedBy(requester: string): Filter {
    Filter(Some(requester), None, None, None)
  }

  /** `{ approverEmail, status: 'Pending' }` */
  function AwaitingApprover(approverEmail: string): Filter {
    Filter(None, None, Some(approverEmail), Some(Pending))
  }

  /** `{ itemName, approverEmail, status: 'Pending' }` */
  function DecisionFilter(itemName: string, approverEmail: string): Filter {
    Filter(None, Some(itemName), Some(approverEmail), Some(Pending))
  }

  /** `{ itemName, status: 'Pending' }` */
  function PendingItem(itemName: string): Filter {
    Filter(None, Some(itemName), None, Some(Pending))
  }

  /** `find(f)`: the matching records, in store order. */
  function Find(recs: seq<Record>, f: Filter): (found: seq<Record>)
    ensures |found| <= |recs|
    ensures forall r :: r in found <==> r in recs && Matches(r, f)
  {
    if recs == [] then []
    else (if Matches(recs[0], f) then [recs[0]] else []) + Find(recs[1..], f)
  }

  /** `find` returns every matching record as often as it is stored, and nothing else. */
  lemma {:induction false} FindExactly(recs: seq<Record>, f: Filter)
    ensures forall r :: multiset(Find(recs, f))[r] == if Matches(r, f) then multiset(recs)[r] else 0
  {
    if recs != [] {
      assert recs == [recs[0]] + recs[1..];
      FindExactly(recs[1..], f);
    }
  }

  /** `findOne(f)`: the position of the first matching record. */
  function FindOne(recs: seq<Record>, f: Filter): (k: Option<nat>)
    ensures k.Some? ==> k.value < |recs| && Matches(recs[k.value], f)
    ensures k.Some? ==> forall j :: 0 <= j < k.value ==> !Matches(recs[j], f)
    ensures k.None? ==> forall j :: 0 <= j < |recs| ==> !Matches(recs[j], f)
  {
    if recs == [] then None
    else if Matches(recs[0], f) then Some(0)
    else
      match FindOne(recs[1..], f)
      case None => None
      case Some(k) => Some(k + 1)
  }

  /**
   * The collection after `findOneAndUpdate(f, { status: s })`: the first
   * matching record gets status `s`; nothing else changes.
   */
  function UpdateFirstStatus(recs: seq<Record>, f: Filter, s: Status): (updated: seq<Record>)
    ensures |updated| == |recs|
    ensures FindOne(recs, f).None? ==> updated == recs
    ensures FindOne(recs, f).Some? ==>
      var k := FindOne(recs, f).value;
      updated[k] == recs[k].(status := s)
    ensures forall j :: 0 <= j < |recs| && updated[j] != recs[j] ==>
      Matches(recs[j], f) && updated[j] == recs[j].(status := s) && FindOne(recs, f) == Some(j)
  {
    match FindOne(recs, f)
    case None => recs
    case Some(k) => recs[k := recs[k].(status := s)]
  }

  /** The number of matching records changes only by the one replaced. */
  lemma {:induction false} FindAfterReplace(recs: seq<Record>, k: nat, r: Record, f: Filter)
    requires k < |recs|
    ensures |Find(recs[k := r], f)| + (if Matches(recs[k], f) then 1 else 0)
         == |Find(recs, f)| + (if Matches(r, f) then 1 else 0)
  {
    if k == 0 {
      assert recs[k := r][1..] == recs[1..];
    } else {
      assert recs[k := r][1..] == recs[1..][k - 1 := r];
      FindAfterReplace(recs[1..], k - 1, r, f);
    }
  }

  /** `find` comes back empty exactly when `findOne` finds nothing. */
  lemma FindEmpty(recs: seq<Record>, f: Filter)
    ensures Find(recs, f) == [] <==> FindOne(recs, f).None?
  {
  }
}
