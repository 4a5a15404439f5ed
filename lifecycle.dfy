/**
 * The life of a stored purchase request: created Pending, decided at most
 * once, never changed after that, never removed.
 */
module Lifecycle {
  import opened Wrappers
  import opened PurchaseRequestSchema
  import opened RequestQueries

  /**
   * `after` is a possible later state of the collection `before`: records
   * are only appended, and a stored record changes only while Pending, and
   * then only in its status.
   */
  ghost predicate Evolves(before: seq<Record>, after: seq<Record>) {
    && |before| <= |after|
    && forall k :: 0 <= k < |before| ==>
         after[k] == before[k]
         || (before[k].status == Pending && after[k] == before[k].(status := after[k].status))
  }

  lemma EvolvesTransitive(a: seq<Record>, b: seq<Record>, c: seq<Record>)
    requires Evolves(a, b) && Evolves(b, c)
    ensures Evolves(a, c)
  {
  }

  /** Once decided, a record stays as it is in every later state. */
  lemma DecidedIsFinal(before: seq<Record>, after: seq<Record>, k: nat)
    requires Evolves(before, after)
    requires k < |before| && before[k].status != Pending
    ensures after[k] == before[k]
  {
  }

  /** A decision (approve or reject) is a possible step of the collection. */
  lemma DecisionEvolves(recs: seq<Record>, itemName: string, approverEmail: string, s: Status)
    ensures Evolves(recs, UpdateFirstStatus(recs, DecisionFilter(itemName, approverEmail), s))
  {
  }

  /**
   * A decision that hits takes exactly one record out of Pending: one fewer
   * pending record for the item, for the item and approver, and in the
   * approver's pending list.
   */
  lemma DecisionConsumesOne(recs: seq<Record>, itemName: string, approverEmail: string, s: Status)
    requires s != Pending
    requires FindOne(recs, DecisionFilter(itemName, approverEmail)).Some?
    ensures var updated := UpdateFirstStatus(recs, DecisionFilter(itemName, approverEmail), s);
      && |Find(updated, PendingItem(itemName))| == |Find(recs, PendingItem(itemName))| - 1
      && |Find(updated, DecisionFilter(itemName, approverEmail))| == |Find(recs, DecisionFilter(itemName, approverEmail))| - 1
      && |Find(updated, AwaitingApprover(approverEmail))| == |Find(recs, AwaitingApprover(approverEmail))| - 1
  {
    var k := FindOne(recs, DecisionFilter(itemName, approverEmail)).value;
    var r := recs[k].(status := s);
    FindAfterReplace(recs, k, r, PendingItem(itemName));
    FindAfterReplace(recs, k, r, DecisionFilter(itemName, approverEmail));
    FindAfterReplace(recs, k, r, AwaitingApprover(approverEmail));
  }

  /**
   * When an item has a single pending request, a decision on it leaves no
   * pending request for that item: a second decision by anyone misses.
   */
  lemma SecondDecisionMisses(recs: seq<Record>, itemName: string, approverEmail: string, s: Status)
    requires s != Pending
    requires |Find(recs, PendingItem(itemName))| == 1
    requires FindOne(recs, DecisionFilter(itemName, approverEmail)).Some?
    ensures var updated := UpdateFirstStatus(recs, DecisionFilter(itemName, approverEmail), s);
      && FindOne(updated, PendingItem(itemName)).None?
      && forall e :: FindOne(updated, DecisionFilter(itemName, e)).None?
  {
    var updated := UpdateFirstStatus(recs, DecisionFilter(itemName, approverEmail), s);
    DecisionConsumesOne(recs, itemName, approverEmail, s);
    FindEmpty(updated, PendingItem(itemName));
    forall e
      ensures FindOne(updated, DecisionFilter(itemName, e)).None?
    {
      var m := FindOne(updated, DecisionFilter(itemName, e));
      if m.Some? {
        assert Matches(updated[m.value], PendingItem(itemName));
      }
    }
  }
}
