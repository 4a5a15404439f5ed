/**
 * A walk through the lifecycle using only the handlers' contracts: a
 * requester A files a request for two laptops, the named approver B
 * approves it, A's own list shows it, and a second approval misses.
 */
module Scenario {
  import opened Wrappers
  import opened EmailFormat
  import opened PurchaseRequestSchema
  import opened RequestQueries
  import opened PurchaseService

  const RequesterA := Identity("A", ["a@x.com"])
  const ApproverB := Identity("B", ["B@x.com"])

  method LaptopScenario() {
    var app := new PurchaseApp();
    var filed := FileLaptop(app);
    var decided := ApproveLaptop(app, filed);
    var code, mine := app.MyRequests(Some(RequesterA));
    FindExactly(app.requests, OwnedBy("A"));
    assert multiset(mine)[decided] == 1;
    assert code == Ok && decided in mine;
    SecondApprovalMisses(app, decided);
  }

  /** A files the request: 2 x 500 + 20 delivery + 30 tax, for B to approve. */
  method FileLaptop(app: PurchaseApp) returns (filed: Record)
    requires app.Valid() && app.requests == []
    modifies app
    ensures app.Valid() && app.requests == [filed]
    ensures filed.itemName == "Laptop" && filed.approverEmail == "B@x.com" && filed.requester == "A"
    ensures filed.status == Pending && filed.totalPrice == 1050
  {
    assert MatchesAt("B@x.com", 1, 3);
    ValidateEmailIsPattern("B@x.com");
    var body := CreateBody(Some("Laptop"), Some(2), Some(500), Some(20), Some(30), Some("B@x.com"));
    assert !ValuesRejected(body) && Complete(RequesterA, body);
    var code, created, refusal := app.CreateRequest(Some(RequesterA), body);
    assert code == Created;
    filed := created.value;
  }

  /** B approves it. */
  method ApproveLaptop(app: PurchaseApp, filed: Record) returns (decided: Record)
    requires app.Valid() && app.requests == [filed]
    requires filed.itemName == "Laptop" && filed.approverEmail == "B@x.com" && filed.status == Pending
    modifies app
    ensures app.Valid() && app.requests == [decided]
    ensures decided == filed.(status := Approved)
  {
    assert FindOne(app.requests, DecisionFilter("Laptop", "B@x.com")) == Some(0);
    var code, approved := app.ApproveRequest(Some(ApproverB), "Laptop");
    assert code == Ok;
    decided := approved.value;
  }

  /** Approving it again finds no pending request for the item. */
  method SecondApprovalMisses(app: PurchaseApp, decided: Record)
    requires app.Valid() && app.requests == [decided] && decided.status == Approved
    modifies app
  {
    assert FindOne(app.requests, PendingItem("Laptop")) == None;
    var code, approved := app.ApproveRequest(Some(ApproverB), "Laptop");
    assert code == NotFound;
  }
}
