/**
 * The purchase service: the handlers of /purchase-request,
 * /my-purchase-requests, /pending-purchase-requests,
 * /approve-purchase-request and /reject-purchase-request over the shared
 * collection of purchase requests, with the notifications they send.
 */
module PurchaseService {
  import opened Wrappers
  import opened EmailFormat
  import opened PurchaseRequestSchema
  import opened RequestQueries
  import opened Lifecycle

  const Ok := 200
  const Created := 201
  const BadRequest := 400
  const Unauthorized := 401
  const Forbidden := 403
  const NotFound := 404
  const ServerError := 500

  /** The signed-in user; an empty display name stands for a missing one. */
  datatype Identity = Identity(displayName: string, emails: seq<string>)

  /** The JSON body of a create call; any field may be absent. */
  datatype CreateBody = CreateBody(
    itemName: Option<string>,
    quantity: Option<int>,
    unitPrice: Option<int>,
    deliveryCharges: Option<int>,
    taxAmount: Option<int>,
    approverEmail: Option<string>)

  /** A notification handed to the mailer: recipient and subject. */
  datatype Mail = Mail(to: string, subject: string)

  /** Why the create handler refused: the message of its error answer. */
  datatype Refusal =
    | InvalidApproverEmail  // "Invalid approver email format."
    | InvalidValues         // "Invalid input values. ..."
    | CreateFailed          // "Error creating purchase request"

  /** The create handler's verdict before anything is stored. */
  datatype Admission = Refused(code: int, reason: Refusal) | Admitted(record: Record)

  /** `isAuthenticated`: a session identity is present. */
  predicate IsAuthenticated(caller: Option<Identity>) {
    caller.Some?
  }

  /** A pattern test on an absent value tests the string "undefined". */
  function ArgumentText(v: Option<string>): string {
    v.GetOr("undefined")
  }

  /** `v <= bound` in JavaScript: false when `v` is undefined. */
  predicate AtMost(v: Option<int>, bound: int) {
    v.Some? && v.value <= bound
  }

  /** `v < bound` in JavaScript: false when `v` is undefined. */
  predicate Below(v: Option<int>, bound: int) {
    v.Some? && v.value < bound
  }

  /** The range check of the create handler fails. */
  predicate ValuesRejected(b: CreateBody) {
    AtMost(b.quantity, 0) || AtMost(b.unitPrice, 0) || Below(b.deliveryCharges, 0) || Below(b.taxAmount, 0)
  }

  /** The total price; None when an operand is undefined (the result is NaN). */
  function TotalPrice(b: CreateBody): Option<int> {
    if b.quantity.Some? && b.unitPrice.Some? && b.deliveryCharges.Some? && b.taxAmount.Some?
    then Some(b.quantity.value * b.unitPrice.value + b.deliveryCharges.value + b.taxAmount.value)
    else None
  }

  /** The document the create handler builds for `user`. */
  function NewDocument(user: Identity, b: CreateBody): Document
    requires user.emails != []
  {
    Document(Some(user.displayName), Some(user.emails[0]), b.itemName,
             b.quantity, b.unitPrice, b.deliveryCharges, b.taxAmount,
             TotalPrice(b), b.approverEmail, Some(StatusName(Pending)))
  }

  /** What every record the service stores satisfies. */
  predicate Consistent(r: Record) {
    && Conforms(r)
    && ValidateEmail(r.approverEmail)
    && r.quantity > 0 && r.unitPrice > 0 && r.deliveryCharges >= 0 && r.taxAmount >= 0
    && r.totalPrice == r.quantity * r.unitPrice + r.deliveryCharges + r.taxAmount
  }

  /** Everything the create handler needs besides a valid address and in-range values. */
  predicate Complete(user: Identity, b: CreateBody) {
    && user.displayName != ""
    && user.emails != [] && user.emails[0] != ""
    && RequiredString(b.itemName)
    && b.quantity.Some? && b.unitPrice.Some? && b.deliveryCharges.Some? && b.taxAmount.Some?
  }

  /**
   * The checks of the create handler for a signed-in `user`, in order: the
   * approver address, the value ranges, the caller's address, then the
   * save-time validators. The result is the refusal's code or the record to
   * store.
   */
  function PrepareRequest(user: Identity, b: CreateBody): (a: Admission)
    ensures !ValidateEmail(ArgumentText(b.approverEmail)) ==> a == Refused(BadRequest, InvalidApproverEmail)
    ensures ValidateEmail(ArgumentText(b.approverEmail)) && ValuesRejected(b) ==> a == Refused(BadRequest, InvalidValues)
    ensures ValidateEmail(ArgumentText(b.approverEmail)) && !ValuesRejected(b) && !Complete(user, b) ==> a == Refused(ServerError, CreateFailed)
    ensures a.Refused? ==> a.code == (if a.reason == CreateFailed then ServerError else BadRequest)
    ensures a.Admitted? <==> ValidateEmail(ArgumentText(b.approverEmail)) && !ValuesRejected(b) && Complete(user, b)
    ensures a.Admitted? ==>
      var r := a.record;
      && Consistent(r)
      && r.status == Pending
      && r.requester == user.displayName && r.requesterEmail == user.emails[0]
      && Some(r.itemName) == b.itemName && Some(r.approverEmail) == b.approverEmail
      && Some(r.quantity) == b.quantity && Some(r.unitPrice) == b.unitPrice
      && Some(r.deliveryCharges) == b.deliveryCharges && Some(r.taxAmount) == b.taxAmount
      && r.totalPrice == r.quantity * r.unitPrice + r.deliveryCharges + r.taxAmount
  {
    if !ValidateEmail(ArgumentText(b.approverEmail)) then Refused(BadRequest, InvalidApproverEmail)
    else if ValuesRejected(b) then Refused(BadRequest, InvalidValues)
    else if user.emails == [] then Refused(ServerError, CreateFailed)
    else
      match Validate(NewDocument(user, b))
      case None => Refused(ServerError, CreateFailed)
      case Some(r) =>
        Admitted(r)
  }

  /** The purchase-request collection and the mail the service has sent. */
  class PurchaseApp {
    var requests: seq<Record>
    ghost var outbox: seq<Mail>

    ghost predicate Valid()
      reads this
    {
      forall k :: 0 <= k < |requests| ==> Consistent(requests[k])
    }

    constructor ()
      ensures Valid() && requests == [] && outbox == []
    {
      requests := [];
      outbox := [];
    }

    /** POST /purchase-request */
    method CreateRequest(caller: Option<Identity>, body: CreateBody) returns (code: int, created: Option<Record>, refusal: Option<Refusal>)
      requires Valid()
      modifies this
      ensures Valid() && Evolves(old(requests), requests)
      ensures !IsAuthenticated(caller) ==> code == Unauthorized && refusal == None
      ensures IsAuthenticated(caller) ==>
        match PrepareRequest(caller.value, body)
        case Refused(c, why) => code == c && refusal == Some(why)
        case Admitted(r) =>
          && code == Created && created == Some(r) && refusal == None
          && requests == old(requests) + [r]
          && outbox == old(outbox) + [Mail(r.requesterEmail, "Purchase Request Created"),
                                      Mail(r.approverEmail, "Approval Needed")]
      ensures code != Created ==> requests == old(requests) && outbox == old(outbox) && created == None
    {
      if !IsAuthenticated(caller) {
        return Unauthorized, None, None;
      }
      match PrepareRequest(caller.value, body)
      case Refused(c, why) =>
        code, created, refusal := c, None, Some(why);
      case Admitted(r) =>
        requests := requests + [r];
        outbox := outbox + [Mail(r.requesterEmail, "Purchase Request Created"),
                            Mail(r.approverEmail, "Approval Needed")];
        code, created, refusal := Created, Some(r), None;
    }

    /** GET /my-purchase-requests */
    method MyRequests(caller: Option<Identity>) returns (code: int, found: seq<Record>)
      ensures !IsAuthenticated(caller) || caller.value.displayName == "" ==> code == Unauthorized && found == []
      ensures IsAuthenticated(caller) && caller.value.displayName != "" ==>
        && (forall r :: multiset(found)[r] == if r.requester == caller.value.displayName then multiset(requests)[r] else 0)
        && (code == Ok <==> found != [])
        && (code == NotFound <==> forall k :: 0 <= k < |requests| ==> requests[k].requester != caller.value.displayName)
    {
      if !IsAuthenticated(caller) || caller.value.displayName == "" {
        return Unauthorized, [];
      }
      found := Find(requests, OwnedBy(caller.value.displayName));
      FindExactly(requests, OwnedBy(caller.value.displayName));
      FindEmpty(requests, OwnedBy(caller.value.displayName));
      code := if found != [] then Ok else NotFound;
    }

    /** GET /pending-purchase-requests */
    method PendingRequests(caller: Option<Identity>) returns (code: int, found: seq<Record>)
      ensures !IsAuthenticated(caller) ==> code == Unauthorized && found == []
      ensures IsAuthenticated(caller) && caller.value.emails == [] ==> code == ServerError && found == []
      ensures IsAuthenticated(caller) && caller.value.emails != [] ==>
        && code == Ok
        && forall r :: multiset(found)[r] ==
             if r.approverEmail == caller.value.emails[0] && r.status == Pending then multiset(requests)[r] else 0
    {
      if !IsAuthenticated(caller) {
        return Unauthorized, [];
      }
      if caller.value.emails == [] {
        return ServerError, [];
      }
      found := Find(requests, AwaitingApprover(caller.value.emails[0]));
      FindExactly(requests, AwaitingApprover(caller.value.emails[0]));
      code := Ok;
    }

    /** POST /approve-purchase-request */
    method ApproveRequest(caller: Option<Identity>, itemName: string) returns (code: int, approved: Option<Record>)
      requires Valid()
      modifies this
      ensures Valid() && Evolves(old(requests), requests)
      ensures !IsAuthenticated(caller) ==> code == Unauthorized
      ensures IsAuthenticated(caller) && caller.value.emails == [] ==> code == ServerError
      ensures IsAuthenticated(caller) && caller.value.emails != [] ==>
        var email := caller.value.emails[0];
        var hit := FindOne(old(requests), DecisionFilter(itemName, email));
        && (code == Ok <==> hit.Some?)
        && (code == Ok ==>
              && requests == UpdateFirstStatus(old(requests), DecisionFilter(itemName, email), Approved)
              && approved == Some(requests[hit.value])
              && approved.value == old(requests)[hit.value].(status := Approved)
              && outbox == old(outbox) + [Mail(email, "Purchase Request Approved"),
                                          Mail(approved.value.requesterEmail, "Request Approved")])
        && (code == Forbidden <==> hit.None? && FindOne(old(requests), PendingItem(itemName)).Some?)
        && (code == NotFound <==> FindOne(old(requests), PendingItem(itemName)).None?)
      ensures code != Ok ==> requests == old(requests) && outbox == old(outbox) && approved == None
    {
      if !IsAuthenticated(caller) {
        return Unauthorized, None;
      }
      if caller.value.emails == [] {
        return ServerError, None;
      }
      var email := caller.value.emails[0];
      var hit := FindOne(requests, DecisionFilter(itemName, email));
      if hit.None? {
        if FindOne(requests, PendingItem(itemName)).Some? {
          return Forbidden, None;
        }
        return NotFound, None;
      }
      DecisionEvolves(requests, itemName, email, Approved);
      requests := UpdateFirstStatus(requests, DecisionFilter(itemName, email), Approved);
      approved := Some(requests[hit.value]);
      outbox := outbox + [Mail(email, "Purchase Request Approved"),
                          Mail(approved.value.requesterEmail, "Request Approved")];
      code := Ok;
    }

    /** POST /reject-purchase-request */
    method RejectRequest(caller: Option<Identity>, itemName: string) returns (code: int, rejected: Option<Record>)
      requires Valid()
      modifies this
      ensures Valid() && Evolves(old(requests), requests)
      ensures !IsAuthenticated(caller) ==> code == Unauthorized
      ensures IsAuthenticated(caller) && caller.value.emails == [] ==> code == ServerError
      ensures IsAuthenticated(caller) && caller.value.emails != [] ==>
        var email := caller.value.emails[0];
        var hit := FindOne(old(requests), DecisionFilter(itemName, email));
        && (code == Ok <==> hit.Some?)
        && (code == Ok ==>
              && requests == UpdateFirstStatus(old(requests), DecisionFilter(itemName, email), Rejected)
              && rejected == Some(requests[hit.value])
              && rejected.value == old(requests)[hit.value].(status := Rejected)
              && outbox == old(outbox) + [Mail(email, "Purchase Request Rejected"),
                                          Mail(rejected.value.requesterEmail, "Request Rejected")])
        && (code == NotFound <==> hit.None?)
      ensures code != Ok ==> requests == old(requests) && outbox == old(outbox) && rejected == None
    {
      if !IsAuthenticated(caller) {
        return Unauthorized, None;
      }
      if caller.value.emails == [] {
        return ServerError, None;
      }
      var email := caller.value.emails[0];
      var hit := FindOne(requests, DecisionFilter(itemName, email));
      if hit.None? {
        return NotFound, None;
      }
      DecisionEvolves(requests, itemName, email, Rejected);
      requests := UpdateFirstStatus(requests, DecisionFilter(itemName, email), Rejected);
      rejected := Some(requests[hit.value]);
      outbox := outbox + [Mail(email, "Purchase Request Rejected"),
                          Mail(rejected.value.requesterEmail, "Request Rejected")];
      code := Ok;
    }
  }
}
