# Purchase-request lifecycle, modelled in Dafny

This project models the core of a small purchase-request workflow service.
A signed-in requester files a request for an item. The request names an
approver by email address. That approver may approve or reject it while it is
Pending, and notifications go out on creation and on each decision.

The model has eight modules:

- `Wrappers` (`wrappers.dfy`): the `Option` type, which stands for JavaScript's `undefined`.
- `EmailFormat` (`email_format.dfy`): the approver-address check `validateEmail`, with JavaScript's `\s` class written out.
- `PurchaseRequestSchema` (`purchase_request_schema.dfy`): the stored record, the `status` enumeration and its default, and the `required` validators run on save.
- `RequestQueries` (`request_queries.dfy`): the equality filters the handlers send to the store, and what `find`, `findOne` and the status update of `findOneAndUpdate` do to the collection.
- `Lifecycle` (`lifecycle.dfy`): the relation between an earlier and a later state of the collection. Records are only appended, and a record changes only while Pending, and then only in its status. It also holds the lemmas about decisions.
- `PurchaseService` (`purchase_service.dfy`): the five HTTP handlers as methods of the class `PurchaseApp`. The class holds the collection (`requests: seq<Record>`) and a ghost `outbox` of `(to, subject)` notifications. Each method returns the HTTP status code with the record or list.
- `DecimalCharges` (`decimal_charges.dfy`): the total price on decimal amounts, for the finding below.
- `Scenario` (`scenario.dfy`): one lifecycle walked through using only the handlers' contracts.

In `Scenario`, requester A files a request for two laptops at 500 each, with 20 delivery and
30 tax; its total is 1050. Approver B approves it, A's own list then shows it,
and a second approval gets 404.

Modelling choices:

- An identity is `Option<Identity>`. `None` means no session. The display name `""` stands for a missing one, because both are falsy in the source.
- A body field that is absent is `None`. JavaScript's `undefined <= 0` is false, so an absent amount passes the range check. It then makes the total NaN, so the save fails with 500.
- An absent approver address is tested as the string `"undefined"`, which the pattern rejects (400).
- The required String paths reject the empty string, as Mongoose's `required` validator does.
- `findOneAndUpdate` changes the first match in store order.
- Money is integral, so `parseInt` of a whole amount below 1e21 is the identity.
- An identity with no email address makes `emails[0].value` throw. In the create handler the throw is inside the `try`, which answers 500. In the other handlers it is outside the `try`; the model answers 500 there too and leaves the store unchanged.
- The model keeps three behaviours of the code that a cleaner design might change. An empty "my requests" result is 404, not an empty list. Decisions are keyed by `itemName`, not by a record identifier, so of several Pending requests for the same item addressed to the caller, the first stored one is decided. Reject has no 403 branch.

## Model

| member | source | states |
|---|---|---|
| `EmailFormat.ValidateEmailIsPattern` | purchaseService.js:33-36 | the check accepts a string exactly when the whole string matches `^[^\s@]+@[^\s@]+\.[^\s@]+$`, read as a split into three non-empty `[^\s@]` runs around an '@' and a '.' |
| `EmailFormat.EmailAcceptance` | purchaseService.js:33-36 | the check accepts exactly the strings with no whitespace, exactly one '@' with something before it, and a '.' after the '@' with something on each side |
| `EmailFormat.ValidateEmail` | purchaseService.js:33-36 | the check itself: split at the first '@', a non-empty `[^\s@]` run before it, and after it a `[^\s@]` run with an inner '.'; its meaning is stated by the two lemmas above |
| `EmailFormat.IndexOf` | purchaseService.js:34 | the first position of a character, or none; every earlier character differs |
| `PurchaseRequestSchema.ParseStatus` | models/purchaseRequest.js:41 | the enum validator accepts exactly the names of Pending, Approved and Rejected, and is the inverse of the stored name |
| `PurchaseRequestSchema.Validate` | models/purchaseRequest.js:31-42 | a document is saved exactly when all nine required paths are present (String paths non-empty) and a given status is in the enumeration; the saved record has every field of the document, and an absent status becomes Pending |
| `PurchaseRequestSchema.SaveReadBack` | models/purchaseRequest.js:31-41 | a stored record read back as a document validates to the same record |
| `RequestQueries.Find` | purchaseService.js:63 | the records returned are exactly those of the collection that match the filter |
| `RequestQueries.FindExactly` | purchaseService.js:151 | every matching record is returned as many times as it is stored, and no other record is returned |
| `RequestQueries.FindOne` | purchaseService.js:177 | the position of a matching record with no match before it, or none when nothing matches |
| `RequestQueries.FindEmpty` | purchaseService.js:65-68 | `find` is empty exactly when `findOne` finds nothing |
| `RequestQueries.UpdateFirstStatus` | purchaseService.js:170-174 | the first matching record gets the new status in place; the length is kept and every other record and every other field stays the same |
| `RequestQueries.FindAfterReplace` | purchaseService.js:206-210 | replacing one record changes the number of matches only by that record |
| `Lifecycle.Evolves` | purchaseService.js:95-108 | a later state of the collection: records are only appended (line 108), and a stored record changes only while Pending and only in its status (lines 170-174, 206-210) |
| `Lifecycle.EvolvesTransitive` | purchaseService.js:170-210 | two steps that only append records or decide a Pending record make one such step |
| `Lifecycle.DecidedIsFinal` | purchaseService.js:171 | once Approved or Rejected, a record is the same in every later state |
| `Lifecycle.DecisionEvolves` | purchaseService.js:206-210 | a decision changes only a Pending record and only its status |
| `Lifecycle.DecisionConsumesOne` | purchaseService.js:170-174 | a decision that hits leaves one fewer Pending record for the item, for the item and approver, and in the approver's pending list |
| `Lifecycle.SecondDecisionMisses` | purchaseService.js:176-182 | when an item has one Pending request, after a decision on it no approver's filter matches, and the re-query finds nothing, so the next approve or reject on it is 404 |
| `PurchaseService.IsAuthenticated` | purchaseService.js:21-26 | a request passes the middleware only with a session identity; every handler answers 401 without one |
| `PurchaseService.TotalPrice` | purchaseService.js:92 | quantity × unitPrice + deliveryCharges + taxAmount on whole amounts, and no value (NaN) when an operand is absent |
| `PurchaseService.NewDocument` | purchaseService.js:95-106 | the document built for the save: the caller's display name and first email, the body's fields, the computed total and status "Pending" |
| `PurchaseService.Consistent` | purchaseService.js:85-106 | what every record the service stores satisfies: conforming strings, a valid approver address, amounts in range, and the total equal to the sum |
| `PurchaseService.PrepareRequest` | purchaseService.js:83-106 | an invalid approver address is 400 with the reason `InvalidApproverEmail`, whatever the amounts; otherwise any out-of-range amount is 400 with `InvalidValues`; a valid address and in-range amounts with a missing required value is 500 with `CreateFailed`, and every other refusal code matches its reason; the request is admitted exactly when the address is valid, the amounts are in range and every required value is present. The admitted record is Pending, names the caller's display name and first email, copies every other input field, and has totalPrice = quantity × unitPrice + deliveryCharges + taxAmount |
| `PurchaseService.PurchaseApp.CreateRequest` | purchaseService.js:82-134 | no session gives 401. Otherwise the outcome of the checks above, with the refusal's code and reason returned as they are: on 201 exactly one record is appended, earlier records stay, and the requester and approver are notified; on any other code nothing changes |
| `PurchaseService.PurchaseApp.MyRequests` | purchaseService.js:55-69 | no session or no display name gives 401. Otherwise the list holds exactly the caller's own records, with 200 when it is non-empty and 404 when the caller has none |
| `PurchaseService.PurchaseApp.PendingRequests` | purchaseService.js:147-155 | no session gives 401. Otherwise 200 with exactly the Pending records whose approver is the caller's first email, possibly none |
| `PurchaseService.PurchaseApp.ApproveRequest` | purchaseService.js:165-191 | on a hit of (itemName, caller's email, Pending), 200: that record alone becomes Approved, and the approver and requester are notified. On a miss the store is unchanged, with 403 if some Pending record has the item and 404 otherwise |
| `PurchaseService.PurchaseApp.RejectRequest` | purchaseService.js:201-221 | the same conditional update with Rejected; every miss is 404 and leaves the store unchanged |
| `DecimalCharges.ParseInt` | purchaseService.js:92 | `parseInt` of a non-negative amount that prints as plain digits (zero, or from 1e-6 up to below 1e21) is its integer part |
| `DecimalCharges.TotalPriceAsWritten` | purchaseService.js:92 | the total as written on decimal amounts: the product plus the integer parts of the delivery charges and the tax |
| `DecimalCharges.FractionalChargesDropped` | purchaseService.js:92 | with 0.5 delivery on a total of 10, the handler stores 10 instead of 10.5 |
| `DecimalCharges.AsWrittenShortfall` | purchaseService.js:92 | on plain-digit charges and exact arithmetic, the handler's total is at most the true sum and less than 2 below it, and equal to it on whole charges |
| `DecimalCharges.WholeAmountsAgree` | purchaseService.js:92 | on whole charges below 1e21 the handler's total is the sum the model stores |

## Left out

- The Google sign-in flow, session (de)serialisation and the login and logout mails are not part of this model. The identity is a parameter.
- The mail transport is not modelled. A notification is one entry in the ghost outbox, with its recipient and subject. The mail text, the approval link from the environment, and the unused HTML argument are not modelled.
- The database connection, the Express wiring, CORS and the port parsing are not part of this model.
- The React front end is not part of this model, including its client-side filter of the pending list.
- The `/dashboard` greeting route is not modelled.
- Response bodies are not modelled. The create handler's refusals carry a reason naming their message; the other handlers return only a status code and the records.
- The 500 answers for store failures are not modelled. The 500 answers for failed save-time validation are modelled.
- The atomicity of `findOneAndUpdate` under concurrent calls is not modelled, because the handlers run one at a time here. Timestamps and the `(approverEmail, status)` index are not modelled either.
- Records have no `_id`. A record is identified by its position in the collection.
- JavaScript numbers and the casting of string bodies are not modelled. Money and quantities are integers, except in `DecimalCharges`.
- A body without `itemName` in approve or reject is not modelled, because an `undefined` filter value depends on driver settings. The handlers take `itemName` as a string.
- `PurchaseService.PurchaseApp.PendingRequests`, `ApproveRequest` and `RejectRequest`: an identity with no email address throws outside the handler's `try`. The model answers 500 and does not capture that the response may never be sent.
- `DecimalCharges.ParseInt`: is stated only for amounts that print as plain digits. JavaScript prints a number below 1e-6 or at least 1e21 in exponent form, so `parseInt(5e-7)` is 5 and `parseInt(1e21)` is 1; a string such as "1e3" from the form's number inputs gives 1 while the stored field is 1000. These inputs, and the rounding of double arithmetic (`3 * 0.1`), are not modelled; the module computes on exact reals.
- `RequestQueries.Find`: the contract does not state that results keep store order. The body keeps it.

## Findings

| source | as written | input that shows it | evidently intended | confidence | as-written member | corrected member |
|---|---|---|---|---|---|---|
| purchaseService.js:92 | delivery charges and tax enter the total through `parseInt`, which drops their fractional part, while the stored `deliveryCharges` and `taxAmount` keep it | quantity 1, unitPrice 10, deliveryCharges 0.5, taxAmount 0: totalPrice 10 | totalPrice = quantity × unitPrice + deliveryCharges + taxAmount, here 10.5 | not executed | `DecimalCharges.FractionalChargesDropped` | `PurchaseService.PrepareRequest` |
