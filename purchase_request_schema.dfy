/**
 * The purchase-request document: its ten paths, the status enumeration
 * with its default, and the `required` validators run when a document is
 * saved.
 */
module PurchaseRequestSchema {
  import opened Wrappers

  /** The `status` enumeration. */
  datatype Status = Pending | Approved | Rejected

  /** The string stored for each status. */
  function StatusName(s: Status): string {
    match s
    case Pending => "Pending"
    case Approved => "Approved"
    case Rejected => "Rejected"
  }

  /** The `enum` validator: a status string is accepted only if it names one of the three. */
  function ParseStatus(name: string): (s: Option<Status>)
    ensures s.Some? ==> StatusName(s.value) == name
    ensures forall t :: StatusName(t) == name ==> s == Some(t)
  {
    if name == "Pending" then Some(Pending)
    else if name == "Approved" then Some(Approved)
    else if name == "Rejected" then Some(Rejected)
    else None
  }

  /** A stored purchase request; money is integral. */
  datatype Record = Record(
    requester: string,
    requesterEmail: string,
    itemName: string,
    quantity: int,
    unitPrice: int,
    deliveryCharges: int,
    taxAmount: int,
    totalPrice: int,
    approverEmail: string,
    status: Status)

  /** A document before validation: any path may be absent. */
  datatype Document = Document(
    requester: Option<string>,
    requesterEmail: Option<string>,
    itemName: Option<string>,
    quantity: Option<int>,
    unitPrice: Option<int>,
    deliveryCharges: Option<int>,
    taxAmount: Option<int>,
    totalPrice: Option<int>,
    approverEmail: Option<string>,
    status: Option<string>)

  /** The `required` check of a String path: present and not empty. */
  predicate RequiredString(v: Option<string>) {
    v.Some? && v.value != ""
  }

  /** All nine required paths are present, and the status (if given) is in the enumeration. */
  predicate Savable(d: Document) {
    && RequiredString(d.requester)
    && RequiredString(d.requesterEmail)
    && RequiredString(d.itemName)
    && d.quantity.Some?
    && d.unitPrice.Some?
    && d.deliveryCharges.Some?
    && d.taxAmount.Some?
    && d.totalPrice.Some?
    && RequiredString(d.approverEmail)
    && (d.status.None? || ParseStatus(d.status.value).Some?)
  }

  /** What every saved record satisfies: its String paths are not empty. */
  predicate Conforms(r: Record) {
    r.requester != "" && r.requesterEmail != "" && r.itemName != "" && r.approverEmail != ""
  }

  /** A stored record read back as a document. */
  function ToDocument(r: Record): Document {
    Document(Some(r.requester), Some(r.requesterEmail), Some(r.itemName),
             Some(r.quantity), Some(r.unitPrice), Some(r.deliveryCharges),
             Some(r.taxAmount), Some(r.totalPrice), Some(r.approverEmail),
             Some(StatusName(r.status)))
  }

  /**
   * Validation on save: the record that is stored, or None when a
   * validator fails. An absent status takes the default "Pending".
   */
  function Validate(d: Document): (saved: Option<Record>)
    ensures saved.Some? <==> Savable(d)
    ensures saved.Some? ==> Conforms(saved.value)
    ensures saved.Some? ==> ToDocument(saved.value) == d.(status := Some(d.status.GetOr("Pending")))
    ensures saved.Some? && d.status.None? ==> saved.value.status == Pending
  {
    if !Savable(d) then None
    else
      var status := if d.status.None? then Pending else ParseStatus(d.status.value).value;
      Some(Record(d.requester.value, d.requesterEmail.value, d.itemName.value,
                  d.quantity.value, d.unitPrice.value, d.deliveryCharges.value,
                  d.taxAmount.value, d.totalPrice.value, d.approverEmail.value, status))
  }

  /** A conforming record survives being read back and saved again. */
  lemma SaveReadBack(r: Record)
    requires Conforms(r)
    ensures Validate(ToDocument(r)) == Some(r)
  {
  }
}
