/**
 * The total price on the decimal amounts a request body can carry. The
 * handler adds the delivery charges and the tax through `parseInt`, which
 * keeps only their integer part, while the stored fields keep the decimals.
 * Amounts are exact reals printed as plain digits; exponent notation and
 * double rounding are outside this module.
 */
module DecimalCharges {
  import opened Wrappers
  import PurchaseService

  /**
   * A non-negative amount that JavaScript prints as plain digits (no
   * exponent): zero, or at least 1e-6 and below 1e21.
   */
  predicate PrintsPlain(x: real) {
    x == 0.0 || 1.0 / 1000000.0 <= x < 1000000000000000000000.0
  }

  /** `parseInt` of a non-negative number printed as plain digits: its integer part. */
  function ParseInt(x: real): (n: int)
    requires PrintsPlain(x)
    ensures n as real <= x < n as real + 1.0
  {
    x.Floor
  }

  /** The total as the handler computes it, once the range checks have passed. */
  function TotalPriceAsWritten(quantity: real, unitPrice: real, deliveryCharges: real, taxAmount: real): real
    requires PrintsPlain(deliveryCharges) && PrintsPlain(taxAmount)
  {
    quantity * unitPrice + ParseInt(deliveryCharges) as real + ParseInt(taxAmount) as real
  }

  /** One laptop at 10 with 0.5 delivery: the stored total is 10, not 10.5. */
  lemma FractionalChargesDropped()
    ensures TotalPriceAsWritten(1.0, 10.0, 0.5, 0.0) == 10.0
    ensures TotalPriceAsWritten(1.0, 10.0, 0.5, 0.0) != 1.0 * 10.0 + 0.5 + 0.0
  {
  }

  /** On plain-digit charges the handler's total falls short of the sum by less than 2, and by nothing on whole charges. */
  lemma AsWrittenShortfall(quantity: real, unitPrice: real, deliveryCharges: real, taxAmount: real)
    requires PrintsPlain(deliveryCharges) && PrintsPlain(taxAmount)
    ensures var sum := quantity * unitPrice + deliveryCharges + taxAmount;
      sum - 2.0 < TotalPriceAsWritten(quantity, unitPrice, deliveryCharges, taxAmount) <= sum
    ensures deliveryCharges == deliveryCharges.Floor as real && taxAmount == taxAmount.Floor as real ==>
      TotalPriceAsWritten(quantity, unitPrice, deliveryCharges, taxAmount) == quantity * unitPrice + deliveryCharges + taxAmount
  {
  }

  /** On whole amounts the handler's total is the one the model stores. */
  lemma WholeAmountsAgree(quantity: int, unitPrice: int, deliveryCharges: int, taxAmount: int)
    requires 0 <= deliveryCharges < 1000000000000000000000 && 0 <= taxAmount < 1000000000000000000000
    ensures PurchaseService.TotalPrice(PurchaseService.CreateBody(None, Some(quantity), Some(unitPrice), Some(deliveryCharges), Some(taxAmount), None))
         == Some(quantity * unitPrice + deliveryCharges + taxAmount)
    ensures TotalPriceAsWritten(quantity as real, unitPrice as real, deliveryCharges as real, taxAmount as real)
         == (quantity * unitPrice + deliveryCharges + taxAmount) as real
  {
  }
}
