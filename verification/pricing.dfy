/** The order summary shown on the cart and checkout pages: a flat
    delivery fee plus 5% tax rounded to a whole unit. */
module Pricing {

  const DeliveryFee: int := 40

  datatype Summary = Summary(subtotal: int, deliveryFee: int, taxes: int, total: int)

  /** `Math.round(subtotal * 0.05)`: the whole number nearest to
      subtotal / 20, halves rounding up. */
  function Taxes(subtotal: int): (t: int)
    ensures 20 * t - 10 <= subtotal < 20 * t + 10
  {
    (subtotal + 10) / 20
  }

  /** The summary block of the cart and checkout pages. */
  function Summarize(subtotal: int): (s: Summary)
    ensures s.subtotal == subtotal && s.deliveryFee == 40
    ensures s.total == subtotal + 40 + s.taxes
    ensures 20 * s.taxes - 10 <= subtotal < 20 * s.taxes + 10
  {
    var tax := Taxes(subtotal);
    Summary(subtotal, DeliveryFee, tax, subtotal + DeliveryFee + tax)
  }

  /** The worked example: a subtotal of 200 gives tax 10 and total 250. */
  lemma TwoHundredExample()
    ensures Summarize(200) == Summary(200, 40, 10, 250)
  {
  }

  /** A larger subtotal never pays less tax. */
  lemma TaxesMonotone(a: int, b: int)
    requires a <= b
    ensures Taxes(a) <= Taxes(b)
  {
  }

  /** Halves round up: 30 (tax 1.5) pays 2, 29 (tax 1.45) pays 1. */
  lemma HalfRoundsUp()
    ensures Taxes(30) == 2 && Taxes(29) == 1 && Taxes(10) == 1 && Taxes(9) == 0
  {
  }
}
