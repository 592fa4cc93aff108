/** The checkout page: the page guard, the delivery-detail validation, the
    order snapshot of the cart, and clearing the cart once the order is placed. */
module Checkout {
  import opened Wrappers
  import opened Entities
  import opened CartStore
  import opened CartContext
  import opened Pricing
  import opened Nav
  import Text

  datatype CheckoutResult =
    | Redirected(nav: Navigation)        // the page guard fired: nothing is built
    | AddressRequired                    // validation toast: nothing is built
    | PhoneRequired                      // validation toast: nothing is built
    | Placed(order: Order, state: CartState, nav: Navigation)
    | PlacementFailed(order: Order, state: CartState)

  /** The render guard: no user goes to login (returning here), an empty cart
      or a missing restaurant goes back to the cart. */
  function Guard(user: Option<User>, view: CartView): (r: Option<Navigation>)
    ensures r.None? <==> user.Some? && |view.items| > 0 && view.restaurantInfo.Some?
    ensures user.None? ==> r == Some(Navigate("/login", Some("/checkout")))
    ensures user.Some? && r.Some? ==> r == Some(Navigate("/cart", None))
  {
    if user.None? then Some(Navigate("/login", Some("/checkout")))
    else if |view.items| == 0 || view.restaurantInfo.None? then Some(Navigate("/cart", None))
    else None
  }

  /** One order item per cart line: id, quantity, name and price copied. */
  function Snapshot(items: Cart): (r: seq<OrderItem>)
    ensures |r| == |items|
    ensures forall i :: 0 <= i < |items| ==>
      r[i] == OrderItem(items[i].foodId, items[i].quantity, Some(items[i].foodName), Some(items[i].pricePerUnit))
  {
    if |items| == 0 then []
    else
      var head := OrderItem(items[0].foodId, items[0].quantity, Some(items[0].foodName), Some(items[0].pricePerUnit));
      [head] + Snapshot(items[1..])
  }

  /** The `orderData` record: a pending order for the cart's restaurant whose
      amount is the summary total. */
  function BuildOrder(user: User, view: CartView): (o: Order)
    requires view.restaurantInfo.Some?
    ensures o.orderId.None? && o.orderStatus == Some("pending")
    ensures o.customerId == user.customerId && o.resId == view.restaurantInfo.value.restaurantId
    ensures o.totalAmount == Some(Summarize(view.cartTotal).total)
    ensures o.items == Snapshot(view.items)
  {
    Order(None, user.customerId, view.restaurantInfo.value.restaurantId, Some("pending"),
          Some(view.cartTotal + DeliveryFee + Taxes(view.cartTotal)), Snapshot(view.items), None)
  }

  /** `handleSubmitOrder`, with the order service's answer as `accepted`. */
  function Submit(user: Option<User>, s: CartState, address: string, phone: string, accepted: bool): (r: CheckoutResult)
    ensures Guard(user, s.view).Some? <==> r.Redirected?
    ensures r.Redirected? ==> r.nav == Guard(user, s.view).value
    ensures Guard(user, s.view).None? ==>
      (r.AddressRequired? <==> Text.IsBlank(address)) &&
      (r.PhoneRequired? <==> !Text.IsBlank(address) && Text.IsBlank(phone))
    ensures r.Placed? ==> accepted && r.state == CartContext.ClearCart(s) && r.nav == Navigate("/order-confirmation", None)
    ensures r.PlacementFailed? ==> !accepted && r.state == s
    ensures r.Placed? || r.PlacementFailed? ==> r.order == BuildOrder(user.value, s.view)
  {
    match Guard(user, s.view)
    case Some(nav) => Redirected(nav)
    case None =>
      if Text.IsBlank(address) then AddressRequired
      else if Text.IsBlank(phone) then PhoneRequired
      else
        var order := BuildOrder(user.value, s.view);
        if accepted then Placed(order, CartContext.ClearCart(s), Navigate("/order-confirmation", None))
        else PlacementFailed(order, s)
  }

  /** With the view in sync with the store, a placed order mirrors the store:
      one item per line in cart order, the restaurant of the first line, and
      the store total plus fee and tax; the store is then empty. */
  lemma PlacedOrderMirrorsStore(user: User, s: CartState, address: string, phone: string)
    requires Synced(s)
    requires Submit(Some(user), s, address, phone, true).Placed?
    ensures var o := Submit(Some(user), s, address, phone, true).order;
      && |o.items| == |s.store|
      && (forall i :: 0 <= i < |s.store| ==> o.items[i].foodId == s.store[i].foodId && o.items[i].quantity == s.store[i].quantity)
      && o.resId == s.store[0].restaurantId
      && o.totalAmount == Some(Sum(s.store) + 40 + Taxes(Sum(s.store)))
    ensures Submit(Some(user), s, address, phone, true).state.store == []
  {
  }

  /** A failed placement keeps the cart; only success clears it. */
  lemma CartClearedOnlyOnSuccess(user: Option<User>, s: CartState, address: string, phone: string, accepted: bool)
    ensures Submit(user, s, address, phone, accepted).Placed? ==> accepted
    ensures !accepted ==> match Submit(user, s, address, phone, accepted)
      case Placed(_, _, _) => false
      case PlacementFailed(_, st) => st == s
      case _ => true
  {
  }

  /** A whitespace-only address blocks submission whatever the phone holds;
      a whitespace-only phone blocks it once the address is filled in. */
  lemma WhitespaceFieldsBlock(user: User, s: CartState, address: string, phone: string, accepted: bool)
    requires Guard(Some(user), s.view).None?
    ensures Text.AllWhitespace(address) ==> Submit(Some(user), s, address, phone, accepted) == AddressRequired
    ensures !Text.AllWhitespace(address) && Text.AllWhitespace(phone) ==>
      Submit(Some(user), s, address, phone, accepted) == PhoneRequired
  {
    Text.BlankIffAllWhitespace(address);
    Text.BlankIffAllWhitespace(phone);
  }
}
