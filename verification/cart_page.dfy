/** The cart page: the quantity buttons, the summary and the login guard of
    "Proceed to Checkout". */
module CartPage {
  import opened Wrappers
  import opened Entities
  import opened CartStore
  import opened CartContext
  import opened Nav
  import Pricing
  import Checkout

  /** `handleCheckout`: without a user, go to login (returning to the cart). */
  function HandleCheckout(user: Option<User>): (nav: Navigation)
    ensures user.None? ==> nav.path == "/login" && nav.from == Some("/cart")
    ensures user.Some? ==> nav.path == "/checkout"
  {
    if user.None? then Navigate("/login", Some("/cart")) else Navigate("/checkout", None)
  }

  /** The summary block, computed from the provider's `cartTotal`. */
  function CartSummary(view: CartView): (s: Pricing.Summary)
    ensures Synced(CartState(view.items, view)) ==> s.subtotal == Sum(view.items)
    ensures s.deliveryFee == 40 && s.total == view.cartTotal + 40 + s.taxes
  {
    Pricing.Summarize(view.cartTotal)
  }

  /** The minus button of a line. */
  function Decrement(s: CartState, line: CartLine): (r: CartState)
    ensures Synced(r)
  {
    CartContext.UpdateQuantity(s, line.foodId, line.quantity - 1)
  }

  /** The plus button of a line. */
  function Increment(s: CartState, line: CartLine): (r: CartState)
    ensures Synced(r)
  {
    CartContext.UpdateQuantity(s, line.foodId, line.quantity + 1)
  }

  /** The total shown on the cart page is the amount of the order checkout
      builds from the same view. */
  lemma SummaryMatchesCheckout(user: User, view: CartView)
    requires view.restaurantInfo.Some?
    ensures Checkout.BuildOrder(user, view).totalAmount == Some(CartSummary(view).total)
  {
  }

  /** The cart page can never reach checkout without a user. */
  lemma NoCheckoutWithoutUser()
    ensures HandleCheckout(None).path != "/checkout"
  {
  }

  /** Minus on a line holding one unit removes the line. */
  lemma MinusOnSingleUnitRemoves(s: CartState, i: nat)
    requires Synced(s) && UniqueFoods(s.store) && i < |s.view.items|
    requires s.view.items[i].quantity == 1
    ensures !HasFood(Decrement(s, s.view.items[i]).store, s.view.items[i].foodId)
    ensures |Decrement(s, s.view.items[i]).store| == |s.store| - 1
  {
    var line := s.view.items[i];
    UniqueIndex(s.store, i, line.foodId);
    UpdateNonPositiveRemoves(s.store, line.foodId, 0);
  }

  /** Minus on a line holding two or more units lowers that line's quantity
      by exactly one, changes nothing else, and lowers the total by the line's
      unit price. */
  lemma MinusRemovesOneUnit(s: CartState, i: nat)
    requires Synced(s) && UniqueFoods(s.store) && i < |s.view.items|
    requires s.view.items[i].quantity >= 2
    ensures QuantitySetAt(s.store, Decrement(s, s.view.items[i]).store, i, s.view.items[i].quantity - 1)
    ensures Decrement(s, s.view.items[i]).view.cartTotal == s.view.cartTotal - s.view.items[i].pricePerUnit
  {
    var line := s.view.items[i];
    UniqueIndex(s.store, i, line.foodId);
    SumMergedAt(s.store, Decrement(s, line).store, i, -1);
  }

  /** Plus raises that line's quantity by exactly one, changes nothing else,
      and raises the total by the line's unit price. */
  lemma PlusAddsOneUnit(s: CartState, i: nat)
    requires Synced(s) && UniqueFoods(s.store) && i < |s.view.items|
    requires s.view.items[i].quantity >= 0
    ensures QuantitySetAt(s.store, Increment(s, s.view.items[i]).store, i, s.view.items[i].quantity + 1)
    ensures Increment(s, s.view.items[i]).view.cartTotal == s.view.cartTotal + s.view.items[i].pricePerUnit
  {
    var line := s.view.items[i];
    UniqueIndex(s.store, i, line.foodId);
    SumMergedAt(s.store, Increment(s, line).store, i, 1);
  }
}
