/** The cart provider: the React state (`items`, `cartTotal`,
    `restaurantInfo`) that mirrors the cart store, refreshed by `loadCart`
    after each store mutation. */
module CartContext {
  import opened Wrappers
  import opened CartStore

  /** The values the provider exposes, as last loaded from the store. */
  datatype CartView = CartView(items: Cart, cartTotal: int, restaurantInfo: Option<RestaurantInfo>)

  /** The persisted store together with the provider's view of it. */
  datatype CartState = CartState(store: Cart, view: CartView)

  /** The provider's state before the mount effect has run. */
  const InitialView := CartView([], 0, None)

  /** `loadCart`: read items, total and restaurant info from the store. */
  function LoadCart(store: Cart): (v: CartView)
    ensures v.items == store
    ensures v.cartTotal == Sum(store)
    ensures v.restaurantInfo.None? <==> |store| == 0
    ensures v.restaurantInfo.Some? ==> v.restaurantInfo.value.restaurantId == store[0].restaurantId
  {
    GetCartTotalIsSum(store);
    CartView(store, GetCartTotal(store), GetRestaurantInfo(store))
  }

  /** The view shows exactly what the store holds. */
  predicate Synced(s: CartState)
  {
    s.view == LoadCart(s.store)
  }

  /** Mounting the provider over a persisted cart: the effect calls `loadCart`. */
  function Mount(store: Cart): (s: CartState)
    ensures s.store == store && Synced(s)
    ensures store == [] ==> s.view == InitialView
  {
    CartState(store, LoadCart(store))
  }

  /** `addToCart`: reload only when the store accepted the line. */
  function AddToCart(s: CartState, item: CartLine): (r: CartState)
    ensures !AddItem(s.store, item).accepted ==> r == s
    ensures AddItem(s.store, item).accepted ==> r.store == AddItem(s.store, item).cart && Synced(r)
    ensures Synced(s) ==> Synced(r)
  {
    var res := AddItem(s.store, item);
    if res.accepted then CartState(res.cart, LoadCart(res.cart)) else s
  }

  /** `removeFromCart`. */
  function RemoveFromCart(s: CartState, foodId: int): (r: CartState)
    ensures r.store == RemoveItem(s.store, foodId) && Synced(r)
    ensures !HasFood(r.view.items, foodId)
  {
    var c := RemoveItem(s.store, foodId);
    CartState(c, LoadCart(c))
  }

  /** `updateQuantity`. */
  function UpdateQuantity(s: CartState, foodId: int, quantity: int): (r: CartState)
    ensures r.store == CartStore.UpdateQuantity(s.store, foodId, quantity) && Synced(r)
  {
    var c := CartStore.UpdateQuantity(s.store, foodId, quantity);
    CartState(c, LoadCart(c))
  }

  /** `clearCart`. */
  function ClearCart(s: CartState): (r: CartState)
    ensures r.store == [] && Synced(r)
    ensures r.view.items == [] && r.view.cartTotal == 0 && r.view.restaurantInfo.None?
  {
    var c := CartStore.ClearCart();
    CartState(c, LoadCart(c))
  }

  /** The "Clear Cart" action of the different-restaurant toast. It clears the
      store and adds the refused line directly, bypassing the provider, so
      the view is not reloaded and still shows the previous cart. */
  function ToastClearCart(s: CartState, item: CartLine): (r: CartState)
    ensures r.store == [item]
    ensures r.view == s.view
    ensures Synced(s) && s.store != [item] ==> !Synced(r)
  {
    CartState(AddItem(CartStore.ClearCart(), item).cart, s.view)
  }

  /** The sum of the line quantities. */
  function Quantities(c: Cart): int
  {
    if |c| == 0 then 0 else c[0].quantity + Quantities(c[1..])
  }

  /** The left fold `reduce((count, item) => count + item.quantity, acc)`. */
  function CountFold(c: Cart, acc: int): (r: int)
    ensures r == acc + Quantities(c)
  {
    if |c| == 0 then acc else CountFold(c[1..], acc + c[0].quantity)
  }

  /** `itemCount`: the number of units in the cart, not the number of lines. */
  function ItemCount(v: CartView): (n: int)
    ensures n == Quantities(v.items)
    ensures PositiveQuantities(v.items) ==> n >= |v.items|
    ensures v.items == [] ==> n == 0
  {
    UnitsAtLeastLines(v.items);
    CountFold(v.items, 0)
  }

  lemma {:induction false} UnitsAtLeastLines(c: Cart)
    ensures PositiveQuantities(c) ==> Quantities(c) >= |c|
  {
    if |c| > 0 {
      UnitsAtLeastLines(c[1..]);
      assert PositiveQuantities(c) ==> PositiveQuantities(c[1..]);
    }
  }

  /** One line of quantity 3 counts three items. */
  lemma ItemCountCountsUnits(line: CartLine)
    requires line.quantity == 3
    ensures ItemCount(LoadCart([line])) == 3
  {
    assert Quantities([line]) == 3 + Quantities([]);
  }

  /** Every provider operation keeps the store's invariant (adds with a positive quantity). */
  lemma OperationsPreserveValid(s: CartState, item: CartLine, foodId: int, quantity: int)
    requires Valid(s.store) && item.quantity > 0
    ensures Valid(AddToCart(s, item).store)
    ensures Valid(RemoveFromCart(s, foodId).store)
    ensures Valid(UpdateQuantity(s, foodId, quantity).store)
    ensures Valid(ClearCart(s).store)
  {
    AddPreservesValid(s.store, item);
    RemovePreservesValid(s.store, foodId);
    UpdatePreservesValid(s.store, foodId, quantity);
  }
}
