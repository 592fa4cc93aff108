/** The food card's "Add" button: how cart lines are produced from menu items. */
module FoodCard {
  import opened Wrappers
  import opened Entities
  import opened CartStore
  import CartContext

  /** `items.some(item => item.food_id === food.food_id)`. */
  function IsInCart(items: Cart, food: Food): (r: bool)
    ensures r <==> HasFood(items, food.foodId)
  {
    if |items| == 0 then false
    else if items[0].foodId == food.foodId then true
    else
      var r := IsInCart(items[1..], food);
      assert r ==> HasFood(items, food.foodId) by {
        if r {
          var i :| 0 <= i < |items[1..]| && items[1..][i].foodId == food.foodId;
          assert items[i + 1].foodId == food.foodId;
        }
      }
      assert HasFood(items, food.foodId) ==> r by {
        if HasFood(items, food.foodId) {
          var i :| 0 <= i < |items| && items[i].foodId == food.foodId;
          assert items[1..][i - 1].foodId == food.foodId;
        }
      }
      r
  }

  /** The line `handleAddToCart` builds: one unit of the food, tagged with the
      card's restaurant; `is_vegetarian` is not copied. */
  function CardLine(food: Food, restaurantId: int, restaurantName: Option<string>): (line: CartLine)
    ensures line.quantity == 1
    ensures line.foodId == food.foodId && line.foodName == food.foodName
    ensures line.pricePerUnit == food.pricePerUnit && line.imageUrl == food.imageUrl
    ensures line.restaurantId == restaurantId && line.restaurantName == restaurantName
    ensures line.isVegetarian.None?
  {
    CartLine(food.foodId, 1, food.foodName, food.pricePerUnit, restaurantId, restaurantName, food.imageUrl, None)
  }

  /** A click on the card's button: disabled while the food is in the cart. */
  function ClickAdd(s: CartContext.CartState, food: Food, restaurantId: int, restaurantName: Option<string>): (r: CartContext.CartState)
    ensures IsInCart(s.view.items, food) ==> r == s
  {
    if IsInCart(s.view.items, food) then s
    else CartContext.AddToCart(s, CardLine(food, restaurantId, restaurantName))
  }

  /** With the view in sync, a card click never takes the merge branch: the
      store either stays as it was or gains the new line at the end. */
  lemma CardAddNeverMerges(s: CartContext.CartState, food: Food, restaurantId: int, restaurantName: Option<string>)
    requires CartContext.Synced(s)
    ensures var r := ClickAdd(s, food, restaurantId, restaurantName);
      r.store == s.store || r.store == s.store + [CardLine(food, restaurantId, restaurantName)]
    ensures var r := ClickAdd(s, food, restaurantId, restaurantName);
      CartContext.Synced(r) && (r.store == s.store <==> (HasFood(s.store, food.foodId) || (|s.store| > 0 && s.store[0].restaurantId != restaurantId)))
  {
    var line := CardLine(food, restaurantId, restaurantName);
    if !IsInCart(s.view.items, food) {
      assert !HasFood(s.store, line.foodId);
      var res := AddItem(s.store, line);
      if res.accepted {
        assert res.cart == s.store + [line];
        assert |res.cart| != |s.store|;
      }
    }
  }

  /** The card's guard reads the provider's view, which the toast's
      "Clear Cart" action leaves stale. A click on a card from another
      restaurant is refused; after the toast action the store holds the one
      new line, but the view still shows the old cart, so the button stays
      enabled and a second click merges the food into two units. */
  lemma StaleViewAfterToastMerges(s: CartContext.CartState, food: Food, restaurantId: int, restaurantName: Option<string>)
    requires CartContext.Synced(s) && !HasFood(s.store, food.foodId)
    requires |s.store| > 0 && s.store[0].restaurantId != restaurantId
    ensures var line := CardLine(food, restaurantId, restaurantName);
      var s1 := ClickAdd(s, food, restaurantId, restaurantName);
      var s2 := CartContext.ToastClearCart(s1, line);
      && s1 == s
      && s2.store == [line] && !CartContext.Synced(s2)
      && ClickAdd(s2, food, restaurantId, restaurantName).store == [line.(quantity := 2)]
  {
    var line := CardLine(food, restaurantId, restaurantName);
    assert !IsInCart(s.view.items, food);
    assert s.store[0] != [line][0];
    assert [line][0].foodId == food.foodId;
  }

  /** Card clicks keep the store's invariant. */
  lemma CardAddPreservesValid(s: CartContext.CartState, food: Food, restaurantId: int, restaurantName: Option<string>)
    requires Valid(s.store)
    ensures Valid(ClickAdd(s, food, restaurantId, restaurantName).store)
  {
    AddPreservesValid(s.store, CardLine(food, restaurantId, restaurantName));
  }
}
