/** The client-side cart store: an ordered sequence of line items, keyed by
    food id and restricted to one restaurant at a time. Each store operation
    reads the persisted cart and writes the new one back; here an operation
    is a function from the old cart to the new one. */
module CartStore {
  import opened Wrappers
  import Seqs

  /** A cart line (`CartItem`): an order item plus the display data of the food. */
  datatype CartLine = CartLine(
    foodId: int,
    quantity: int,
    foodName: string,
    pricePerUnit: int,
    restaurantId: int,
    restaurantName: Option<string>,
    imageUrl: Option<string>,
    isVegetarian: Option<bool>)

  type Cart = seq<CartLine>

  /** What `getRestaurantInfo` reports about a non-empty cart. */
  datatype RestaurantInfo = RestaurantInfo(restaurantId: int, restaurantName: Option<string>)

  /** `addItem`'s boolean answer together with the cart it leaves behind. */
  datatype AddResult = AddResult(accepted: bool, cart: Cart)

  // ---------------------------------------------------------------- invariants

  predicate HasFood(c: Cart, foodId: int)
  {
    exists i :: 0 <= i < |c| && c[i].foodId == foodId
  }

  /** All lines come from the restaurant of the first line. */
  predicate SingleRestaurant(c: Cart)
  {
    forall i :: 0 <= i < |c| ==> c[i].restaurantId == c[0].restaurantId
  }

  /** No food id occurs on two lines. */
  predicate UniqueFoods(c: Cart)
  {
    forall i, j :: 0 <= i < j < |c| ==> c[i].foodId != c[j].foodId
  }

  predicate PositiveQuantities(c: Cart)
  {
    forall i :: 0 <= i < |c| ==> c[i].quantity > 0
  }

  /** The invariant every cart built through the store operations keeps. */
  predicate Valid(c: Cart)
  {
    SingleRestaurant(c) && UniqueFoods(c) && PositiveQuantities(c)
  }

  /** `c2` is `c` with line `k`'s quantity replaced by `q` and nothing else changed. */
  predicate QuantitySetAt(c: Cart, c2: Cart, k: nat, q: int)
  {
    && k < |c| && |c2| == |c|
    && c2[k] == c[k].(quantity := q)
    && forall j :: 0 <= j < |c| && j != k ==> c2[j] == c[j]
  }

  // ---------------------------------------------------------------- queries

  /** `findIndex` on the food id: the first line holding `foodId`, if any. */
  function FindIndex(c: Cart, foodId: int): (r: Option<nat>)
    ensures r.None? <==> !HasFood(c, foodId)
    ensures r.Some? ==> r.value < |c| && c[r.value].foodId == foodId
    ensures r.Some? ==> forall j :: 0 <= j < r.value ==> c[j].foodId != foodId
  {
    if |c| == 0 then None
    else if c[0].foodId == foodId then Some(0)
    else match FindIndex(c[1..], foodId)
      case None => None
      case Some(k) => Some(k + 1)
  }

  /** The sum of `pricePerUnit * quantity` over all lines. */
  function Sum(c: Cart): int
  {
    if |c| == 0 then 0 else c[0].pricePerUnit * c[0].quantity + Sum(c[1..])
  }

  /** The left fold `reduce((total, item) => total + price * quantity, acc)`. */
  function Fold(c: Cart, acc: int): (r: int)
    ensures r == acc + Sum(c)
  {
    if |c| == 0 then acc else Fold(c[1..], acc + c[0].pricePerUnit * c[0].quantity)
  }

  /** `getCartTotal`. */
  function GetCartTotal(c: Cart): (r: int)
    ensures |c| == 0 ==> r == 0
    ensures (forall i :: 0 <= i < |c| ==> c[i].pricePerUnit >= 0 && c[i].quantity >= 0) ==> r >= 0
  {
    NonNegativeSum(c);
    Fold(c, 0)
  }

  /** `getRestaurantInfo`: null for an empty cart, else the first line's restaurant. */
  function GetRestaurantInfo(c: Cart): (r: Option<RestaurantInfo>)
    ensures r.None? <==> |c| == 0
    ensures r.Some? ==> r.value.restaurantId == c[0].restaurantId
    ensures r.Some? ==> r.value.restaurantName == c[0].restaurantName
    ensures r.Some? && SingleRestaurant(c) ==>
      forall i :: 0 <= i < |c| ==> c[i].restaurantId == r.value.restaurantId
  {
    if |c| == 0 then None else Some(RestaurantInfo(c[0].restaurantId, c[0].restaurantName))
  }

  // ---------------------------------------------------------------- mutations

  /** `addItem`: refuse a line of another restaurant; otherwise merge into the
      line with the same food id, or append. The toast offered on refusal is
      not part of the store's state. */
  function AddItem(c: Cart, item: CartLine): (r: AddResult)
    ensures r.accepted <==> |c| == 0 || c[0].restaurantId == item.restaurantId
    ensures !r.accepted ==> r.cart == c
    ensures r.accepted && !HasFood(c, item.foodId) ==> r.cart == c + [item]
    ensures r.accepted && HasFood(c, item.foodId) ==>
      var k := FindIndex(c, item.foodId).value;
      QuantitySetAt(c, r.cart, k, c[k].quantity + item.quantity)
    ensures r.accepted ==> HasFood(r.cart, item.foodId)
  {
    if |c| > 0 && c[0].restaurantId != item.restaurantId then
      AddResult(false, c)
    else
      match FindIndex(c, item.foodId)
      case Some(k) =>
        var merged := c[k := c[k].(quantity := c[k].quantity + item.quantity)];
        assert merged[k].foodId == item.foodId;
        AddResult(true, merged)
      case None =>
        assert (c + [item])[|c|] == item;
        AddResult(true, c + [item])
  }

  /** `updateQuantity`: a non-positive quantity deletes the line, a positive
      one replaces its quantity; an unknown food id changes nothing. */
  function UpdateQuantity(c: Cart, foodId: int, quantity: int): (r: Cart)
    ensures !HasFood(c, foodId) ==> r == c
    ensures HasFood(c, foodId) && quantity > 0 ==>
      QuantitySetAt(c, r, FindIndex(c, foodId).value, quantity)
    ensures HasFood(c, foodId) && quantity <= 0 ==>
      var k := FindIndex(c, foodId).value;
      |r| == |c| - 1 && r[..k] == c[..k] && r[k..] == c[k + 1..]
  {
    match FindIndex(c, foodId)
    case None => c
    case Some(k) =>
      if quantity <= 0 then c[..k] + c[k + 1..]
      else c[k := c[k].(quantity := quantity)]
  }

  /** `removeItem`: keep every line whose food id differs, in order. */
  function RemoveItem(c: Cart, foodId: int): (r: Cart)
    ensures !HasFood(r, foodId)
    ensures Seqs.IsSubseq(r, c)
    ensures forall i :: 0 <= i < |c| && c[i].foodId != foodId ==> c[i] in r
    ensures !HasFood(c, foodId) ==> r == c
  {
    Seqs.FilterIsSubseq(c, OtherFood(foodId));
    KeepAllWhenAbsent(c, foodId);
    Seqs.Filter(c, OtherFood(foodId))
  }

  /** The filter predicate of `removeItem`. */
  function OtherFood(foodId: int): CartLine -> bool
  {
    (line: CartLine) => line.foodId != foodId
  }

  lemma KeepAllWhenAbsent(c: Cart, foodId: int)
    ensures !HasFood(c, foodId) ==> Seqs.Filter(c, OtherFood(foodId)) == c
  {
    if !HasFood(c, foodId) {
      Seqs.FilterAll(c, OtherFood(foodId));
    }
  }

  /** `clearCart`. */
  function ClearCart(): (r: Cart)
    ensures Valid(r) && GetRestaurantInfo(r).None? && GetCartTotal(r) == 0
  {
    []
  }

  // ---------------------------------------------------------------- lemmas

  lemma {:induction false} NonNegativeSum(c: Cart)
    ensures (forall i :: 0 <= i < |c| ==> c[i].pricePerUnit >= 0 && c[i].quantity >= 0) ==> Sum(c) >= 0
  {
    if |c| > 0 {
      NonNegativeSum(c[1..]);
      if forall i :: 0 <= i < |c| ==> c[i].pricePerUnit >= 0 && c[i].quantity >= 0 {
        assert c[0].pricePerUnit * c[0].quantity >= 0;
      }
    }
  }

  /** The total of a concatenation is the sum of the totals. */
  lemma {:induction false} SumAppend(a: Cart, b: Cart)
    ensures Sum(a + b) == Sum(a) + Sum(b)
  {
    if |a| == 0 {
      assert a + b == b;
    } else {
      assert (a + b)[1..] == a[1..] + b;
      SumAppend(a[1..], b);
    }
  }

  /** Changing one line's quantity changes the total by that line's price times the difference. */
  lemma {:induction false} SumQuantitySetAt(c: Cart, c2: Cart, k: nat, q: int)
    requires QuantitySetAt(c, c2, k, q)
    ensures Sum(c2) + c[k].pricePerUnit * c[k].quantity == Sum(c) + c[k].pricePerUnit * q
  {
    if k == 0 {
      assert c2[1..] == c[1..];
    } else {
      assert QuantitySetAt(c[1..], c2[1..], k - 1, q);
      SumQuantitySetAt(c[1..], c2[1..], k - 1, q);
      assert c2[0] == c[0];
    }
  }

  /** Adding `extra` to line `k`'s quantity grows the total by its price times `extra`. */
  lemma SumMergedAt(c: Cart, c2: Cart, k: nat, extra: int)
    requires k < |c| && QuantitySetAt(c, c2, k, c[k].quantity + extra)
    ensures Sum(c2) == Sum(c) + c[k].pricePerUnit * extra
  {
    SumQuantitySetAt(c, c2, k, c[k].quantity + extra);
    Distribute(c[k].pricePerUnit, c[k].quantity, extra);
  }

  lemma Distribute(p: int, a: int, b: int)
    ensures p * (a + b) == p * a + p * b
  {
  }

  /** Two lines with the same food id would have to be the same line. */
  lemma UniqueIndex(c: Cart, i: nat, foodId: int)
    requires UniqueFoods(c) && i < |c| && c[i].foodId == foodId
    ensures FindIndex(c, foodId) == Some(i)
  {
  }

  /** getCartTotal is the sum of `pricePerUnit * quantity` over the lines. */
  lemma GetCartTotalIsSum(c: Cart)
    ensures GetCartTotal(c) == Sum(c)
    ensures |c| > 0 ==> GetCartTotal(c) == c[0].pricePerUnit * c[0].quantity + GetCartTotal(c[1..])
  {
  }

  /** A refused add leaves the cart as it was. */
  lemma AddOtherRestaurantRefused(c: Cart, item: CartLine)
    requires |c| > 0 && c[0].restaurantId != item.restaurantId
    ensures AddItem(c, item) == AddResult(false, c)
  {
  }

  /** Adding keeps every invariant, given a positive quantity. */
  lemma AddPreservesValid(c: Cart, item: CartLine)
    requires Valid(c) && item.quantity > 0
    ensures Valid(AddItem(c, item).cart)
    ensures AddItem(c, item).accepted ==>
      forall i :: 0 <= i < |AddItem(c, item).cart| ==> AddItem(c, item).cart[i].restaurantId == item.restaurantId
  {
    var r := AddItem(c, item);
    if r.accepted && !HasFood(c, item.foodId) {
      var c2 := c + [item];
      forall i, j | 0 <= i < j < |c2| ensures c2[i].foodId != c2[j].foodId {
        if j == |c| {
          assert c2[i] == c[i];
        }
      }
    }
  }

  /** Accepting an add grows the total by the merged quantity at the line's
      own price (the stored price, not the new item's, on a merge). */
  lemma AddTotal(c: Cart, item: CartLine)
    requires AddItem(c, item).accepted
    ensures !HasFood(c, item.foodId) ==>
      Sum(AddItem(c, item).cart) == Sum(c) + item.pricePerUnit * item.quantity
    ensures HasFood(c, item.foodId) ==>
      Sum(AddItem(c, item).cart) == Sum(c) + c[FindIndex(c, item.foodId).value].pricePerUnit * item.quantity
  {
    var r := AddItem(c, item);
    if HasFood(c, item.foodId) {
      var k := FindIndex(c, item.foodId).value;
      SumMergedAt(c, r.cart, k, item.quantity);
    } else {
      assert r.cart == c + [item];
      SumAppend(c, [item]);
      assert Sum([item]) == item.pricePerUnit * item.quantity + Sum([]);
    }
  }

  /** Adding the same food twice to a cart without it yields one line holding
      the sum of both quantities, with the data of the first add. */
  lemma AddTwiceSumsQuantities(c: Cart, a: CartLine, b: CartLine)
    requires Valid(c) && !HasFood(c, a.foodId)
    requires a.foodId == b.foodId && a.restaurantId == b.restaurantId
    requires AddItem(c, a).accepted
    ensures AddItem(AddItem(c, a).cart, b).accepted
    ensures AddItem(AddItem(c, a).cart, b).cart == c + [a.(quantity := a.quantity + b.quantity)]
  {
    var c1 := c + [a];
    assert c1[|c|] == a;
    if |c| > 0 {
      assert c1[0] == c[0];
    }
  }

  /** With unique food ids, a non-positive update removes the food entirely and agrees with removeItem. */
  lemma {:induction false} UpdateNonPositiveRemoves(c: Cart, foodId: int, quantity: int)
    requires UniqueFoods(c) && quantity <= 0
    ensures UpdateQuantity(c, foodId, quantity) == RemoveItem(c, foodId)
    ensures !HasFood(UpdateQuantity(c, foodId, quantity), foodId)
  {
    if |c| > 0 {
      var tail := c[1..];
      assert UniqueFoods(tail) by {
        assert forall i :: 0 <= i < |tail| ==> tail[i] == c[i + 1];
      }
      if c[0].foodId == foodId {
        assert !HasFood(tail, foodId) by {
          assert forall i :: 0 <= i < |tail| ==> tail[i] == c[i + 1];
        }
        KeepAllWhenAbsent(tail, foodId);
        assert UpdateQuantity(c, foodId, quantity) == tail;
      } else {
        UpdateNonPositiveRemoves(tail, foodId, quantity);
        UpdateCons(c, foodId, quantity);
      }
    }
  }

  /** Deleting a food that is not on the first line leaves the first line in front. */
  lemma UpdateCons(c: Cart, foodId: int, quantity: int)
    requires |c| > 0 && c[0].foodId != foodId && quantity <= 0
    ensures UpdateQuantity(c, foodId, quantity) == [c[0]] + UpdateQuantity(c[1..], foodId, quantity)
  {
    var t := c[1..];
    match FindIndex(t, foodId)
    case None =>
    case Some(k) =>
      assert FindIndex(c, foodId) == Some(k + 1);
      calc {
        UpdateQuantity(c, foodId, quantity);
        c[..k + 1] + c[k + 2..];
        { assert c[..k + 1] == [c[0]] + t[..k]; assert c[k + 2..] == t[k + 1..]; }
        [c[0]] + (t[..k] + t[k + 1..]);
      }
  }

  /** Updating keeps every invariant, whatever the new quantity. */
  lemma UpdatePreservesValid(c: Cart, foodId: int, quantity: int)
    requires Valid(c)
    ensures Valid(UpdateQuantity(c, foodId, quantity))
  {
    if quantity <= 0 {
      UpdateNonPositiveRemoves(c, foodId, quantity);
      RemovePreservesValid(c, foodId);
    } else if HasFood(c, foodId) {
      SetQuantityPreservesValid(c, FindIndex(c, foodId).value, quantity);
    }
  }

  /** Changing one line's quantity to a positive one keeps every invariant. */
  lemma SetQuantityPreservesValid(c: Cart, k: nat, quantity: int)
    requires Valid(c) && k < |c| && quantity > 0
    ensures Valid(c[k := c[k].(quantity := quantity)])
  {
    var r := c[k := c[k].(quantity := quantity)];
    assert forall i :: 0 <= i < |r| ==> r[i].foodId == c[i].foodId && r[i].restaurantId == c[i].restaurantId;
  }

  /** Removing keeps every invariant. */
  lemma RemovePreservesValid(c: Cart, foodId: int)
    requires Valid(c)
    ensures Valid(RemoveItem(c, foodId))
  {
    RemoveSubseqValid(RemoveItem(c, foodId), c);
  }

  /** A subsequence of a valid cart is valid. */
  lemma {:induction false} RemoveSubseqValid(a: Cart, b: Cart)
    requires Valid(b) && Seqs.IsSubseq(a, b)
    ensures Valid(a)
    ensures |a| > 0 ==> a[0].restaurantId == b[0].restaurantId
    decreases |b|
  {
    if |a| > 0 {
      assert |b| > 0;
      var b1 := b[1..];
      assert Valid(b1) by {
        assert forall i :: 0 <= i < |b1| ==> b1[i] == b[i + 1];
      }
      if a[0] == b[0] && Seqs.IsSubseq(a[1..], b1) {
        RemoveSubseqValid(a[1..], b1);
        SubseqMembers(a[1..], b1);
        forall i, j | 0 <= i < j < |a| ensures a[i].foodId != a[j].foodId {
          if i == 0 {
            assert a[j] == a[1..][j - 1];
          } else {
            assert a[i] == a[1..][i - 1] && a[j] == a[1..][j - 1];
          }
        }
        forall i | 0 <= i < |a| ensures a[i].restaurantId == a[0].restaurantId && a[i].quantity > 0 {
          if i > 0 {
            assert a[i] == a[1..][i - 1];
          }
        }
      } else {
        RemoveSubseqValid(a, b1);
      }
    }
  }

  /** Every element of a subsequence of `b[1..]`'s kind lies in `b`, past position 0. */
  lemma {:induction false} SubseqMembers(a: Cart, b: Cart)
    requires Seqs.IsSubseq(a, b)
    ensures forall i :: 0 <= i < |a| ==> exists j :: 0 <= j < |b| && a[i] == b[j]
    decreases |b|
  {
    if |a| > 0 {
      if a[0] == b[0] && Seqs.IsSubseq(a[1..], b[1..]) {
        SubseqMembers(a[1..], b[1..]);
        forall i | 0 <= i < |a| ensures exists j :: 0 <= j < |b| && a[i] == b[j] {
          if i == 0 {
            assert a[0] == b[0];
          } else {
            assert a[i] == a[1..][i - 1];
            var j :| 0 <= j < |b[1..]| && a[1..][i - 1] == b[1..][j];
            assert a[i] == b[j + 1];
          }
        }
      } else {
        SubseqMembers(a, b[1..]);
        forall i | 0 <= i < |a| ensures exists j :: 0 <= j < |b| && a[i] == b[j] {
          var j :| 0 <= j < |b[1..]| && a[i] == b[1..][j];
          assert a[i] == b[j + 1];
        }
      }
    }
  }

  /** The "Clear Cart" action offered on a refused add: clear, then add again. */
  lemma ClearThenAdd(item: CartLine)
    ensures AddItem(ClearCart(), item) == AddResult(true, [item])
  {
  }
}
