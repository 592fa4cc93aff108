/** The customer's order history page: the login redirect, the status tabs,
    the status badge, the two-item preview and the per-order buttons. */
module OrderHistory {
  import opened Wrappers
  import opened Entities
  import opened Nav
  import Text
  import Seqs
  import Render

  // ---------------------------------------------------------------- redirect and data

  /** Without a user the page sends the visitor to log in and come back. */
  function Guard(user: Option<User>): (r: Option<Navigation>)
    ensures r.Some? <==> user.None?
    ensures r.Some? ==> r.value.path == "/login" && r.value.from == Some("/orders")
  {
    if user.None? then Some(Navigate("/login", Some("/orders"))) else None
  }

  /** The fetched orders, or the built-in sample orders when none came back. */
  function CurrentOrders(fetched: seq<Order>, sample: seq<Order>): seq<Order>
  {
    if |fetched| > 0 then fetched else sample
  }

  // ---------------------------------------------------------------- tabs

  /** `order.order_status?.toLowerCase() || ""`. */
  function StatusKey(o: Order): string
  {
    if o.orderStatus.Some? then Text.ToLower(o.orderStatus.value) else ""
  }

  predicate IsActiveStatus(key: string)
  {
    key == "confirmed" || key == "preparing" || key == "out_for_delivery"
  }

  /** Whether the order is listed under the tab named `tab`. */
  predicate TabKeeps(tab: string, o: Order)
  {
    if tab == "all" then true
    else if tab == "active" then IsActiveStatus(StatusKey(o))
    else if tab == "completed" then StatusKey(o) == "delivered"
    else if tab == "cancelled" then StatusKey(o) == "cancelled"
    else true
  }

  function TabFilter(tab: string): Order -> bool
  {
    (o: Order) => TabKeeps(tab, o)
  }

  /** `filteredOrders`. */
  function FilterByTab(orders: seq<Order>, tab: string): (r: seq<Order>)
    ensures Seqs.IsSubseq(r, orders)
    ensures forall i :: 0 <= i < |r| ==> TabKeeps(tab, r[i])
    ensures forall i :: 0 <= i < |orders| && TabKeeps(tab, orders[i]) ==> orders[i] in r
    ensures forall o :: multiset(r)[o] == if TabKeeps(tab, o) then multiset(orders)[o] else 0
  {
    Seqs.FilterIsSubseq(orders, TabFilter(tab));
    Seqs.FilterCounts(orders, TabFilter(tab));
    Seqs.Filter(orders, TabFilter(tab))
  }

  predicate IsNamedTab(tab: string)
  {
    tab == "active" || tab == "completed" || tab == "cancelled"
  }

  /** "All" and any unrecognised tab list every order. */
  lemma UnnamedTabListsAll(orders: seq<Order>, tab: string)
    requires !IsNamedTab(tab)
    ensures FilterByTab(orders, tab) == orders
  {
    Seqs.FilterAll(orders, TabFilter(tab));
  }

  /** The three named tabs never share an order, and an order whose status is
      none of the five known ones appears in none of them. */
  lemma NamedTabsDisjoint(o: Order, t1: string, t2: string)
    requires IsNamedTab(t1) && IsNamedTab(t2) && t1 != t2
    ensures !(TabKeeps(t1, o) && TabKeeps(t2, o))
    ensures StatusKey(o) !in {"confirmed", "preparing", "out_for_delivery", "delivered", "cancelled"} ==>
      !TabKeeps(t1, o)
  {
  }

  /** Status matching ignores case. */
  lemma TabIgnoresCase(tab: string, o: Order, status: string)
    requires o.orderStatus.Some? && Text.ToLower(o.orderStatus.value) == Text.ToLower(status)
    ensures TabKeeps(tab, o) == TabKeeps(tab, o.(orderStatus := Some(status)))
  {
  }

  /** The three named tabs together list no more orders than "All". */
  lemma {:induction false} NamedTabsCountAtMostAll(orders: seq<Order>)
    ensures |FilterByTab(orders, "active")| + |FilterByTab(orders, "completed")| +
            |FilterByTab(orders, "cancelled")| <= |orders|
  {
    if |orders| > 0 {
      NamedTabsCountAtMostAll(orders[1..]);
      var o := orders[0];
      if TabKeeps("active", o) {
        NamedTabsDisjoint(o, "active", "completed");
        NamedTabsDisjoint(o, "active", "cancelled");
      } else if TabKeeps("completed", o) {
        NamedTabsDisjoint(o, "completed", "cancelled");
      }
    }
  }

  // ---------------------------------------------------------------- badge

  datatype BadgeColour = Green | Blue | Amber | Purple | Red | Grey

  /** The badge text: the status, or "pending" when it is missing or empty. */
  function BadgeLabel(o: Order): (r: string)
    ensures r != ""
    ensures o.orderStatus.Some? && o.orderStatus.value != "" ==> r == o.orderStatus.value
    ensures o.orderStatus.None? || o.orderStatus.value == "" ==> r == "pending"
  {
    if o.orderStatus.Some? && o.orderStatus.value != "" then o.orderStatus.value else "pending"
  }

  /** `getVariant`, keyed on the lower-cased badge text. */
  function Colour(badge: string): BadgeColour
  {
    KeyColour(Text.ToLower(badge))
  }

  function KeyColour(k: string): BadgeColour
  {
    if k == "confirmed" then Green
    else if k == "preparing" then Blue
    else if k == "out_for_delivery" then Amber
    else if k == "delivered" then Purple
    else if k == "cancelled" then Red
    else Grey
  }

  /** On a lower-cased status the colour and the tab tests agree. */
  lemma KeyColourAgreesWithTabs(k: string)
    ensures IsActiveStatus(k) <==> KeyColour(k) in {Green, Blue, Amber}
    ensures k == "delivered" <==> KeyColour(k) == Purple
    ensures k == "cancelled" <==> KeyColour(k) == Red
  {
  }

  /** The badge colour and the tabs agree: green, blue and amber orders are the
      active ones, purple the completed, red the cancelled, and a grey order
      is under no named tab. */
  lemma BadgeAgreesWithTabs(o: Order)
    ensures var c := Colour(BadgeLabel(o));
      && (TabKeeps("active", o) <==> c in {Green, Blue, Amber})
      && (TabKeeps("completed", o) <==> c == Purple)
      && (TabKeeps("cancelled", o) <==> c == Red)
  {
    if o.orderStatus.Some? && o.orderStatus.value != "" {
      KeyColourAgreesWithTabs(StatusKey(o));
    } else {
      assert |StatusKey(o)| == 0;
      PendingIsGrey();
    }
  }

  lemma PendingIsGrey()
    ensures Colour("pending") == Grey
  {
    var k := Text.ToLower("pending");
    assert k[0] == 'p';
    assert |k| == 7;
  }

  // ---------------------------------------------------------------- preview

  /** The first two items, and the "+n more items" count. */
  datatype Preview = Preview(lines: seq<string>, more: Option<int>)

  /** `{item.quantity}x {item.food_name}` plus the separator after the first line. */
  function PreviewLine(item: OrderItem, index: nat, count: nat): string
  {
    Text.IntToString(item.quantity) + "x " + Render.JsxString(item.foodName) +
    (if index == 0 && count > 1 then ", " else "")
  }

  function PreviewOf(items: seq<OrderItem>): (r: Preview)
    ensures |r.lines| == if |items| < 2 then |items| else 2
    ensures r.more.Some? <==> |items| > 2
    ensures |r.lines| + r.more.GetOr(0) == |items|
    ensures forall i :: 0 <= i < |r.lines| ==> r.lines[i] == PreviewLine(items[i], i, |items|)
  {
    var shown := if |items| < 2 then items else items[..2];
    Preview(seq(|shown|, i requires 0 <= i < |shown| => PreviewLine(shown[i], i, |items|)),
            if |items| > 2 then Some(|items| - 2) else None)
  }

  /** `{item.quantity}x {item.food_name}`: a missing name renders as nothing. */
  function ItemText(item: OrderItem): string
  {
    Text.IntToString(item.quantity) + "x " + Render.JsxString(item.foodName)
  }

  /** With two or more items the first line ends in the ", " separator; every
      other line is the bare item text. */
  lemma SeparatorOnlyAfterFirst(items: seq<OrderItem>)
    ensures var p := PreviewOf(items);
      && (|items| > 1 ==> p.lines[0] == ItemText(items[0]) + ", ")
      && (forall i :: 0 <= i < |p.lines| && !(i == 0 && |items| > 1) ==> p.lines[i] == ItemText(items[i]))
  {
  }

  // ---------------------------------------------------------------- buttons

  /** The buttons of an order card: "Reorder" (delivered orders only) and the
      details button with its label and target. */
  datatype Actions = Actions(reorder: Option<string>, detailsLabel: string, detailsPath: string)

  function CardActions(o: Order): (r: Actions)
    ensures r.reorder.Some? <==> TabKeeps("completed", o)
    ensures r.reorder.Some? ==> r.reorder.value == "/restaurants/" + Text.IntToString(o.resId)
    ensures r.detailsLabel == (if TabKeeps("completed", o) then "View Details" else "Track Order")
    ensures r.detailsPath == "/orders/" + Render.TemplateInt(o.orderId)
  {
    var delivered := StatusKey(o) == "delivered";
    Actions(if delivered then Some("/restaurants/" + Text.IntToString(o.resId)) else None,
            if delivered then "View Details" else "Track Order",
            "/orders/" + Render.TemplateInt(o.orderId))
  }

  /** "Reorder" is offered exactly for the orders the Completed tab lists,
      which are exactly the orders with the purple badge. */
  lemma ReorderExactlyOnCompletedTab(orders: seq<Order>, k: nat)
    requires k < |orders|
    ensures CardActions(orders[k]).reorder.Some? <==> orders[k] in FilterByTab(orders, "completed")
    ensures CardActions(orders[k]).reorder.Some? <==> Colour(BadgeLabel(orders[k])) == Purple
  {
    var r := FilterByTab(orders, "completed");
    if orders[k] in r {
      var j :| 0 <= j < |r| && r[j] == orders[k];
    }
    BadgeAgreesWithTabs(orders[k]);
  }

  /** The message shown when the tab lists nothing. */
  function EmptyMessage(tab: string): string
  {
    if tab == "all" then "You haven't placed any orders yet."
    else "You don't have any " + tab + " orders."
  }
}
