/** The admin order list's free-text search over order id, customer id and
    restaurant name. */
module AdminOrders {
  import opened Wrappers
  import opened Entities
  import Text
  import Seqs
  import Render

  /** The text searched, as the page builds it: a template literal, so a
      missing order id or restaurant name becomes the word "undefined". */
  function SearchTextAsWritten(o: Order): string
  {
    Render.TemplateInt(o.orderId) + " " + Text.IntToString(o.customerId) + " " + Render.TemplateString(o.restaurantName)
  }

  /** The text searched with missing fields left empty. */
  function SearchText(o: Order): string
  {
    (if o.orderId.Some? then Text.IntToString(o.orderId.value) else "") + " " +
    Text.IntToString(o.customerId) + " " + o.restaurantName.GetOr("")
  }

  /** The query occurs in the text, ignoring case. */
  predicate MatchesQuery(text: string, query: string)
  {
    Text.Contains(Text.ToLower(text), Text.ToLower(query))
  }

  function AsWrittenFilter(query: string): Order -> bool
  {
    (o: Order) => MatchesQuery(SearchTextAsWritten(o), query)
  }

  function QueryFilter(query: string): Order -> bool
  {
    (o: Order) => MatchesQuery(SearchText(o), query)
  }

  /** `filteredOrders` as written: no data gives no rows. */
  function FilterOrdersAsWritten(orders: Option<seq<Order>>, query: string): (r: seq<Order>)
    ensures orders.None? ==> r == []
    ensures orders.Some? ==> Seqs.IsSubseq(r, orders.value)
    ensures forall i :: 0 <= i < |r| ==> MatchesQuery(SearchTextAsWritten(r[i]), query)
    ensures orders.Some? ==> forall i :: 0 <= i < |orders.value| && MatchesQuery(SearchTextAsWritten(orders.value[i]), query) ==>
      orders.value[i] in r
    ensures orders.Some? ==> forall o :: multiset(r)[o] ==
                                         if MatchesQuery(SearchTextAsWritten(o), query) then multiset(orders.value)[o] else 0
  {
    match orders
    case None => []
    case Some(os) =>
      Seqs.FilterIsSubseq(os, AsWrittenFilter(query));
      Seqs.FilterCounts(os, AsWrittenFilter(query));
      Seqs.Filter(os, AsWrittenFilter(query))
  }

  /** `filteredOrders` with missing fields searched as empty text. */
  function FilterOrders(orders: Option<seq<Order>>, query: string): (r: seq<Order>)
    ensures orders.None? ==> r == []
    ensures orders.Some? ==> Seqs.IsSubseq(r, orders.value)
    ensures forall i :: 0 <= i < |r| ==> MatchesQuery(SearchText(r[i]), query)
    ensures orders.Some? ==> forall i :: 0 <= i < |orders.value| && MatchesQuery(SearchText(orders.value[i]), query) ==>
      orders.value[i] in r
    ensures orders.Some? ==> forall o :: multiset(r)[o] ==
                                         if MatchesQuery(SearchText(o), query) then multiset(orders.value)[o] else 0
  {
    match orders
    case None => []
    case Some(os) =>
      Seqs.FilterIsSubseq(os, QueryFilter(query));
      Seqs.FilterCounts(os, QueryFilter(query));
      Seqs.Filter(os, QueryFilter(query))
  }

  /** An empty query lists every order. */
  lemma EmptyQueryKeepsAll(os: seq<Order>)
    ensures FilterOrders(Some(os), "") == os
  {
    forall i | 0 <= i < |os| ensures MatchesQuery(SearchText(os[i]), "") {
      Text.ContainsEmpty(Text.ToLower(SearchText(os[i])));
    }
    Seqs.FilterAll(os, QueryFilter(""));
  }

  /** Queries differing only in letter case list the same orders. */
  lemma QueryIgnoresCase(orders: Option<seq<Order>>, q1: string, q2: string)
    requires Text.ToLower(q1) == Text.ToLower(q2)
    ensures FilterOrders(orders, q1) == FilterOrders(orders, q2)
  {
    if orders.Some? {
      Seqs.FilterCongruent(orders.value, QueryFilter(q1), QueryFilter(q2));
    }
  }

  /** The search the page runs also lists every order for an empty query:
      whatever a missing field prints as, it contains the empty text. */
  lemma EmptyQueryKeepsAllAsWritten(os: seq<Order>)
    ensures FilterOrdersAsWritten(Some(os), "") == os
  {
    forall i | 0 <= i < |os| ensures MatchesQuery(SearchTextAsWritten(os[i]), "") {
      Text.ContainsEmpty(Text.ToLower(SearchTextAsWritten(os[i])));
    }
    Seqs.FilterAll(os, AsWrittenFilter(""));
  }

  /** The search the page runs ignores the letter case of the query. */
  lemma QueryIgnoresCaseAsWritten(orders: Option<seq<Order>>, q1: string, q2: string)
    requires Text.ToLower(q1) == Text.ToLower(q2)
    ensures FilterOrdersAsWritten(orders, q1) == FilterOrdersAsWritten(orders, q2)
  {
    if orders.Some? {
      Seqs.FilterCongruent(orders.value, AsWrittenFilter(q1), AsWrittenFilter(q2));
    }
  }

  /** Every character of a rendered integer is a digit or a minus sign. */
  lemma IntTextIsNumeric(n: int)
    ensures forall i :: 0 <= i < |Text.IntToString(n)| ==>
      Text.IntToString(n)[i] == '-' || '0' <= Text.IntToString(n)[i] <= '9'
  {
  }

  /** A needle occurs only in a haystack holding its first character. */
  lemma ContainsFirstChar(hay: string, needle: string)
    requires |needle| > 0 && Text.Contains(hay, needle)
    ensures exists i :: 0 <= i < |hay| && hay[i] == needle[0]
  {
    Text.ContainsIffOccurs(hay, needle);
    var i :| Text.OccursAt(hay, needle, i);
    assert hay[i..i + |needle|][0] == needle[0];
  }

  /** The search as written matches the query "undefined" on every order
      without a restaurant name. */
  lemma AsWrittenMatchesUndefined(o: Order)
    requires o.restaurantName.None?
    ensures MatchesQuery(SearchTextAsWritten(o), "undefined")
  {
    var prefix := Render.TemplateInt(o.orderId) + " " + Text.IntToString(o.customerId) + " ";
    assert SearchTextAsWritten(o) == prefix + "undefined";
    Text.LowerAppend(prefix, "undefined");
    LowerUndefined();
    Text.ContainsSuffix(Text.ToLower(prefix), "undefined");
  }

  lemma LowerUndefined()
    ensures Text.ToLower("undefined") == "undefined"
  {
  }

  /** Text made of digits, minus signs and spaces. */
  predicate Numeric(s: string)
  {
    forall i :: 0 <= i < |s| ==> s[i] == ' ' || s[i] == '-' || '0' <= s[i] <= '9'
  }

  lemma SearchTextNumeric(o: Order)
    requires o.restaurantName.None?
    ensures Numeric(SearchText(o))
  {
    IntTextIsNumeric(o.customerId);
    if o.orderId.Some? {
      IntTextIsNumeric(o.orderId.value);
    }
  }

  /** With missing fields searched as empty text, an order without a
      restaurant name is never matched by the query "undefined". */
  lemma MissingNameNotMatched(o: Order)
    requires o.restaurantName.None?
    ensures !MatchesQuery(SearchText(o), "undefined")
  {
    var text := SearchText(o);
    SearchTextNumeric(o);
    var lowered := Text.ToLower(text);
    assert Numeric(lowered);
    LowerUndefined();
    if Text.Contains(lowered, "undefined") {
      ContainsFirstChar(lowered, "undefined");
    }
  }
}
