/**
 * `get_cart`: the user's cart rows joined with the menu and the
 * restaurants, grouped by restaurant in first-seen order, with a subtotal
 * per restaurant and a grand total.
 */
module CartView {
  import opened Wrappers
  import opened Seqs
  import opened Schema
  import opened Cart

  /** A joined row: `c.*` with the item's and the restaurant's columns. */
  datatype CartLine = CartLine(entry: CartEntry, item: MenuItem, restaurant: Restaurant)

  /** One restaurant's part of the cart, as the handler builds it. */
  datatype CartGroup = CartGroup(
    restaurantName: string,
    restaurantAddress: string,
    lat: real,
    lon: real,
    items: seq<CartLine>,
    subtotal: real)

  /**
   * The response: groups keyed by restaurant identifier, the order in which
   * the keys were first met (the dictionary's insertion order), the total
   * amount and the number of joined rows.
   */
  datatype CartSummary = CartSummary(
    restaurants: map<int, CartGroup>,
    order: seq<int>,
    totalAmount: real,
    totalItems: int)

  // ---------------------------------------------------------------------
  // The join
  // ---------------------------------------------------------------------

  /** The entry's item and restaurant rows, when both exist (`JOIN menu`, `JOIN restaurants`). */
  function JoinEntry(e: CartEntry, menu: seq<MenuItem>, restaurants: seq<Restaurant>): (r: Option<CartLine>)
    ensures r.Some? <==> (exists i :: 0 <= i < |menu| && menu[i].id == e.itemId)
                         && (exists j :: 0 <= j < |restaurants| && restaurants[j].id == e.restaurantId)
    ensures r.Some? ==> r.value.entry == e && r.value.item in menu && r.value.item.id == e.itemId
                        && r.value.restaurant in restaurants && r.value.restaurant.id == e.restaurantId
  {
    var item := FindFirst(menu, IsMenuItem(e.itemId));
    var restaurant := FindFirst(restaurants, IsRestaurant(e.restaurantId));
    if item.Some? && restaurant.Some? then
      Some(CartLine(e, menu[item.value], restaurants[restaurant.value]))
    else
      None
  }

  /** The cart rows `get_cart` selects: the user's rows whose item and restaurant both join. */
  function Joins(userId: int, menu: seq<MenuItem>, restaurants: seq<Restaurant>): CartEntry -> bool {
    (e: CartEntry) => e.userId == userId && JoinEntry(e, menu, restaurants).Some?
  }

  /** The joined rows for one user, in cart storage order. */
  function JoinLines(cart: seq<CartEntry>, menu: seq<MenuItem>, restaurants: seq<Restaurant>, userId: int)
    : (lines: seq<CartLine>)
    ensures forall l :: l in lines ==>
              l.entry in cart && l.entry.userId == userId
              && l.item in menu && l.item.id == l.entry.itemId
              && l.restaurant in restaurants && l.restaurant.id == l.entry.restaurantId
    decreases |cart|
  {
    if cart == [] then []
    else
      var head := JoinEntry(cart[0], menu, restaurants);
      (if cart[0].userId == userId && head.Some? then [head.value] else [])
      + JoinLines(cart[1..], menu, restaurants, userId)
  }

  function Entries(lines: seq<CartLine>): (es: seq<CartEntry>)
    ensures |es| == |lines|
    ensures forall i :: 0 <= i < |lines| ==> es[i] == lines[i].entry
  {
    seq(|lines|, i requires 0 <= i < |lines| => lines[i].entry)
  }

  /**
   * Exactly the user's rows whose item and restaurant both join survive the
   * join, once each and in cart order.
   */
  lemma {:induction false} JoinLinesEntries(cart: seq<CartEntry>, menu: seq<MenuItem>, restaurants: seq<Restaurant>, userId: int)
    ensures Entries(JoinLines(cart, menu, restaurants, userId)) == Filter(cart, Joins(userId, menu, restaurants))
    decreases |cart|
  {
    if cart != [] {
      JoinLinesEntries(cart[1..], menu, restaurants, userId);
      var head := JoinEntry(cart[0], menu, restaurants);
      var front: seq<CartLine> := if cart[0].userId == userId && head.Some? then [head.value] else [];
      var rest := JoinLines(cart[1..], menu, restaurants, userId);
      assert JoinLines(cart, menu, restaurants, userId) == front + rest;
      EntriesConcat(front, rest);
    }
  }

  lemma EntriesConcat(a: seq<CartLine>, b: seq<CartLine>)
    ensures Entries(a + b) == Entries(a) + Entries(b)
  {
    assert forall i :: 0 <= i < |a + b| ==> Entries(a + b)[i] == (Entries(a) + Entries(b))[i];
  }

  /** A user with no cart rows has an empty join. */
  lemma {:induction false} JoinLinesNoRows(cart: seq<CartEntry>, menu: seq<MenuItem>, restaurants: seq<Restaurant>, userId: int)
    requires forall i :: 0 <= i < |cart| ==> cart[i].userId != userId
    ensures JoinLines(cart, menu, restaurants, userId) == []
    decreases |cart|
  {
    if cart != [] {
      JoinLinesNoRows(cart[1..], menu, restaurants, userId);
    }
  }

  /** After `clear_cart` for a user, that user's cart view is empty. */
  lemma ClearedCartJoinsNothing(cart: seq<CartEntry>, menu: seq<MenuItem>, restaurants: seq<Restaurant>, userId: int)
    ensures JoinLines(ClearRows(cart, userId), menu, restaurants, userId) == []
  {
    var cleared := ClearRows(cart, userId);
    forall i | 0 <= i < |cleared| ensures cleared[i].userId != userId {
      assert cleared[i] in multiset(cleared);
    }
    JoinLinesNoRows(cleared, menu, restaurants, userId);
  }

  // ---------------------------------------------------------------------
  // Grouping and totals
  // ---------------------------------------------------------------------

  /** `item['price'] * item['quantity']` */
  function LineTotal(l: CartLine): real {
    l.item.price * l.entry.quantity as real
  }

  /** Σ price × quantity over `lines`. */
  function Amount(lines: seq<CartLine>): real
    decreases |lines|
  {
    if lines == [] then 0.0
    else Amount(lines[..|lines| - 1]) + LineTotal(lines[|lines| - 1])
  }

  lemma AmountSnoc(lines: seq<CartLine>, l: CartLine)
    ensures Amount(lines + [l]) == Amount(lines) + LineTotal(l)
  {
    assert (lines + [l])[..|lines|] == lines;
  }

  /** The rows of one restaurant. */
  function AtRestaurant(restaurantId: int): CartLine -> bool {
    (l: CartLine) => l.entry.restaurantId == restaurantId
  }

  ghost function RestaurantIds(lines: seq<CartLine>): set<int> {
    set i | 0 <= i < |lines| :: lines[i].entry.restaurantId
  }

  lemma RestaurantIdsSnoc(lines: seq<CartLine>, l: CartLine)
    ensures RestaurantIds(lines + [l]) == RestaurantIds(lines) + {l.entry.restaurantId}
  {
    var longer := lines + [l];
    assert longer[|lines|] == l;
    assert forall i :: 0 <= i < |lines| ==> longer[i] == lines[i];
  }

  /** The restaurant identifiers of `lines`, each once, in the order first met. */
  function FirstSeen(lines: seq<CartLine>): (ids: seq<int>)
    ensures forall r :: r in ids <==> r in RestaurantIds(lines)
    ensures forall i, j :: 0 <= i < j < |ids| ==> ids[i] != ids[j]
    decreases |lines|
  {
    if lines == [] then []
    else
      var init, last := lines[..|lines| - 1], lines[|lines| - 1];
      assert lines == init + [last];
      RestaurantIdsSnoc(init, last);
      var ids := FirstSeen(init);
      if last.entry.restaurantId in ids then ids else ids + [last.entry.restaurantId]
  }

  lemma FirstSeenSnoc(lines: seq<CartLine>, l: CartLine)
    ensures var ids, r := FirstSeen(lines), l.entry.restaurantId;
            FirstSeen(lines + [l]) == if r in ids then ids else ids + [r]
  {
    assert (lines + [l])[..|lines|] == lines;
  }

  /** A restaurant met in `lines` has at least one row there. */
  lemma GroupNonEmpty(lines: seq<CartLine>, restaurantId: int)
    requires restaurantId in RestaurantIds(lines)
    ensures Filter(lines, AtRestaurant(restaurantId)) != []
  {
    var i :| 0 <= i < |lines| && lines[i].entry.restaurantId == restaurantId;
    FilterMembers(lines, AtRestaurant(restaurantId));
    assert lines[i] in Filter(lines, AtRestaurant(restaurantId));
  }

  /** A restaurant's group: header from its first row, its rows in join order, their amount. */
  ghost function GroupOf(lines: seq<CartLine>, restaurantId: int): (g: CartGroup)
    requires restaurantId in RestaurantIds(lines)
  {
    GroupNonEmpty(lines, restaurantId);
    var items := Filter(lines, AtRestaurant(restaurantId));
    var first := items[0].restaurant;
    CartGroup(first.name, first.address, first.lat, first.lon, items, Amount(items))
  }

  /**
   * One step of the grouping loop: the row's restaurant gets a group with
   * the row's restaurant columns if it has none yet, and the row is appended
   * to that group and its total added to the group's subtotal.
   */
  function AddLine(groups: map<int, CartGroup>, l: CartLine): map<int, CartGroup> {
    var r := l.entry.restaurantId;
    var group := if r in groups then groups[r]
                 else CartGroup(l.restaurant.name, l.restaurant.address, l.restaurant.lat, l.restaurant.lon, [], 0.0);
    groups[r := group.(items := group.items + [l], subtotal := group.subtotal + LineTotal(l))]
  }

  /** `AddLine` on a group already picked out for the row's restaurant. */
  lemma AddLineTo(groups: map<int, CartGroup>, l: CartLine, group: CartGroup)
    requires group == if l.entry.restaurantId in groups then groups[l.entry.restaurantId]
                      else CartGroup(l.restaurant.name, l.restaurant.address, l.restaurant.lat, l.restaurant.lon, [], 0.0)
    ensures AddLine(groups, l)
         == groups[l.entry.restaurantId := group.(items := group.items + [l], subtotal := group.subtotal + LineTotal(l))]
  {
  }

  /** The dictionary the grouping loop has built after the rows `lines`. */
  ghost function Grouped(lines: seq<CartLine>): map<int, CartGroup>
    decreases |lines|
  {
    if lines == [] then map[]
    else AddLine(Grouped(lines[..|lines| - 1]), lines[|lines| - 1])
  }

  lemma GroupedSnoc(lines: seq<CartLine>, l: CartLine)
    ensures Grouped(lines + [l]) == AddLine(Grouped(lines), l)
  {
    assert (lines + [l])[..|lines|] == lines;
  }

  /** The dictionary has one key per restaurant met. */
  lemma {:induction false} GroupedKeys(lines: seq<CartLine>)
    ensures Grouped(lines).Keys == RestaurantIds(lines)
    decreases |lines|
  {
    if lines != [] {
      var init, l := lines[..|lines| - 1], lines[|lines| - 1];
      assert lines == init + [l];
      GroupedKeys(init);
      GroupedSnoc(init, l);
      RestaurantIdsSnoc(init, l);
    }
  }

  /** A row of a restaurant already met leaves the other groups alone. */
  lemma GroupOfOther(lines: seq<CartLine>, l: CartLine, r: int)
    requires r in RestaurantIds(lines) && r != l.entry.restaurantId
    ensures r in RestaurantIds(lines + [l]) && GroupOf(lines + [l], r) == GroupOf(lines, r)
  {
    RestaurantIdsSnoc(lines, l);
    FilterSnoc(lines, l, AtRestaurant(r));
  }

  /** A row of a restaurant already met is appended to its group and added to its subtotal. */
  lemma GroupOfGrow(lines: seq<CartLine>, l: CartLine)
    requires l.entry.restaurantId in RestaurantIds(lines)
    ensures var r, g := l.entry.restaurantId, GroupOf(lines, l.entry.restaurantId);
            r in RestaurantIds(lines + [l])
            && GroupOf(lines + [l], r) == g.(items := g.items + [l], subtotal := g.subtotal + LineTotal(l))
  {
    var r := l.entry.restaurantId;
    RestaurantIdsSnoc(lines, l);
    GroupNonEmpty(lines, r);
    var before := Filter(lines, AtRestaurant(r));
    FilterSnoc(lines, l, AtRestaurant(r));
    assert Filter(lines + [l], AtRestaurant(r)) == before + [l];
    assert (before + [l])[0] == before[0];
    AmountSnoc(before, l);
  }

  /** The first row of a restaurant opens its group with that row's restaurant columns. */
  lemma GroupOfNew(lines: seq<CartLine>, l: CartLine)
    requires l.entry.restaurantId !in RestaurantIds(lines)
    ensures l.entry.restaurantId in RestaurantIds(lines + [l])
    ensures GroupOf(lines + [l], l.entry.restaurantId)
         == CartGroup(l.restaurant.name, l.restaurant.address, l.restaurant.lat, l.restaurant.lon, [l], 0.0 + LineTotal(l))
  {
    var r := l.entry.restaurantId;
    RestaurantIdsSnoc(lines, l);
    FilterKeepsNone(lines, AtRestaurant(r));
    FilterSnoc(lines, l, AtRestaurant(r));
    assert Filter(lines + [l], AtRestaurant(r)) == [l];
    assert [l][..0] == [];
    assert Amount([l]) == 0.0 + LineTotal(l);
  }

  /**
   * The loop's dictionary holds one group per restaurant of `lines`, and
   * each group is that restaurant's rows with their amount.
   */
  lemma {:induction false} GroupedIsGroupOf(lines: seq<CartLine>)
    ensures Grouped(lines).Keys == RestaurantIds(lines)
    ensures forall r :: r in Grouped(lines) ==> Grouped(lines)[r] == GroupOf(lines, r)
    decreases |lines|
  {
    GroupedKeys(lines);
    if lines != [] {
      var init, l := lines[..|lines| - 1], lines[|lines| - 1];
      assert lines == init + [l];
      GroupedIsGroupOf(init);
      GroupedSnoc(init, l);
      forall r | r in Grouped(lines) ensures Grouped(lines)[r] == GroupOf(lines, r) {
        AddLineIsGroupOf(init, l, Grouped(init), r);
      }
    }
  }

  /** One grouping step keeps every group equal to its restaurant's `GroupOf`. */
  lemma AddLineIsGroupOf(lines: seq<CartLine>, l: CartLine, groups: map<int, CartGroup>, r: int)
    requires groups.Keys == RestaurantIds(lines)
    requires forall r :: r in groups ==> groups[r] == GroupOf(lines, r)
    requires r in AddLine(groups, l)
    ensures r in RestaurantIds(lines + [l])
    ensures AddLine(groups, l)[r] == GroupOf(lines + [l], r)
  {
    RestaurantIdsSnoc(lines, l);
    if r != l.entry.restaurantId {
      GroupOfOther(lines, l, r);
    } else if r in groups {
      GroupOfGrow(lines, l);
    } else {
      GroupOfNew(lines, l);
    }
  }

  /** Σ of the groups' amounts, over restaurant identifiers `ids`. */
  function GroupAmounts(lines: seq<CartLine>, ids: seq<int>): real
    decreases |ids|
  {
    if ids == [] then 0.0
    else GroupAmounts(lines, ids[..|ids| - 1]) + Amount(Filter(lines, AtRestaurant(ids[|ids| - 1])))
  }

  /** Σ of the subtotals of `groups`, in the order `order`. */
  function SumSubtotals(order: seq<int>, groups: map<int, CartGroup>): real
    requires forall i :: 0 <= i < |order| ==> order[i] in groups
    decreases |order|
  {
    if order == [] then 0.0
    else SumSubtotals(order[..|order| - 1], groups) + groups[order[|order| - 1]].subtotal
  }

  lemma {:induction false} GroupAmountsSnoc(lines: seq<CartLine>, l: CartLine, ids: seq<int>)
    requires forall i, j :: 0 <= i < j < |ids| ==> ids[i] != ids[j]
    ensures GroupAmounts(lines + [l], ids)
         == GroupAmounts(lines, ids) + (if l.entry.restaurantId in ids then LineTotal(l) else 0.0)
    decreases |ids|
  {
    if ids != [] {
      var init, r := ids[..|ids| - 1], ids[|ids| - 1];
      assert ids == init + [r];
      GroupAmountsSnoc(lines, l, init);
      FilterSnoc(lines, l, AtRestaurant(r));
      var before := Filter(lines, AtRestaurant(r));
      if l.entry.restaurantId == r {
        AmountSnoc(before, l);
        assert l.entry.restaurantId !in init;
        assert Amount(Filter(lines + [l], AtRestaurant(r))) == Amount(before) + LineTotal(l);
      } else {
        assert Filter(lines + [l], AtRestaurant(r)) == before;
        assert (l.entry.restaurantId in ids) == (l.entry.restaurantId in init);
      }
    }
  }

  /** A restaurant met for the first time has just the new row's amount. */
  lemma NewGroupAmount(lines: seq<CartLine>, l: CartLine)
    requires l.entry.restaurantId !in RestaurantIds(lines)
    ensures Amount(Filter(lines + [l], AtRestaurant(l.entry.restaurantId))) == LineTotal(l)
  {
    var p := AtRestaurant(l.entry.restaurantId);
    FilterKeepsNone(lines, p);
    FilterSnoc(lines, l, p);
    assert Filter(lines + [l], p) == [l];
    assert [l][..0] == [];
  }

  /** The amount of a cart is the sum of its restaurant groups' amounts. */
  lemma {:induction false} AmountByRestaurant(lines: seq<CartLine>)
    ensures Amount(lines) == GroupAmounts(lines, FirstSeen(lines))
    decreases |lines|
  {
    if lines != [] {
      var init, last := lines[..|lines| - 1], lines[|lines| - 1];
      assert lines == init + [last];
      AmountByRestaurant(init);
      AmountSnoc(init, last);
      FirstSeenSnoc(init, last);
      var ids := FirstSeen(init);
      var r := last.entry.restaurantId;
      GroupAmountsSnoc(init, last, ids);
      if r !in ids {
        NewGroupAmount(init, last);
        assert (ids + [r])[..|ids|] == ids;
        assert GroupAmounts(lines, ids + [r]) == GroupAmounts(lines, ids) + LineTotal(last);
      }
    }
  }

  /** Summing the summary's subtotals is summing the groups' amounts. */
  lemma {:induction false} SumSubtotalsOfGroups(lines: seq<CartLine>, order: seq<int>, groups: map<int, CartGroup>)
    requires forall i :: 0 <= i < |order| ==> order[i] in groups && order[i] in RestaurantIds(lines)
    requires forall i :: 0 <= i < |order| ==> groups[order[i]] == GroupOf(lines, order[i])
    ensures SumSubtotals(order, groups) == GroupAmounts(lines, order)
    decreases |order|
  {
    if order != [] {
      SumSubtotalsOfGroups(lines, order[..|order| - 1], groups);
    }
  }

  /** What the grouping loop has built after all of `lines`, in terms of the groups' definition. */
  lemma GroupedSummary(lines: seq<CartLine>)
    ensures Grouped(lines).Keys == RestaurantIds(lines)
    ensures forall r :: r in Grouped(lines) ==> Grouped(lines)[r] == GroupOf(lines, r)
    ensures forall i :: 0 <= i < |FirstSeen(lines)| ==> FirstSeen(lines)[i] in Grouped(lines)
    ensures Amount(lines) == SumSubtotals(FirstSeen(lines), Grouped(lines))
    ensures lines == [] ==> Grouped(lines) == map[] && FirstSeen(lines) == [] && Amount(lines) == 0.0
  {
    GroupedIsGroupOf(lines);
    AmountByRestaurant(lines);
    SumSubtotalsOfGroups(lines, FirstSeen(lines), Grouped(lines));
  }

  /**
   * The grouping loop of `get_cart`. Each joined row lands in its
   * restaurant's group, created with the restaurant's name, address and
   * coordinates the first time the restaurant is met; the group's subtotal
   * and the total grow by the row's price × quantity.
   */
  method GroupLines(cartItems: seq<CartLine>)
    returns (restaurantsInCart: map<int, CartGroup>, order: seq<int>, totalAmount: real)
    ensures restaurantsInCart == Grouped(cartItems)
    ensures order == FirstSeen(cartItems)
    ensures totalAmount == Amount(cartItems)
  {
    restaurantsInCart, order, totalAmount := map[], [], 0.0;
    for i := 0 to |cartItems|
      invariant restaurantsInCart == Grouped(cartItems[..i])
      invariant order == FirstSeen(cartItems[..i])
      invariant totalAmount == Amount(cartItems[..i])
    {
      var item := cartItems[i];
      var restaurantId := item.entry.restaurantId;
      ghost var prefix := cartItems[..i];
      assert cartItems[..i + 1] == prefix + [item];
      GroupedKeys(prefix);
      GroupedSnoc(prefix, item);
      AmountSnoc(prefix, item);
      FirstSeenSnoc(prefix, item);
      ghost var groups := restaurantsInCart;
      var group;
      if restaurantId !in restaurantsInCart {
        group := CartGroup(item.restaurant.name, item.restaurant.address, item.restaurant.lat, item.restaurant.lon, [], 0.0);
        order := order + [restaurantId];
      } else {
        group := restaurantsInCart[restaurantId];
      }
      var itemTotal := LineTotal(item);
      AddLineTo(groups, item, group);
      restaurantsInCart := restaurantsInCart[restaurantId := group.(items := group.items + [item],
                                                                   subtotal := group.subtotal + itemTotal)];
      totalAmount := totalAmount + itemTotal;
    }
    assert cartItems[..|cartItems|] == cartItems;
  }

  /**
   * `get_cart`: the user's joined rows, grouped by restaurant in the order
   * the restaurants are first met, with a subtotal per group and the grand
   * total. `total_items` counts rows, not quantities.
   */
  method GetCart(cart: seq<CartEntry>, menu: seq<MenuItem>, restaurants: seq<Restaurant>, userId: int)
    returns (summary: CartSummary)
    ensures var lines := JoinLines(cart, menu, restaurants, userId);
            && summary.totalItems == |lines|
            && summary.order == FirstSeen(lines)
            && summary.restaurants.Keys == RestaurantIds(lines)
            && (forall r :: r in summary.restaurants ==> summary.restaurants[r] == GroupOf(lines, r))
            && summary.totalAmount == Amount(lines)
    ensures forall i :: 0 <= i < |summary.order| ==> summary.order[i] in summary.restaurants
    ensures summary.totalAmount == SumSubtotals(summary.order, summary.restaurants)
    ensures JoinLines(cart, menu, restaurants, userId) == [] ==>
              summary.restaurants == map[] && summary.order == [] && summary.totalAmount == 0.0 && summary.totalItems == 0
  {
    var cartItems := JoinLines(cart, menu, restaurants, userId);
    var restaurantsInCart, order, totalAmount := GroupLines(cartItems);
    GroupedSummary(cartItems);
    summary := CartSummary(restaurantsInCart, order, totalAmount, |cartItems|);
  }
}
