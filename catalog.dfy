/**
 * Read-only catalogue queries: the restaurant listing with its cuisine
 * filter and distance ordering, a restaurant with its menu grouped by
 * category, and the plain menu of a restaurant. Tables are sequences of rows
 * in storage order.
 */
module Catalog {
  import opened Wrappers
  import opened Seqs
  import opened Sorting
  import opened Schema
  import opened Geo

  // ---------------------------------------------------------------------
  // Cuisine filter
  // ---------------------------------------------------------------------

  /** `sub` occurs in `s` as a contiguous run of characters. */
  function IsSubstring(sub: string, s: string): bool
    decreases |s|
  {
    sub <= s || (s != [] && IsSubstring(sub, s[1..]))
  }

  /** `sub` occurs in `s` starting at position `i`. */
  ghost predicate OccursAt(sub: string, s: string, i: int) {
    0 <= i && i + |sub| <= |s| && s[i..i + |sub|] == sub
  }

  /** `IsSubstring` agrees with the positional definition of a substring. */
  lemma {:induction false} IsSubstringAt(sub: string, s: string)
    ensures IsSubstring(sub, s) <==> exists i :: OccursAt(sub, s, i)
    decreases |s|
  {
    if sub <= s {
      assert OccursAt(sub, s, 0);
    } else if s == [] {
    } else {
      IsSubstringAt(sub, s[1..]);
      if IsSubstring(sub, s[1..]) {
        var i :| OccursAt(sub, s[1..], i);
        assert s[i + 1..i + 1 + |sub|] == s[1..][i..i + |sub|];
        assert OccursAt(sub, s, i + 1);
      }
      if exists i :: OccursAt(sub, s, i) {
        var i :| OccursAt(sub, s, i);
        assert i != 0;
        assert s[1..][i - 1..i - 1 + |sub|] == s[i..i + |sub|];
        assert OccursAt(sub, s[1..], i - 1);
      }
    }
  }

  /** `cuisine_type LIKE '%filter%'`, read as plain substring containment. */
  function CuisineLike(filter: string): Restaurant -> bool {
    (r: Restaurant) => IsSubstring(filter, r.cuisineType)
  }

  /** The rows the listing query selects: all of them for an empty filter. */
  function SelectByCuisine(store: seq<Restaurant>, filter: string): (rows: seq<Restaurant>)
    ensures forall i :: 0 <= i < |rows| ==> rows[i] in store && IsSubstring(filter, rows[i].cuisineType)
    ensures forall i :: 0 <= i < |store| && IsSubstring(filter, store[i].cuisineType) ==> store[i] in rows
  {
    if filter != [] then
      FilterMembers(store, CuisineLike(filter));
      Filter(store, CuisineLike(filter))
    else store
  }

  /**
   * Skipping the `LIKE` for an empty filter changes nothing: every cuisine
   * contains the empty string, so both branches select the same rows.
   */
  lemma SelectByCuisineIsLike(store: seq<Restaurant>, filter: string)
    ensures SelectByCuisine(store, filter) == Filter(store, CuisineLike(filter))
  {
    if filter == [] {
      FilterKeepsAll(store, CuisineLike(filter));
    }
  }

  // ---------------------------------------------------------------------
  // Restaurant listing
  // ---------------------------------------------------------------------

  /** The two fields a listing row gains when the user's location is known. */
  datatype Estimate = Estimate(distance: real, estimatedDelivery: int)

  /** A listing row: the restaurant, with `distance` and `estimated_delivery` when located. */
  datatype Listing = Listing(restaurant: Restaurant, estimate: Option<Estimate>)

  /** `user_lat and user_lon`: both given and neither is zero. */
  predicate Located(userLat: Option<real>, userLon: Option<real>) {
    userLat.Some? && userLat.value != 0.0 && userLon.Some? && userLon.value != 0.0
  }

  /** A row annotated with its rounded distance and its delivery estimate from its own base time. */
  function Annotate(r: Restaurant, userLat: real, userLon: real, dist: DistanceFn, round1: RoundFn): Listing {
    var d := dist(userLat, userLon, r.lat, r.lon);
    Listing(r, Some(Estimate(round1(d), DeliveryTime(d, r.deliveryTime))))
  }

  /** Every row of `rows` annotated, in the same order. */
  ghost function Annotated(rows: seq<Restaurant>, userLat: real, userLon: real, dist: DistanceFn, round1: RoundFn): seq<Listing> {
    seq(|rows|, i requires 0 <= i < |rows| => Annotate(rows[i], userLat, userLon, dist, round1))
  }

  /** The sort key `x.get('distance', float('inf'))`. */
  datatype SortKey = Finite(km: real) | Infinity

  predicate KeyLe(a: SortKey, b: SortKey) {
    b.Infinity? || (a.Finite? && a.km <= b.km)
  }

  function DistanceKey(l: Listing): SortKey {
    if l.estimate.Some? then Finite(l.estimate.value.distance) else Infinity
  }

  lemma KeyLeTotalOrder()
    ensures TotalOrder(KeyLe)
  {
  }

  /**
   * `get_restaurants`. Without a location the selected rows come back as
   * they are, in storage order. With one, every row is annotated and the
   * list is stably sorted by rounded distance.
   */
  method GetRestaurants(store: seq<Restaurant>, cuisineFilter: string, userLat: Option<real>, userLon: Option<real>,
                        dist: DistanceFn, round1: RoundFn)
    returns (listed: seq<Listing>)
    ensures |listed| == |SelectByCuisine(store, cuisineFilter)|
    ensures !Located(userLat, userLon) ==>
              forall i :: 0 <= i < |listed| ==> listed[i] == Listing(SelectByCuisine(store, cuisineFilter)[i], None)
    ensures Located(userLat, userLon) ==>
              multiset(listed) == multiset(Annotated(SelectByCuisine(store, cuisineFilter), userLat.value, userLon.value, dist, round1))
    ensures Located(userLat, userLon) ==> SortedBy(listed, DistanceKey, KeyLe)
    ensures Located(userLat, userLon) ==>
              forall k :: Filter(listed, HasKey(DistanceKey, k))
                       == Filter(Annotated(SelectByCuisine(store, cuisineFilter), userLat.value, userLon.value, dist, round1), HasKey(DistanceKey, k))
  {
    var rows := SelectByCuisine(store, cuisineFilter);
    var located := Located(userLat, userLon);
    listed := [];
    for i := 0 to |rows|
      invariant |listed| == i
      invariant forall j :: 0 <= j < i ==>
                  listed[j] == if located then Annotate(rows[j], userLat.value, userLon.value, dist, round1)
                               else Listing(rows[j], None)
    {
      var restaurant := rows[i];
      var estimate := None;
      if located {
        var d := dist(userLat.value, userLon.value, restaurant.lat, restaurant.lon);
        estimate := Some(Estimate(round1(d), DeliveryTime(d, restaurant.deliveryTime)));
      }
      listed := listed + [Listing(restaurant, estimate)];
    }
    if located {
      ghost var annotated := Annotated(rows, userLat.value, userLon.value, dist, round1);
      assert listed == annotated;
      KeyLeTotalOrder();
      listed := SortBy(listed, DistanceKey, KeyLe);
      SortBySorted(annotated, DistanceKey, KeyLe);
      forall k ensures Filter(listed, HasKey(DistanceKey, k)) == Filter(annotated, HasKey(DistanceKey, k)) {
        SortByStable(annotated, DistanceKey, KeyLe, k);
      }
    }
  }

  // ---------------------------------------------------------------------
  // Menu
  // ---------------------------------------------------------------------

  function MenuRestaurant(m: MenuItem): int { m.restaurantId }
  function Category(m: MenuItem): string { m.category }

  /** `get_menu`: the restaurant's items in storage order; empty for an unknown restaurant. */
  function GetMenu(menu: seq<MenuItem>, restaurantId: int): (items: seq<MenuItem>)
    ensures forall m :: multiset(items)[m] == if m.restaurantId == restaurantId then multiset(menu)[m] else 0
  {
    FilterCount(menu, HasKey(MenuRestaurant, restaurantId));
    Filter(menu, HasKey(MenuRestaurant, restaurantId))
  }

  /** Text order by code point, the order `ORDER BY` gives a text column by default. */
  predicate StrLe(a: string, b: string)
    decreases |a|
  {
    if a == [] then true
    else if b == [] then false
    else if a[0] != b[0] then a[0] < b[0]
    else StrLe(a[1..], b[1..])
  }

  lemma {:induction false} StrLeTotal(a: string, b: string)
    ensures StrLe(a, b) || StrLe(b, a)
    decreases |a|
  {
    if a != [] && b != [] && a[0] == b[0] {
      StrLeTotal(a[1..], b[1..]);
    }
  }

  lemma {:induction false} StrLeAntisymmetric(a: string, b: string)
    requires StrLe(a, b) && StrLe(b, a)
    ensures a == b
    decreases |a|
  {
    if a != [] && b != [] {
      StrLeAntisymmetric(a[1..], b[1..]);
      assert a == [a[0]] + a[1..] && b == [b[0]] + b[1..];
    }
  }

  lemma {:induction false} StrLeTransitive(a: string, b: string, c: string)
    requires StrLe(a, b) && StrLe(b, c)
    ensures StrLe(a, c)
    decreases |a|
  {
    if a != [] && b != [] && c != [] && a[0] == b[0] && b[0] == c[0] {
      StrLeTransitive(a[1..], b[1..], c[1..]);
    }
  }

  lemma StrLeTotalOrder()
    ensures TotalOrder(StrLe)
  {
    forall a, b ensures StrLe(a, b) || StrLe(b, a) {
      StrLeTotal(a, b);
    }
    forall a, b | StrLe(a, b) && StrLe(b, a) ensures a == b {
      StrLeAntisymmetric(a, b);
    }
    forall a, b, c | StrLe(a, b) && StrLe(b, c) ensures StrLe(a, c) {
      StrLeTransitive(a, b, c);
    }
  }

  /** The categories occurring among `items`. */
  ghost function Categories(items: seq<MenuItem>): set<string> {
    set m | m in items :: m.category
  }

  lemma CategoriesSnoc(items: seq<MenuItem>, item: MenuItem)
    ensures Categories(items + [item]) == Categories(items) + {item.category}
  {
    assert forall m :: m in items + [item] <==> m in items || m == item;
  }

  datatype CatalogError = RestaurantNotFound(restaurantId: int)

  /**
   * A restaurant with its menu keyed by category; `categoryOrder` is the
   * order in which the dictionary holds its keys.
   */
  datatype RestaurantDetail = RestaurantDetail(restaurant: Restaurant, menu: map<string, seq<MenuItem>>,
                                               categoryOrder: seq<string>)

  /** One step of the grouping loop: `item` is appended to its category's list, created when absent. */
  function AddItem(groups: map<string, seq<MenuItem>>, item: MenuItem): map<string, seq<MenuItem>> {
    var current := if item.category in groups then groups[item.category] else [];
    groups[item.category := current + [item]]
  }

  /** The dictionary the grouping loop has built after the items `items`. */
  ghost function ByCategory(items: seq<MenuItem>): map<string, seq<MenuItem>>
    decreases |items|
  {
    if items == [] then map[]
    else AddItem(ByCategory(items[..|items| - 1]), items[|items| - 1])
  }

  lemma ByCategorySnoc(items: seq<MenuItem>, item: MenuItem)
    ensures ByCategory(items + [item]) == AddItem(ByCategory(items), item)
  {
    assert (items + [item])[..|items|] == items;
  }

  /** The dictionary's key order after the items `items`: each category where it is first met. */
  function CategoryOrder(items: seq<MenuItem>): seq<string>
    decreases |items|
  {
    if items == [] then []
    else
      var order, category := CategoryOrder(items[..|items| - 1]), items[|items| - 1].category;
      if category in order then order else order + [category]
  }

  lemma CategoryOrderSnoc(items: seq<MenuItem>, item: MenuItem)
    ensures var order := CategoryOrder(items);
            CategoryOrder(items + [item]) == if item.category in order then order else order + [item.category]
  {
    assert (items + [item])[..|items|] == items;
  }

  /** The key order lists every category present exactly once, and nothing else. */
  lemma {:induction false} CategoryOrderIsCategories(items: seq<MenuItem>)
    ensures forall c :: c in CategoryOrder(items) <==> c in Categories(items)
    ensures forall i, j :: 0 <= i < j < |CategoryOrder(items)| ==> CategoryOrder(items)[i] != CategoryOrder(items)[j]
    decreases |items|
  {
    if items != [] {
      var init, item := items[..|items| - 1], items[|items| - 1];
      assert items == init + [item];
      CategoryOrderIsCategories(init);
      CategoryOrderSnoc(init, item);
      CategoriesSnoc(init, item);
    }
  }

  /**
   * Over items already in category order, the categories are met in
   * ascending order, so the key order is ascending.
   */
  lemma {:induction false} CategoryOrderAscending(items: seq<MenuItem>)
    requires SortedBy(items, Category, StrLe)
    ensures forall i, j :: 0 <= i < j < |CategoryOrder(items)| ==> StrLe(CategoryOrder(items)[i], CategoryOrder(items)[j])
    decreases |items|
  {
    if items != [] {
      var init, item := items[..|items| - 1], items[|items| - 1];
      assert items == init + [item];
      SortedByPrefix(items, Category, StrLe, |items| - 1);
      CategoryOrderAscending(init);
      CategoryOrderSnoc(init, item);
      var order := CategoryOrder(init);
      if item.category !in order {
        CategoryOrderIsCategories(init);
        forall i | 0 <= i < |order| ensures StrLe(order[i], item.category) {
          CategoryBeforeLast(items, order[i]);
        }
      }
    }
  }

  /** In items sorted by category, every category met before the last item is not above the last item's. */
  lemma CategoryBeforeLast(items: seq<MenuItem>, c: string)
    requires SortedBy(items, Category, StrLe)
    requires items != [] && c in Categories(items[..|items| - 1])
    ensures StrLe(c, items[|items| - 1].category)
  {
    var init := items[..|items| - 1];
    var m :| m in init && m.category == c;
    var k :| 0 <= k < |init| && init[k] == m;
    assert items[k] == m;
    assert Category(m) == c && Category(items[|items| - 1]) == items[|items| - 1].category;
  }

  /**
   * The grouping keeps one key per category present, and each key's list
   * is that category's items in input order.
   */
  lemma {:induction false} ByCategoryIsFilter(items: seq<MenuItem>)
    ensures ByCategory(items).Keys == Categories(items)
    ensures forall c :: c in ByCategory(items) ==> ByCategory(items)[c] == Filter(items, HasKey(Category, c))
    decreases |items|
  {
    if items != [] {
      var init, item := items[..|items| - 1], items[|items| - 1];
      assert items == init + [item];
      ByCategoryIsFilter(init);
      ByCategorySnoc(init, item);
      CategoriesSnoc(init, item);
      forall c | c in ByCategory(items) ensures ByCategory(items)[c] == Filter(items, HasKey(Category, c)) {
        AddItemIsFilter(init, item, ByCategory(init), c);
      }
    }
  }

  /** One grouping step keeps every list equal to its category's items. */
  lemma AddItemIsFilter(items: seq<MenuItem>, item: MenuItem, groups: map<string, seq<MenuItem>>, c: string)
    requires groups.Keys == Categories(items)
    requires forall c :: c in groups ==> groups[c] == Filter(items, HasKey(Category, c))
    requires c in AddItem(groups, item)
    ensures AddItem(groups, item)[c] == Filter(items + [item], HasKey(Category, c))
  {
    var p := HasKey(Category, c);
    FilterSnoc(items, item, p);
    assert Category(item) == item.category;
    if c == item.category && c !in groups {
      forall m | m in items ensures !p(m) {
        assert Category(m) == m.category;
        assert m.category in Categories(items);
      }
      FilterKeepsNone(items, p);
      assert AddItem(groups, item)[c] == [item];
    }
  }

  /**
   * The grouping loop of `get_restaurant_details`: each item is appended to
   * the list of its category, which is created when first met. The keys are
   * exactly the categories present and each list keeps the input order.
   */
  method GroupByCategory(items: seq<MenuItem>) returns (groups: map<string, seq<MenuItem>>, order: seq<string>)
    ensures groups.Keys == Categories(items)
    ensures forall c :: c in groups ==> groups[c] == Filter(items, HasKey(Category, c))
    ensures forall c :: c in order <==> c in groups
    ensures forall i, j :: 0 <= i < j < |order| ==> order[i] != order[j]
    ensures SortedBy(items, Category, StrLe) ==> forall i, j :: 0 <= i < j < |order| ==> StrLe(order[i], order[j])
  {
    groups, order := map[], [];
    for i := 0 to |items|
      invariant groups == ByCategory(items[..i])
      invariant order == CategoryOrder(items[..i])
    {
      var item := items[i];
      var category := item.category;
      assert items[..i + 1] == items[..i] + [item];
      ByCategorySnoc(items[..i], item);
      CategoryOrderSnoc(items[..i], item);
      var current;
      if category !in groups {
        current := [];
      } else {
        current := groups[category];
      }
      if category !in order {
        order := order + [category];
      }
      groups := groups[category := current + [item]];
    }
    assert items[..|items|] == items;
    ByCategoryIsFilter(items);
    CategoryOrderIsCategories(items);
    if SortedBy(items, Category, StrLe) {
      CategoryOrderAscending(items);
    }
  }

  /**
   * `ORDER BY category` changes neither the set of categories nor, within
   * one category, which items there are and in what order.
   */
  lemma SortByCategoryKeepsGroups(items: seq<MenuItem>)
    ensures Categories(SortBy(items, Category, StrLe)) == Categories(items)
    ensures forall c :: Filter(SortBy(items, Category, StrLe), HasKey(Category, c)) == Filter(items, HasKey(Category, c))
  {
    var sorted := SortBy(items, Category, StrLe);
    StrLeTotalOrder();
    forall c ensures Filter(sorted, HasKey(Category, c)) == Filter(items, HasKey(Category, c)) {
      SortByStable(items, Category, StrLe, c);
    }
    forall m ensures m in sorted <==> m in items {
      assert m in sorted <==> m in multiset(sorted);
      assert m in items <==> m in multiset(items);
    }
  }

  /**
   * `get_restaurant_details`. An unknown identifier is an error. Otherwise
   * the first row with that identifier comes back with its menu, read
   * `ORDER BY category` and grouped: the keys are exactly the categories
   * present, each category lists its items in storage order, and the
   * dictionary holds its keys in ascending category order.
   */
  method GetRestaurantDetails(restaurants: seq<Restaurant>, menu: seq<MenuItem>, restaurantId: int)
    returns (res: Result<RestaurantDetail, CatalogError>)
    ensures res.Failure? <==> forall i :: 0 <= i < |restaurants| ==> restaurants[i].id != restaurantId
    ensures res.Failure? ==> res.error == RestaurantNotFound(restaurantId)
    ensures res.Success? ==>
              exists i :: 0 <= i < |restaurants| && restaurants[i] == res.value.restaurant
                          && restaurants[i].id == restaurantId
                          && forall j :: 0 <= j < i ==> restaurants[j].id != restaurantId
    ensures res.Success? ==> res.value.menu.Keys == Categories(GetMenu(menu, restaurantId))
    ensures res.Success? ==>
              forall c :: c in res.value.menu ==>
                res.value.menu[c] == Filter(GetMenu(menu, restaurantId), HasKey(Category, c))
    ensures res.Success? ==> forall c :: c in res.value.categoryOrder <==> c in res.value.menu
    ensures res.Success? ==>
              forall i, j :: 0 <= i < j < |res.value.categoryOrder| ==>
                StrLe(res.value.categoryOrder[i], res.value.categoryOrder[j])
                && res.value.categoryOrder[i] != res.value.categoryOrder[j]
  {
    var found := FindFirst(restaurants, IsRestaurant(restaurantId));
    if found.None? {
      return Failure(RestaurantNotFound(restaurantId));
    }
    var restaurant := restaurants[found.value];
    var menuItems := SortBy(GetMenu(menu, restaurantId), Category, StrLe);
    StrLeTotalOrder();
    SortBySorted(GetMenu(menu, restaurantId), Category, StrLe);
    var menuByCategory, categoryOrder := GroupByCategory(menuItems);
    SortByCategoryKeepsGroups(GetMenu(menu, restaurantId));
    return Success(RestaurantDetail(restaurant, menuByCategory, categoryOrder));
  }
}
