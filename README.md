# Food delivery backend: a Dafny model

This project models the data logic of the food delivery API in
`backend/app.py`. The API reads and writes three SQLite tables:
`restaurants`, `menu` and `cart`. Each table is modelled as a sequence of
rows in storage (rowid) order, and each SQL statement becomes an operation
on that sequence. A `WHERE` is a filter, a `fetchone()` is "first match",
an `UPDATE` is a pointwise change and an `INSERT` is an append.

The handlers modelled are:

- `calculate_delivery_time`
- the three catalogue reads: `get_restaurants`, `get_restaurant_details`
  and `get_menu`
- the cart table with its three writes: `add_to_cart`, `remove_from_cart`
  and `clear_cart`
- the cart view `get_cart`
- the multi-stop route `calculate_route`

Modules:

- `Wrappers`: `Option` and `Result`.
- `Seqs`: filter, first match and distinct keys over sequences.
- `Sorting`: a stable sort by key.
  - It stands both for Python's `list.sort(key=...)` and for SQL `ORDER BY`.
  - It is proved to give a sorted permutation of its input.
  - It is proved stable: rows with equal keys keep their input order.
- `Schema`: the three row types.
- `Geo`: the delivery-time estimate. The haversine distance and `round(x, 1)`
  are function parameters.
- `Catalog`: the listing, the restaurant page and the menu.
- `Cart`: the `cart` table.
  - `CartTable` is a class holding the rows and the next AUTOINCREMENT
    identifier.
  - Its methods change the table in place.
  - Each method is proved against a function on rows that specifies the
    SQL statement.
  - The class invariant covers row identifiers only.
    - The table has no UNIQUE constraint on (user, item), so a table could
      already hold two rows for one pair.
    - "At most one row per (user, item)" is therefore stated as preserved:
      if it held before a write, it holds after.
- `CartView`: `get_cart`, that is the join, the grouping by restaurant and
  the totals.
- `Route`: `calculate_route`.

Handler inputs are plain parameters. Request defaults are explicit:

- the user is 1 when none is given;
- the quantity is 1 when none is given;
- a missing query parameter is `None`.

## Model

| member | source | states |
|---|---|---|
| `Geo.Trunc` | backend/app.py:34 | `int()` on a float keeps the integer part, truncating toward zero; for a non-negative argument this is the floor |
| `Geo.TruncMonotone` | backend/app.py:34 | truncation preserves order |
| `Geo.DeliveryTime` | backend/app.py:31-34 | the estimate is base + 2·distance truncated: it lies within one minute below that value whenever that value is non-negative |
| `Geo.DeliveryTimeAtZero` | backend/app.py:31-34 | at distance 0 the estimate is exactly the base time, for every integer base |
| `Geo.DeliveryTimeMonotone` | backend/app.py:31-34 | the estimate never decreases as the distance grows |
| `Geo.DeliveryTimeAtLeastBase` | backend/app.py:31-34 | over a non-negative distance the estimate is at least the base time |
| `Geo.DeliveryTimeDefaults` | backend/app.py:31-34 | with the default base of 20: 20 at 0 km, 40 at 10 km, 25 at 2.75 km |
| `Seqs.FindFirst` | backend/app.py:111-113 | `fetchone()` after a `WHERE`: the index of the first matching row, or none exactly when no row matches |
| `Seqs.FilterMembers` | backend/app.py:46 | a `WHERE` keeps only rows of the table that satisfy the condition, and keeps every such row |
| `Seqs.FilterCount` | backend/app.py:99 | a `WHERE` keeps each satisfying row as many times as it occurs and drops every other row |
| `Catalog.IsSubstringAt` | backend/app.py:46 | the substring test used for `LIKE '%filter%'` holds exactly when the filter occurs at some position of the cuisine |
| `Catalog.SelectByCuisine` | backend/app.py:45-48 | the selected rows are exactly the stored rows whose cuisine contains the filter; an empty filter selects every row |
| `Catalog.SelectByCuisineIsLike` | backend/app.py:45-48 | skipping the `LIKE` for an empty filter selects the same rows, in the same order, as running it |
| `Catalog.KeyLeTotalOrder` | backend/app.py:64 | the sort key `x.get('distance', inf)` is totally ordered, with the missing distance last |
| `Catalog.GetRestaurants` | backend/app.py:36-67 | same number of rows as selected. Without a truthy latitude and longitude: the selected rows unannotated, in storage order. With them: a permutation of the annotated rows, each with its rounded distance and an estimate from its own `delivery_time`, sorted by distance, rows of equal distance in storage order |
| `Catalog.GetMenu` | backend/app.py:95-102 | the menu of a restaurant holds every one of its items as often as stored and no other item; an unknown restaurant has an empty menu |
| `Catalog.StrLeTotalOrder` | backend/app.py:79 | `ORDER BY category` compares text by code point, which is a total order |
| `Sorting.SortBySorted` | backend/app.py:79 | the sort's result is in ascending key order (and, by its own contract, a permutation of its input) |
| `Sorting.SortByStable` | backend/app.py:64 | for every key, the rows with that key leave the sort in the order they entered it |
| `Catalog.SortByCategoryKeepsGroups` | backend/app.py:79-80 | `ORDER BY category` changes neither the set of categories nor, within a category, which items appear and in what order |
| `Catalog.AddItemIsFilter` | backend/app.py:84-88 | one step of the grouping loop keeps every list equal to its category's items in input order |
| `Catalog.ByCategoryIsFilter` | backend/app.py:82-88 | after the grouping loop the keys are exactly the categories present and each list is its category's items in input order |
| `Catalog.CategoryOrderIsCategories` | backend/app.py:83-88 | the dictionary's key order lists each category present exactly once, and nothing else |
| `Catalog.CategoryOrderAscending` | backend/app.py:79-88 | over items read in category order, the categories are met, and so become keys, in ascending order |
| `Catalog.GroupByCategory` | backend/app.py:82-90 | the loop's dictionary has the categories present as keys, and each key's list is exactly that category's items, in input order. Its key order holds each key exactly once, and is ascending when the items come in category order |
| `Catalog.GetRestaurantDetails` | backend/app.py:69-93 | unknown identifier: a not-found error. Otherwise the first row with that identifier, with its menu grouped by category: the keys are exactly the categories of its items, and each list is that category's items in storage order. The dictionary holds its keys in strictly ascending category order |
| `Cart.SetQuantity` | backend/app.py:118 | `UPDATE ... WHERE id=?` changes the quantity of the rows with that identifier and leaves every other row and field as it was |
| `Cart.UpsertMerge` | backend/app.py:115-118 | when a row for (user, item) exists, the first one's quantity grows by exactly the requested quantity; no row is added and every other row is unchanged, its restaurant included |
| `Cart.UpsertInsert` | backend/app.py:119-124 | when no row for (user, item) exists, exactly one row (new identifier, user, restaurant, item, quantity) is appended |
| `Cart.UpsertKeepsInvariants` | backend/app.py:111-124 | adding keeps row identifiers distinct and below the counter, and keeps at most one row per (user, item) if that held before |
| `Cart.AddTwice` | backend/app.py:111-124 | adding an item twice to a cart without it leaves one row with the summed quantity and the first request's restaurant |
| `Cart.RemoveRows` | backend/app.py:182 | the delete removes exactly the rows matching both user and item and keeps every other row as often as stored |
| `Cart.RemoveRowsKeepsOthers` | backend/app.py:182 | every other (user, item)'s rows keep their values and relative order |
| `Cart.RemoveRowsKeepsOtherUsers` | backend/app.py:182 | every other user's rows keep their values and relative order |
| `Cart.RemoveRowsAbsent` | backend/app.py:182 | removing an absent (user, item) changes nothing |
| `Cart.RemoveRowsIdempotent` | backend/app.py:182 | removing twice is removing once |
| `Cart.ClearRows` | backend/app.py:194 | the delete removes exactly the user's rows and keeps every other row as often as stored |
| `Cart.ClearRowsEmptiesUser` | backend/app.py:194 | after clearing, the user has no rows |
| `Cart.ClearRowsKeepsOtherUsers` | backend/app.py:194 | every other user's rows keep their values and relative order |
| `Cart.ClearRowsAbsent` | backend/app.py:194 | clearing a user without rows changes nothing |
| `Cart.ClearRowsIdempotent` | backend/app.py:194 | clearing twice is clearing once |
| `Cart.FilterKeepsInvariants` | backend/app.py:182-194 | deleting rows keeps identifiers distinct and below the counter, and keeps at most one row per (user, item) if that held before |
| `Cart.CartTable.constructor` | backend/init_db.py:37-44 | a new cart table has no rows and hands out identifier 1 first |
| `Cart.CartTable.AddToCart` | backend/app.py:104-128 | the rows become the upsert of the old rows (user and quantity defaulting to 1); the counter advances only on an insert; the table invariant and the one-row-per-(user, item) property are kept |
| `Cart.CartTable.RemoveFromCart` | backend/app.py:176-186 | the rows become the old rows without the user's rows for that item (user defaulting to 1); the counter and both invariants are kept |
| `Cart.CartTable.ClearCart` | backend/app.py:188-198 | the rows become the old rows without the user's rows (user defaulting to 1); the counter and both invariants are kept |
| `CartView.JoinEntry` | backend/app.py:139-141 | a cart row joins exactly when both its item and its restaurant exist; the joined row carries that item and that restaurant |
| `CartView.JoinLines` | backend/app.py:136-145 | every joined row is one of the user's cart rows with its own item and restaurant |
| `CartView.JoinLinesEntries` | backend/app.py:136-145 | the cart rows behind the joined rows are exactly the user's rows whose item and restaurant both exist, each once, in cart order |
| `CartView.JoinLinesNoRows` | backend/app.py:142 | a user with no cart rows has an empty join |
| `CartView.ClearedCartJoinsNothing` | backend/app.py:194 | after `clear_cart` the user's cart view is empty |
| `CartView.FirstSeen` | backend/app.py:151-161 | the dictionary's key order lists each restaurant of the joined rows exactly once, and nothing else |
| `CartView.AddLineIsGroupOf` | backend/app.py:152-165 | one step of the grouping loop keeps every group equal to its restaurant's rows, header and subtotal |
| `CartView.GroupedIsGroupOf` | backend/app.py:151-165 | after the loop the keys are exactly the restaurants of the joined rows. Each group has the name, address and coordinates of its first row, its rows in join order, and a subtotal equal to the sum of price × quantity over them |
| `CartView.AmountByRestaurant` | backend/app.py:163-166 | the running total equals the sum, over restaurants in first-seen order, of each restaurant's price × quantity |
| `CartView.SumSubtotalsOfGroups` | backend/app.py:165-172 | summing the groups' subtotals in key order gives the sum of the groups' amounts |
| `CartView.GroupedSummary` | backend/app.py:151-173 | after all rows: the groups as above, every key in first-seen order is a group, the total equals the sum of the subtotals, and no rows give no groups and total 0 |
| `CartView.GroupLines` | backend/app.py:147-166 | the loop computes the dictionary, key order and running total that the grouping step function defines |
| `CartView.GetCart` | backend/app.py:130-174 | the summary groups the joined rows by restaurant as above; `total_amount` is the sum of price × quantity and also the sum of the subtotals; `total_items` counts joined rows, not quantities; an empty join gives no groups, 0 and 0 |
| `Route.LegsFrom` | backend/app.py:211-229 | the first leg is measured from the user's position, every later leg from the previous stop |
| `Route.LegsConcat` | backend/app.py:211-229 | a tour split at a stop: the legs after the split are measured from where the first part ends |
| `Route.LegsPrefix` | backend/app.py:211-229 | a leg depends only on the stops up to it |
| `Route.MinutesBounds` | backend/app.py:215-226 | over non-negative legs the total time is at least 20 minutes per stop, at most that plus 2 minutes per km, and loses less than a minute per leg to truncation |
| `Route.CalculateRoute` | backend/app.py:200-235 | one leg per stop, in input order. Each leg has the stop's name and coordinates, its rounded distance from the previous position, and its estimate at base 20. The distance total is the rounded sum of the unrounded legs. The time total is the sum of the legs' estimates. An empty list gives an empty route and zero time |

## Left out

- HTTP and JSON:
  - Flask routing and request parsing are not modelled. Handlers take plain parameters. A malformed `user_id` query value, which Flask turns into the default, arrives as "not given".
  - `jsonify` is not modelled, including its key sorting and the conversion of integer dictionary keys to strings. `CartSummary.order` records the dictionary's insertion order.
  - CORS and the startup banner are not modelled.
- SQLite connections and concurrency: opening, committing and closing are not modelled. The window between the SELECT and the UPDATE/INSERT in `add_to_cart` is a concurrency matter and is left out.
- Distance and rounding: `calculate_distance` (haversine, floating point) and `round(x, 1)` are function parameters with no assumed properties. Every statement holds for any distance and rounding function.
- Number representation:
  - Floats are modelled as exact reals, so prices, subtotals and totals carry no rounding error.
  - Integers are unbounded, as in Python.
  - NaN and infinities are not modelled.
- `calculate_delivery_time` truncates toward zero, because the code calls `int()`. The model follows the code; a floor would differ only for negative arguments.
- `LIKE`: the cuisine filter is plain, case-sensitive substring containment. SQLite's ASCII case folding is not modelled, and neither are `%` and `_` inside the filter acting as wildcards.
- SQL ordering:
  - Rows without `ORDER BY` come back in storage order.
  - Ties under `ORDER BY category` come back in storage order.
  - The join lists cart rows in cart order.
  - SQLite does not promise any of these; the model assumes them.
- The join takes the first menu row and the first restaurant row with the identifier. Both identifiers are primary keys, so there is at most one of each.
- NULL columns and missing JSON keys (`data['item_id']` absent, `user_id: null`) are not modelled. Every row field is present.
- `get_restaurant_details` on an unknown identifier: the code crashes in `dict(None)`. The model returns a not-found error instead of the crash.
- `backend/init_db.py`: the seed data and its random generation are not modelled. Only the table shapes are used, and the cart starts empty.
- `Catalog.GetMenu`: its contract states the items and their multiplicities, not their storage order. The order is that of `Filter`, whose order facts are the `Seqs` and `Cart` lemmas.
- `Route.CalculateRoute`: for an empty list the distance total is `round1(0.0)`, not 0. Nothing is assumed about the rounding function.
