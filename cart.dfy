/**
 * The `cart` table and the three handlers that change it: add (an update
 * of the quantity or an insert), remove one item of a user, and clear a
 * user's cart. Each SQL statement is a function on the sequence of rows;
 * `CartTable` holds the rows and the next row identifier and applies them.
 */
module Cart {
  import opened Wrappers
  import opened Seqs
  import opened Schema

  /** The quantity an add request uses when it names none. */
  const DefaultQuantity: int := 1

  function EntryId(e: CartEntry): int { e.id }
  function EntryKey(e: CartEntry): (int, int) { (e.userId, e.itemId) }

  /** `WHERE user_id=? AND item_id=?` */
  function IsEntry(userId: int, itemId: int): CartEntry -> bool {
    (e: CartEntry) => e.userId == userId && e.itemId == itemId
  }

  /** The rows a `DELETE ... WHERE user_id=? AND item_id=?` keeps. */
  function NotEntry(userId: int, itemId: int): CartEntry -> bool {
    (e: CartEntry) => !(e.userId == userId && e.itemId == itemId)
  }

  /** `WHERE user_id=?` */
  function OfUser(userId: int): CartEntry -> bool {
    (e: CartEntry) => e.userId == userId
  }

  /** The rows a `DELETE ... WHERE user_id=?` keeps. */
  function NotOfUser(userId: int): CartEntry -> bool {
    (e: CartEntry) => e.userId != userId
  }

  /** At most one row per (user_id, item_id): the invariant add maintains. */
  ghost predicate UniqueKeys(rows: seq<CartEntry>) {
    DistinctBy(rows, EntryKey)
  }

  /** Row identifiers are distinct and below the next identifier to hand out. */
  ghost predicate WellKeyed(rows: seq<CartEntry>, nextId: int) {
    DistinctBy(rows, EntryId) && forall i :: 0 <= i < |rows| ==> rows[i].id < nextId
  }

  // ---------------------------------------------------------------------
  // add_to_cart
  // ---------------------------------------------------------------------

  /** `UPDATE cart SET quantity=? WHERE id=?` */
  function SetQuantity(rows: seq<CartEntry>, id: int, quantity: int): (r: seq<CartEntry>)
    ensures |r| == |rows|
    ensures forall i :: 0 <= i < |rows| ==>
              r[i] == if rows[i].id == id then rows[i].(quantity := quantity) else rows[i]
    decreases |rows|
  {
    if rows == [] then []
    else [if rows[0].id == id then rows[0].(quantity := quantity) else rows[0]]
         + SetQuantity(rows[1..], id, quantity)
  }

  /**
   * The effect of `add_to_cart` on the table: if a row for (user, item)
   * exists, the first one's quantity grows by `quantity`, otherwise a new
   * row with identifier `newId` is appended.
   */
  function Upsert(rows: seq<CartEntry>, newId: int, userId: int, restaurantId: int, itemId: int, quantity: int)
    : seq<CartEntry>
  {
    match FindFirst(rows, IsEntry(userId, itemId))
    case Some(i) => SetQuantity(rows, rows[i].id, rows[i].quantity + quantity)
    case None => rows + [CartEntry(newId, userId, restaurantId, itemId, quantity)]
  }

  /**
   * Merge case: when row `i` is the first (user, item) row, only its
   * quantity changes, by exactly `quantity`; its restaurant stays, no row
   * is added, and every other row is unchanged.
   */
  lemma UpsertMerge(rows: seq<CartEntry>, newId: int, userId: int, restaurantId: int, itemId: int, quantity: int, i: nat)
    requires DistinctBy(rows, EntryId)
    requires i < |rows| && rows[i].userId == userId && rows[i].itemId == itemId
    requires forall j :: 0 <= j < i ==> !(rows[j].userId == userId && rows[j].itemId == itemId)
    ensures Upsert(rows, newId, userId, restaurantId, itemId, quantity)
         == rows[i := rows[i].(quantity := rows[i].quantity + quantity)]
  {
    var found := FindFirst(rows, IsEntry(userId, itemId));
    assert IsEntry(userId, itemId)(rows[i]);
    assert found.Some?;
    assert found.value == i;
    var r := SetQuantity(rows, rows[i].id, rows[i].quantity + quantity);
    assert r == rows[i := rows[i].(quantity := rows[i].quantity + quantity)] by {
      forall j | 0 <= j < |rows| && j != i ensures rows[j].id != rows[i].id {
        if j < i {
          assert EntryId(rows[j]) != EntryId(rows[i]);
        } else {
          assert EntryId(rows[i]) != EntryId(rows[j]);
        }
      }
    }
  }

  /** Insert case: without a (user, item) row, exactly one row is appended. */
  lemma UpsertInsert(rows: seq<CartEntry>, newId: int, userId: int, restaurantId: int, itemId: int, quantity: int)
    requires forall j :: 0 <= j < |rows| ==> !(rows[j].userId == userId && rows[j].itemId == itemId)
    ensures Upsert(rows, newId, userId, restaurantId, itemId, quantity)
         == rows + [CartEntry(newId, userId, restaurantId, itemId, quantity)]
  {
    assert FindFirst(rows, IsEntry(userId, itemId)).None?;
  }

  /** Adding keeps at most one row per (user, item), and keeps row identifiers well formed. */
  lemma UpsertKeepsInvariants(rows: seq<CartEntry>, newId: int, userId: int, restaurantId: int, itemId: int, quantity: int)
    requires WellKeyed(rows, newId)
    ensures var r := Upsert(rows, newId, userId, restaurantId, itemId, quantity);
            WellKeyed(r, newId + 1)
            && (FindFirst(rows, IsEntry(userId, itemId)).Some? ==> WellKeyed(r, newId))
            && (UniqueKeys(rows) ==> UniqueKeys(r))
  {
    var r := Upsert(rows, newId, userId, restaurantId, itemId, quantity);
    match FindFirst(rows, IsEntry(userId, itemId))
    case Some(i) =>
      var id := rows[i].id;
      assert forall j :: 0 <= j < |r| ==> EntryId(r[j]) == EntryId(rows[j]) && EntryKey(r[j]) == EntryKey(rows[j]);
    case None =>
      var e := CartEntry(newId, userId, restaurantId, itemId, quantity);
      assert r == rows + [e];
      forall j | 0 <= j < |rows| ensures EntryId(rows[j]) != EntryId(e) && EntryKey(rows[j]) != EntryKey(e) {
        assert !IsEntry(userId, itemId)(rows[j]);
      }
  }

  /**
   * Adding the same item twice to a cart without it leaves one row whose
   * quantity is the sum of the two requests; the second request's
   * restaurant is ignored.
   */
  lemma AddTwice(rows: seq<CartEntry>, newId: int, userId: int, restaurantId: int, otherRestaurantId: int,
                 itemId: int, q1: int, q2: int)
    requires WellKeyed(rows, newId)
    requires forall j :: 0 <= j < |rows| ==> !(rows[j].userId == userId && rows[j].itemId == itemId)
    ensures Upsert(Upsert(rows, newId, userId, restaurantId, itemId, q1), newId + 1, userId, otherRestaurantId, itemId, q2)
         == rows + [CartEntry(newId, userId, restaurantId, itemId, q1 + q2)]
  {
    var once := Upsert(rows, newId, userId, restaurantId, itemId, q1);
    UpsertInsert(rows, newId, userId, restaurantId, itemId, q1);
    UpsertKeepsInvariants(rows, newId, userId, restaurantId, itemId, q1);
    UpsertMerge(once, newId + 1, userId, otherRestaurantId, itemId, q2, |rows|);
  }

  // ---------------------------------------------------------------------
  // remove_from_cart and clear_cart
  // ---------------------------------------------------------------------

  /** `DELETE FROM cart WHERE user_id=? AND item_id=?`: exactly the matching rows go. */
  function RemoveRows(rows: seq<CartEntry>, userId: int, itemId: int): (r: seq<CartEntry>)
    ensures forall e :: multiset(r)[e] == if e.userId == userId && e.itemId == itemId then 0 else multiset(rows)[e]
  {
    FilterCount(rows, NotEntry(userId, itemId));
    Filter(rows, NotEntry(userId, itemId))
  }

  /** `DELETE FROM cart WHERE user_id=?`: exactly the user's rows go. */
  function ClearRows(rows: seq<CartEntry>, userId: int): (r: seq<CartEntry>)
    ensures forall e :: multiset(r)[e] == if e.userId == userId then 0 else multiset(rows)[e]
  {
    FilterCount(rows, NotOfUser(userId));
    Filter(rows, NotOfUser(userId))
  }

  /** Removing one (user, item) leaves every other (user, item)'s rows as they were, in order. */
  lemma RemoveRowsKeepsOthers(rows: seq<CartEntry>, userId: int, itemId: int, otherUser: int, otherItem: int)
    requires (otherUser, otherItem) != (userId, itemId)
    ensures Filter(RemoveRows(rows, userId, itemId), IsEntry(otherUser, otherItem))
         == Filter(rows, IsEntry(otherUser, otherItem))
  {
    FilterNarrower(rows, NotEntry(userId, itemId), IsEntry(otherUser, otherItem));
  }

  /** Removing an item of one user leaves every other user's rows as they were, in order. */
  lemma RemoveRowsKeepsOtherUsers(rows: seq<CartEntry>, userId: int, itemId: int, otherUser: int)
    requires otherUser != userId
    ensures Filter(RemoveRows(rows, userId, itemId), OfUser(otherUser)) == Filter(rows, OfUser(otherUser))
  {
    FilterNarrower(rows, NotEntry(userId, itemId), OfUser(otherUser));
  }

  /** Removing an absent (user, item) is a no-op. */
  lemma RemoveRowsAbsent(rows: seq<CartEntry>, userId: int, itemId: int)
    requires forall j :: 0 <= j < |rows| ==> !(rows[j].userId == userId && rows[j].itemId == itemId)
    ensures RemoveRows(rows, userId, itemId) == rows
  {
    FilterKeepsAll(rows, NotEntry(userId, itemId));
  }

  /** Removing twice is removing once. */
  lemma RemoveRowsIdempotent(rows: seq<CartEntry>, userId: int, itemId: int)
    ensures RemoveRows(RemoveRows(rows, userId, itemId), userId, itemId) == RemoveRows(rows, userId, itemId)
  {
    FilterIdempotent(rows, NotEntry(userId, itemId));
  }

  /** Clearing a user's cart leaves that user no rows. */
  lemma ClearRowsEmptiesUser(rows: seq<CartEntry>, userId: int)
    ensures Filter(ClearRows(rows, userId), OfUser(userId)) == []
  {
    FilterKeepsNone(ClearRows(rows, userId), OfUser(userId));
  }

  /** Clearing one user's cart leaves every other user's rows as they were, in order. */
  lemma ClearRowsKeepsOtherUsers(rows: seq<CartEntry>, userId: int, otherUser: int)
    requires otherUser != userId
    ensures Filter(ClearRows(rows, userId), OfUser(otherUser)) == Filter(rows, OfUser(otherUser))
  {
    FilterNarrower(rows, NotOfUser(userId), OfUser(otherUser));
  }

  /** Clearing an empty cart is a no-op. */
  lemma ClearRowsAbsent(rows: seq<CartEntry>, userId: int)
    requires forall j :: 0 <= j < |rows| ==> rows[j].userId != userId
    ensures ClearRows(rows, userId) == rows
  {
    FilterKeepsAll(rows, NotOfUser(userId));
  }

  /** Clearing twice is clearing once. */
  lemma ClearRowsIdempotent(rows: seq<CartEntry>, userId: int)
    ensures ClearRows(ClearRows(rows, userId), userId) == ClearRows(rows, userId)
  {
    FilterIdempotent(rows, NotOfUser(userId));
  }

  /** Deleting rows keeps both table invariants. */
  lemma FilterKeepsInvariants(rows: seq<CartEntry>, nextId: int, p: CartEntry -> bool)
    requires WellKeyed(rows, nextId)
    ensures WellKeyed(Filter(rows, p), nextId)
    ensures UniqueKeys(rows) ==> UniqueKeys(Filter(rows, p))
  {
    FilterDistinctBy(rows, p, EntryId);
    if UniqueKeys(rows) {
      FilterDistinctBy(rows, p, EntryKey);
    }
  }

  // ---------------------------------------------------------------------
  // The table
  // ---------------------------------------------------------------------

  /** The `cart` table: its rows in storage order and the next AUTOINCREMENT identifier. */
  class CartTable {
    var rows: seq<CartEntry>
    var nextId: int

    ghost predicate Valid()
      reads this
    {
      WellKeyed(rows, nextId)
    }

    constructor ()
      ensures Valid() && rows == [] && nextId == 1
    {
      rows := [];
      nextId := 1;
    }

    /**
     * `add_to_cart`: user and quantity default to 1. A new row takes the
     * next identifier; a merge leaves the identifier counter alone.
     */
    method AddToCart(userId: Option<int>, restaurantId: int, itemId: int, quantity: Option<int>)
      requires Valid()
      modifies this
      ensures Valid()
      ensures rows == Upsert(old(rows), old(nextId), userId.GetOr(DefaultUserId), restaurantId, itemId,
                             quantity.GetOr(DefaultQuantity))
      ensures nextId == if FindFirst(old(rows), IsEntry(userId.GetOr(DefaultUserId), itemId)).Some?
                        then old(nextId) else old(nextId) + 1
      ensures old(UniqueKeys(rows)) ==> UniqueKeys(rows)
    {
      var user := userId.GetOr(DefaultUserId);
      var amount := quantity.GetOr(DefaultQuantity);
      ghost var after := Upsert(rows, nextId, user, restaurantId, itemId, amount);
      var existing := FindFirst(rows, IsEntry(user, itemId));
      if existing.Some? {
        var row := rows[existing.value];
        rows := SetQuantity(rows, row.id, row.quantity + amount);
      } else {
        rows := rows + [CartEntry(nextId, user, restaurantId, itemId, amount)];
        nextId := nextId + 1;
      }
      assert rows == after;
      UpsertKeepsInvariants(old(rows), old(nextId), user, restaurantId, itemId, amount);
    }

    /** `remove_from_cart`: the user defaults to 1. */
    method RemoveFromCart(userId: Option<int>, itemId: int)
      requires Valid()
      modifies this
      ensures Valid()
      ensures rows == RemoveRows(old(rows), userId.GetOr(DefaultUserId), itemId)
      ensures nextId == old(nextId)
      ensures old(UniqueKeys(rows)) ==> UniqueKeys(rows)
    {
      var user := userId.GetOr(DefaultUserId);
      FilterKeepsInvariants(rows, nextId, NotEntry(user, itemId));
      rows := Filter(rows, NotEntry(user, itemId));
    }

    /** `clear_cart`: the user defaults to 1. */
    method ClearCart(userId: Option<int>)
      requires Valid()
      modifies this
      ensures Valid()
      ensures rows == ClearRows(old(rows), userId.GetOr(DefaultUserId))
      ensures nextId == old(nextId)
      ensures old(UniqueKeys(rows)) ==> UniqueKeys(rows)
    {
      var user := userId.GetOr(DefaultUserId);
      FilterKeepsInvariants(rows, nextId, NotOfUser(user));
      rows := Filter(rows, NotOfUser(user));
    }
  }
}
