/**
 * The three tables of the store, one record type per row. Column names
 * follow the table definitions; nullable text columns are modelled as
 * always present.
 */
module Schema {

  /** A row of `restaurants`. `deliveryTime` is the restaurant's own base estimate in minutes. */
  datatype Restaurant = Restaurant(
    id: int,
    name: string,
    address: string,
    cuisineType: string,
    rating: real,
    deliveryTime: int,
    lat: real,
    lon: real,
    description: string)

  /** A row of `menu`. Prices are exact reals, not binary floating point. */
  datatype MenuItem = MenuItem(
    id: int,
    restaurantId: int,
    itemName: string,
    description: string,
    price: real,
    category: string)

  /** A row of `cart`. */
  datatype CartEntry = CartEntry(
    id: int,
    userId: int,
    restaurantId: int,
    itemId: int,
    quantity: int)

  /** `WHERE id=?` on `restaurants`. */
  function IsRestaurant(id: int): Restaurant -> bool {
    (r: Restaurant) => r.id == id
  }

  /** `WHERE id=?` on `menu`. */
  function IsMenuItem(id: int): MenuItem -> bool {
    (m: MenuItem) => m.id == id
  }

  /** The user a request acts for when it names none. */
  const DefaultUserId: int := 1
}
