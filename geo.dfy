/**
 * Distance and delivery-time estimates. The haversine distance and Python's
 * `round(x, 1)` are floating-point library code; the model takes them as
 * function parameters of these types and assumes nothing about them.
 */
module Geo {

  /** `calculate_distance(lat1, lon1, lat2, lon2)` in kilometres. */
  type DistanceFn = (real, real, real, real) -> real

  /** `round(x, 1)`. */
  type RoundFn = real -> real

  /** The base time `calculate_delivery_time` uses when the caller gives none. */
  const DefaultBaseMinutes: int := 20

  /** Python's `int(x)` on a float: the integer part, truncating toward zero. */
  function Trunc(x: real): (r: int)
    ensures 0.0 <= x ==> r as real <= x < r as real + 1.0
    ensures x < 0.0 ==> r as real - 1.0 < x <= r as real
  {
    if x >= 0.0 then x.Floor else -((-x).Floor)
  }

  /** Truncation never reverses the order of two numbers. */
  lemma TruncMonotone(x: real, y: real)
    requires x <= y
    ensures Trunc(x) <= Trunc(y)
  {
    if x < 0.0 && 0.0 <= y {
    } else if 0.0 <= x {
      assert x.Floor <= y.Floor;
    } else {
      assert (-y).Floor <= (-x).Floor;
    }
  }

  /** `calculate_delivery_time`: the base time plus two minutes per kilometre, truncated. */
  function DeliveryTime(distanceKm: real, baseMinutes: int): (r: int)
    ensures var t := baseMinutes as real + distanceKm * 2.0;
            0.0 <= t ==> r as real <= t < r as real + 1.0
  {
    Trunc(baseMinutes as real + distanceKm * 2.0)
  }

  /** No distance, no extra time: the estimate is the base time. */
  lemma DeliveryTimeAtZero(baseMinutes: int)
    ensures DeliveryTime(0.0, baseMinutes) == baseMinutes
  {
  }

  /** The estimate never decreases as the distance grows. */
  lemma DeliveryTimeMonotone(d1: real, d2: real, baseMinutes: int)
    requires d1 <= d2
    ensures DeliveryTime(d1, baseMinutes) <= DeliveryTime(d2, baseMinutes)
  {
    TruncMonotone(baseMinutes as real + d1 * 2.0, baseMinutes as real + d2 * 2.0);
  }

  /** Over a non-negative distance the estimate is at least the base time. */
  lemma DeliveryTimeAtLeastBase(distanceKm: real, baseMinutes: int)
    requires 0.0 <= distanceKm
    ensures baseMinutes <= DeliveryTime(distanceKm, baseMinutes)
  {
    DeliveryTimeMonotone(0.0, distanceKm, baseMinutes);
    DeliveryTimeAtZero(baseMinutes);
  }

  /** With the default base: 20 minutes at the door, 40 minutes at ten kilometres. */
  lemma DeliveryTimeDefaults()
    ensures DeliveryTime(0.0, DefaultBaseMinutes) == 20
    ensures DeliveryTime(10.0, DefaultBaseMinutes) == 40
    ensures DeliveryTime(2.75, DefaultBaseMinutes) == 25
  {
  }
}
