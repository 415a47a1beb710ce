/**
 * `calculate_route`: the stops are visited in the order given, each leg
 * measured from the previous stop (the first from the user), with a
 * delivery estimate per leg and totals over the whole route.
 */
module Route {
  import opened Geo

  /** One requested stop: a restaurant's name and coordinates. */
  datatype Stop = Stop(name: string, lat: real, lon: real)

  /** One entry of `route`. */
  datatype Leg = Leg(restaurantName: string, distanceKm: real, deliveryTimeMinutes: int, lat: real, lon: real)

  /** The response: the legs in visiting order and the two totals. */
  datatype RoutePlan = RoutePlan(route: seq<Leg>, totalDistanceKm: real, totalDeliveryTimeMinutes: int)

  /**
   * The length of every leg of a tour that starts at (`lat`, `lon`) and
   * visits `stops` in order.
   */
  function Legs(lat: real, lon: real, stops: seq<Stop>, dist: DistanceFn): (ds: seq<real>)
    ensures |ds| == |stops|
    decreases |stops|
  {
    if stops == [] then []
    else [dist(lat, lon, stops[0].lat, stops[0].lon)] + Legs(stops[0].lat, stops[0].lon, stops[1..], dist)
  }

  /** Where a tour from (`lat`, `lon`) through `stops` ends: the last stop, or the start when there is none. */
  function End(lat: real, lon: real, stops: seq<Stop>): (real, real) {
    if stops == [] then (lat, lon) else (stops[|stops| - 1].lat, stops[|stops| - 1].lon)
  }

  /** The first leg starts at the user; every later leg starts at the previous stop. */
  lemma {:induction false} LegsFrom(lat: real, lon: real, stops: seq<Stop>, dist: DistanceFn, i: int)
    requires 0 <= i < |stops|
    ensures Legs(lat, lon, stops, dist)[i]
         == if i == 0 then dist(lat, lon, stops[0].lat, stops[0].lon)
            else dist(stops[i - 1].lat, stops[i - 1].lon, stops[i].lat, stops[i].lon)
    decreases i
  {
    if i > 0 {
      LegsFrom(stops[0].lat, stops[0].lon, stops[1..], dist, i - 1);
    }
  }

  /**
   * Splitting a tour at a stop: the legs of `a + b` are those of `a`
   * followed by those of `b` measured from where `a` ends.
   */
  lemma {:induction false} LegsConcat(lat: real, lon: real, a: seq<Stop>, b: seq<Stop>, dist: DistanceFn)
    ensures Legs(lat, lon, a + b, dist) == Legs(lat, lon, a, dist) + Legs(End(lat, lon, a).0, End(lat, lon, a).1, b, dist)
    decreases |a|
  {
    if a == [] {
      assert a + b == b;
    } else {
      LegsConcat(a[0].lat, a[0].lon, a[1..], b, dist);
      assert (a + b)[0] == a[0] && (a + b)[1..] == a[1..] + b;
      assert End(a[0].lat, a[0].lon, a[1..]) == End(lat, lon, a);
    }
  }

  /** A leg depends only on the stops up to it: the legs of a prefix are a prefix of the legs. */
  lemma LegsPrefix(lat: real, lon: real, stops: seq<Stop>, dist: DistanceFn, k: int)
    requires 0 <= k <= |stops|
    ensures Legs(lat, lon, stops[..k], dist) == Legs(lat, lon, stops, dist)[..k]
  {
    assert stops == stops[..k] + stops[k..];
    LegsConcat(lat, lon, stops[..k], stops[k..], dist);
  }

  /** Σ of `xs`, added left to right. */
  function Sum(xs: seq<real>): real
    decreases |xs|
  {
    if xs == [] then 0.0 else Sum(xs[..|xs| - 1]) + xs[|xs| - 1]
  }

  /** Σ of the delivery estimates, at the default base time, of legs of lengths `ds`. */
  function Minutes(ds: seq<real>): int
    decreases |ds|
  {
    if ds == [] then 0 else Minutes(ds[..|ds| - 1]) + DeliveryTime(ds[|ds| - 1], DefaultBaseMinutes)
  }

  /** Σ of the legs' `delivery_time_minutes`. */
  function LegMinutes(route: seq<Leg>): int
    decreases |route|
  {
    if route == [] then 0 else LegMinutes(route[..|route| - 1]) + route[|route| - 1].deliveryTimeMinutes
  }

  /** Extending the legs by one: both sums grow by that leg. */
  lemma SumsStep(ds: seq<real>, i: int)
    requires 0 <= i < |ds|
    ensures Sum(ds[..i + 1]) == Sum(ds[..i]) + ds[i]
    ensures Minutes(ds[..i + 1]) == Minutes(ds[..i]) + DeliveryTime(ds[i], DefaultBaseMinutes)
  {
    assert ds[..i + 1][..i] == ds[..i];
  }

  /** Appending a leg adds its estimate to the legs' time total. */
  lemma LegMinutesSnoc(route: seq<Leg>, leg: Leg)
    ensures LegMinutes(route + [leg]) == LegMinutes(route) + leg.deliveryTimeMinutes
  {
    assert (route + [leg])[..|route|] == route;
  }

  /**
   * Over legs of non-negative length the route takes at least the base
   * time per stop, and at most two minutes per kilometre more; truncation
   * loses less than a minute per leg.
   */
  lemma {:induction false} MinutesBounds(ds: seq<real>)
    requires forall i :: 0 <= i < |ds| ==> 0.0 <= ds[i]
    ensures DefaultBaseMinutes * |ds| <= Minutes(ds)
    ensures Minutes(ds) as real <= (DefaultBaseMinutes * |ds|) as real + 2.0 * Sum(ds)
    ensures (DefaultBaseMinutes * |ds|) as real + 2.0 * Sum(ds) - |ds| as real <= Minutes(ds) as real
    decreases |ds|
  {
    if ds != [] {
      var init, d := ds[..|ds| - 1], ds[|ds| - 1];
      MinutesBounds(init);
      DeliveryTimeAtLeastBase(d, DefaultBaseMinutes);
    }
  }

  /** The entry of `route` for `stop` reached over a leg of length `distance`. */
  function PlannedLeg(stop: Stop, distance: real, round1: RoundFn): Leg {
    Leg(stop.name, round1(distance), DeliveryTime(distance, DefaultBaseMinutes), stop.lat, stop.lon)
  }

  /**
   * `calculate_route`. One leg per stop, in input order, each measured from
   * the previous position; the distance total is the rounded sum of the
   * unrounded legs, and the time total is the sum of the legs' estimates.
   */
  method CalculateRoute(userLat: real, userLon: real, stops: seq<Stop>, dist: DistanceFn, round1: RoundFn)
    returns (plan: RoutePlan)
    ensures var ds := Legs(userLat, userLon, stops, dist);
            && |plan.route| == |stops|
            && (forall i :: 0 <= i < |stops| ==> plan.route[i] == PlannedLeg(stops[i], ds[i], round1))
            && plan.totalDistanceKm == round1(Sum(ds))
            && plan.totalDeliveryTimeMinutes == Minutes(ds)
    ensures plan.totalDeliveryTimeMinutes == LegMinutes(plan.route)
    ensures stops == [] ==> plan == RoutePlan([], round1(0.0), 0)
  {
    ghost var ds := Legs(userLat, userLon, stops, dist);
    var routeInfo: seq<Leg> := [];
    var totalDistance := 0.0;
    var totalTime := 0;
    var currentLat, currentLon := userLat, userLon;
    for i := 0 to |stops|
      invariant |routeInfo| == i
      invariant forall j :: 0 <= j < i ==> routeInfo[j] == PlannedLeg(stops[j], ds[j], round1)
      invariant (currentLat, currentLon) == End(userLat, userLon, stops[..i])
      invariant totalDistance == Sum(ds[..i])
      invariant totalTime == Minutes(ds[..i])
      invariant totalTime == LegMinutes(routeInfo)
    {
      var stop := stops[i];
      var distance := dist(currentLat, currentLon, stop.lat, stop.lon);
      LegsFrom(userLat, userLon, stops, dist, i);
      assert distance == ds[i];
      var deliveryTime := DeliveryTime(distance, DefaultBaseMinutes);
      var leg := Leg(stop.name, round1(distance), deliveryTime, stop.lat, stop.lon);
      SumsStep(ds, i);
      LegMinutesSnoc(routeInfo, leg);
      assert leg == PlannedLeg(stop, ds[i], round1);
      ghost var before := routeInfo;
      routeInfo := routeInfo + [leg];
      forall j | 0 <= j <= i ensures routeInfo[j] == PlannedLeg(stops[j], ds[j], round1) {
        if j < i {
          assert routeInfo[j] == before[j];
        }
      }
      totalDistance := totalDistance + distance;
      totalTime := totalTime + deliveryTime;
      assert stops[..i + 1][i] == stop;
      currentLat, currentLon := stop.lat, stop.lon;
    }
    assert ds[..|stops|] == ds;
    plan := RoutePlan(routeInfo, round1(totalDistance), totalTime);
  }
}
