/**
 * The fare calculator: a distance in kilometres becomes a price estimate.
 * The base fare covers the first kilometre, every started extra kilometre
 * costs 3, and the total is capped at 35.
 */
module Pricing {

  const BaseFare: int := 10
  const PerExtraKm: int := 3
  const PriceCap: int := 35
  /** Kilometres covered by the base fare. */
  const IncludedKm: real := 1.0

  datatype PriceResult = PriceResult(price: int, base: int, distanceCharge: int, capped: bool)

  /** `Math.ceil` on an exact real: the least integer not below `x`. */
  function Ceil(x: real): (c: int)
    ensures c as real - 1.0 < x <= c as real
  {
    -((-x).Floor)
  }

  /** `Math.max(d - 1, 0)`: a distance at or below one kilometre, negative ones included, bills nothing. */
  function ExtraDistance(distanceKm: real): (e: real)
    ensures e >= 0.0
    ensures distanceKm <= IncludedKm ==> e == 0.0
    ensures distanceKm > IncludedKm ==> e + IncludedKm == distanceKm
  {
    if distanceKm - IncludedKm > 0.0 then distanceKm - IncludedKm else 0.0
  }

  function EstimateRidePrice(distanceKm: real): (r: PriceResult)
    ensures r.base == BaseFare
    // the charge is a whole number of started extra kilometres, at 3 each
    ensures r.distanceCharge >= 0 && r.distanceCharge % PerExtraKm == 0
    ensures distanceKm <= IncludedKm ==> r.distanceCharge == 0
    ensures distanceKm > IncludedKm ==>
              var km := (r.distanceCharge / PerExtraKm) as real;
              km - 1.0 < distanceKm - IncludedKm <= km
    // the price never leaves [base, cap]
    ensures BaseFare <= r.price <= PriceCap
    ensures r.capped <==> r.base + r.distanceCharge > PriceCap
    ensures !r.capped ==> r.price == r.base + r.distanceCharge
    ensures r.capped ==> r.price == PriceCap
  {
    var base := BaseFare;
    var distanceCharge := Ceil(ExtraDistance(distanceKm)) * PerExtraKm;
    var raw := base + distanceCharge;
    var price := if raw < PriceCap then raw else PriceCap;
    PriceResult(price, base, distanceCharge, raw > PriceCap)
  }

  /** Over each kilometre band (k, k + 1] beyond the first, the charge is flat at 3k. */
  lemma ChargeIsFlatPerStartedKm(distanceKm: real, k: nat)
    requires k >= 1
    requires (k as real) < distanceKm <= (k + 1) as real
    ensures EstimateRidePrice(distanceKm).distanceCharge == PerExtraKm * k
  {
  }

  /** The cap is reached exactly by the distances beyond 9 km (10 + 3 * 9 = 37 > 35, 10 + 3 * 8 = 34). */
  lemma CappedBeyondNineKm(distanceKm: real)
    ensures EstimateRidePrice(distanceKm).capped <==> distanceKm > 9.0
  {
  }

  /** A longer ride never costs less. */
  lemma PriceMonotone(d1: real, d2: real)
    requires d1 <= d2
    ensures EstimateRidePrice(d1).distanceCharge <= EstimateRidePrice(d2).distanceCharge
    ensures EstimateRidePrice(d1).price <= EstimateRidePrice(d2).price
  {
  }

  /** Worked values at 0, 1, 2, 3.4, 4.4 and 10 km. */
  lemma PolicyExamples()
    ensures EstimateRidePrice(0.0) == PriceResult(10, 10, 0, false)
    ensures EstimateRidePrice(1.0) == PriceResult(10, 10, 0, false)
    ensures EstimateRidePrice(2.0) == PriceResult(13, 10, 3, false)
    ensures EstimateRidePrice(3.4) == PriceResult(19, 10, 9, false)
    ensures EstimateRidePrice(4.4) == PriceResult(22, 10, 12, false)
    ensures EstimateRidePrice(10.0) == PriceResult(35, 10, 27, true)
  {
  }
}
