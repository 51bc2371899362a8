/**
 The fare estimator shown on the rider's confirmation screen: a base charge
 plus a per-kilometre rate, multiplied by 1.5 at night, together with the
 breakdown the screen displays next to the total.

 The wall-clock hour is a parameter; fares are exact reals (the two-decimal
 rounding of the display is not modelled).
 */
module PriceEstimator {
  import opened Common

  /** An hour of the day as a local clock reports it. */
  type Hour = h: int | 0 <= h < 24

  const BaseFare: real := 50.0
  const PerKmRate: real := 15.0
  const NightSurcharge: real := 1.5

  /** Night time runs from 22:00 (inclusive) to 06:00 (exclusive). */
  predicate IsNightTime(hour: Hour) {
    hour >= 22 || hour < 6
  }

  /** Base charge plus the distance cost, before any night multiplier. */
  function Subtotal(distance: real): real {
    BaseFare + distance * PerKmRate
  }

  /** The total fare for a trip of `distance` kilometres requested at `hour`. */
  function Fare(distance: real, hour: Hour): (fare: real)
    ensures !IsNightTime(hour) ==> fare == 50.0 + 15.0 * distance
    ensures IsNightTime(hour) ==> fare == 50.0 + 15.0 * distance + (50.0 + 15.0 * distance) / 2.0
    ensures distance >= 0.0 ==> fare >= BaseFare
  {
    var fare := BaseFare + distance * PerKmRate;
    if IsNightTime(hour) then fare * NightSurcharge else fare
  }

  /** The surcharge line of the display, recovered from the total fare. */
  function DisplayedSurcharge(fare: real): real {
    (fare / NightSurcharge) * 0.5
  }

  /** What the estimator shows: the base line, the distance line, the
      surcharge line (only at night) and the total. */
  datatype FareQuote = FareQuote(
    nightTime: bool,
    baseFare: real,
    distanceCost: real,
    surcharge: Option<real>,
    total: real)

  /** The estimator's display for `distance` at `hour`: the lines shown add
      up to the total, and the surcharge line appears exactly at night. */
  function Quote(distance: real, hour: Hour): (q: FareQuote)
    ensures q.nightTime <==> IsNightTime(hour)
    ensures q.baseFare == 50.0 && q.distanceCost == 15.0 * distance
    ensures q.surcharge.Some? <==> IsNightTime(hour)
    ensures q.surcharge.Some? ==> q.surcharge.value == (q.baseFare + q.distanceCost) / 2.0
    ensures q.baseFare + q.distanceCost + q.surcharge.GetOr(0.0) == q.total
    ensures q.total == Fare(distance, hour)
  {
    var night := IsNightTime(hour);
    var fare := Fare(distance, hour);
    FareQuote(
      night,
      BaseFare,
      distance * PerKmRate,
      if night then Some(DisplayedSurcharge(fare)) else None,
      fare)
  }

  /** Hour 22 is the first night hour and hour 6 the first day hour; every
      hour from 22 through 5 is night and every hour from 6 through 21 is day. */
  lemma NightTimeBoundaries(hour: Hour)
    ensures IsNightTime(22) && IsNightTime(5) && IsNightTime(0)
    ensures !IsNightTime(21) && !IsNightTime(6)
    ensures IsNightTime(hour) <==> !(6 <= hour <= 21)
  {
  }

  /** A trip of zero kilometres costs the base fare by day and 75 at night;
      any trip of non-negative length costs at least the base fare. */
  lemma FareFloor(distance: real, hour: Hour)
    requires distance >= 0.0
    ensures Fare(distance, hour) >= 50.0
    ensures Fare(0.0, hour) == (if IsNightTime(hour) then 75.0 else 50.0)
  {
  }

  /** A longer trip never costs less at the same hour. */
  lemma FareMonotone(d1: real, d2: real, hour: Hour)
    requires d1 <= d2
    ensures Fare(d1, hour) <= Fare(d2, hour)
  {
  }

  /** For the same non-negative distance, a night hour never costs less than
      a day hour, and costs exactly one and a half times as much. */
  lemma NightAtLeastDay(distance: real, night: Hour, day: Hour)
    requires distance >= 0.0
    requires IsNightTime(night) && !IsNightTime(day)
    ensures Fare(distance, night) >= Fare(distance, day)
    ensures Fare(distance, night) == 1.5 * Fare(distance, day)
  {
  }

  /** The surcharge line, computed back from the multiplied total, is half of
      the undiscounted subtotal; at night the three lines add up to the total. */
  lemma SurchargeIsHalfSubtotal(distance: real, hour: Hour)
    requires IsNightTime(hour)
    ensures DisplayedSurcharge(Fare(distance, hour)) == Subtotal(distance) / 2.0
    ensures BaseFare + distance * PerKmRate + DisplayedSurcharge(Fare(distance, hour)) == Fare(distance, hour)
  {
  }

  /** Two worked examples: 5.2 km at 14:00 and 8.5 km at 23:00. */
  lemma ExampleFares()
    ensures Fare(5.2, 14) == 128.0
    ensures Fare(8.5, 23) == 266.25
  {
  }
}
