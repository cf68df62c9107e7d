/**
 The legacy engine: enum constants with the shipped values, no validation,
 no rounding to cents, and a rush-hour flag passed in by the caller instead of
 an order time. Every number it is given is charged, negative or not.
 */
module Legacy {
  import opened Numeric
  import opened Schemas
  import FeeEngine
  import Internal
  import Defaults

  const FreeCartThreshold: real := 200.0
  const MaxFee: real := 15.0
  const BaseDistance: real := 1000.0
  const AdditionalDistance: real := 500.0
  const BaseDistanceFee: real := 2.0
  const AdditionalDistanceFee: real := 1.0
  const SmallOrderMinValue: real := 10.0
  const RushHourStart: real := 15.0
  const RushHourDay: real := 5.0
  const RushHourCostMultiplier: real := 1.2
  const BulkTier1: real := 4.0
  const BulkTier2: real := 12.0
  const BulkTier1Fee: real := 0.5
  const BulkTier2Fee: real := 1.2

  /**
   Friday from 15:00 up to but excluding 19:00 (the end hour is written as a
   literal). An unparsable date yields `NaN` day and hour, and every comparison
   with `NaN` is false.
   */
  function IsRushHour(t: Timestamp): (r: bool)
    ensures r <==> Internal.IsRushHour(t) == Ok(true)
  {
    match t
    case InvalidDate => false
    case Instant(day, hour) =>
      var isRushHourDay := day as real == RushHourDay;
      hour as real >= RushHourStart && hour < 19 && isRushHourDay
  }

  function GetSmallOrderSurcharge(cartValue: real): (r: real)
    ensures r >= 0.0 && r >= SmallOrderMinValue - cartValue
    ensures r == 0.0 || r == SmallOrderMinValue - cartValue
  {
    Max(0.0, SmallOrderMinValue - cartValue)
  }

  function GetBulkFee(itemCount: real): (r: real)
    ensures r >= 0.0
    ensures r == FeeEngine.BulkFeeBeforeRounding(Defaults.DefaultConfig, itemCount)
  {
    var itemsBeyondTier1 := Max(itemCount - BulkTier1, 0.0);
    var fee := itemsBeyondTier1 * BulkTier1Fee;
    if itemCount > BulkTier2 then fee + BulkTier2Fee else fee
  }

  function GetFeeByDistance(distance: real): (r: real)
    ensures r >= BaseDistanceFee
    ensures distance <= BaseDistance ==> r == BaseDistanceFee
    ensures distance > BaseDistance ==> r >= BaseDistanceFee + AdditionalDistanceFee
  {
    if distance <= BaseDistance then BaseDistanceFee
    else
      var distanceBeyondBase := distance - BaseDistance;
      var intervalsOverBase := FeeEngine.IntervalsOverBase(distanceBeyondBase, AdditionalDistance);
      FeeEngine.ChargeBeforeRounding(BaseDistanceFee, AdditionalDistanceFee, intervalsOverBase)
  }

  /**
   Beyond 1000 m the fee is 2 EUR plus 1 EUR per started 500 m: `k` euros more
   when the excess lies in `((k-1)*500, k*500]`.
   */
  lemma DistanceFeeSteps(distance: real, k: int)
    requires distance > BaseDistance
    requires (k - 1) as real * AdditionalDistance < distance - BaseDistance <= k as real * AdditionalDistance
    ensures k >= 1
    ensures GetFeeByDistance(distance) == BaseDistanceFee + k as real * AdditionalDistanceFee
  {
    FeeEngine.IntervalsUnique(distance - BaseDistance, AdditionalDistance, k);
  }

  /** The legacy input record: the rush-hour decision is made by the caller. */
  datatype LegacyInput = LegacyInput(distance: real, cartValue: real, itemCount: real, isRushHour: bool)

  /** Free from 200 EUR; otherwise the three surcharges, rush-multiplied, capped at 15 EUR, unrounded. */
  function GetDeliveryFee(input: LegacyInput): (r: real)
    ensures input.cartValue >= FreeCartThreshold ==> r == 0.0
    ensures input.cartValue < FreeCartThreshold ==> BaseDistanceFee <= r <= MaxFee
  {
    if input.cartValue >= FreeCartThreshold then 0.0
    else
      var fee := GetSmallOrderSurcharge(input.cartValue)
                 + GetFeeByDistance(input.distance)
                 + GetBulkFee(input.itemCount);
      var fee' := FeeEngine.RushAdjusted(fee, input.isRushHour, RushHourCostMultiplier);
      FeeEngine.RushAdjustedMonotone(fee, fee, input.isRushHour, RushHourCostMultiplier);
      Min(MaxFee, fee')
  }

  /** On a valid distance the configurable engine under the shipped configuration charges what the legacy engine does. */
  lemma DistanceFeeAgrees(d: real)
    requires ValidDistance(d)
    ensures FeeEngine.GetFeeByDistance(Defaults.DefaultConfig, d) == Ok(GetFeeByDistance(d))
  {
    Internal.DistanceFeeAgrees(d);
    Internal.RoundInteger(d);
  }

  /** On a valid cart value in whole cents no rounding takes place, so both engines agree. */
  lemma SurchargeAgrees(cartValue: real)
    requires ValidCartValue(cartValue) && OnGrid(cartValue, 2)
    ensures FeeEngine.GetSmallOrderSurcharge(Defaults.DefaultConfig, cartValue) == Ok(GetSmallOrderSurcharge(cartValue))
  {
    Defaults.DefaultConfigIsValid();
    if cartValue < SmallOrderMinValue {
      FeeEngine.SmallOrderSurchargeIsShortfall(Defaults.DefaultConfig, cartValue);
    }
  }

  /** On a valid item count both engines agree: the configurable one rounds a value already in whole cents. */
  lemma BulkFeeAgrees(n: real)
    requires ValidNumberOfItems(n)
    ensures FeeEngine.GetBulkFee(Defaults.DefaultConfig, n) == Ok(GetBulkFee(n))
  {
    Defaults.DefaultConfigIsValid();
    FeeEngine.BulkFeeIsExact(Defaults.DefaultConfig, n);
  }

  /** The legacy view of an input: the caller decides rush hour from the order time. */
  function ToLegacy(input: DeliveryFeeInput): (l: LegacyInput)
    ensures l.isRushHour <==> FeeEngine.IsRushHour(Defaults.DefaultConfig, input.orderTime) == Ok(true)
    ensures (l.distance, l.cartValue, l.itemCount) == (input.distance, input.cartValue, input.numberOfItems)
  {
    LegacyInput(input.distance, input.cartValue, input.numberOfItems, IsRushHour(input.orderTime))
  }

  /**
   On valid input with a cart value in whole cents, the configurable engine
   returns the legacy fee rounded to cents: the two differ only by that final
   rounding, which matters only when the rush multiplier leaves fractions of a cent.
   */
  lemma DeliveryFeeAgrees(input: DeliveryFeeInput)
    requires ValidInput(input) && OnGrid(input.cartValue, 2)
    ensures FeeEngine.GetDeliveryFee(Defaults.DefaultConfig, input) == Ok(ToFixed(GetDeliveryFee(ToLegacy(input)), 2))
  {
    Defaults.DefaultConfigIsValid();
    if input.cartValue < FreeCartThreshold {
      FeeEngine.DeliveryFeeComposition(Defaults.DefaultConfig, input);
      DistanceFeeAgrees(input.distance);
      SurchargeAgrees(input.cartValue);
      BulkFeeAgrees(input.numberOfItems);
    } else {
      FeeEngine.ZeroOnGrid();
      ToFixedOnGrid(0.0, 2);
    }
  }

  /** Outside rush hour the legacy fee on such input is already whole cents, and the engines agree exactly. */
  lemma DeliveryFeeAgreesOutsideRushHour(input: DeliveryFeeInput)
    requires ValidInput(input) && OnGrid(input.cartValue, 2)
    requires FeeEngine.IsRushHour(Defaults.DefaultConfig, input.orderTime) == Ok(false)
    ensures FeeEngine.GetDeliveryFee(Defaults.DefaultConfig, input) == Ok(GetDeliveryFee(ToLegacy(input)))
  {
    DeliveryFeeAgrees(input);
    LegacyFeeOnGrid(ToLegacy(input));
    ToFixedOnGrid(GetDeliveryFee(ToLegacy(input)), 2);
  }

  lemma LegacyFeeOnGrid(l: LegacyInput)
    requires !l.isRushHour && OnGrid(l.cartValue, 2) && IsInteger(l.distance) && IsInteger(l.itemCount)
    ensures OnGrid(GetDeliveryFee(l), 2)
  {
    Defaults.DefaultConfigIsValid();
    FeeEngine.ZeroOnGrid();
    if l.cartValue < FreeCartThreshold {
      var s := GetSmallOrderSurcharge(l.cartValue);
      var d := GetFeeByDistance(l.distance);
      var b := GetBulkFee(l.itemCount);
      SurchargeOnGrid(l.cartValue);
      DistanceFeeOnGrid(l.distance);
      FeeEngine.BulkFeeBeforeRoundingOnGrid(Defaults.DefaultConfig, l.itemCount);
      OnGridAdd(s, d, 2);
      OnGridAdd(s + d, b, 2);
      Defaults.CentsOnGrid(MaxFee, 1500);
    }
  }

  lemma SurchargeOnGrid(cartValue: real)
    requires OnGrid(cartValue, 2)
    ensures OnGrid(GetSmallOrderSurcharge(cartValue), 2)
  {
    if cartValue < SmallOrderMinValue {
      ShortfallOnGrid(cartValue);
      OnGridEqual(SmallOrderMinValue - cartValue, GetSmallOrderSurcharge(cartValue), 2);
    } else {
      FeeEngine.ZeroOnGrid();
      OnGridEqual(0.0, GetSmallOrderSurcharge(cartValue), 2);
    }
  }

  lemma ShortfallOnGrid(cartValue: real)
    requires OnGrid(cartValue, 2)
    ensures OnGrid(SmallOrderMinValue - cartValue, 2)
  {
    Defaults.CentsOnGrid(SmallOrderMinValue, 1000);
    IntFloor(-1);
    OnGridScale(-1.0, cartValue, 2);
    OnGridAdd(SmallOrderMinValue, -1.0 * cartValue, 2);
  }

  lemma DistanceFeeOnGrid(distance: real)
    ensures OnGrid(GetFeeByDistance(distance), 2)
  {
    Defaults.CentsOnGrid(BaseDistanceFee, 200);
    Defaults.CentsOnGrid(AdditionalDistanceFee, 100);
    if distance > BaseDistance {
      FeeEngine.ChargeOnGrid(BaseDistanceFee, AdditionalDistanceFee,
                             FeeEngine.IntervalsOverBase(distance - BaseDistance, AdditionalDistance));
    }
  }

  /** No validation: negative and zero arguments are charged rather than rejected. */
  lemma InvalidInputIsCharged()
    ensures GetDeliveryFee(LegacyInput(-1.0, 0.0, 0.0, false)) == 12.0
  {
  }

  lemma Examples()
    ensures GetSmallOrderSurcharge(10.0) == 0.0 && GetSmallOrderSurcharge(11.0) == 0.0
    ensures GetSmallOrderSurcharge(9.0) == 1.0 && GetSmallOrderSurcharge(0.1) == 9.9
    ensures GetFeeByDistance(999.0) == 2.0 && GetFeeByDistance(1000.0) == 2.0
    ensures GetFeeByDistance(1001.0) == 3.0 && GetFeeByDistance(1500.0) == 3.0
    ensures GetBulkFee(4.0) == 0.0 && GetBulkFee(5.0) == 0.5 && GetBulkFee(10.0) == 3.0
    ensures GetBulkFee(13.0) == 5.7 && GetBulkFee(14.0) == 6.2
    ensures GetDeliveryFee(LegacyInput(1000.0, 10.0, 1.0, false)) == 2.0
    ensures GetDeliveryFee(LegacyInput(1.0, 200.0, 1.0, false)) == 0.0
    ensures GetDeliveryFee(LegacyInput(10000.0, 10.0, 1.0, false)) == 15.0
    ensures GetDeliveryFee(LegacyInput(1.0, 10.0, 1.0, true)) == 2.4
    ensures GetDeliveryFee(LegacyInput(10000.0, 10.0, 1.0, true)) == 15.0
    ensures GetDeliveryFee(LegacyInput(1.0, 200.0, 1.0, true)) == 0.0
    ensures !IsRushHour(Instant(5, 14)) && IsRushHour(Instant(5, 15)) && !IsRushHour(Instant(5, 19))
    ensures !IsRushHour(Instant(3, 18)) && !IsRushHour(InvalidDate)
  {
  }
}
