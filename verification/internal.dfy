/**
 The throwing variant of the engine: the shipped constants are hard-coded,
 every leaf validates only positivity (or date validity) and throws the
 validation failure, and fractional distances and item counts are rounded with
 `Math.round` instead of being rejected. A thrown failure is an `Err`.
 */
module Internal {
  import opened Numeric
  import opened Schemas
  import FeeEngine
  import Defaults

  const CartValueThresholdForNoSurcharge: real := 10.0
  const MinCartValueForFreeDelivery: real := 200.0
  const MaxDeliveryFee: real := 15.0
  const InitialDeliveryFee: real := 2.0
  const AdditionalDistanceFee: real := 1.0
  const DistanceAfterAdditionalFeeStarts: real := 1000.0
  const AdditionalDistanceInterval: real := 500.0
  const RushHourStartHour: real := 15.0
  const RushHourEndHour: real := 19.0
  const RushHourDay: real := 5.0
  const RushHourFeeMultiplier: real := 1.2
  const BulkItemsTier1Threshold: real := 4.0
  const BulkItemsTier2Threshold: real := 12.0
  const BulkItemsTier1Fee: real := 0.5
  const BulkItemsTier2Fee: real := 1.2

  /** The hard-coded constants are, field for field, the configurable engine's shipped configuration. */
  lemma ConstantsAreDefaults()
    ensures Config(CartValueThresholdForNoSurcharge, MinCartValueForFreeDelivery, MaxDeliveryFee,
                   InitialDeliveryFee, AdditionalDistanceFee, DistanceAfterAdditionalFeeStarts,
                   AdditionalDistanceInterval, RushHourStartHour, RushHourEndHour, RushHourDay,
                   RushHourFeeMultiplier, BulkItemsTier1Threshold, BulkItemsTier2Threshold,
                   BulkItemsTier1Fee, BulkItemsTier2Fee)
            == Defaults.DefaultConfig
  {
  }

  /** `z.number().positive()`: the only check on the numeric arguments. */
  predicate Positive(x: real) {
    x > 0.0
  }

  /** Throws on an invalid date; otherwise the shipped Friday 15-19 window. */
  function IsRushHour(t: Timestamp): (r: Result<bool>)
    ensures r == FeeEngine.IsRushHour(Defaults.DefaultConfig, t)
    ensures r == Ok(true) <==> t.Instant? && t.weekday == 5 && 15 <= t.hour < 19
  {
    if !ValidOrderTime(t) then Err(ZodError({OrderTime}))
    else
      var day := t.weekday as real;
      var hour := t.hour as real;
      Ok(hour >= RushHourStartHour && hour < RushHourEndHour && day == RushHourDay)
  }

  function GetSmallOrderSurcharge(cartValue: real): (r: Result<real>)
    ensures r.Ok? <==> Positive(cartValue)
    ensures r.Err? ==> r.error == ZodError({CartValue})
    ensures r.Ok? ==> 0.0 <= r.value <= CartValueThresholdForNoSurcharge && OnGrid(r.value, 2)
    ensures ValidCartValue(cartValue) ==> r == FeeEngine.GetSmallOrderSurcharge(Defaults.DefaultConfig, cartValue)
  {
    if !Positive(cartValue) then Err(ZodError({CartValue}))
    else
      var shortfall := Max(0.0, CartValueThresholdForNoSurcharge - cartValue);
      ToFixedNearest(shortfall, 2);
      Defaults.DefaultConfigIsValid();
      ToFixedBelowGridPoint(shortfall, CartValueThresholdForNoSurcharge, 2);
      Ok(ToFixed(shortfall, 2))
  }

  /**
   The tier-one part counts `Math.round(itemCount)` items, but the tier-two
   test compares the unrounded count; no rounding to cents follows.
   */
  function GetBulkFee(itemCount: real): (r: Result<real>)
    ensures r.Ok? <==> Positive(itemCount)
    ensures r.Err? ==> r.error == ZodError({NumberOfItems})
    ensures r.Ok? ==> r.value >= 0.0
  {
    if !Positive(itemCount) then Err(ZodError({NumberOfItems}))
    else
      var itemCountRounded := MathRound(itemCount);
      var itemsBeyondTier1 := Max(itemCountRounded as real - BulkItemsTier1Threshold, 0.0);
      var fee := itemsBeyondTier1 * BulkItemsTier1Fee;
      Ok(if itemCount > BulkItemsTier2Threshold then fee + BulkItemsTier2Fee else fee)
  }

  /** The distance is rounded to whole metres first; no rounding to cents follows. */
  function GetFeeByDistance(distance: real): (r: Result<real>)
    ensures r.Ok? <==> Positive(distance)
    ensures r.Err? ==> r.error == ZodError({Distance})
    ensures r.Ok? ==> r.value >= InitialDeliveryFee
    ensures r.Ok? && MathRound(distance) as real <= DistanceAfterAdditionalFeeStarts ==> r.value == InitialDeliveryFee
  {
    if !Positive(distance) then Err(ZodError({Distance}))
    else
      var distRounded := MathRound(distance) as real;
      if distRounded <= DistanceAfterAdditionalFeeStarts then Ok(InitialDeliveryFee)
      else
        var distanceBeyondBase := distRounded - DistanceAfterAdditionalFeeStarts;
        var intervalsOverBase := FeeEngine.IntervalsOverBase(distanceBeyondBase, AdditionalDistanceInterval);
        Ok(FeeEngine.ChargeBeforeRounding(InitialDeliveryFee, AdditionalDistanceFee, intervalsOverBase))
  }

  /** The fields that fail the throwing variant's input schema. */
  function InputIssues(input: DeliveryFeeInput): (issues: set<Field>)
    ensures Distance in issues <==> !Positive(input.distance)
    ensures CartValue in issues <==> !Positive(input.cartValue)
    ensures NumberOfItems in issues <==> !Positive(input.numberOfItems)
    ensures OrderTime in issues <==> !ValidOrderTime(input.orderTime)
    ensures issues <= {Distance, CartValue, NumberOfItems, OrderTime}
  {
    (if Positive(input.distance) then {} else {Distance})
    + (if Positive(input.cartValue) then {} else {CartValue})
    + (if Positive(input.numberOfItems) then {} else {NumberOfItems})
    + (if ValidOrderTime(input.orderTime) then {} else {OrderTime})
  }

  /**
   Validate, short-circuit to zero from the free-delivery threshold, add the
   three surcharges, apply the rush multiplier, cap and round to cents.
   */
  function GetDeliveryFee(input: DeliveryFeeInput): (r: Result<real>)
    ensures r.Ok? <==> InputIssues(input) == {}
    ensures r.Err? ==> r.error == ZodError(InputIssues(input))
    ensures r.Ok? && input.cartValue >= MinCartValueForFreeDelivery ==> r.value == 0.0
  {
    if InputIssues(input) != {} then Err(ZodError(InputIssues(input)))
    else if input.cartValue >= MinCartValueForFreeDelivery then Ok(0.0)
    else
      var fee := GetSmallOrderSurcharge(input.cartValue).value
                 + GetFeeByDistance(input.distance).value
                 + GetBulkFee(input.numberOfItems).value;
      var rushHour := IsRushHour(input.orderTime).value;
      Ok(FeeEngine.CapAndRound(MaxDeliveryFee, FeeEngine.RushAdjusted(fee, rushHour, RushHourFeeMultiplier)))
  }

  /** A whole, positive item count is left alone by `Math.round`: both engines then charge the same. */
  lemma BulkFeeAgrees(n: real)
    requires ValidNumberOfItems(n)
    ensures GetBulkFee(n) == FeeEngine.GetBulkFee(Defaults.DefaultConfig, n)
  {
    Defaults.DefaultConfigIsValid();
    FeeEngine.BulkFeeIsExact(Defaults.DefaultConfig, n);
    RoundInteger(n);
  }

  lemma RoundInteger(x: real)
    requires IsInteger(x)
    ensures MathRound(x) as real == x
  {
    HalfAbove(x.Floor);
  }

  /** A whole, positive, safe distance is left alone by `Math.round`: both engines then charge the same. */
  lemma DistanceFeeAgrees(d: real)
    requires ValidDistance(d)
    ensures GetFeeByDistance(d) == FeeEngine.GetFeeByDistance(Defaults.DefaultConfig, d)
  {
    Defaults.DefaultConfigIsValid();
    RoundInteger(d);
    if d > DistanceAfterAdditionalFeeStarts {
      var k := FeeEngine.IntervalsOverBase(d - DistanceAfterAdditionalFeeStarts, AdditionalDistanceInterval);
      FeeEngine.DistanceFeeBeyondBase(Defaults.DefaultConfig, d);
      FeeEngine.DistanceChargeExact(InitialDeliveryFee, AdditionalDistanceFee, k);
    }
  }

  /** A fractional distance is charged as the nearest whole distance would be by the configurable engine. */
  lemma DistanceFeeRoundsFirst(d: real)
    requires d >= 0.5 && MathRound(d) <= MaxSafeInteger
    ensures MathRound(d) >= 1
    ensures GetFeeByDistance(d) == FeeEngine.GetFeeByDistance(Defaults.DefaultConfig, MathRound(d) as real)
  {
    var n := MathRound(d);
    IntFloor(n);
    DistanceFeeAgrees(n as real);
    RoundInteger(n as real);
  }

  /** Below half a metre the distance rounds to zero, which is within the base distance. */
  lemma DistanceFeeBelowHalfMetre(d: real)
    requires 0.0 < d < 0.5
    ensures GetFeeByDistance(d) == Ok(InitialDeliveryFee)
  {
  }

  /** Below half an item the count rounds to zero, and zero items cost nothing. */
  lemma BulkFeeBelowHalfItem(x: real)
    requires 0.0 < x < 0.5
    ensures GetBulkFee(x) == Ok(0.0)
  {
  }

  /**
   A fractional item count is charged as the nearest whole count would be,
   except between 12 and 12.5 items: the count rounds down to 12, yet the
   unrounded count already exceeds the second tier and adds its fee.
   */
  lemma BulkFeeRoundsFirst(x: real)
    requires x >= 0.5
    ensures MathRound(x) >= 1
    ensures GetBulkFee(x) ==
              Ok(FeeEngine.GetBulkFee(Defaults.DefaultConfig, MathRound(x) as real).value
                 + (if 12.0 < x < 12.5 then BulkItemsTier2Fee else 0.0))
  {
    var n := MathRound(x);
    IntFloor(n);
    BulkFeeAgrees(n as real);
    RoundInteger(n as real);
    RoundedAboveTier2(x);
  }

  lemma RoundedAboveTier2(x: real)
    ensures MathRound(x) as real > BulkItemsTier2Threshold <==> x >= 12.5
  {
  }

  /** 12.4 items cost 1.20 EUR more than 12 items, though they are counted as 12. */
  lemma MixedRoundingExample()
    ensures MathRound(12.4) == 12
    ensures GetBulkFee(12.0) == Ok(4.0)
    ensures GetBulkFee(12.4) == Ok(5.2)
  {
  }

  /** On input the configurable engine accepts, the two engines compute the same fee. */
  lemma DeliveryFeeAgrees(input: DeliveryFeeInput)
    requires ValidInput(input)
    ensures GetDeliveryFee(input) == FeeEngine.GetDeliveryFee(Defaults.DefaultConfig, input)
  {
    Defaults.DefaultConfigIsValid();
    if input.cartValue < MinCartValueForFreeDelivery {
      FeeEngine.DeliveryFeeComposition(Defaults.DefaultConfig, input);
      DistanceFeeAgrees(input.distance);
      BulkFeeAgrees(input.numberOfItems);
    }
  }

  /** Every fee the throwing variant returns lies between zero and the 15 EUR cap. */
  lemma DeliveryFeeBounds(input: DeliveryFeeInput)
    requires GetDeliveryFee(input).Ok?
    ensures 0.0 <= GetDeliveryFee(input).value <= MaxDeliveryFee
  {
    if input.cartValue < MinCartValueForFreeDelivery {
      var fee := GetSmallOrderSurcharge(input.cartValue).value
                 + GetFeeByDistance(input.distance).value
                 + GetBulkFee(input.numberOfItems).value;
      var rushHour := IsRushHour(input.orderTime).value;
      Defaults.DefaultConfigIsValid();
      FeeEngine.RushAdjustedMonotone(fee, fee, rushHour, RushHourFeeMultiplier);
      FeeEngine.CapAndRoundBounds(MaxDeliveryFee, FeeEngine.RushAdjusted(fee, rushHour, RushHourFeeMultiplier));
    }
  }

  lemma SurchargeExamples()
    ensures GetSmallOrderSurcharge(8.9) == Ok(1.1)
    ensures GetSmallOrderSurcharge(9.9) == Ok(0.1)
    ensures GetSmallOrderSurcharge(0.01) == Ok(9.99)
    ensures GetSmallOrderSurcharge(0.009) == Ok(9.99)
    ensures GetSmallOrderSurcharge(9.0) == Ok(1.0)
    ensures GetSmallOrderSurcharge(8.0) == Ok(2.0)
    ensures GetSmallOrderSurcharge(10.0) == Ok(0.0)
    ensures GetSmallOrderSurcharge(0.0) == Err(ZodError({CartValue}))
    ensures GetSmallOrderSurcharge(-1.0) == Err(ZodError({CartValue}))
  {
    Defaults.DefaultConfigIsValid();
    WholeCentsSurcharge(8.9, 890);
    WholeCentsSurcharge(9.9, 990);
    WholeCentsSurcharge(0.01, 1);
    WholeCentsSurcharge(9.0, 900);
    WholeCentsSurcharge(8.0, 800);
    Defaults.ShiftTwo(9.991);
    assert (Shift(9.991, 2) + 0.5).Floor == 999;
    assert Unshift(999.0, 2) == 9.99 by {
      assert Unshift(999.0, 1) == 99.9;
    }
  }

  lemma WholeCentsSurcharge(cartValue: real, cents: int)
    requires 0 < cents < 1000 && cartValue == cents as real / 100.0
    ensures GetSmallOrderSurcharge(cartValue) == Ok(CartValueThresholdForNoSurcharge - cartValue)
  {
    Defaults.DefaultConfigIsValid();
    Defaults.CentsOnGrid(cartValue, cents);
    FeeEngine.SmallOrderSurchargeIsShortfall(Defaults.DefaultConfig, cartValue);
  }

  lemma DistanceExamples()
    ensures GetFeeByDistance(1.0) == Ok(2.0)
    ensures GetFeeByDistance(999.0) == Ok(2.0)
    ensures GetFeeByDistance(1499.0) == Ok(3.0)
    ensures GetFeeByDistance(1500.0) == Ok(3.0)
    ensures GetFeeByDistance(1501.0) == Ok(4.0)
    ensures GetFeeByDistance(1499.9) == Ok(3.0)
    ensures GetFeeByDistance(1500.4) == Ok(3.0)
    ensures GetFeeByDistance(1501.5) == Ok(4.0)
    ensures GetFeeByDistance(0.0) == Err(ZodError({Distance}))
    ensures GetFeeByDistance(-1.0) == Err(ZodError({Distance}))
  {
  }

  lemma BulkExamples()
    ensures GetBulkFee(3.0) == Ok(0.0)
    ensures GetBulkFee(4.0) == Ok(0.0)
    ensures GetBulkFee(5.0) == Ok(0.5)
    ensures GetBulkFee(10.0) == Ok(3.0)
    ensures GetBulkFee(13.0) == Ok(5.7)
    ensures GetBulkFee(14.0) == Ok(6.2)
    ensures GetBulkFee(13.9) == Ok(6.2)
    ensures GetBulkFee(0.0) == Err(ZodError({NumberOfItems}))
    ensures GetBulkFee(-1.0) == Err(ZodError({NumberOfItems}))
  {
  }

  lemma RushHourExamples()
    ensures IsRushHour(Instant(5, 14)) == Ok(false)
    ensures IsRushHour(Instant(5, 15)) == Ok(true)
    ensures IsRushHour(Instant(5, 19)) == Ok(false)
    ensures IsRushHour(Instant(6, 15)) == Ok(false)
    ensures IsRushHour(InvalidDate) == Err(ZodError({OrderTime}))
  {
  }

  const Friday14: Timestamp := Instant(5, 14)
  const Friday15: Timestamp := Instant(5, 15)

  lemma DeliveryExamples()
    ensures GetDeliveryFee(DeliveryFeeInput(100000.0, 1.0, 1.0, Friday14)) == Ok(15.0)
    ensures GetDeliveryFee(DeliveryFeeInput(1.0, 200.0, 1.0, Friday14)) == Ok(0.0)
    ensures GetDeliveryFee(DeliveryFeeInput(1.0, 200.01, 1.0, Friday14)) == Ok(0.0)
    ensures GetDeliveryFee(DeliveryFeeInput(0.0, 0.0, 0.0, Friday14)) == Err(ZodError({Distance, CartValue, NumberOfItems}))
    ensures GetDeliveryFee(DeliveryFeeInput(-1.0, -1.0, -1.0, InvalidDate))
            == Err(ZodError({Distance, CartValue, NumberOfItems, OrderTime}))
  {
    var far := DeliveryFeeInput(100000.0, 1.0, 1.0, Friday14);
    WholeCentsSurcharge(1.0, 100);
    assert GetFeeByDistance(100000.0) == Ok(200.0);
    assert GetBulkFee(1.0) == Ok(0.0);
    Defaults.DefaultConfigIsValid();
    ToFixedOnGrid(15.0, 2);
  }

  lemma DeliveryBelowFreeThresholdExample()
    ensures GetDeliveryFee(DeliveryFeeInput(1.0, 199.99, 1.0, Friday14)) == Ok(2.0)
  {
    var shortfall := Max(0.0, CartValueThresholdForNoSurcharge - 199.99);
    assert shortfall == 0.0;
    FeeEngine.ZeroOnGrid();
    ToFixedOnGrid(0.0, 2);
    Defaults.CentsOnGrid(2.0, 200);
    ToFixedOnGrid(2.0, 2);
  }

  lemma DeliveryRushExamples()
    ensures GetDeliveryFee(DeliveryFeeInput(10000.0, 10.0, 100.0, Friday15)) == Ok(15.0)
    ensures GetDeliveryFee(DeliveryFeeInput(1.0, 10.0, 1.0, Friday15)) == Ok(2.4)
  {
    Defaults.DefaultConfigIsValid();
    ToFixedOnGrid(15.0, 2);
    FeeEngine.ZeroOnGrid();
    ToFixedOnGrid(0.0, 2);
    Defaults.CentsOnGrid(2.4, 240);
    ToFixedOnGrid(2.4, 2);
  }
}
