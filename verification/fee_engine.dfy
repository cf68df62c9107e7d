/**
 The configurable fee engine: four leaf rules and the orchestrator, all closed
 over one configuration record. Each rule first validates its argument against
 the matching field of the input schema and returns the validation failure
 instead of a number when the argument is invalid.
 */
module FeeEngine {
  import opened Numeric
  import opened Schemas

  /** Rush hour: the configured weekday, from the start hour up to but excluding the end hour. */
  function IsRushHour(c: Config, t: Timestamp): (r: Result<bool>)
    ensures r.Err? <==> !ValidOrderTime(t)
    ensures r.Err? ==> r.error == ZodError({OrderTime})
    ensures r == Ok(true) <==>
              && t.Instant?
              && t.weekday as real == c.rushHourDay
              && c.rushHourStartHour <= t.hour as real < c.rushHourEndHour
  {
    if !ValidOrderTime(t) then Err(ZodError({OrderTime}))
    else
      var day := t.weekday as real;
      var hour := t.hour as real;
      Ok(hour >= c.rushHourStartHour && hour < c.rushHourEndHour && day == c.rushHourDay)
  }

  /** The shortfall of the cart value below the no-surcharge threshold, rounded to cents. */
  function GetSmallOrderSurcharge(c: Config, cartValue: real): (r: Result<real>)
    ensures r.Ok? <==> ValidCartValue(cartValue)
    ensures r.Err? ==> r.error == ZodError({CartValue})
    ensures r.Ok? ==> r.value >= 0.0 && OnGrid(r.value, 2)
    ensures r.Ok? && cartValue >= c.cartValueThresholdForNoSurcharge ==> r.value == 0.0
    ensures r.Ok? ==>
              var shortfall := Max(0.0, c.cartValueThresholdForNoSurcharge - cartValue);
              Shift(shortfall, 2) - 0.5 <= Shift(r.value, 2) <= Shift(shortfall, 2) + 0.5
  {
    if !ValidCartValue(cartValue) then Err(ZodError({CartValue}))
    else
      var shortfall := Max(0.0, c.cartValueThresholdForNoSurcharge - cartValue);
      ToFixedNearest(shortfall, 2);
      ZeroOnGrid();
      ToFixedOnGrid(0.0, 2);
      Ok(ToFixed(shortfall, 2))
  }

  /** Per-item fee beyond the first tier, plus the second-tier fee once above the second tier. */
  function GetBulkFee(c: Config, numberOfItems: real): (r: Result<real>)
    ensures r.Ok? <==> ValidNumberOfItems(numberOfItems)
    ensures r.Err? ==> r.error == ZodError({NumberOfItems})
    ensures r.Ok? ==> OnGrid(r.value, 2)
    ensures r.Ok? ==>
              var fee := BulkFeeBeforeRounding(c, numberOfItems);
              Shift(fee, 2) - 0.5 <= Shift(r.value, 2) <= Shift(fee, 2) + 0.5
    ensures r.Ok? && c.bulkItemsTier1Fee >= 0.0 && c.bulkItemsTier2Fee >= 0.0 ==> r.value >= 0.0
    ensures r.Ok? && numberOfItems <= c.bulkItemsTier1Threshold < c.bulkItemsTier2Threshold ==> r.value == 0.0
  {
    if !ValidNumberOfItems(numberOfItems) then Err(ZodError({NumberOfItems}))
    else
      var fee := BulkFeeBeforeRounding(c, numberOfItems);
      ToFixedNearest(fee, 2);
      ZeroOnGrid();
      ToFixedOnGrid(0.0, 2);
      Ok(ToFixed(fee, 2))
  }

  function BulkFeeBeforeRounding(c: Config, numberOfItems: real): (fee: real)
    ensures c.bulkItemsTier1Fee >= 0.0 && c.bulkItemsTier2Fee >= 0.0 ==> fee >= 0.0
    ensures numberOfItems <= c.bulkItemsTier1Threshold < c.bulkItemsTier2Threshold ==> fee == 0.0
  {
    var itemsBeyondTier1 := Max(numberOfItems - c.bulkItemsTier1Threshold, 0.0);
    var fee := itemsBeyondTier1 * c.bulkItemsTier1Fee;
    if numberOfItems > c.bulkItemsTier2Threshold then fee + c.bulkItemsTier2Fee else fee
  }

  /** The base fee up to the base distance, then one additional fee per started interval. */
  function GetFeeByDistance(c: Config, distance: real): (r: Result<real>)
    requires c.additionalDistanceInterval != 0.0
    ensures r.Ok? <==> ValidDistance(distance)
    ensures r.Err? ==> r.error == ZodError({Distance})
    ensures r.Ok? && distance <= c.distanceAfterAdditionalFeeStarts ==> r.value == c.initialDeliveryFee
  {
    if !ValidDistance(distance) then Err(ZodError({Distance}))
    else if distance <= c.distanceAfterAdditionalFeeStarts then Ok(c.initialDeliveryFee)
    else
      var distanceBeyondBase := distance - c.distanceAfterAdditionalFeeStarts;
      var intervalsOverBase := IntervalsOverBase(distanceBeyondBase, c.additionalDistanceInterval);
      Ok(DistanceCharge(c.initialDeliveryFee, c.additionalDistanceFee, intervalsOverBase))
  }

  /** How many intervals, counting a partly covered one as whole, the excess distance spans. */
  function IntervalsOverBase(distanceBeyondBase: real, interval: real): (k: int)
    requires interval != 0.0
    ensures interval > 0.0 && distanceBeyondBase > 0.0 ==>
              k >= 1 && (k - 1) as real * interval < distanceBeyondBase <= k as real * interval
  {
    var k := Ceil(distanceBeyondBase / interval);
    if interval > 0.0 && distanceBeyondBase > 0.0 then
      DividePositive(distanceBeyondBase, interval);
      CeilBracket(distanceBeyondBase, interval);
      k
    else k
  }

  /** The base fee plus `intervals` additional fees, rounded to cents. */
  function DistanceCharge(initialFee: real, additionalFee: real, intervals: int): real {
    ToFixed(ChargeBeforeRounding(initialFee, additionalFee, intervals), 2)
  }

  function ChargeBeforeRounding(initialFee: real, additionalFee: real, intervals: int): real {
    initialFee + intervals as real * additionalFee
  }

  /**
   The orchestrator: validate the whole input, short-circuit to zero at the
   free-delivery threshold, otherwise add the three surcharges, apply the rush
   multiplier, cap at the maximum fee and round to cents. The leaf results are
   re-checked for failures in the source; on validated input they cannot fail.
   */
  function GetDeliveryFee(c: Config, input: DeliveryFeeInput): (r: Result<real>)
    requires c.additionalDistanceInterval != 0.0
    ensures r.Ok? <==> ValidInput(input)
    ensures r.Err? ==> r.error == ZodError(InputIssues(input))
    ensures r.Ok? && input.cartValue >= c.minCartValueForFreeDelivery ==> r.value == 0.0
  {
    if !ValidInput(input) then Err(ZodError(InputIssues(input)))
    else if input.cartValue >= c.minCartValueForFreeDelivery then Ok(0.0)
    else
      var smallOrderSurcharge := GetSmallOrderSurcharge(c, input.cartValue).value;
      var feeByDistance := GetFeeByDistance(c, input.distance).value;
      var bulkFee := GetBulkFee(c, input.numberOfItems).value;
      var rushHour := IsRushHour(c, input.orderTime).value;
      var fee := feeByDistance + bulkFee + smallOrderSurcharge;
      Ok(CapAndRound(c.maxDeliveryFee, RushAdjusted(fee, rushHour, c.rushHourFeeMultiplier)))
  }

  /** The fee, multiplied during rush hour. */
  function RushAdjusted(fee: real, rushHour: bool, multiplier: real): real {
    if rushHour then fee * multiplier else fee
  }

  /** The smaller of the cap and the fee, rounded to cents. */
  function CapAndRound(maxFee: real, fee: real): real {
    ToFixed(Min(maxFee, fee), 2)
  }

  lemma ZeroOnGrid()
    ensures OnGrid(0.0, 2)
  {
    IntFloor(0);
  }

  /** The rush window is half-open: its start hour qualifies, its end hour does not, and no other weekday does. */
  lemma RushHourWindowIsHalfOpen(c: Config)
    requires ValidConfig(c)
    ensures IsRushHour(c, Instant(c.rushHourDay.Floor, c.rushHourStartHour.Floor)) == Ok(true)
    ensures IsRushHour(c, Instant(c.rushHourDay.Floor, c.rushHourEndHour.Floor)) == Ok(false)
    ensures c.rushHourStartHour >= 1.0 ==>
              IsRushHour(c, Instant(c.rushHourDay.Floor, c.rushHourStartHour.Floor - 1)) == Ok(false)
    ensures forall d: Weekday, h: Hour :: d as real != c.rushHourDay ==> IsRushHour(c, Instant(d, h)) == Ok(false)
  {
  }

  /** On whole cents the surcharge is exactly the shortfall below the threshold. */
  lemma SmallOrderSurchargeIsShortfall(c: Config, cartValue: real)
    requires ValidCartValue(cartValue) && OnGrid(cartValue, 2)
    requires OnGrid(c.cartValueThresholdForNoSurcharge, 2)
    requires cartValue < c.cartValueThresholdForNoSurcharge
    ensures GetSmallOrderSurcharge(c, cartValue) == Ok(c.cartValueThresholdForNoSurcharge - cartValue)
  {
    IntFloor(-1);
    OnGridScale(-1.0, cartValue, 2);
    OnGridAdd(c.cartValueThresholdForNoSurcharge, -1.0 * cartValue, 2);
    ToFixedOnGrid(c.cartValueThresholdForNoSurcharge - cartValue, 2);
  }

  /** A larger cart never carries a larger small-order surcharge. */
  lemma SmallOrderSurchargeNonIncreasing(c: Config, v1: real, v2: real)
    requires ValidCartValue(v1) && ValidCartValue(v2) && v1 <= v2
    ensures GetSmallOrderSurcharge(c, v2).value <= GetSmallOrderSurcharge(c, v1).value
  {
    var s1 := Max(0.0, c.cartValueThresholdForNoSurcharge - v1);
    var s2 := Max(0.0, c.cartValueThresholdForNoSurcharge - v2);
    ToFixedMonotone(s2, s1, 2);
  }

  lemma BulkFeeBeforeRoundingMonotone(c: Config, n1: real, n2: real)
    requires c.bulkItemsTier1Fee >= 0.0 && c.bulkItemsTier2Fee >= 0.0 && n1 <= n2
    ensures BulkFeeBeforeRounding(c, n1) <= BulkFeeBeforeRounding(c, n2)
  {
    var t1 := c.bulkItemsTier1Threshold;
    var f1 := Max(n1 - t1, 0.0) * c.bulkItemsTier1Fee;
    var f2 := Max(n2 - t1, 0.0) * c.bulkItemsTier1Fee;
    MaxMonotone(n1 - t1, n2 - t1);
    MultiplyMonotone(Max(n1 - t1, 0.0), Max(n2 - t1, 0.0), c.bulkItemsTier1Fee);
    assert f1 <= f2;
    TierTwoMonotone(f1, f2, n1, n2, c.bulkItemsTier2Threshold, c.bulkItemsTier2Fee);
    assert BulkFeeBeforeRounding(c, n1) == TierTwoAdded(f1, n1, c.bulkItemsTier2Threshold, c.bulkItemsTier2Fee);
    assert BulkFeeBeforeRounding(c, n2) == TierTwoAdded(f2, n2, c.bulkItemsTier2Threshold, c.bulkItemsTier2Fee);
  }

  /** The per-item fee, plus the tier-2 fee once the count exceeds the second tier. */
  function TierTwoAdded(fee: real, n: real, tier2: real, tier2Fee: real): real {
    if n > tier2 then fee + tier2Fee else fee
  }

  lemma TierTwoMonotone(f1: real, f2: real, n1: real, n2: real, tier2: real, tier2Fee: real)
    requires f1 <= f2 && n1 <= n2 && tier2Fee >= 0.0
    ensures TierTwoAdded(f1, n1, tier2, tier2Fee) <= TierTwoAdded(f2, n2, tier2, tier2Fee)
  {
  }

  /** More items never cost less. */
  lemma BulkFeeMonotone(c: Config, n1: real, n2: real)
    requires ValidConfig(c)
    requires ValidNumberOfItems(n1) && ValidNumberOfItems(n2) && n1 <= n2
    ensures GetBulkFee(c, n1).value <= GetBulkFee(c, n2).value
  {
    BulkFeeBeforeRoundingMonotone(c, n1, n2);
    ToFixedMonotone(BulkFeeBeforeRounding(c, n1), BulkFeeBeforeRounding(c, n2), 2);
  }

  lemma BulkFeeBeforeRoundingOnGrid(c: Config, n: real)
    requires IsInteger(n) && IsInteger(c.bulkItemsTier1Threshold)
    requires OnGrid(c.bulkItemsTier1Fee, 2) && OnGrid(c.bulkItemsTier2Fee, 2)
    ensures OnGrid(BulkFeeBeforeRounding(c, n), 2)
  {
    if n > c.bulkItemsTier2Threshold {
      BulkFeeOnGridAboveTier2(c, n);
    } else {
      BulkFeeOnGridUpToTier2(c, n);
    }
  }

  lemma BulkFeeOnGridAboveTier2(c: Config, n: real)
    requires IsInteger(n) && IsInteger(c.bulkItemsTier1Threshold) && n > c.bulkItemsTier2Threshold
    requires OnGrid(c.bulkItemsTier1Fee, 2) && OnGrid(c.bulkItemsTier2Fee, 2)
    ensures OnGrid(BulkFeeBeforeRounding(c, n), 2)
  {
    PerItemFeeOnGrid(c.bulkItemsTier1Threshold, c.bulkItemsTier1Fee, n);
    OnGridAdd(Max(n - c.bulkItemsTier1Threshold, 0.0) * c.bulkItemsTier1Fee, c.bulkItemsTier2Fee, 2);
    BulkFeeAboveTier2(c, n);
  }

  lemma BulkFeeOnGridUpToTier2(c: Config, n: real)
    requires IsInteger(n) && IsInteger(c.bulkItemsTier1Threshold) && n <= c.bulkItemsTier2Threshold
    requires OnGrid(c.bulkItemsTier1Fee, 2)
    ensures OnGrid(BulkFeeBeforeRounding(c, n), 2)
  {
    PerItemFeeOnGrid(c.bulkItemsTier1Threshold, c.bulkItemsTier1Fee, n);
    BulkFeeUpToTier2(c, n);
  }

  lemma BulkFeeAboveTier2(c: Config, n: real)
    requires n > c.bulkItemsTier2Threshold
    ensures BulkFeeBeforeRounding(c, n) == Max(n - c.bulkItemsTier1Threshold, 0.0) * c.bulkItemsTier1Fee + c.bulkItemsTier2Fee
  {
  }

  lemma BulkFeeUpToTier2(c: Config, n: real)
    requires n <= c.bulkItemsTier2Threshold
    ensures BulkFeeBeforeRounding(c, n) == Max(n - c.bulkItemsTier1Threshold, 0.0) * c.bulkItemsTier1Fee
  {
  }

  /** Whole items beyond a whole threshold, times a whole-cent fee, is whole cents. */
  lemma PerItemFeeOnGrid(threshold: real, fee: real, n: real)
    requires IsInteger(n) && IsInteger(threshold) && OnGrid(fee, 2)
    ensures OnGrid(Max(n - threshold, 0.0) * fee, 2)
  {
    IntegerExcess(n, threshold);
    ExcessFeeOnGrid(threshold, fee, n);
  }

  lemma ExcessFeeOnGrid(threshold: real, fee: real, n: real)
    requires IsInteger(Max(n - threshold, 0.0)) && OnGrid(fee, 2)
    ensures OnGrid(Max(n - threshold, 0.0) * fee, 2)
  {
    OnGridScale(Max(n - threshold, 0.0), fee, 2);
  }

  /** On whole-cent fees and whole item counts no rounding takes place. */
  lemma BulkFeeIsExact(c: Config, n: real)
    requires ValidNumberOfItems(n) && IsInteger(c.bulkItemsTier1Threshold)
    requires OnGrid(c.bulkItemsTier1Fee, 2) && OnGrid(c.bulkItemsTier2Fee, 2)
    ensures GetBulkFee(c, n) == Ok(BulkFeeBeforeRounding(c, n))
  {
    BulkFeeBeforeRoundingOnGrid(c, n);
    ToFixedOnGrid(BulkFeeBeforeRounding(c, n), 2);
  }

  lemma BulkFeeBeforeRoundingIncrement(c: Config, n: real)
    requires IsInteger(n) && IsInteger(c.bulkItemsTier1Threshold) && IsInteger(c.bulkItemsTier2Threshold)
    ensures BulkFeeBeforeRounding(c, n + 1.0) ==
              BulkFeeBeforeRounding(c, n)
              + (if n >= c.bulkItemsTier1Threshold then c.bulkItemsTier1Fee else 0.0)
              + (if n == c.bulkItemsTier2Threshold then c.bulkItemsTier2Fee else 0.0)
  {
    var t1 := c.bulkItemsTier1Threshold;
    if n < t1 {
      IntegerGap(n, t1);
    }
    if n < c.bulkItemsTier2Threshold {
      IntegerGap(n, c.bulkItemsTier2Threshold);
    }
    if n >= t1 {
      assert Max(n + 1.0 - t1, 0.0) == Max(n - t1, 0.0) + 1.0;
      assert (Max(n - t1, 0.0) + 1.0) * c.bulkItemsTier1Fee
          == Max(n - t1, 0.0) * c.bulkItemsTier1Fee + c.bulkItemsTier1Fee;
    }
  }

  /**
   The marginal cost of one more item: the per-item fee once the first tier is
   reached, plus the flat second-tier fee exactly when crossing the second tier.
   */
  lemma BulkFeeIncrement(c: Config, n: real)
    requires ValidConfig(c) && WholeCents(c) && ValidNumberOfItems(n)
    ensures GetBulkFee(c, n + 1.0) ==
              Ok(GetBulkFee(c, n).value
                 + (if n >= c.bulkItemsTier1Threshold then c.bulkItemsTier1Fee else 0.0)
                 + (if n == c.bulkItemsTier2Threshold then c.bulkItemsTier2Fee else 0.0))
  {
    ExactBulkFeeIncrement(c, n);
  }

  lemma ExactBulkFeeIncrement(c: Config, n: real)
    requires ValidNumberOfItems(n)
    requires IsInteger(c.bulkItemsTier1Threshold) && IsInteger(c.bulkItemsTier2Threshold)
    requires OnGrid(c.bulkItemsTier1Fee, 2) && OnGrid(c.bulkItemsTier2Fee, 2)
    ensures GetBulkFee(c, n + 1.0) ==
              Ok(GetBulkFee(c, n).value
                 + (if n >= c.bulkItemsTier1Threshold then c.bulkItemsTier1Fee else 0.0)
                 + (if n == c.bulkItemsTier2Threshold then c.bulkItemsTier2Fee else 0.0))
  {
    NextInteger(n);
    BulkFeeIsExact(c, n);
    BulkFeeIsExact(c, n + 1.0);
    BulkFeeBeforeRoundingIncrement(c, n);
  }

  /**
   Beyond the base distance the fee is the base fee plus one additional fee per
   started interval: `k` intervals when the excess lies in `((k-1)*interval, k*interval]`.
   */
  lemma DistanceFeeSteps(c: Config, distance: real, k: int)
    requires c.additionalDistanceInterval > 0.0 && ValidDistance(distance)
    requires distance > c.distanceAfterAdditionalFeeStarts
    requires (k - 1) as real * c.additionalDistanceInterval
             < distance - c.distanceAfterAdditionalFeeStarts
             <= k as real * c.additionalDistanceInterval
    ensures k >= 1
    ensures GetFeeByDistance(c, distance) == Ok(DistanceCharge(c.initialDeliveryFee, c.additionalDistanceFee, k))
  {
    IntervalsUnique(distance - c.distanceAfterAdditionalFeeStarts, c.additionalDistanceInterval, k);
  }

  /** The interval count is the only `k` whose bracket `((k-1)*p, k*p]` holds the excess. */
  lemma IntervalsUnique(excess: real, p: real, k: int)
    requires p > 0.0 && excess > 0.0
    requires (k - 1) as real * p < excess <= k as real * p
    ensures IntervalsOverBase(excess, p) == k && k >= 1
  {
    DivideBetween(excess, p, k);
    CeilUnique(excess / p, k);
  }

  /** A longer distance never costs less, provided the base fee is a whole number of cents. */
  lemma DistanceFeeMonotone(c: Config, d1: real, d2: real)
    requires ValidConfig(c) && OnGrid(c.initialDeliveryFee, 2)
    requires ValidDistance(d1) && ValidDistance(d2) && d1 <= d2
    ensures GetFeeByDistance(c, d1).value <= GetFeeByDistance(c, d2).value
  {
    var base := c.distanceAfterAdditionalFeeStarts;
    var p := c.additionalDistanceInterval;
    if d2 <= base {
      DistanceFeeWithinBase(c, d1);
      DistanceFeeWithinBase(c, d2);
    } else if d1 <= base {
      DistanceFeeWithinBase(c, d1);
      DistanceFeeBeyondBase(c, d2);
      IntervalsMonotone(d2 - base, d2 - base, p);
      DistanceChargeMonotone(c.initialDeliveryFee, c.additionalDistanceFee, 0, IntervalsOverBase(d2 - base, p));
      DistanceChargeOfNoInterval(c.initialDeliveryFee, c.additionalDistanceFee);
    } else {
      DistanceFeeBeyondBase(c, d1);
      DistanceFeeBeyondBase(c, d2);
      IntervalsMonotone(d1 - base, d2 - base, p);
      DistanceChargeMonotone(c.initialDeliveryFee, c.additionalDistanceFee,
                             IntervalsOverBase(d1 - base, p), IntervalsOverBase(d2 - base, p));
    }
  }

  lemma DistanceFeeWithinBase(c: Config, distance: real)
    requires c.additionalDistanceInterval != 0.0 && ValidDistance(distance)
    requires distance <= c.distanceAfterAdditionalFeeStarts
    ensures GetFeeByDistance(c, distance) == Ok(c.initialDeliveryFee)
  {
  }

  lemma DistanceFeeBeyondBase(c: Config, distance: real)
    requires c.additionalDistanceInterval != 0.0 && ValidDistance(distance)
    requires distance > c.distanceAfterAdditionalFeeStarts
    ensures GetFeeByDistance(c, distance) ==
              Ok(DistanceCharge(c.initialDeliveryFee, c.additionalDistanceFee,
                                IntervalsOverBase(distance - c.distanceAfterAdditionalFeeStarts, c.additionalDistanceInterval)))
  {
  }

  /** With no interval started the charge is the base fee, when that is whole cents. */
  lemma DistanceChargeOfNoInterval(initialFee: real, additionalFee: real)
    requires OnGrid(initialFee, 2)
    ensures DistanceCharge(initialFee, additionalFee, 0) == initialFee
  {
    assert ChargeBeforeRounding(initialFee, additionalFee, 0) == initialFee;
    ToFixedOnGrid(initialFee, 2);
  }

  /** More excess distance never spans fewer intervals. */
  lemma IntervalsMonotone(e1: real, e2: real, p: real)
    requires 0.0 < e1 <= e2 && p > 0.0
    ensures 0 <= IntervalsOverBase(e1, p) <= IntervalsOverBase(e2, p)
  {
    DivideMonotone(e1, e2, p);
    CeilMonotone(e1 / p, e2 / p);
  }

  /** The rounded charge grows with the number of intervals. */
  lemma DistanceChargeMonotone(initialFee: real, additionalFee: real, k1: int, k2: int)
    requires 0 <= k1 <= k2 && initialFee >= 0.0 && additionalFee >= 0.0
    ensures DistanceCharge(initialFee, additionalFee, k1) <= DistanceCharge(initialFee, additionalFee, k2)
  {
    ChargeBeforeRoundingMonotone(initialFee, additionalFee, k1, k2);
    ToFixedMonotone(ChargeBeforeRounding(initialFee, additionalFee, k1), ChargeBeforeRounding(initialFee, additionalFee, k2), 2);
  }

  lemma ChargeBeforeRoundingMonotone(initialFee: real, additionalFee: real, k1: int, k2: int)
    requires 0 <= k1 <= k2 && initialFee >= 0.0 && additionalFee >= 0.0
    ensures 0.0 <= ChargeBeforeRounding(initialFee, additionalFee, k1) <= ChargeBeforeRounding(initialFee, additionalFee, k2)
  {
    MultiplyMonotone(k1 as real, k2 as real, additionalFee);
    MultiplyMonotone(0.0, k1 as real, additionalFee);
  }

  /** With whole-cent fees the charge needs no rounding. */
  lemma DistanceChargeExact(initialFee: real, additionalFee: real, k: int)
    requires OnGrid(initialFee, 2) && OnGrid(additionalFee, 2)
    ensures DistanceCharge(initialFee, additionalFee, k) == ChargeBeforeRounding(initialFee, additionalFee, k)
  {
    ChargeOnGrid(initialFee, additionalFee, k);
    ToFixedOnGrid(ChargeBeforeRounding(initialFee, additionalFee, k), 2);
  }

  lemma ChargeOnGrid(initialFee: real, additionalFee: real, k: int)
    requires OnGrid(initialFee, 2) && OnGrid(additionalFee, 2)
    ensures OnGrid(ChargeBeforeRounding(initialFee, additionalFee, k), 2)
  {
    ScaledFeeOnGrid(k, additionalFee);
    OnGridAdd(initialFee, k as real * additionalFee, 2);
    OnGridEqual(initialFee + k as real * additionalFee, ChargeBeforeRounding(initialFee, additionalFee, k), 2);
  }

  lemma ScaledFeeOnGrid(k: int, fee: real)
    requires OnGrid(fee, 2)
    ensures OnGrid(k as real * fee, 2)
  {
    IntFloor(k);
    OnGridScale(k as real, fee, 2);
  }

  /** A fee below the cap passes through the cap unchanged but for rounding; the result never exceeds the rounded cap. */
  lemma CapAndRoundBounds(maxFee: real, fee: real)
    requires maxFee >= 0.0 && fee >= 0.0
    ensures 0.0 <= CapAndRound(maxFee, fee) <= ToFixed(maxFee, 2)
    ensures OnGrid(maxFee, 2) ==> CapAndRound(maxFee, fee) <= maxFee
    ensures fee <= maxFee ==> CapAndRound(maxFee, fee) == ToFixed(fee, 2)
  {
    ToFixedNearest(Min(maxFee, fee), 2);
    ToFixedMonotone(Min(maxFee, fee), maxFee, 2);
    if OnGrid(maxFee, 2) {
      ToFixedOnGrid(maxFee, 2);
    }
  }

  lemma CapAndRoundMonotone(maxFee: real, f1: real, f2: real)
    requires 0.0 <= f1 <= f2 && maxFee >= 0.0
    ensures CapAndRound(maxFee, f1) <= CapAndRound(maxFee, f2)
  {
    ToFixedMonotone(Min(maxFee, f1), Min(maxFee, f2), 2);
  }

  /** The rush multiplier keeps the fee non-negative, keeps order, and (being at least one) never lowers it. */
  lemma RushAdjustedMonotone(f1: real, f2: real, rushHour: bool, multiplier: real)
    requires 0.0 <= f1 <= f2 && multiplier >= 1.0
    ensures f1 <= RushAdjusted(f1, rushHour, multiplier) <= RushAdjusted(f2, rushHour, multiplier)
    ensures RushAdjusted(f2, false, multiplier) <= RushAdjusted(f2, true, multiplier)
  {
    MultiplyMonotone(1.0, multiplier, f1);
    MultiplyMonotone(1.0, multiplier, f2);
    MultiplyMonotone(f1, f2, multiplier);
  }

  /** Every leaf rule yields a non-negative amount under a valid configuration. */
  lemma DistanceFeeNonnegative(c: Config, distance: real)
    requires ValidConfig(c) && ValidDistance(distance)
    ensures GetFeeByDistance(c, distance).value >= 0.0
  {
    var base := c.distanceAfterAdditionalFeeStarts;
    if distance <= base {
      DistanceFeeWithinBase(c, distance);
    } else {
      DistanceFeeBeyondBase(c, distance);
      var k := IntervalsOverBase(distance - base, c.additionalDistanceInterval);
      ChargeBeforeRoundingMonotone(c.initialDeliveryFee, c.additionalDistanceFee, 0, k);
      ToFixedNearest(ChargeBeforeRounding(c.initialDeliveryFee, c.additionalDistanceFee, k), 2);
    }
  }

  /** On valid input below the free-delivery threshold, the leaves are added, rush-adjusted, capped and rounded. */
  lemma DeliveryFeeComposition(c: Config, input: DeliveryFeeInput)
    requires c.additionalDistanceInterval != 0.0 && ValidInput(input)
    requires input.cartValue < c.minCartValueForFreeDelivery
    ensures GetDeliveryFee(c, input) ==
              Ok(CapAndRound(c.maxDeliveryFee,
                             RushAdjusted(LeafSum(c, input), IsRushHour(c, input.orderTime).value, c.rushHourFeeMultiplier)))
  {
  }

  /**
   With a configuration in whole cents, a cart in whole cents and `k` the number
   of started intervals beyond the base distance, no leaf rounds: the fee is the
   unrounded distance charge, bulk fee and shortfall, added, rush-adjusted,
   capped and rounded once.
   */
  lemma DeliveryFeeFromLeaves(c: Config, input: DeliveryFeeInput, k: int)
    requires ValidConfig(c) && WholeCents(c) && ValidInput(input) && OnGrid(input.cartValue, 2)
    requires input.cartValue < c.minCartValueForFreeDelivery
    requires input.distance <= c.distanceAfterAdditionalFeeStarts ==> k == 0
    requires input.distance > c.distanceAfterAdditionalFeeStarts ==>
               (k - 1) as real * c.additionalDistanceInterval
               < input.distance - c.distanceAfterAdditionalFeeStarts
               <= k as real * c.additionalDistanceInterval
    ensures GetDeliveryFee(c, input) ==
              Ok(CapAndRound(c.maxDeliveryFee,
                             RushAdjusted(ChargeBeforeRounding(c.initialDeliveryFee, c.additionalDistanceFee, k)
                                          + BulkFeeBeforeRounding(c, input.numberOfItems)
                                          + Max(0.0, c.cartValueThresholdForNoSurcharge - input.cartValue),
                                          IsRushHour(c, input.orderTime).value, c.rushHourFeeMultiplier)))
  {
    DeliveryFeeComposition(c, input);
    if input.distance <= c.distanceAfterAdditionalFeeStarts {
      DistanceFeeWithinBase(c, input.distance);
    } else {
      DistanceFeeSteps(c, input.distance, k);
      DistanceChargeExact(c.initialDeliveryFee, c.additionalDistanceFee, k);
    }
    BulkFeeIsExact(c, input.numberOfItems);
    if input.cartValue < c.cartValueThresholdForNoSurcharge {
      SmallOrderSurchargeIsShortfall(c, input.cartValue);
    }
  }

  /** The three surcharges of a valid input, before the rush multiplier. */
  function LeafSum(c: Config, input: DeliveryFeeInput): real
    requires c.additionalDistanceInterval != 0.0 && ValidInput(input)
  {
    GetFeeByDistance(c, input.distance).value + GetBulkFee(c, input.numberOfItems).value
    + GetSmallOrderSurcharge(c, input.cartValue).value
  }

  lemma LeafSumNonnegative(c: Config, input: DeliveryFeeInput)
    requires ValidConfig(c) && ValidInput(input)
    ensures LeafSum(c, input) >= 0.0
  {
    DistanceFeeNonnegative(c, input.distance);
  }

  /**
   The delivery fee is never negative and never above the cap rounded to cents.
   So it exceeds the cap only when the cap rounds up to the next cent: a cap in
   whole cents, or one that rounds down, is never exceeded.
   */
  lemma DeliveryFeeBounds(c: Config, input: DeliveryFeeInput)
    requires ValidConfig(c) && ValidInput(input)
    ensures 0.0 <= GetDeliveryFee(c, input).value <= ToFixed(c.maxDeliveryFee, 2)
    ensures OnGrid(c.maxDeliveryFee, 2) ==> GetDeliveryFee(c, input).value <= c.maxDeliveryFee
    ensures ToFixed(c.maxDeliveryFee, 2) <= c.maxDeliveryFee ==> GetDeliveryFee(c, input).value <= c.maxDeliveryFee
  {
    ZeroOnGrid();
    ToFixedNearest(c.maxDeliveryFee, 2);
    if input.cartValue < c.minCartValueForFreeDelivery {
      DeliveryFeeComposition(c, input);
      LeafSumNonnegative(c, input);
      var rush := IsRushHour(c, input.orderTime).value;
      RushAdjustedMonotone(LeafSum(c, input), LeafSum(c, input), rush, c.rushHourFeeMultiplier);
      CapAndRoundBounds(c.maxDeliveryFee, RushAdjusted(LeafSum(c, input), rush, c.rushHourFeeMultiplier));
    }
  }

  /**
   Two orders below the free-delivery threshold: the one with the larger
   surcharge total, and rush hour whenever the other has it, pays at least as much.
   */
  lemma DeliveryFeeOrdered(c: Config, a: DeliveryFeeInput, b: DeliveryFeeInput)
    requires ValidConfig(c) && ValidInput(a) && ValidInput(b)
    requires a.cartValue < c.minCartValueForFreeDelivery && b.cartValue < c.minCartValueForFreeDelivery
    requires LeafSum(c, a) <= LeafSum(c, b)
    requires IsRushHour(c, a.orderTime).value ==> IsRushHour(c, b.orderTime).value
    ensures GetDeliveryFee(c, a).value <= GetDeliveryFee(c, b).value
  {
    var ra := IsRushHour(c, a.orderTime).value;
    var rb := IsRushHour(c, b.orderTime).value;
    var m := c.rushHourFeeMultiplier;
    DeliveryFeeComposition(c, a);
    DeliveryFeeComposition(c, b);
    LeafSumNonnegative(c, a);
    RushAdjustedMonotone(LeafSum(c, a), LeafSum(c, b), ra, m);
    RushAdjustedMonotone(LeafSum(c, b), LeafSum(c, b), rb, m);
    CapAndRoundMonotone(c.maxDeliveryFee, RushAdjusted(LeafSum(c, a), ra, m), RushAdjusted(LeafSum(c, b), rb, m));
  }

  /** A longer delivery never costs less (with the base fee on whole cents). */
  lemma DeliveryFeeMonotoneInDistance(c: Config, input: DeliveryFeeInput, distance: real)
    requires ValidConfig(c) && OnGrid(c.initialDeliveryFee, 2)
    requires ValidInput(input) && ValidDistance(distance) && input.distance <= distance
    ensures GetDeliveryFee(c, input).value <= GetDeliveryFee(c, input.(distance := distance)).value
  {
    if input.cartValue < c.minCartValueForFreeDelivery {
      DistanceFeeMonotone(c, input.distance, distance);
      DeliveryFeeOrdered(c, input, input.(distance := distance));
    }
  }

  /** More items never cost less. */
  lemma DeliveryFeeMonotoneInItems(c: Config, input: DeliveryFeeInput, numberOfItems: real)
    requires ValidConfig(c)
    requires ValidInput(input) && ValidNumberOfItems(numberOfItems) && input.numberOfItems <= numberOfItems
    ensures GetDeliveryFee(c, input).value <= GetDeliveryFee(c, input.(numberOfItems := numberOfItems)).value
  {
    if input.cartValue < c.minCartValueForFreeDelivery {
      BulkFeeMonotone(c, input.numberOfItems, numberOfItems);
      DeliveryFeeOrdered(c, input, input.(numberOfItems := numberOfItems));
    }
  }

  /** A larger cart never costs more: the surcharge shrinks and free delivery only switches on. */
  lemma DeliveryFeeNonIncreasingInCartValue(c: Config, input: DeliveryFeeInput, cartValue: real)
    requires ValidConfig(c)
    requires ValidInput(input) && ValidCartValue(cartValue) && input.cartValue <= cartValue
    ensures GetDeliveryFee(c, input.(cartValue := cartValue)).value <= GetDeliveryFee(c, input).value
  {
    var larger := input.(cartValue := cartValue);
    if cartValue >= c.minCartValueForFreeDelivery {
      DeliveryFeeBounds(c, input);
    } else {
      SmallOrderSurchargeNonIncreasing(c, input.cartValue, cartValue);
      DeliveryFeeOrdered(c, larger, input);
    }
  }

  /** The same order placed in rush hour never costs less than outside it. */
  lemma RushHourNeverLowersFee(c: Config, input: DeliveryFeeInput, rushTime: Timestamp)
    requires ValidConfig(c) && ValidInput(input)
    requires IsRushHour(c, rushTime) == Ok(true)
    ensures GetDeliveryFee(c, input).value <= GetDeliveryFee(c, input.(orderTime := rushTime)).value
  {
    if input.cartValue < c.minCartValueForFreeDelivery {
      DeliveryFeeOrdered(c, input, input.(orderTime := rushTime));
    }
  }
}
