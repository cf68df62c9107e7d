/**
 The configuration the application ships with, and the behaviour of the
 configurable engine under it: the worked examples of the rules, and the one
 configuration choice under which the cap is not a hard bound.
 */
module Defaults {
  import opened Numeric
  import opened Schemas
  import opened FeeEngine

  /** The shipped configuration: 10 EUR small-order threshold, 200 EUR free delivery, 15 EUR cap, Friday 15-19 rush. */
  const DefaultConfig: Config := Config(
    cartValueThresholdForNoSurcharge := 10.0,
    minCartValueForFreeDelivery := 200.0,
    maxDeliveryFee := 15.0,
    initialDeliveryFee := 2.0,
    additionalDistanceFee := 1.0,
    distanceAfterAdditionalFeeStarts := 1000.0,
    additionalDistanceInterval := 500.0,
    rushHourStartHour := 15.0,
    rushHourEndHour := 19.0,
    rushHourDay := 5.0,
    rushHourFeeMultiplier := 1.2,
    bulkItemsTier1Threshold := 4.0,
    bulkItemsTier2Threshold := 12.0,
    bulkItemsTier1Fee := 0.5,
    bulkItemsTier2Fee := 1.2
  )

  lemma ShiftTwo(x: real)
    ensures Shift(x, 2) == 100.0 * x
  {
    assert Shift(x, 1) == 10.0 * x;
  }

  lemma CentsOnGrid(x: real, cents: int)
    requires x == cents as real / 100.0
    ensures OnGrid(x, 2)
  {
    ShiftTwo(x);
    IntFloor(cents);
  }

  /** The shipped configuration passes the configuration schema, and its amounts are whole cents. */
  lemma DefaultConfigIsValid()
    ensures ValidConfig(DefaultConfig)
    ensures WholeCents(DefaultConfig)
  {
    IntFloor(1000);
    IntFloor(500);
    IntFloor(15);
    IntFloor(19);
    IntFloor(5);
    IntFloor(4);
    IntFloor(12);
    CentsOnGrid(10.0, 1000);
    CentsOnGrid(15.0, 1500);
    CentsOnGrid(2.0, 200);
    CentsOnGrid(1.0, 100);
    CentsOnGrid(0.5, 50);
    CentsOnGrid(1.2, 120);
  }

  lemma DistanceExamples()
    ensures GetFeeByDistance(DefaultConfig, 1.0) == Ok(2.0)
    ensures GetFeeByDistance(DefaultConfig, 1000.0) == Ok(2.0)
    ensures GetFeeByDistance(DefaultConfig, 1001.0) == Ok(3.0)
    ensures GetFeeByDistance(DefaultConfig, 1500.0) == Ok(3.0)
    ensures GetFeeByDistance(DefaultConfig, 1501.0) == Ok(4.0)
  {
    DefaultConfigIsValid();
    DefaultDistanceCharge(1001.0, 1);
    DefaultDistanceCharge(1500.0, 1);
    DefaultDistanceCharge(1501.0, 2);
  }

  /** Under the shipped configuration, `k` started half-kilometres beyond the first kilometre cost `2 + k` euros. */
  lemma DefaultDistanceCharge(distance: real, k: int)
    requires ValidDistance(distance) && distance > 1000.0
    requires (k - 1) as real * 500.0 < distance - 1000.0 <= k as real * 500.0
    ensures GetFeeByDistance(DefaultConfig, distance) == Ok(2.0 + k as real)
  {
    DefaultConfigIsValid();
    DistanceFeeSteps(DefaultConfig, distance, k);
    DistanceChargeExact(2.0, 1.0, k);
  }

  lemma BulkExamples()
    ensures GetBulkFee(DefaultConfig, 4.0) == Ok(0.0)
    ensures GetBulkFee(DefaultConfig, 5.0) == Ok(0.5)
    ensures GetBulkFee(DefaultConfig, 10.0) == Ok(3.0)
    ensures GetBulkFee(DefaultConfig, 12.0) == Ok(4.0)
    ensures GetBulkFee(DefaultConfig, 13.0) == Ok(5.7)
    ensures GetBulkFee(DefaultConfig, 14.0) == Ok(6.2)
    ensures GetBulkFee(DefaultConfig, 0.0).Err?
  {
    DefaultConfigIsValid();
    IntFloor(4);
    IntFloor(5);
    IntFloor(10);
    IntFloor(12);
    IntFloor(13);
    IntFloor(14);
    BulkFeeIsExact(DefaultConfig, 4.0);
    BulkFeeIsExact(DefaultConfig, 5.0);
    BulkFeeIsExact(DefaultConfig, 10.0);
    BulkFeeIsExact(DefaultConfig, 12.0);
    BulkFeeIsExact(DefaultConfig, 13.0);
    BulkFeeIsExact(DefaultConfig, 14.0);
  }

  lemma SurchargeExamples()
    ensures GetSmallOrderSurcharge(DefaultConfig, 10.0) == Ok(0.0)
    ensures GetSmallOrderSurcharge(DefaultConfig, 11.0) == Ok(0.0)
    ensures GetSmallOrderSurcharge(DefaultConfig, 9.0) == Ok(1.0)
    ensures GetSmallOrderSurcharge(DefaultConfig, 0.1) == Ok(9.9)
    ensures GetSmallOrderSurcharge(DefaultConfig, 9.99) == Ok(0.01)
    ensures GetSmallOrderSurcharge(DefaultConfig, 9.991) == Ok(0.01)
    ensures GetSmallOrderSurcharge(DefaultConfig, 0.0).Err?
  {
    DefaultConfigIsValid();
    CentsOnGrid(9.0, 900);
    CentsOnGrid(0.1, 10);
    CentsOnGrid(9.99, 999);
    SmallOrderSurchargeIsShortfall(DefaultConfig, 9.0);
    SmallOrderSurchargeIsShortfall(DefaultConfig, 0.1);
    SmallOrderSurchargeIsShortfall(DefaultConfig, 9.99);
    RoundsToOneCent();
  }

  /** 0.009 rounds up to a whole cent. */
  lemma RoundsToOneCent()
    ensures ToFixed(10.0 - 9.991, 2) == 0.01
  {
    ShiftTwo(0.009);
    assert (Shift(0.009, 2) + 0.5).Floor == 1;
    assert Unshift(1.0, 2) == 0.01 by {
      assert Unshift(1.0, 1) == 0.1;
    }
  }

  lemma RushHourExamples()
    ensures IsRushHour(DefaultConfig, Instant(5, 14)) == Ok(false)
    ensures IsRushHour(DefaultConfig, Instant(5, 15)) == Ok(true)
    ensures IsRushHour(DefaultConfig, Instant(5, 18)) == Ok(true)
    ensures IsRushHour(DefaultConfig, Instant(5, 19)) == Ok(false)
    ensures IsRushHour(DefaultConfig, Instant(6, 15)) == Ok(false)
    ensures IsRushHour(DefaultConfig, Instant(3, 18)) == Ok(false)
    ensures IsRushHour(DefaultConfig, InvalidDate) == Err(ZodError({OrderTime}))
  {
  }

  const Friday15: Timestamp := Instant(5, 15)
  const Friday14: Timestamp := Instant(5, 14)

  /** One kilometre, no small-order surcharge, one item, outside rush hour: the base fee. */
  lemma DeliveryBaseExample()
    ensures GetDeliveryFee(DefaultConfig, DeliveryFeeInput(1000.0, 10.0, 1.0, Friday14)) == Ok(2.0)
  {
    DefaultConfigIsValid();
    IntFloor(1);
    IntFloor(1000);
    DeliveryFeeComposition(DefaultConfig, DeliveryFeeInput(1000.0, 10.0, 1.0, Friday14));
    DistanceExamples();
    BulkFeeIsExact(DefaultConfig, 1.0);
    SurchargeExamples();
    ToFixedOnGrid(2.0, 2);
  }

  /** The base fee in rush hour: 2 EUR times 1.2. */
  lemma DeliveryRushExample()
    ensures GetDeliveryFee(DefaultConfig, DeliveryFeeInput(1.0, 10.0, 1.0, Friday15)) == Ok(2.4)
  {
    DefaultConfigIsValid();
    IntFloor(1);
    DeliveryFeeComposition(DefaultConfig, DeliveryFeeInput(1.0, 10.0, 1.0, Friday15));
    DistanceExamples();
    BulkFeeIsExact(DefaultConfig, 1.0);
    SurchargeExamples();
    CentsOnGrid(2.4, 240);
    ToFixedOnGrid(2.4, 2);
  }

  /** Ten kilometres come to 20 EUR before the cap, and are capped at 15 EUR. */
  lemma DeliveryCappedExample()
    ensures GetDeliveryFee(DefaultConfig, DeliveryFeeInput(10000.0, 10.0, 1.0, Friday14)) == Ok(15.0)
  {
    DefaultConfigIsValid();
    IntFloor(1);
    IntFloor(10000);
    DeliveryFeeComposition(DefaultConfig, DeliveryFeeInput(10000.0, 10.0, 1.0, Friday14));
    DefaultDistanceCharge(10000.0, 18);
    BulkFeeIsExact(DefaultConfig, 1.0);
    SurchargeExamples();
    ToFixedOnGrid(15.0, 2);
  }

  /** The rush multiplier does not lift the fee past the cap either. */
  lemma DeliveryCappedRushExample()
    ensures GetDeliveryFee(DefaultConfig, DeliveryFeeInput(10000.0, 10.0, 100.0, Friday15)) == Ok(15.0)
  {
    var input := DeliveryFeeInput(10000.0, 10.0, 100.0, Friday15);
    DefaultConfigIsValid();
    IntFloor(100);
    IntFloor(10000);
    DeliveryFeeBounds(DefaultConfig, input);
    DeliveryFeeMonotoneInItems(DefaultConfig, input.(numberOfItems := 1.0), 100.0);
    RushHourNeverLowersFee(DefaultConfig, input.(numberOfItems := 1.0, orderTime := Friday14), Friday15);
    DeliveryCappedExample();
  }

  /** From 200 EUR upwards delivery is free, rush hour or not. */
  lemma DeliveryFreeExamples()
    ensures GetDeliveryFee(DefaultConfig, DeliveryFeeInput(1.0, 200.0, 1.0, Friday15)) == Ok(0.0)
    ensures GetDeliveryFee(DefaultConfig, DeliveryFeeInput(1.0, 200.01, 1.0, Friday14)) == Ok(0.0)
  {
    IntFloor(1);
  }

  /** An input failing every field check reports every field. */
  lemma DeliveryInvalidExample()
    ensures GetDeliveryFee(DefaultConfig, DeliveryFeeInput(-1.0, 0.0, 0.0, InvalidDate))
            == Err(ZodError({Distance, CartValue, NumberOfItems, OrderTime}))
  {
  }

  /** The shipped configuration with a cap that is not a whole number of cents. */
  const FractionalCapConfig: Config := DefaultConfig.(maxDeliveryFee := 14.999)

  /**
   The cap is applied before rounding, so a cap that rounds up to the next
   cent (14.999 to 15) can be exceeded by the fee.
   */
  lemma FractionalCapExceeded()
    ensures ValidConfig(FractionalCapConfig)
    ensures GetDeliveryFee(FractionalCapConfig, DeliveryFeeInput(10000.0, 10.0, 1.0, Friday14)) == Ok(15.0)
    ensures 15.0 > FractionalCapConfig.maxDeliveryFee
  {
    DefaultConfigIsValid();
    IntFloor(1);
    IntFloor(10000);
    var far := DeliveryFeeInput(10000.0, 10.0, 1.0, Friday14);
    DeliveryFeeComposition(FractionalCapConfig, far);
    DistanceFeeSteps(FractionalCapConfig, 10000.0, 18);
    DistanceChargeExact(2.0, 1.0, 18);
    BulkExamples();
    SurchargeExamples();
    ShiftTwo(14.999);
    assert (Shift(14.999, 2) + 0.5).Floor == 1500;
    assert Unshift(1500.0, 2) == 15.0 by {
      assert Unshift(1500.0, 1) == 150.0;
    }
  }

  /** The shipped configuration with a cap that is not whole cents but rounds down. */
  const RoundedDownCapConfig: Config := DefaultConfig.(maxDeliveryFee := 14.994)

  /** 14.994 rounds down to 14.99. */
  lemma CapRoundsDown()
    ensures ToFixed(14.994, 2) == 14.99
  {
    ShiftTwo(14.994);
    assert (Shift(14.994, 2) + 0.5).Floor == 1499;
    assert Unshift(1499.0, 2) == 14.99 by {
      assert Unshift(1499.0, 1) == 149.9;
    }
  }

  /**
   A cap that is not whole cents but rounds down is never exceeded: every fee
   under the schema-valid cap 14.994 is at most 14.99.
   */
  lemma RoundedDownCapNeverExceeded(input: DeliveryFeeInput)
    requires ValidInput(input)
    ensures ValidConfig(RoundedDownCapConfig) && !OnGrid(RoundedDownCapConfig.maxDeliveryFee, 2)
    ensures GetDeliveryFee(RoundedDownCapConfig, input).value <= 14.99 < RoundedDownCapConfig.maxDeliveryFee
  {
    DefaultConfigIsValid();
    CapRoundsDown();
    ShiftTwo(14.994);
    assert Shift(14.994, 2).Floor == 1499;
    DeliveryFeeBounds(RoundedDownCapConfig, input);
  }
}
