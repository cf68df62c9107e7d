/**
 The data the fee engines work on, and the validation schemas that gate them:
 the engine configuration record with its range checks and two cross-field
 refinements, and the four-field delivery-fee input. Schemas are predicates;
 a schema failure is a `ZodError` that names the fields whose checks failed.
 */
module Schemas {
  import opened Numeric

  /** `Number.MAX_SAFE_INTEGER`, the bound `.safe()` checks against (2^53 - 1). */
  const MaxSafeInteger: int := 9007199254740991

  type Weekday = d: int | 0 <= d <= 6
  type Hour = h: int | 0 <= h <= 23

  /**
   An order time as the engines observe it: `getDay()` (Sunday is 0) and
   `getHours()` of the local representation, or the "Invalid Date" value.
   */
  datatype Timestamp = InvalidDate | Instant(weekday: Weekday, hour: Hour)

  datatype Field = Distance | CartValue | NumberOfItems | OrderTime

  /** A validation failure, carrying the input fields whose checks failed. */
  datatype ZodError = ZodError(fields: set<Field>)

  /** Either a value or a validation failure (returned or thrown, depending on the variant). */
  datatype Result<T> = Ok(value: T) | Err(error: ZodError)

  /**
   The engine configuration. Every field is a JavaScript number; the schema
   below says which of them must be integers.
   */
  datatype Config = Config(
    cartValueThresholdForNoSurcharge: real,
    minCartValueForFreeDelivery: real,
    maxDeliveryFee: real,
    initialDeliveryFee: real,
    additionalDistanceFee: real,
    distanceAfterAdditionalFeeStarts: real,
    additionalDistanceInterval: real,
    rushHourStartHour: real,
    rushHourEndHour: real,
    rushHourDay: real,
    rushHourFeeMultiplier: real,
    bulkItemsTier1Threshold: real,
    bulkItemsTier2Threshold: real,
    bulkItemsTier1Fee: real,
    bulkItemsTier2Fee: real
  )

  /** The field checks of the configuration schema, before its two refinements. */
  predicate ConfigFieldsInRange(c: Config) {
    && c.cartValueThresholdForNoSurcharge >= 0.0
    && 0.0 <= c.minCartValueForFreeDelivery <= 500.0
    && 0.0 <= c.maxDeliveryFee <= 30.0
    && 0.0 <= c.initialDeliveryFee <= 3.0
    && 0.0 <= c.additionalDistanceFee <= 3.0
    && c.distanceAfterAdditionalFeeStarts > 0.0 && IsInteger(c.distanceAfterAdditionalFeeStarts)
    && c.additionalDistanceInterval > 0.0 && IsInteger(c.additionalDistanceInterval)
    && IsInteger(c.rushHourStartHour) && 0.0 <= c.rushHourStartHour <= 23.0
    && IsInteger(c.rushHourEndHour) && 0.0 <= c.rushHourEndHour <= 23.0
    && IsInteger(c.rushHourDay) && 0.0 <= c.rushHourDay <= 6.0
    && 1.0 <= c.rushHourFeeMultiplier <= 3.0
    && c.bulkItemsTier1Threshold >= 0.0 && IsInteger(c.bulkItemsTier1Threshold)
    && c.bulkItemsTier2Threshold >= 0.0 && IsInteger(c.bulkItemsTier2Threshold)
    && 0.0 <= c.bulkItemsTier1Fee <= 3.0
    && 0.0 <= c.bulkItemsTier2Fee <= 3.0
  }

  /** The whole configuration schema: field ranges plus the rush-window and bulk-tier refinements. */
  predicate ValidConfig(c: Config) {
    && ConfigFieldsInRange(c)
    && c.rushHourStartHour < c.rushHourEndHour
    && c.bulkItemsTier1Threshold < c.bulkItemsTier2Threshold
  }

  /** Every monetary constant of the configuration is a whole number of cents. */
  predicate WholeCents(c: Config) {
    && OnGrid(c.cartValueThresholdForNoSurcharge, 2)
    && OnGrid(c.maxDeliveryFee, 2)
    && OnGrid(c.initialDeliveryFee, 2)
    && OnGrid(c.additionalDistanceFee, 2)
    && OnGrid(c.bulkItemsTier1Fee, 2)
    && OnGrid(c.bulkItemsTier2Fee, 2)
  }

  /** The input record of the configurable engine (and, with its own field names, of the throwing one). */
  datatype DeliveryFeeInput = DeliveryFeeInput(
    distance: real,
    cartValue: real,
    numberOfItems: real,
    orderTime: Timestamp
  )

  predicate IsSafe(x: real) {
    -(MaxSafeInteger as real) <= x <= MaxSafeInteger as real
  }

  /** `z.number().positive().int().safe()` */
  predicate ValidDistance(d: real) {
    d > 0.0 && IsInteger(d) && IsSafe(d)
  }

  /** `z.number().positive().safe()` */
  predicate ValidCartValue(v: real) {
    v > 0.0 && IsSafe(v)
  }

  /** `z.number().positive().int()` */
  predicate ValidNumberOfItems(n: real) {
    n > 0.0 && IsInteger(n)
  }

  /** `z.date()` */
  predicate ValidOrderTime(t: Timestamp) {
    t.Instant?
  }

  predicate ValidInput(i: DeliveryFeeInput) {
    && ValidDistance(i.distance)
    && ValidCartValue(i.cartValue)
    && ValidNumberOfItems(i.numberOfItems)
    && ValidOrderTime(i.orderTime)
  }

  /** The fields a parse of the whole input reports: every failing field, not just the first. */
  function InputIssues(i: DeliveryFeeInput): (issues: set<Field>)
    ensures issues == {} <==> ValidInput(i)
    ensures Distance in issues <==> !ValidDistance(i.distance)
    ensures CartValue in issues <==> !ValidCartValue(i.cartValue)
    ensures NumberOfItems in issues <==> !ValidNumberOfItems(i.numberOfItems)
    ensures OrderTime in issues <==> !ValidOrderTime(i.orderTime)
  {
    (if ValidDistance(i.distance) then {} else {Distance})
    + (if ValidCartValue(i.cartValue) then {} else {CartValue})
    + (if ValidNumberOfItems(i.numberOfItems) then {} else {NumberOfItems})
    + (if ValidOrderTime(i.orderTime) then {} else {OrderTime})
  }
}
