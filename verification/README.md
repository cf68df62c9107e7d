# Delivery fee calculator: a Dafny model

This project models the fee logic of a delivery-fee calculator:

- the configurable engine built by `createFeeCalculationService`. It validates each input with a schema and returns a validation error instead of a value. It charges:
  - a small-order surcharge;
  - a distance fee in steps of started intervals;
  - a tiered bulk-item fee;
  - a rush-hour multiplier.
  The sum is capped at a maximum and rounded to cents, and the fee is zero from the free-delivery threshold up;
- the configuration schema and the delivery-fee input schema, as predicates;
- the shipped default configuration;
- the throwing variant with hard-coded constants. It checks only positivity and rounds fractional distances and item counts with `Math.round`;
- the result wrapper. It turns the throwing variant's thrown errors into `{ data, error, success }` records;
- the legacy engine, which does no validation and no rounding to cents;
- the keystroke filter of the numeric input field. It decides, for each candidate text, whether the field accepts it and which number it emits.

JavaScript numbers are modelled as exact reals (`real`). The JavaScript operations are written out in module `Numeric`:

- `Math.round` is `Floor(x + 1/2)`;
- `Math.ceil` is `-Floor(-x)`;
- `+x.toFixed(d)` rounds the magnitude to `d` decimals, with ties going up, and keeps the sign. This is how ECMAScript specifies `toFixed` on the exact value.

A validation failure is `Schemas.ZodError`, which holds the set of input fields whose checks failed. The configurable engine returns `Result.Err` and the throwing variant throws. Both are modelled as `Err`.

Modules:

| Module | Contents |
|---|---|
| `Numeric` | real-number stand-ins for the JavaScript operations, and their lemmas |
| `Schemas` | data model, both schemas, `Result` |
| `FeeEngine` | the configurable engine |
| `Defaults` | the shipped configuration |
| `Internal` | the throwing variant |
| `ResultWrapper` | the wrapper |
| `Legacy` | the legacy engine |
| `NumberInput` | the input filter |

What the code does at the edges, and what the model therefore states:

- **The cap is applied before rounding.** The general bound on the fee is `ToFixed(MAX_DELIVERY_FEE, 2)`. So the fee can exceed the cap only when the cap rounds up to the next cent. The schema accepts a cap such as 14.999, and then a large order is charged 15 (`Defaults.FractionalCapExceeded`). A whole-cent cap, or one that rounds down such as 14.994, is never exceeded (`Defaults.RoundedDownCapNeverExceeded`).
- **The configurable engine demands whole-metre distances.** The schema's `.int()` on `distance` rejects fractional distances.
- **The throwing variant rounds instead of rejecting.** It rounds the item count for the tier-1 charge but compares the raw count with the tier-2 threshold. So 12.4 items cost 5.2, while 12 items cost 4.0.
- **`toFixed` rounds ties away from zero.** ECMAScript's `toFixed` on an exact value rounds a tie away from zero, not to even, and that is what `ToFixed` does.

## Model

| member | source | states |
|---|---|---|
| Numeric.MathRound | src/services/feeCalculationService/internal.ts:48 | `Math.round(x)` is the integer in `(x - 1/2, x + 1/2]`: the nearest integer, ties upwards |
| Numeric.Ceil | src/services/feeCalculationService/feeCalculationService.ts:42 | `Math.ceil(x)` is the integer in `[x, x + 1)` |
| Numeric.ToFixedNearest | src/services/feeCalculationService/feeCalculationService.ts:18 | `+x.toFixed(d)` is a multiple of `10^-d` within half a step of `x`, on the same side of zero |
| Numeric.ToFixedOnGrid | src/services/feeCalculationService/feeCalculationService.ts:32 | rounding an amount that is already whole cents returns it unchanged |
| Numeric.ToFixedMonotone | src/services/feeCalculationService/feeCalculationService.ts:74 | on non-negative amounts, rounding to cents preserves order |
| Schemas.InputIssues | src/services/feeCalculationService/schemas.ts:68-73 | the input parse fails exactly when some field fails its check; it names a field iff that field's check fails |
| FeeEngine.IsRushHour | src/services/feeCalculationService/feeCalculationService.ts:5-12 | an error (naming the order time) iff the date is invalid; `true` iff the weekday is the rush day and start <= hour < end |
| FeeEngine.RushHourWindowIsHalfOpen | src/services/feeCalculationService/feeCalculationService.ts:11 | under a valid configuration, the start hour is inside the rush window; the end hour and the hour before the start are outside; every other weekday is outside |
| FeeEngine.GetSmallOrderSurcharge | src/services/feeCalculationService/feeCalculationService.ts:14-19 | a value iff the cart value is positive and safe, else an error naming the cart value; the value is non-negative whole cents, within half a cent of the shortfall below the threshold, and zero from the threshold up |
| FeeEngine.SmallOrderSurchargeIsShortfall | src/services/feeCalculationService/feeCalculationService.ts:18 | for a whole-cent cart below a whole-cent threshold, the surcharge is exactly the shortfall |
| FeeEngine.SmallOrderSurchargeNonIncreasing | src/services/feeCalculationService/feeCalculationService.ts:14-19 | a larger cart never pays a larger surcharge |
| FeeEngine.GetBulkFee | src/services/feeCalculationService/feeCalculationService.ts:21-33 | a value iff the item count is a positive integer, else an error naming the count; whole cents, within half a cent of the unrounded tier formula; non-negative for non-negative tier fees; zero up to the tier-1 threshold |
| FeeEngine.BulkFeeIsExact | src/services/feeCalculationService/feeCalculationService.ts:25-32 | for whole item counts and whole-cent tier fees, the final rounding changes nothing |
| FeeEngine.BulkFeeIncrement | src/services/feeCalculationService/feeCalculationService.ts:25-30 | one more item adds the tier-1 fee once the count is at the tier-1 threshold or above. It also adds the tier-2 fee exactly when the count steps past the tier-2 threshold |
| FeeEngine.BulkFeeMonotone | src/services/feeCalculationService/feeCalculationService.ts:21-33 | more items never cost less |
| FeeEngine.GetFeeByDistance | src/services/feeCalculationService/feeCalculationService.ts:35-46 | a value iff the distance is a positive safe integer, else an error naming the distance; the initial fee up to the base distance |
| FeeEngine.IntervalsOverBase | src/services/feeCalculationService/feeCalculationService.ts:42 | for a positive excess, the count `k >= 1` of started intervals: `(k-1)·p < excess <= k·p` |
| FeeEngine.IntervalsUnique | src/services/feeCalculationService/feeCalculationService.ts:42 | any `k` with `(k-1)·p < excess <= k·p` is the interval count |
| FeeEngine.DistanceFeeSteps | src/services/feeCalculationService/feeCalculationService.ts:39-45 | beyond the base distance, the fee is `initial + k·additional` rounded to cents, with `k` the started-interval count |
| FeeEngine.DistanceChargeExact | src/services/feeCalculationService/feeCalculationService.ts:43-45 | with whole-cent fees, rounding the distance charge changes nothing |
| FeeEngine.DistanceFeeMonotone | src/services/feeCalculationService/feeCalculationService.ts:35-46 | a longer distance never costs less (under a valid configuration with a whole-cent initial fee) |
| FeeEngine.GetDeliveryFee | src/services/feeCalculationService/feeCalculationService.ts:48-75 | a value iff the whole input is valid; otherwise the error names every failing field; zero from the free-delivery threshold up |
| FeeEngine.DeliveryFeeFromLeaves | src/services/feeCalculationService/feeCalculationService.ts:54-74 | below the free-delivery threshold, with whole-cent constants and cart and `k` started intervals beyond the base distance: the fee is `initial + k·additional`, plus the per-item and tier-2 fees, plus the shortfall below the surcharge threshold, times the multiplier in rush hour, capped, rounded once to cents |
| FeeEngine.CapAndRoundBounds | src/services/feeCalculationService/feeCalculationService.ts:74 | the capped, rounded fee lies in `[0, ToFixed(max, 2)]`. It is at most `max` when `max` is whole cents, and it is the rounded fee itself when the fee is within the cap |
| FeeEngine.CapAndRoundMonotone | src/services/feeCalculationService/feeCalculationService.ts:74 | capping and rounding preserve the order of non-negative fees |
| FeeEngine.RushAdjustedMonotone | src/services/feeCalculationService/feeCalculationService.ts:70-72 | with a multiplier of at least 1, rush hour never lowers a fee and preserves order |
| FeeEngine.DeliveryFeeBounds | src/services/feeCalculationService/feeCalculationService.ts:48-75 | on valid configuration and input, the fee lies in `[0, ToFixed(max, 2)]`, so it is at most `max` when `max` is whole cents or rounds down to cents |
| FeeEngine.DeliveryFeeOrdered | src/services/feeCalculationService/feeCalculationService.ts:68-74 | below the free threshold, a larger leaf-fee sum, with rush hour on at least as often, gives a fee at least as large |
| FeeEngine.DeliveryFeeMonotoneInDistance | src/services/feeCalculationService/feeCalculationService.ts:48-75 | a longer distance never lowers the delivery fee |
| FeeEngine.DeliveryFeeMonotoneInItems | src/services/feeCalculationService/feeCalculationService.ts:48-75 | more items never lower the delivery fee |
| FeeEngine.DeliveryFeeNonIncreasingInCartValue | src/services/feeCalculationService/feeCalculationService.ts:48-75 | a larger cart never raises the delivery fee, across the free-delivery threshold too |
| FeeEngine.RushHourNeverLowersFee | src/services/feeCalculationService/feeCalculationService.ts:65-72 | moving the order into rush hour never lowers the delivery fee |
| Defaults.DefaultConfigIsValid | src/services/feeCalculationService/index.ts:4-20 | the shipped configuration passes the configuration schema, and all of its amounts are whole cents |
| Defaults.DefaultDistanceCharge | src/services/feeCalculationService/index.ts:8-11 | with the shipped configuration, a distance beyond 1000 m in its `k`-th started 500 m interval costs `2 + k` |
| Defaults.DistanceExamples | src/services/feeCalculationService/index.ts:8-11 | 1 m and 1000 m cost 2; 1001 m and 1500 m cost 3; 1501 m costs 4 |
| Defaults.BulkExamples | src/services/feeCalculationService/index.ts:16-19 | 4 items cost 0, 5 cost 0.5, 10 cost 3, 12 cost 4, 13 cost 5.7, 14 cost 6.2; 0 items is an error |
| Defaults.SurchargeExamples | src/services/feeCalculationService/index.ts:5 | carts of 10 or 11 pay 0; 9 pays 1; 0.1 pays 9.9; 9.99 and 9.991 pay 0.01; 0 is an error |
| Defaults.RushHourExamples | src/services/feeCalculationService/index.ts:12-14 | Friday 15:00 and 18:00 are rush hour; Friday 14:00 and 19:00, Saturday and Wednesday are not; an invalid date is an error |
| Defaults.DeliveryBaseExample | src/services/feeCalculationService/index.ts:5-8 | a 1000 m, one-item order with a cart of 10 on Friday 14:00 costs the initial fee 2 |
| Defaults.DeliveryRushExample | src/services/feeCalculationService/index.ts:15 | a 2.00 order in rush hour costs 2.40 |
| Defaults.DeliveryCappedExample | src/services/feeCalculationService/index.ts:7 | a 10 km order is capped at 15 |
| Defaults.DeliveryCappedRushExample | src/services/feeCalculationService/index.ts:7 | a 10 km, 100-item order in rush hour is capped at 15 |
| Defaults.DeliveryFreeExamples | src/services/feeCalculationService/index.ts:6 | carts of 200 and 200.01 get free delivery, in rush hour too |
| Defaults.DeliveryInvalidExample | src/services/feeCalculationService/feeCalculationService.ts:49-50 | an input that is wrong in every field gives an error naming all four fields |
| Defaults.FractionalCapExceeded | src/services/feeCalculationService/feeCalculationService.ts:74 | with a schema-valid cap of 14.999, a large order is charged 15, above the cap |
| Defaults.RoundedDownCapNeverExceeded | src/services/feeCalculationService/feeCalculationService.ts:74 | with a schema-valid cap of 14.994, which is not whole cents but rounds down, every valid order is charged at most 14.99, below the cap |
| Internal.ConstantsAreDefaults | src/services/feeCalculationService/internal.ts:4-22 | the hard-coded constants are, field by field, the shipped configuration |
| Internal.IsRushHour | src/services/feeCalculationService/internal.ts:27-32 | throws on an invalid date; otherwise `true` iff the order time is Friday with 15 <= hour < 19; the same as the configurable engine on the shipped configuration |
| Internal.GetSmallOrderSurcharge | src/services/feeCalculationService/internal.ts:37-40 | a value iff the cart value is positive; the value is whole cents in `[0, 10]`; on valid input, the same as the configurable engine |
| Internal.GetBulkFee | src/services/feeCalculationService/internal.ts:45-60 | a value iff the count is positive, else it throws naming the count; never negative |
| Internal.BulkFeeAgrees | src/services/feeCalculationService/internal.ts:45-60 | on whole positive counts, the same fee as the configurable engine |
| Internal.BulkFeeRoundsFirst | src/services/feeCalculationService/internal.ts:48-57 | for a count of at least 1/2: the configurable fee of the rounded count, plus the tier-2 fee exactly when `12 < count < 12.5` |
| Internal.RoundedAboveTier2 | src/services/feeCalculationService/internal.ts:48-55 | the rounded count is past the tier-2 threshold iff the raw count is at least 12.5 |
| Internal.MixedRoundingExample | src/services/feeCalculationService/internal.ts:48-57 | 12.4 rounds to 12, yet 12.4 items cost 5.2 while 12 items cost 4.0 |
| Internal.GetFeeByDistance | src/services/feeCalculationService/internal.ts:65-76 | a value iff the distance is positive; never below the initial fee; the initial fee when the rounded distance is within the base |
| Internal.DistanceFeeAgrees | src/services/feeCalculationService/internal.ts:65-76 | on whole positive distances, the same fee as the configurable engine |
| Internal.DistanceFeeRoundsFirst | src/services/feeCalculationService/internal.ts:67-75 | a fractional distance of at least 1/2 whose rounded value is a safe integer costs what its rounded distance costs in the configurable engine |
| Internal.DistanceFeeBelowHalfMetre | src/services/feeCalculationService/internal.ts:66-69 | a positive distance below half a metre rounds to 0 m and costs the initial fee |
| Internal.BulkFeeBelowHalfItem | src/services/feeCalculationService/internal.ts:46-59 | a positive count below half an item rounds to 0 items and costs nothing |
| Internal.InputIssues | src/services/feeCalculationService/internal.ts:84-89 | the object parse names the distance, cart value or item count iff it is not positive, and the date iff it is invalid |
| Internal.GetDeliveryFee | src/services/feeCalculationService/internal.ts:83-106 | a value iff no field fails; otherwise it throws naming every failing field; zero from 200 up |
| Internal.DeliveryFeeAgrees | src/services/feeCalculationService/internal.ts:83-106 | on input the strict schema accepts, the same fee as the configurable engine on the shipped configuration |
| Internal.DeliveryFeeBounds | src/services/feeCalculationService/internal.ts:105 | every returned fee lies in `[0, 15]` |
| Internal.DeliveryExamples | src/services/feeCalculationService/internal.ts:83-106 | a 100 km order is capped at 15; carts of 200 and 200.01 are free; all-zero and all-negative inputs throw, naming the failing fields |
| Internal.DeliveryRushExamples | src/services/feeCalculationService/internal.ts:101-105 | rush hour takes a 2.00 order to 2.40 and leaves a capped order at 15 |
| Internal.SurchargeExamples | src/services/feeCalculationService/internal.ts:37-40 | carts of 8.9, 9.9, 9, 8 pay 1.1, 0.1, 1, 2; 0.01 and 0.009 pay 9.99; 10 pays 0; 0 and -1 throw naming the cart value |
| Internal.WholeCentsSurcharge | src/services/feeCalculationService/internal.ts:37-40 | a cart of whole cents below 10 pays exactly its shortfall below 10 |
| Internal.DistanceExamples | src/services/feeCalculationService/internal.ts:65-76 | 1 and 999 m cost 2; 1499, 1499.9, 1500 and 1500.4 m cost 3; 1501 and 1501.5 m cost 4; 0 and -1 throw naming the distance |
| Internal.BulkExamples | src/services/feeCalculationService/internal.ts:45-60 | 3 and 4 items cost 0, 5 cost 0.5, 10 cost 3, 13 cost 5.7, 14 and 13.9 cost 6.2; 0 and -1 throw naming the count |
| Internal.RushHourExamples | src/services/feeCalculationService/internal.ts:27-32 | Friday 15:00 is rush hour; Friday 14:00 and 19:00 and Saturday 15:00 are not; an invalid date throws |
| Internal.DeliveryBelowFreeThresholdExample | src/services/feeCalculationService/internal.ts:95-105 | a cart of 199.99 is not free: a 1 m, one-item Friday 14:00 order costs the initial fee 2 |
| ResultWrapper.MakeOk | src/services/feeCalculationService/result.wrapper.ts:11 | `ok(v)` is a well-formed successful record, and reading it back gives `v` |
| ResultWrapper.MakeErr | src/services/feeCalculationService/result.wrapper.ts:12 | `err(e)` is a well-formed failed record, and reading it back gives the error `e` |
| ResultWrapper.Capture | src/services/feeCalculationService/result.wrapper.ts:11-12 | a returned value becomes `{data, success: true, error: null}` and a thrown error becomes `{data: {}, success: false, error}`; unwrapping gives back the outcome |
| ResultWrapper.CaptureRelease | src/services/feeCalculationService/result.wrapper.ts:11-12 | every well-formed record is the wrapping of its own unwrapping |
| ResultWrapper.CaptureInjective | src/services/feeCalculationService/result.wrapper.ts:11-12 | distinct outcomes give distinct records |
| ResultWrapper.GetSmallOrderSurchargeWrapper | src/services/feeCalculationService/result.wrapper.ts:14-20 | success iff the cart value is positive; the record carries the wrapped call's value or its error |
| ResultWrapper.GetDeliveryFeeWrapper | src/services/feeCalculationService/result.wrapper.ts:22-28 | success iff no input field fails; otherwise the error names every failing field |
| ResultWrapper.GetBulkFeeWrapper | src/services/feeCalculationService/result.wrapper.ts:30-36 | success iff the item count is positive; otherwise the error names the count |
| ResultWrapper.IsRushHourWrapper | src/services/feeCalculationService/result.wrapper.ts:38-44 | success iff the date is valid; otherwise the error names the order time |
| ResultWrapper.GetFeeByDistanceWrapper | src/services/feeCalculationService/result.wrapper.ts:46-52 | success iff the distance is positive; otherwise the error names the distance |
| ResultWrapper.DeliveryFeeWrapperAgrees | src/services/feeCalculationService/result.wrapper.ts:22-28 | on valid input, the wrapper succeeds with the configurable engine's fee |
| ResultWrapper.WrapperExamples | src/services/feeCalculationService/result.wrapper.ts:14-52 | the wrappers return 15, 0 and 2.4 for capped, free and rush-hour orders, 0.1, 3 and 0.5 for the leaves, the rush-hour flag for Friday and Saturday 15:00, and for 0 items an empty record with the error naming the count and success false |
| Legacy.IsRushHour | src/services/feeCalculationService.ts:34-42 | `true` iff the throwing variant says rush hour; an invalid date is never rush hour |
| Legacy.GetSmallOrderSurcharge | src/services/feeCalculationService.ts:44 | the larger of zero and the shortfall below 10 |
| Legacy.GetBulkFee | src/services/feeCalculationService.ts:46-57 | never negative; the configurable engine's unrounded bulk fee on the shipped configuration |
| Legacy.GetFeeByDistance | src/services/feeCalculationService.ts:59-67 | exactly the base fee 2 up to 1000 m, and at least one interval more beyond |
| Legacy.DistanceFeeSteps | src/services/feeCalculationService.ts:62-66 | beyond 1000 m the fee is `2 + k` for the `k` with the excess in `((k-1)·500, k·500]` |
| Legacy.GetDeliveryFee | src/services/feeCalculationService.ts:69-81 | zero from 200 up; otherwise between the base fee 2 and the cap 15 |
| Legacy.ToLegacy | src/services/feeCalculationService.ts:69-70 | the legacy record carries the same distance, cart value and item count, and its rush-hour flag is set iff the shipped configuration's rush-hour test holds |
| Legacy.Examples | src/services/feeCalculationService.ts:34-81 | carts of 10 and 11 pay no surcharge, 9 pays 1, 0.1 pays 9.9; 999 and 1000 m cost 2, 1001 and 1500 m cost 3; 4, 5, 10, 13, 14 items cost 0, 0.5, 3, 5.7, 6.2; outside rush hour a 1000 m order with a cart of 10 costs 2, a cart of 200 costs 0 and a 10 km order is capped at 15, and in rush hour the same kinds of order cost 2.4 (at 1 m), 15 and 0; Friday 15:00 is rush hour, Friday 14:00 and 19:00, Wednesday and an invalid date are not |
| Legacy.DistanceFeeAgrees | src/services/feeCalculationService.ts:59-67 | on valid distances, the same fee as the configurable engine |
| Legacy.SurchargeAgrees | src/services/feeCalculationService.ts:44 | on valid whole-cent carts, the same surcharge as the configurable engine |
| Legacy.BulkFeeAgrees | src/services/feeCalculationService.ts:46-57 | on valid counts, the same fee as the configurable engine |
| Legacy.DeliveryFeeAgrees | src/services/feeCalculationService.ts:69-81 | on valid input with a whole-cent cart, the configurable engine's fee is the legacy fee rounded to cents |
| Legacy.DeliveryFeeAgreesOutsideRushHour | src/services/feeCalculationService.ts:69-81 | outside rush hour, that rounding changes nothing: the two engines agree exactly |
| Legacy.InvalidInputIsCharged | src/services/feeCalculationService.ts:69-81 | nothing is validated: a negative distance with an empty cart and no items is charged 12 |
| NumberInput.DecomposeRender | src/components/NumberInput.tsx:14 | every text the mask admits splits into sign, whole digits, point and at most `d` fraction digits, and reassembles to itself |
| NumberInput.RenderDecompose | src/components/NumberInput.tsx:14 | every well-formed numeral's text passes the mask and splits back into the same numeral |
| NumberInput.NumeralOnGrid | src/components/NumberInput.tsx:32 | an unsigned numeral with at most `d` fraction digits is non-negative and has no digits beyond the `d`-th place, so `toFixed(d)` leaves it unchanged |
| NumberInput.HandleInputChange | src/components/NumberInput.tsx:16-33 | empty text clears the field and emits 0. An accepted non-empty text is displayed and is an unsigned numeral within the mask, within `[min, max]`, that reads back as itself; the emitted number is its value |
| NumberInput.AcceptedIffAdmissible | src/components/NumberInput.tsx:19-31 | a non-empty text is accepted iff it is an unsigned numeral that reads back as itself, has a whole part, fits the decimal places and lies within the bounds |
| NumberInput.AcceptsAdmissible | src/components/NumberInput.tsx:19-32 | such a numeral is accepted and its exact value emitted |
| NumberInput.RejectsLeadingPoint | src/components/NumberInput.tsx:25 | a text starting with a point is never accepted |
| NumberInput.RejectsPointWithoutDecimals | src/components/NumberInput.tsx:26 | with no decimal places, a text containing a point is never accepted |
| NumberInput.RejectsMinus | src/components/NumberInput.tsx:27 | with a non-negative minimum, a text containing a minus sign is never accepted |
| NumberInput.RejectsAboveMax | src/components/NumberInput.tsx:28 | a numeral above the maximum is never accepted |
| NumberInput.Change | src/components/NumberInput.tsx:19-31 | a rejected text leaves the field exactly as it was; an accepted one is displayed |
| NumberInput.TypeTextAppend | src/components/NumberInput.tsx:16-33 | typing two texts one after the other is typing their concatenation |
| NumberInput.ChangeKeepsConsistent | src/components/NumberInput.tsx:16-33 | after any change the field is either empty having emitted 0, or shows an admissible in-bounds numeral having emitted its value |
| NumberInput.TypeTextKeepsConsistent | src/components/NumberInput.tsx:16-33 | whatever is typed, the field only shows what it would accept and has emitted what it shows |
| NumberInput.TypingThirty | src/components/NumberInput.tsx:19-32 | typing "30" (2 places, max 2000.01) shows "30" and emits 30 |
| NumberInput.TypingMinusFifty | src/components/NumberInput.tsx:27 | typing "-50" loses the minus: the field shows "50" and emits 50 |
| NumberInput.TypingPointIntoWholeNumberField | src/components/NumberInput.tsx:26 | typing "5.4" with no decimal places loses the point: the field shows "54" |
| NumberInput.TypingTrailingPoint | src/components/NumberInput.tsx:19-32 | typing "1." shows "1." and emits 1 |
| NumberInput.TypingLetters | src/components/NumberInput.tsx:19 | letters never pass the mask: the field stays empty |
| NumberInput.PasteAndClearExamples | src/components/NumberInput.tsx:19-27 | pasting "-100" into an empty field leaves it empty; clearing the field emits 0 |
| NumberInput.TypingAboveMaximum | src/components/NumberInput.tsx:28 | with a maximum of 2000.01, the "1" that would make "2001" is lost and the field stays at "200" |
| NumberInput.TypingPastMaximum | src/components/NumberInput.tsx:28 | with a maximum of 2000.01, the fifth digit of "20000" is lost and the field stays at "2000" |

## Left out

- Binary floating point is not modelled: every number is an exact real. Drift such as `0.1 + 0.2` and `toFixed` on values that are not exactly representable are outside the model.
- `NaN`, `Infinity` and non-number arguments are not modelled. The schemas reject them, and the model's inputs are reals.
- `Date` construction, string parsing of dates and time zones are not modelled. An order time is its local weekday and hour, or the invalid date.
- zod's error objects are not modelled. An error holds only the set of failing input fields; messages, issue codes and paths are left out.
- The configuration schema is a predicate (`ValidConfig`). The engine factory never parses its configuration, so nothing in the source applies the schema at run time.
- FeeEngine.GetFeeByDistance: requires a non-zero distance interval. With an interval of 0, JavaScript divides to `Infinity`. The schema rules 0 out, and so does the shipped configuration.
- FeeEngine.GetDeliveryFee: requires a non-zero distance interval, for the same reason.
- FeeEngine.DistanceFeeMonotone: assumes the initial fee is whole cents. Up to the base distance the initial fee is returned unrounded, while beyond it the fee is rounded. A fractional initial fee could round down past its own unrounded value.
- FeeEngine.DeliveryFeeMonotoneInDistance: assumes the initial fee is whole cents, for the same reason.
- FeeEngine.DeliveryFeeBounds: the upper bound is `ToFixed(max, 2)`, which exceeds `max` when `max` rounds up to the next cent (see `Defaults.FractionalCapExceeded`).
- Internal.GetBulkFee: the contract bounds the fee from below only. Its exact value is stated by `Internal.BulkFeeBelowHalfItem` below half an item, by `Internal.BulkFeeRoundsFirst` from half an item up, and by `Internal.BulkFeeAgrees` on whole counts.
- The throwing variant's input type lives in `types.ts`, which is not part of this model. Its fields `itemCount` and `date` are modelled by `numberOfItems` and `orderTime` of the same input record.
- Legacy.IsRushHour: takes the parsed order time instead of a date string, because string parsing is not modelled. An unparsable string is the invalid date, which is never rush hour.
- NumberInput.HandleInputChange: requires a non-negative minimum. With a negative minimum the source accepts a minus sign and parses texts such as "-" to `NaN`. The calculator form always passes a minimum of 1. `App.tsx` passes no minimum, which its props type does not allow, and is not part of this model.
- NumberInput.HandleInputChange: only non-negative whole numbers of decimal places are modelled.
- The rendering of the input field is not modelled: React state, the DOM and the icon. Typing is modelled as one change event per keystroke that appends a character; pasting and clearing are single change events.
- The application shell, the calculator form, translations and the theme hook are not part of this model.
