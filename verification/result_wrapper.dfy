/**
 The result wrapper around the throwing variant: each wrapper calls one
 function of the throwing engine and turns a returned value into an `ok`
 record and a thrown validation failure into an `err` record, so that no
 failure escapes it.
 */
module ResultWrapper {
  import opened Numeric
  import opened Schemas
  import Internal
  import FeeEngine
  import Defaults

  datatype Option<T> = None | Some(value: T)

  /** The `data` field: the value, or the empty object `{}` an `err` record carries. */
  datatype Payload<T> = Value(value: T) | EmptyObject

  /** The `{ data, error, success }` record; `error` is `null` (`None`) on success. */
  datatype WrappedResult<T> = WrappedResult(data: Payload<T>, error: Option<ZodError>, success: bool)
  {
    /** The two shapes `ok` and `err` build: a value without an error, or an error over an empty object. */
    predicate WellFormed() {
      if success then data.Value? && error.None? else data.EmptyObject? && error.Some?
    }
  }

  /** `ok(data)`: a successful record that gives back exactly `data`. */
  function MakeOk<T>(data: T): (r: WrappedResult<T>)
    ensures r.WellFormed() && r.success
    ensures Release(r) == Ok(data)
  {
    WrappedResult(Value(data), None, true)
  }

  /** `err(error)`: a failed record that gives back exactly `error`. */
  function MakeErr<T>(error: ZodError): (r: WrappedResult<T>)
    ensures r.WellFormed() && !r.success
    ensures Release(r) == Err(error)
  {
    WrappedResult(EmptyObject, Some(error), false)
  }

  /** The `try { return ok(f(x)) } catch (error) { return err(error) }` shape shared by all five wrappers. */
  function Capture<T>(outcome: Result<T>): (r: WrappedResult<T>)
    ensures r.WellFormed()
    ensures r.success <==> outcome.Ok?
    ensures Release(r) == outcome
  {
    match outcome
    case Ok(v) => MakeOk(v)
    case Err(e) => MakeErr(e)
  }

  /** Reading a wrapped record back: its value when it succeeded, its error (as a throw) otherwise. */
  function Release<T>(w: WrappedResult<T>): (outcome: Result<T>)
    requires w.WellFormed()
    ensures outcome.Ok? <==> w.success
  {
    if w.success then Ok(w.data.value) else Err(w.error.value)
  }

  /** Every well-formed record is the capture of exactly one outcome: the one it releases. */
  lemma CaptureRelease<T>(w: WrappedResult<T>)
    requires w.WellFormed()
    ensures Capture(Release(w)) == w
  {
  }

  /** Capture is injective: distinct outcomes are never wrapped alike. */
  lemma CaptureInjective<T>(a: Result<T>, b: Result<T>)
    requires Capture(a) == Capture(b)
    ensures a == b
  {
    assert Release(Capture(a)) == Release(Capture(b));
  }

  function GetSmallOrderSurchargeWrapper(cartValue: real): (r: WrappedResult<real>)
    ensures r.WellFormed()
    ensures Release(r) == Internal.GetSmallOrderSurcharge(cartValue)
    ensures r.success <==> cartValue > 0.0
    ensures !r.success ==> r.error == Some(ZodError({CartValue}))
  {
    Capture(Internal.GetSmallOrderSurcharge(cartValue))
  }

  function GetDeliveryFeeWrapper(input: DeliveryFeeInput): (r: WrappedResult<real>)
    ensures r.WellFormed()
    ensures Release(r) == Internal.GetDeliveryFee(input)
    ensures r.success <==> Internal.InputIssues(input) == {}
    ensures !r.success ==> r.error == Some(ZodError(Internal.InputIssues(input)))
  {
    Capture(Internal.GetDeliveryFee(input))
  }

  function GetBulkFeeWrapper(itemCount: real): (r: WrappedResult<real>)
    ensures r.WellFormed()
    ensures Release(r) == Internal.GetBulkFee(itemCount)
    ensures r.success <==> itemCount > 0.0
    ensures !r.success ==> r.error == Some(ZodError({NumberOfItems}))
  {
    Capture(Internal.GetBulkFee(itemCount))
  }

  function IsRushHourWrapper(date: Timestamp): (r: WrappedResult<bool>)
    ensures r.WellFormed()
    ensures Release(r) == Internal.IsRushHour(date)
    ensures r.success <==> date.Instant?
    ensures !r.success ==> r.error == Some(ZodError({OrderTime}))
  {
    Capture(Internal.IsRushHour(date))
  }

  function GetFeeByDistanceWrapper(distance: real): (r: WrappedResult<real>)
    ensures r.WellFormed()
    ensures Release(r) == Internal.GetFeeByDistance(distance)
    ensures r.success <==> distance > 0.0
    ensures !r.success ==> r.error == Some(ZodError({Distance}))
  {
    Capture(Internal.GetFeeByDistance(distance))
  }

  /**
   On input the configurable engine accepts, the wrapped fee is the
   configurable engine's fee under the shipped configuration.
   */
  lemma DeliveryFeeWrapperAgrees(input: DeliveryFeeInput)
    requires ValidInput(input)
    ensures GetDeliveryFeeWrapper(input) == MakeOk(FeeEngine.GetDeliveryFee(Defaults.DefaultConfig, input).value)
  {
    Internal.DeliveryFeeAgrees(input);
  }

  lemma WrapperExamples()
    ensures GetDeliveryFeeWrapper(DeliveryFeeInput(100000.0, 1.0, 1.0, Internal.Friday14)).data == Value(15.0)
    ensures GetDeliveryFeeWrapper(DeliveryFeeInput(1.0, 200.0, 1.0, Internal.Friday14)).data == Value(0.0)
    ensures GetDeliveryFeeWrapper(DeliveryFeeInput(1.0, 10.0, 1.0, Internal.Friday15)).data == Value(2.4)
    ensures GetSmallOrderSurchargeWrapper(9.9).data == Value(0.1)
    ensures GetFeeByDistanceWrapper(1500.0).data == Value(3.0)
    ensures GetBulkFeeWrapper(5.0).data == Value(0.5)
    ensures IsRushHourWrapper(Internal.Friday15).data == Value(true)
    ensures IsRushHourWrapper(Instant(6, 15)).data == Value(false)
    ensures GetBulkFeeWrapper(0.0) == WrappedResult(EmptyObject, Some(ZodError({NumberOfItems})), false)
  {
    Internal.DeliveryExamples();
    Internal.DeliveryRushExamples();
    Internal.SurchargeExamples();
    Internal.DistanceExamples();
    Internal.BulkExamples();
  }
}
