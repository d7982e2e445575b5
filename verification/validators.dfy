/**
 * Field validators (transportation/validators.py). Each either passes or
 * raises ValidationError; "today" (timezone.now().date()) is a parameter and
 * days are numbered as integers.
 */
module Validators {
  import opened Wrappers

  /** The dynamically typed `status` argument of validate_triprequest_status. */
  datatype StatusArg = IntArg(code: int) | NonIntArg

  /**
   * A value handed to a date validator. A Python datetime is also an instance
   * of date; a plain date is not a datetime.
   */
  datatype Temporal =
    | DateValue(day: int)
    | DateTimeValue(day: int, secondOfDay: nat)
    | OtherValue

  predicate IsDateInstance(v: Temporal)
  {
    v.DateValue? || v.DateTimeValue?
  }

  predicate IsDateTimeInstance(v: Temporal)
  {
    v.DateTimeValue?
  }

  /** validate_triprequest_status: the request's status code must equal `status`. */
  function ValidateTripRequestStatus(requestStatus: int, status: StatusArg): (r: Outcome)
    ensures r == Pass || r == Fail(ValidationError)
    ensures r == Pass <==> status == IntArg(requestStatus)
  {
    if !status.IntArg? then Fail(ValidationError)
    else if requestStatus != status.code then Fail(ValidationError)
    else Pass
  }

  /** The calendar day of a value that passed the type test. */
  function DayOf(v: Temporal): int
    requires v.DateTimeValue?
  {
    v.day
  }

  /**
   * validate_past as written: `not is_date or not is_datetime` rejects every
   * value that is not a datetime, plain dates included; the comparison of a
   * datetime with a date raises TypeError, so the code falls back to
   * comparing `value.date()` with today.
   */
  function ValidatePast(v: Temporal, today: int): (r: Outcome)
    ensures r == Pass || r == Fail(ValidationError)
    ensures r == Pass <==> v.DateTimeValue? && v.day <= today
  {
    if !IsDateInstance(v) || !IsDateTimeInstance(v) then Fail(ValidationError)
    else if DayOf(v) > today then Fail(ValidationError)
    else Pass
  }

  /** validate_future as written; the mirror image of ValidatePast. */
  function ValidateFuture(v: Temporal, today: int): (r: Outcome)
    ensures r == Pass || r == Fail(ValidationError)
    ensures r == Pass <==> v.DateTimeValue? && v.day >= today
  {
    if !IsDateInstance(v) || !IsDateTimeInstance(v) then Fail(ValidationError)
    else if DayOf(v) < today then Fail(ValidationError)
    else Pass
  }

  /**
   * A datetime passes both validators exactly when it falls on today, and it
   * always passes at least one of them.
   */
  lemma DateTimeAcceptance(day: int, second: nat, today: int)
    ensures var v := DateTimeValue(day, second);
      (ValidatePast(v, today) == Pass && ValidateFuture(v, today) == Pass) <==> day == today
    ensures var v := DateTimeValue(day, second);
      ValidatePast(v, today) == Pass || ValidateFuture(v, today) == Pass
  {
  }

  /** The discrepancy: a plain date lying in the past is still refused by validate_past. */
  lemma PastDateRefused(today: int)
    ensures ValidatePast(DateValue(today - 1), today) == Fail(ValidationError)
  {
  }

  /**
   * The test the error message describes ("is not a date or datetime
   * object"): the value must be a date, datetime or not.
   */
  function ValidatePastCorrected(v: Temporal, today: int): (r: Outcome)
    ensures r == Pass <==> IsDateInstance(v) && v.day <= today
  {
    if !IsDateInstance(v) then Fail(ValidationError)
    else if v.day > today then Fail(ValidationError)
    else Pass
  }

  function ValidateFutureCorrected(v: Temporal, today: int): (r: Outcome)
    ensures r == Pass <==> IsDateInstance(v) && v.day >= today
  {
    if !IsDateInstance(v) then Fail(ValidationError)
    else if v.day < today then Fail(ValidationError)
    else Pass
  }

  /** The corrected validators agree with the written ones on datetimes and also accept dates. */
  lemma CorrectedExtendsWritten(v: Temporal, today: int)
    ensures v.DateTimeValue? ==> ValidatePastCorrected(v, today) == ValidatePast(v, today)
    ensures v.DateTimeValue? ==> ValidateFutureCorrected(v, today) == ValidateFuture(v, today)
    ensures v.DateValue? ==> (ValidatePastCorrected(v, today) == Pass <==> v.day <= today)
    ensures v.DateValue? ==> (ValidateFutureCorrected(v, today) == Pass <==> v.day >= today)
  {
  }
}
