/**
 * Shared vocabulary of the booking model: optional values, the error codes the
 * services raise, results standing for "returns a value or throws", and the
 * millisecond clock that stands for `LocalDateTime`.
 */
module Common {

  datatype Option<T> = None | Some(value: T)

  /** The business error codes raised by the modelled code (global/exception/ErrorCode.java
    * together with the codes the sources reference but that file does not declare). */
  datatype ErrorCode =
    | UNAUTHORIZED | ACCESS_DENIED
    | MEMBER_NOT_FOUND | INVALID_PASSWORD
    | MOVIE_NOT_FOUND | SCREEN_NOT_FOUND
    | SCREENING_NOT_FOUND | SCREENING_ENDED | SCREENING_CANCELLED | SCREENING_NOT_BOOKABLE
    | SEAT_NOT_FOUND | SEAT_NOT_AVAILABLE | SEAT_ALREADY_HOLD | SEAT_ALREADY_RESERVED
    | SEAT_HOLD_EXPIRED | INVALID_HOLD_TOKEN | SEAT_LOCK_FAILED
    | RESERVATION_NOT_FOUND | RESERVATION_CANNOT_CANCEL | RESERVATION_CANNOT_START_PAYMENT
    | RESERVATION_CANNOT_CONFIRM | RESERVATION_CANNOT_REFUND
    | PAYMENT_NOT_FOUND | PAYMENT_FAILED | PAYMENT_CANNOT_COMPLETE | PAYMENT_CANNOT_CANCEL
    | PAYMENT_CANNOT_REFUND
    | TOO_MANY_REQUESTS | INTERNAL_SERVER_ERROR | INVALID_INPUT
    /** The screen-time clash that `ScreeningException.timeOverlap` stands for; that factory
      * is not declared in global/exception/ScreeningException.java. */
    | SCREENING_TIME_OVERLAP
    /** `Collectors.toMap` on a repeated key: an IllegalStateException, not a business error. */
    | DUPLICATE_KEY

  /** The value a Java method returns, or the exception it throws. */
  datatype Result<T> = Ok(value: T) | Err(error: ErrorCode)

  /** The completion of a `void` Java method: normal return, or the exception it throws. */
  datatype Outcome = Pass | Fail(error: ErrorCode)

  /** What a servlet filter does with a request: hand it down the chain, or answer 429 itself. */
  datatype Verdict = PassedOn | TooManyRequests

  /** `LocalDateTime` values are milliseconds on the local clock. */
  const MillisPerSecond: int := 1000
  const MillisPerMinute: int := 60000
  const MillisPerDay: int := 86400000

  /** `LocalDateTime.toLocalDate()`: the day number that contains instant `t`. */
  function DayOf(t: int): (d: int)
    ensures StartOfDay(d) <= t < StartOfDay(d) + MillisPerDay
  {
    t / MillisPerDay
  }

  /** An instant falls on day `d` exactly when it lies in that day's window. */
  lemma DayOfWindow(t: int, d: int)
    ensures DayOf(t) == d <==> StartOfDay(d) <= t < StartOfDay(d) + MillisPerDay
  {
    var e := DayOf(t);
    if e < d {
      assert StartOfDay(e) + MillisPerDay <= StartOfDay(d);
    } else if e > d {
      assert StartOfDay(d) + MillisPerDay <= StartOfDay(e);
    }
  }

  /** `LocalDate.atStartOfDay()`. */
  function StartOfDay(d: int): int
  {
    d * MillisPerDay
  }

  /** `plusMinutes(minutes)` on a `LocalDateTime`. */
  function PlusMinutes(t: int, minutes: int): int
  {
    t + minutes * MillisPerMinute
  }
}
