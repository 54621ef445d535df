/** The exceptions the calendar layer lets escape to its caller, as values. */
module Failures {

  datatype Failure =
    | MissingColon    // `IndexError`: a DTSTART, DTEND or SUMMARY line without ':'
    | MissingField    // `AttributeError`: a record with no DTSTART or no DTEND line
    | BadTimestamp    // `ValueError`: `strptime` rejects a start or end text
    | DateOverflow    // `OverflowError`: date arithmetic leaves `datetime`'s range

  datatype Result<+T> = Ok(value: T) | Err(failure: Failure)
}
