/**
 * One time basis for the whole model: an instant is a whole number of seconds.
 * Rendering an instant as text (`strftime`) is supplied from outside.
 */
module Time {
  import opened Wrappers

  type Instant = int

  /** One hour, the default length of a meeting whose end was not given. */
  const HOUR: int := 3600

  /** The two `strftime` renderings the replies use:
      `date` is '%A, %B %d, %Y' (weekday, month, day, year) and
      `clock` is '%I:%M %p' (12-hour clock). */
  datatype Formats = Formats(date: Instant -> string, clock: Instant -> string)

  /** The resolved start and end of a request; either may be absent. */
  datatype Slots = Slots(start: Option<Instant>, end: Option<Instant>)
  {
    /** Both ends were resolved: the request names a concrete time range. */
    predicate Resolved()
    {
      start.Some? && end.Some?
    }
  }
}
