/** Calendar values as the feed library hands them to the detector: a bare
    calendar date, or a date with a time of day (and possibly a UTC offset).
    Dates are ordered the way Python's `date` objects compare: by year, then
    month, then day. */
module Dates {

  /** A calendar date. The library only builds valid dates; validity plays no
      part in any comparison, so it is not constrained here. */
  datatype Date = Date(year: int, month: int, day: int)

  /** The strict order `a < b` of Python dates: lexicographic on (year, month, day). */
  predicate Before(a: Date, b: Date) {
    a.year < b.year
    || (a.year == b.year && a.month < b.month)
    || (a.year == b.year && a.month == b.month && a.day < b.day)
  }

  /** `a <= b` */
  predicate NotAfter(a: Date, b: Date) {
    !Before(b, a)
  }

  lemma BeforeIrreflexive(a: Date)
    ensures !Before(a, a)
  {
  }

  /** Any two dates are equal or one of them comes first: `sorted` has a total key order. */
  lemma BeforeTotal(a: Date, b: Date)
    ensures a == b || Before(a, b) || Before(b, a)
  {
  }

  lemma NotAfterTransitive(a: Date, b: Date, c: Date)
    requires NotAfter(a, b) && NotAfter(b, c)
    ensures NotAfter(a, c)
  {
  }

  /** Mixing `<` and `<=` along a chain keeps it strict. */
  lemma NotAfterBeforeTransitive(a: Date, b: Date, c: Date)
    requires NotAfter(a, b) && Before(b, c)
    ensures Before(a, c)
  {
  }

  /** A time of day. */
  datatype Time = Time(hour: int, minute: int, second: int, microsecond: int)

  /** The value of a DTSTART or DTEND property: either a bare date or a
      date-time, the latter possibly carrying a UTC offset in minutes. */
  datatype Moment =
    | CalendarDate(date: Date)
    | CalendarDateTime(day: Date, time: Time, utcOffset: Option<int>)

  datatype Option<T> = None | Some(value: T)

  /** Normalisation to a bare date: a date-time keeps only its own date part,
      read literally, with no time-zone conversion; a date is left as it is. */
  function ToDate(m: Moment): (d: Date)
    ensures m.CalendarDate? ==> d == m.date
    ensures m.CalendarDateTime? ==> d == m.day
  {
    match m
    case CalendarDate(date) => date
    case CalendarDateTime(day, _, _) => day
  }

  /** A date-time normalises to the same date as the bare date it falls on,
      whatever its time of day and offset. */
  lemma DateTimeNormalisesToItsDate(d: Date, t: Time, offset: Option<int>)
    ensures ToDate(CalendarDateTime(d, t, offset)) == ToDate(CalendarDate(d))
  {
  }

  /** Normalising a value that is already a bare date changes nothing, so
      normalisation is idempotent. */
  lemma ToDateIdempotent(m: Moment)
    ensures ToDate(CalendarDate(ToDate(m))) == ToDate(m)
  {
  }
}
