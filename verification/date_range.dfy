/** Instants and inclusive date ranges, as the API compares them.

    JavaScript `Date` objects are modelled by `JsDate`: the millisecond
    timestamp, or `None` for an Invalid Date (whose `getTime()` is NaN).
    String-to-date parsing (`new Date(s)`) is left to a caller-supplied
    `DateParser`, so nothing here depends on the ISO-8601 grammar. */
module DateRange {
  import opened Common

  /** Milliseconds since the epoch. */
  type Timestamp = int

  /** A `Date` value: its timestamp, or None for an Invalid Date. */
  type JsDate = Option<Timestamp>

  /** `new Date(s)`. */
  type DateParser = string -> JsDate

  /** `a < b` on dates: false whenever either side is NaN. */
  predicate Before(a: JsDate, b: JsDate) {
    a.Some? && b.Some? && a.value < b.value
  }

  /** `a > b` on dates: false whenever either side is NaN. */
  predicate After(a: JsDate, b: JsDate) {
    a.Some? && b.Some? && a.value > b.value
  }

  /** `{ start?: Date; end?: Date }`: an absent bound is None. */
  datatype Range = Range(start: Option<JsDate>, end: Option<JsDate>)

  const Unbounded := Range(None, None)

  /** `isWithinRange`: excluded only by a present bound it lies strictly
      outside of. */
  predicate IsWithinRange(date: JsDate, range: Range) {
    if range.start.Some? && Before(date, range.start.value) then false
    else if range.end.Some? && After(date, range.end.value) then false
    else true
  }

  /** The range test on a valid date against valid bounds, stated as the
      closed interval it denotes: both bounds inclusive, absent bounds open. */
  lemma WithinRangeIsClosedInterval(t: Timestamp, start: Option<Timestamp>, end: Option<Timestamp>)
    ensures IsWithinRange(Some(t), Range(if start.Some? then Some(Some(start.value)) else None,
                                         if end.Some? then Some(Some(end.value)) else None))
        <==> (start.None? || start.value <= t) && (end.None? || t <= end.value)
  {
  }

  /** With no bounds every date is within range. */
  lemma UnboundedContainsAll(date: JsDate)
    ensures IsWithinRange(date, Unbounded)
  {
  }

  /** Both bounds are inclusive. */
  lemma BoundsInclusive(s: Timestamp, e: Timestamp)
    requires s <= e
    ensures IsWithinRange(Some(s), Range(Some(Some(s)), Some(Some(e))))
    ensures IsWithinRange(Some(e), Range(Some(Some(s)), Some(Some(e))))
  {
  }

  /** A date strictly before the start, or strictly after the end, is out. */
  lemma OutsideBoundsExcluded(t: Timestamp, range: Range)
    requires || (range.start.Some? && range.start.value.Some? && t < range.start.value.value)
             || (range.end.Some? && range.end.value.Some? && t > range.end.value.value)
    ensures !IsWithinRange(Some(t), range)
  {
  }

  /** An inverted range holds no valid date. */
  lemma InvertedRangeEmpty(s: Timestamp, e: Timestamp, t: Timestamp)
    requires s > e
    ensures !IsWithinRange(Some(t), Range(Some(Some(s)), Some(Some(e))))
  {
  }

  /** Comparisons with NaN are false, so an Invalid Date is never excluded,
      and an Invalid Date bound excludes nothing. */
  lemma InvalidDatesNeverExcluded(date: JsDate, range: Range)
    requires || date.None?
             || ((range.start.None? || range.start.value.None?) && (range.end.None? || range.end.value.None?))
    ensures IsWithinRange(date, range)
  {
  }

  /** `parseIsoDateOrThrow`: the parsed date, or BadRequest naming the field. */
  function ParseIsoDateOrThrow(parse: DateParser, value: string, fieldName: string): (r: Result<Timestamp>)
    ensures r.Err? <==> parse(value).None?
    ensures r.Ok? ==> r.value == parse(value).value
    ensures r.Err? ==> r.error == BadRequest(fieldName + " inválido.")
  {
    match parse(value)
    case None => Err(BadRequest(fieldName + " inválido."))
    case Some(t) => Ok(t)
  }
}
