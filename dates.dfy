/** Date bounds of the analysis window. A lead's `create_date` is a
    timestamp, counted here in microseconds from an epoch; a calendar day
    is counted in days from the same epoch. */
module Dates {
  import opened Dicts
  import opened Analysis

  /** Microseconds in a day: the resolution of a Python `datetime`. */
  const MicrosPerDay: int := 86_400_000_000

  /** A bound as it arrives in a context or a `data` dict: a plain `date`,
      or a value that is already a `datetime`. */
  datatype Bound = Day(day: int) | Moment(micros: int)

  /** The calendar day a timestamp falls on (floor division). */
  function DayOf(t: int): int
  {
    t / MicrosPerDay
  }

  /** `datetime.combine(d, datetime.min.time())`; a `datetime` is kept. */
  function StartOf(b: Bound): (t: int)
    ensures b.Day? ==> DayOf(t) == b.day && forall u :: t <= u <==> b.day <= DayOf(u)
    ensures b.Moment? ==> t == b.micros
  {
    match b
    case Day(d) => DayStart(d); d * MicrosPerDay
    case Moment(m) => m
  }

  /** `datetime.combine(d, datetime.max.time())`, the last microsecond of the
      day; a `datetime` is kept. */
  function EndOf(b: Bound): (t: int)
    ensures b.Day? ==> DayOf(t) == b.day && forall u :: u <= t <==> DayOf(u) <= b.day
    ensures b.Moment? ==> t == b.micros
  {
    match b
    case Day(d) => DayEnd(d); d * MicrosPerDay + MicrosPerDay - 1
    case Moment(m) => m
  }

  /** The timestamp a plain date becomes when the database compares it with
      a timestamp column: midnight at the start of that day. */
  function Midnight(d: int): (t: int)
    ensures DayOf(t) == d && forall u :: u <= t <==> DayOf(u) < d || u == t
  {
    DayStart(d);
    d * MicrosPerDay
  }

  lemma DayStart(d: int)
    ensures DayOf(d * MicrosPerDay) == d
    ensures forall u :: d * MicrosPerDay <= u <==> d <= DayOf(u)
    ensures forall u :: u < d * MicrosPerDay <==> DayOf(u) < d
  {
    forall u ensures d * MicrosPerDay <= u <==> d <= DayOf(u) {
      FloorDiv(u);
    }
  }

  lemma DayEnd(d: int)
    ensures DayOf(d * MicrosPerDay + MicrosPerDay - 1) == d
    ensures forall u :: u <= d * MicrosPerDay + MicrosPerDay - 1 <==> DayOf(u) <= d
  {
    FloorDiv(d * MicrosPerDay + MicrosPerDay - 1);
    forall u ensures u <= d * MicrosPerDay + MicrosPerDay - 1 <==> DayOf(u) <= d {
      FloorDiv(u);
    }
  }

  /** `DayOf(u)` is the day whose microseconds contain `u`. */
  lemma FloorDiv(u: int)
    ensures DayOf(u) * MicrosPerDay <= u < DayOf(u) * MicrosPerDay + MicrosPerDay
  {
  }

  // ---------------------------------------------------------------------
  // Windows built from bounds

  /** `t` is not before the bound: by calendar day for a plain date, by
      the instant for a `datetime`. */
  predicate OnOrAfter(t: int, b: Bound)
  {
    match b
    case Day(d) => d <= DayOf(t)
    case Moment(m) => m <= t
  }

  /** `t` is not after the bound, read the same way. */
  predicate OnOrBefore(t: int, b: Bound)
  {
    match b
    case Day(d) => DayOf(t) <= d
    case Moment(m) => t <= m
  }

  /** The window the HTML report passes to the analysis: a plain date
      widened to the start of its day (from) or the end of its day (to). */
  function DayWindow(from: Option<Bound>, to: Option<Bound>): Window
  {
    Window(if from.Some? then Some(StartOf(from.value)) else None,
           if to.Some? then Some(EndOf(to.value)) else None)
  }

  /** Every bound of a widened window includes its whole day: a lead is
      selected exactly when it is on or after `from` and on or before `to`. */
  lemma DayWindowSelects(from: Option<Bound>, to: Option<Bound>, t: int)
    ensures InWindow(t, DayWindow(from, to)) <==>
              (from.Some? ==> OnOrAfter(t, from.value)) && (to.Some? ==> OnOrBefore(t, to.value))
  {
  }

  /** The window the export wizard passes to the analysis as written: the
      plain dates of the context, which the database reads as midnight. */
  function MidnightWindow(from: Option<int>, to: Option<int>): Window
  {
    Window(if from.Some? then Some(Midnight(from.value)) else None,
           if to.Some? then Some(Midnight(to.value)) else None)
  }

  /** The window the export wizard evidently means, the one the HTML report
      and the analysis wizard build from the same plain dates. */
  function ExportWindow(from: Option<int>, to: Option<int>): Window
  {
    DayWindow(if from.Some? then Some(Day(from.value)) else None,
              if to.Some? then Some(Day(to.value)) else None)
  }

  /** The whole `to` day is inside the intended export window, but of the
      midnight window only its first microsecond is. */
  lemma MidnightDropsLastDay(from: Option<int>, to: int, t: int)
    requires DayOf(t) == to && (from.Some? ==> from.value <= to)
    ensures InWindow(t, ExportWindow(from, Some(to)))
    ensures InWindow(t, MidnightWindow(from, Some(to))) <==> t == Midnight(to)
  {
    DayStart(to);
    if from.Some? {
      DayStart(from.value);
    }
  }
}
