/** The date-range filters of the dashboard and data pages. A `Date` is a
    local calendar date with the milliseconds since midnight; `new Date(x)` is
    the parameter `toDate`, which answers `None` for an Invalid Date (every
    comparison with one is false). The year correction turns a Buddhist-Era
    year (above 2500) into the Common-Era year 543 years earlier. */
module DateBounds {
  import opened Common
  import opened Seqs
  import opened ClientRows

  const DayMillis := 86400000
  const HourMillis := 3600000

  type DayMs = ms: nat | ms < DayMillis

  datatype Instant = Instant(year: int, month: nat, day: nat, ms: DayMs)

  /** `a <= b` on two valid dates: the earlier calendar day, or the same day
      and no later in it. */
  predicate NotAfter(a: Instant, b: Instant)
  {
    a.year < b.year
    || (a.year == b.year && a.month < b.month)
    || (a.year == b.year && a.month == b.month && a.day < b.day)
    || (a.year == b.year && a.month == b.month && a.day == b.day && a.ms <= b.ms)
  }

  predicate Leap(year: int)
  {
    year % 4 == 0 && (year % 100 != 0 || year % 400 == 0)
  }

  /** `d.setFullYear(year)`: the same month, day and time in another year; a
      29 February in a year without one becomes 1 March. */
  function WithYear(d: Instant, year: int): (r: Instant)
    ensures r.year == year && r.ms == d.ms
    ensures !(d.month == 2 && d.day == 29) ==> r.month == d.month && r.day == d.day
  {
    if d.month == 2 && d.day == 29 && !Leap(year) then Instant(year, 3, 1, d.ms)
    else Instant(year, d.month, d.day, d.ms)
  }

  /** `if (d.getFullYear() > 2500) d.setFullYear(d.getFullYear() - 543)` */
  function FromBuddhistEra(d: Instant): (r: Instant)
    ensures d.year > 2500 ==> r.year == d.year - 543
    ensures d.year <= 2500 ==> r == d
    ensures r.ms == d.ms
  {
    if d.year > 2500 then WithYear(d, d.year - 543) else d
  }

  /** Correcting a year that is already a Common-Era year up to 3043 a second
      time changes nothing. */
  lemma CorrectionOnce(d: Instant)
    requires d.year <= 3043
    ensures FromBuddhistEra(FromBuddhistEra(d)) == FromBuddhistEra(d)
  {
  }

  /** 29 February 2568 BE has no counterpart in 2025 and becomes 1 March. */
  lemma LeapDayRollsOver()
    ensures FromBuddhistEra(Instant(2568, 2, 29, 0)) == Instant(2025, 3, 1, 0)
  {
    assert !Leap(2025);
  }

  /** `d.setHours(23, 59, 59, 999)` */
  function EndOfDay(d: Instant): (r: Instant)
    ensures r.year == d.year && r.month == d.month && r.day == d.day
  {
    Instant(d.year, d.month, d.day, DayMillis - 1)
  }

  /** The lower bound a `startDate` filter compares against. */
  function StartBound(text: string, toDate: Value -> Option<Instant>): Option<Instant>
  {
    match toDate(Str(text))
    case None => None
    case Some(d) => Some(FromBuddhistEra(d))
  }

  /** The upper bound an `endDate` filter compares against. */
  function EndBound(text: string, toDate: Value -> Option<Instant>): Option<Instant>
  {
    match toDate(Str(text))
    case None => None
    case Some(d) => Some(EndOfDay(FromBuddhistEra(d)))
  }

  /** `new Date(row.timestamp)`: an absent property is `undefined`, which
      makes an Invalid Date. */
  function RowDate(row: Row, toDate: Value -> Option<Instant>): Option<Instant>
  {
    if "timestamp" in row then toDate(row["timestamp"]) else None
  }

  /** `new Date(row.timestamp) >= startDate` */
  predicate OnOrAfter(bound: Option<Instant>, toDate: Value -> Option<Instant>, row: Row)
  {
    bound.Some? && RowDate(row, toDate).Some? && NotAfter(bound.value, RowDate(row, toDate).value)
  }

  /** `new Date(row.timestamp) <= endDate` */
  predicate OnOrBefore(bound: Option<Instant>, toDate: Value -> Option<Instant>, row: Row)
  {
    bound.Some? && RowDate(row, toDate).Some? && NotAfter(RowDate(row, toDate).value, bound.value)
  }

  function AfterStart(bound: Option<Instant>, toDate: Value -> Option<Instant>): Row -> bool
  {
    (row: Row) => OnOrAfter(bound, toDate, row)
  }

  function BeforeEnd(bound: Option<Instant>, toDate: Value -> Option<Instant>): Row -> bool
  {
    (row: Row) => OnOrBefore(bound, toDate, row)
  }

  /** Both bounds are inclusive, and the end bound takes in the whole of its
      day: a row dated on the end day at any time, or exactly at the start,
      passes. */
  lemma BoundsInclusive(startText: string, endText: string, toDate: Value -> Option<Instant>, row: Row)
    requires StartBound(startText, toDate).Some? && EndBound(endText, toDate).Some?
    requires RowDate(row, toDate).Some?
    ensures RowDate(row, toDate) == StartBound(startText, toDate) ==>
      OnOrAfter(StartBound(startText, toDate), toDate, row)
    ensures var e := EndBound(endText, toDate).value; var d := RowDate(row, toDate).value;
      d.year == e.year && d.month == e.month && d.day == e.day ==>
        OnOrBefore(EndBound(endText, toDate), toDate, row)
  {
  }

  /** An end date that does not parse keeps no row, and neither does a start
      date that does not parse. */
  lemma InvalidBoundKeepsNothing(text: string, toDate: Value -> Option<Instant>, row: Row)
    requires toDate(Str(text)).None?
    ensures !OnOrAfter(StartBound(text, toDate), toDate, row)
    ensures !OnOrBefore(EndBound(text, toDate), toDate, row)
  {
  }

  /** A row passes both date filters that are set. */
  predicate InDateRange(startText: string, endText: string, toDate: Value -> Option<Instant>, row: Row)
  {
    && (startText == "" || OnOrAfter(StartBound(startText, toDate), toDate, row))
    && (endText == "" || OnOrBefore(EndBound(endText, toDate), toDate, row))
  }

  /** The two date steps that open `handleFilterChange` on the dashboard and
      on the data page: the start date first, then the end date. */
  function ByDateRange(rows: seq<Row>, startText: string, endText: string, toDate: Value -> Option<Instant>): (r: seq<Row>)
    ensures Subseq(r, rows)
  {
    var byStart := Narrow(rows, startText != "", AfterStart(StartBound(startText, toDate), toDate));
    var byEnd := Narrow(byStart, endText != "", BeforeEnd(EndBound(endText, toDate), toDate));
    SubseqTrans(byEnd, byStart, rows);
    byEnd
  }

  /** The date steps treat the two halves of a list separately. */
  lemma ByDateRangeAppend(a: seq<Row>, b: seq<Row>, startText: string, endText: string, toDate: Value -> Option<Instant>)
    ensures ByDateRange(a + b, startText, endText, toDate) ==
      ByDateRange(a, startText, endText, toDate) + ByDateRange(b, startText, endText, toDate)
  {
    var start := AfterStart(StartBound(startText, toDate), toDate);
    NarrowAppend(a, b, startText != "", start);
    NarrowAppend(Narrow(a, startText != "", start), Narrow(b, startText != "", start),
                 endText != "", BeforeEnd(EndBound(endText, toDate), toDate));
  }

  /** The date steps keep exactly the rows inside the range that is set. */
  lemma ByDateRangeMember(rows: seq<Row>, startText: string, endText: string, toDate: Value -> Option<Instant>, row: Row)
    ensures row in ByDateRange(rows, startText, endText, toDate) <==>
      row in rows && InDateRange(startText, endText, toDate, row)
  {
    var byStart := Narrow(rows, startText != "", AfterStart(StartBound(startText, toDate), toDate));
    NarrowMember(rows, startText != "", AfterStart(StartBound(startText, toDate), toDate), row);
    NarrowMember(byStart, endText != "", BeforeEnd(EndBound(endText, toDate), toDate), row);
  }
}
