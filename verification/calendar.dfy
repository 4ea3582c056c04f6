/** Calendar dates as the wizard's `Date` objects use them: a proleptic
    Gregorian day plus a time of day. Only the two date operations the
    certificate code relies on are modelled: stepping back one calendar day
    (`setDate(getDate() - 1)`) and `setFullYear`. */
module Calendar {

  const MillisPerDay: nat := 86400000

  /** A local date and time; `timeOfDay` counts milliseconds since midnight. */
  datatype Date = Date(year: int, month: int, day: int, timeOfDay: nat)

  predicate IsLeap(y: int) {
    (y % 4 == 0 && y % 100 != 0) || y % 400 == 0
  }

  function DaysInMonth(y: int, m: int): (n: int)
    requires 1 <= m <= 12
    ensures 28 <= n <= 31
    ensures n == 29 <==> m == 2 && IsLeap(y)
  {
    if m == 2 then (if IsLeap(y) then 29 else 28)
    else if m == 4 || m == 6 || m == 9 || m == 11 then 30
    else 31
  }

  /** A date that names an existing calendar day. */
  predicate Valid(d: Date) {
    1 <= d.month <= 12 && 1 <= d.day <= DaysInMonth(d.year, d.month)
    && d.timeOfDay < MillisPerDay
  }

  /** A clock reading: always an existing calendar day. */
  type ValidDate = d: Date | Valid(d) witness Date(2000, 1, 1, 0)

  /** The same time of day on the next calendar day. */
  function NextDay(d: Date): (r: Date)
    requires Valid(d)
    ensures Valid(r) && r.timeOfDay == d.timeOfDay
  {
    if d.day < DaysInMonth(d.year, d.month) then d.(day := d.day + 1)
    else if d.month < 12 then Date(d.year, d.month + 1, 1, d.timeOfDay)
    else Date(d.year + 1, 1, 1, d.timeOfDay)
  }

  /** The same time of day on the previous calendar day: what
      `date.setDate(date.getDate() - 1)` does, day 0 rolling back into the
      last day of the previous month. */
  function PrevDay(d: Date): (r: Date)
    requires Valid(d)
    ensures Valid(r) && r.timeOfDay == d.timeOfDay
  {
    if d.day > 1 then d.(day := d.day - 1)
    else if d.month > 1 then Date(d.year, d.month - 1, DaysInMonth(d.year, d.month - 1), d.timeOfDay)
    else Date(d.year - 1, 12, 31, d.timeOfDay)
  }

  /** Stepping back a day and forward again, or forward and back, returns to
      the starting date: `PrevDay` is exactly "the day before". */
  lemma PrevDayNextDay(d: Date)
    requires Valid(d)
    ensures NextDay(PrevDay(d)) == d
    ensures PrevDay(NextDay(d)) == d
  {
  }

  /** `d.setFullYear(y)`: month, day and time are kept, except that
      29 February in a year that is not a leap year overflows into 1 March. */
  function SetFullYear(d: Date, y: int): (r: Date)
    requires Valid(d)
    ensures Valid(r) && r.year == y && r.timeOfDay == d.timeOfDay
    ensures d.day <= DaysInMonth(y, d.month) ==> r.month == d.month && r.day == d.day
    ensures d.day > DaysInMonth(y, d.month) ==> d.month == 2 && d.day == 29 && r.month == 3 && r.day == 1
  {
    if d.day <= DaysInMonth(y, d.month) then d.(year := y)
    else Date(y, 3, 1, d.timeOfDay)
  }

  /** Moving a date to another year and back restores it, unless it was
      29 February and the other year has no such day. */
  lemma SetFullYearRoundTrip(d: Date, y: int)
    requires Valid(d)
    requires !(d.month == 2 && d.day == 29) || IsLeap(y)
    ensures SetFullYear(SetFullYear(d, y), d.year) == d
  {
  }

  /** The one date `setFullYear` moves off its day: 29 February 2024 set to
      2025 becomes 1 March 2025. */
  lemma LeapDayRollsOver()
    ensures SetFullYear(Date(2024, 2, 29, 0), 2025) == Date(2025, 3, 1, 0)
  {
  }
}
