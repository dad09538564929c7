/** Calendar days as JavaScript's Date exposes them in local time:
    getFullYear(), getMonth() (0-based) and getDate(). Time of day is not
    modelled. */
module Calendar {

  datatype Date = Date(year: int, month: int, day: int)

  /** Leap years of the proleptic Gregorian calendar that Date uses. */
  predicate IsLeapYear(y: int)
  {
    (y % 4 == 0 && y % 100 != 0) || y % 400 == 0
  }

  function DaysInMonth(y: int, m: int): int
    requires 0 <= m < 12
  {
    if m == 1 then (if IsLeapYear(y) then 29 else 28)
    else if m == 3 || m == 5 || m == 8 || m == 10 then 30
    else 31
  }

  /** A day that exists in the calendar. */
  predicate ValidDate(d: Date)
  {
    0 <= d.month < 12 && 1 <= d.day <= DaysInMonth(d.year, d.month)
  }

  /** Chronological order of days (`<=` on Date values). */
  predicate AtOrBefore(a: Date, b: Date)
  {
    a.year < b.year
    || (a.year == b.year && (a.month < b.month || (a.month == b.month && a.day <= b.day)))
  }

  predicate Before(a: Date, b: Date)
  {
    AtOrBefore(a, b) && a != b
  }

  /** AtOrBefore is a total order. */
  lemma AtOrBeforeIsTotalOrder(a: Date, b: Date, c: Date)
    ensures AtOrBefore(a, a)
    ensures AtOrBefore(a, b) || AtOrBefore(b, a)
    ensures AtOrBefore(a, b) && AtOrBefore(b, a) ==> a == b
    ensures AtOrBefore(a, b) && AtOrBefore(b, c) ==> AtOrBefore(a, c)
  {
  }

  /** The following day. */
  function NextDay(d: Date): (r: Date)
    requires ValidDate(d)
    ensures ValidDate(r) && Before(d, r)
  {
    if d.day < DaysInMonth(d.year, d.month) then Date(d.year, d.month, d.day + 1)
    else if d.month < 11 then Date(d.year, d.month + 1, 1)
    else Date(d.year + 1, 0, 1)
  }

  /** The preceding day; NextDay undoes it. */
  function PreviousDay(d: Date): (r: Date)
    requires ValidDate(d)
    ensures ValidDate(r) && Before(r, d)
    ensures NextDay(r) == d
  {
    if d.day > 1 then Date(d.year, d.month, d.day - 1)
    else if d.month > 0 then Date(d.year, d.month - 1, DaysInMonth(d.year, d.month - 1))
    else Date(d.year - 1, 11, 31)
  }

  /** The day n days before d. */
  function DaysBefore(d: Date, n: nat): (r: Date)
    requires ValidDate(d)
    ensures ValidDate(r) && AtOrBefore(r, d)
    ensures n > 0 ==> Before(r, d)
    decreases n
  {
    if n == 0 then d
    else
      var r := DaysBefore(PreviousDay(d), n - 1);
      AtOrBeforeIsTotalOrder(r, PreviousDay(d), d);
      r
  }

  /** The day n days after d. */
  function DaysAfter(d: Date, n: nat): (r: Date)
    requires ValidDate(d)
    ensures ValidDate(r)
    decreases n
  {
    if n == 0 then d else DaysAfter(NextDay(d), n - 1)
  }

  /** Stepping forward n days from DaysBefore(d, n) comes back to d. */
  lemma {:induction false} DaysBeforeRoundTrip(d: Date, n: nat)
    requires ValidDate(d)
    ensures DaysAfter(DaysBefore(d, n), n) == d
    decreases n
  {
    if n > 0 {
      var p := PreviousDay(d);
      DaysBeforeRoundTrip(p, n - 1);
      DaysAfterStep(DaysBefore(p, n - 1), n - 1);
    }
  }

  /** DaysAfter(x, n + 1) is one day after DaysAfter(x, n). */
  lemma {:induction false} DaysAfterStep(x: Date, n: nat)
    requires ValidDate(x)
    ensures DaysAfter(x, n + 1) == NextDay(DaysAfter(x, n))
    decreases n
  {
    if n > 0 {
      DaysAfterStep(NextDay(x), n - 1);
    }
  }
}
