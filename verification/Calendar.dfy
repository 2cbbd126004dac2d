/** The Gregorian calendar as `Date.UTC` counts it, and dates as text. */
module Calendar {
  import opened Texts

  datatype Date = Date(year: int, month: int, day: int)

  predicate Leap(year: int) {
    year % 4 == 0 && (year % 100 != 0 || year % 400 == 0)
  }

  function DaysInMonth(year: int, month: int): (n: int)
    ensures 28 <= n <= 31
  {
    if month == 2 then (if Leap(year) then 29 else 28) else if month in {4, 6, 9, 11} then 30 else 31
  }

  /** A day of the calendar. */
  predicate Real(d: Date) {
    1 <= d.month <= 12 && 1 <= d.day <= DaysInMonth(d.year, d.month)
  }

  /** The number of the year's first day, counted from 1970-01-01. */
  function DaysBeforeYear(year: int): int {
    365 * (year - 1970) + (year - 1969) / 4 - (year - 1901) / 100 + (year - 1601) / 400
  }

  function DaysBeforeMonth(year: int, month: int): int
    requires 1 <= month <= 12
    decreases month
  {
    if month == 1 then 0 else DaysBeforeMonth(year, month - 1) + DaysInMonth(year, month - 1)
  }

  /** The number of a day; months past December and days past the month's end run on, as do months and days zero. */
  function DayNumber(d: Date): int {
    var year, month := d.year + (d.month - 1) / 12, (d.month - 1) % 12 + 1;
    DaysBeforeYear(year) + DaysBeforeMonth(year, month) + d.day - 1
  }

  lemma FourthYears(year: int)
    ensures (year - 1968) / 4 == (year - 1969) / 4 + if year % 4 == 0 then 1 else 0
  {
  }

  lemma Centuries(year: int)
    ensures (year - 1900) / 100 == (year - 1901) / 100 + if year % 100 == 0 then 1 else 0
  {
  }

  lemma FourthCenturies(year: int)
    ensures (year - 1600) / 400 == (year - 1601) / 400 + if year % 400 == 0 then 1 else 0
  {
  }

  lemma CenturyIsFourth(year: int)
    ensures year % 100 == 0 ==> year % 4 == 0
  {
  }

  lemma FourthIsCentury(year: int)
    ensures year % 400 == 0 ==> year % 100 == 0
  {
  }

  lemma YearLength(year: int)
    ensures DaysBeforeYear(year + 1) == DaysBeforeYear(year) + if Leap(year) then 366 else 365
  {
    FourthYears(year);
    Centuries(year);
    FourthCenturies(year);
    CenturyIsFourth(year);
    FourthIsCentury(year);
  }

  lemma {:induction false} MonthEnds(year: int, month: int)
    requires 1 <= month <= 12
    ensures 0 <= DaysBeforeMonth(year, month)
    ensures DaysBeforeMonth(year, month) + DaysInMonth(year, month) <= if Leap(year) then 366 else 365
    decreases 12 - month
  {
    if month == 12 {
      YearEnds(year);
    } else {
      MonthEnds(year, month + 1);
    }
    MonthStarts(year, month);
  }

  lemma YearEnds(year: int)
    ensures DaysBeforeMonth(year, 12) + DaysInMonth(year, 12) == if Leap(year) then 366 else 365
  {
    assert DaysBeforeMonth(year, 4) == 90 + if Leap(year) then 1 else 0;
    assert DaysBeforeMonth(year, 8) == DaysBeforeMonth(year, 4) + 122;
    assert DaysBeforeMonth(year, 12) == DaysBeforeMonth(year, 8) + 122;
  }

  lemma {:induction false} MonthStarts(year: int, month: int)
    requires 1 <= month <= 12
    ensures DaysBeforeMonth(year, month) >= 0
  {
    if month > 1 { MonthStarts(year, month - 1); }
  }

  lemma {:induction false} LaterMonth(year: int, m: int, n: int)
    requires 1 <= m < n <= 12
    ensures DaysBeforeMonth(year, m) + DaysInMonth(year, m) <= DaysBeforeMonth(year, n)
    decreases n
  {
    if m < n - 1 { LaterMonth(year, m, n - 1); }
  }

  lemma {:induction false} LaterYear(y: int, z: int)
    requires y < z
    ensures DaysBeforeYear(y + 1) <= DaysBeforeYear(z)
    decreases z - y
  {
    hide DaysBeforeYear;
    if y + 1 < z {
      LaterYear(y, z - 1);
      YearLength(z - 1);
    }
  }

  predicate Earlier(a: Date, b: Date) {
    a.year < b.year || (a.year == b.year && (a.month < b.month || (a.month == b.month && a.day < b.day)))
  }

  lemma PlainNumber(d: Date)
    requires 1 <= d.month <= 12
    ensures DayNumber(d) == DaysBeforeYear(d.year) + DaysBeforeMonth(d.year, d.month) + d.day - 1
  {
    hide DaysBeforeYear, DaysBeforeMonth;
    assert (d.month - 1) / 12 == 0 && (d.month - 1) % 12 == d.month - 1;
  }

  /** Day numbers follow the calendar, so no two days share one. */
  lemma EarlierIsSmaller(a: Date, b: Date)
    requires Real(a) && Real(b) && Earlier(a, b)
    ensures DayNumber(a) < DayNumber(b)
  {
    hide DayNumber, DaysBeforeYear, DaysBeforeMonth, Leap;
    PlainNumber(a);
    PlainNumber(b);
    if a.year < b.year {
      LaterYear(a.year, b.year);
      YearLength(a.year);
      MonthEnds(a.year, a.month);
      MonthStarts(b.year, b.month);
    } else if a.month < b.month {
      LaterMonth(a.year, a.month, b.month);
    }
  }

  function NextDay(d: Date): Date {
    if d.day < DaysInMonth(d.year, d.month) then d.(day := d.day + 1)
    else if d.month < 12 then Date(d.year, d.month + 1, 1)
    else Date(d.year + 1, 1, 1)
  }

  lemma NextDayIsNext(d: Date)
    requires Real(d)
    ensures Real(NextDay(d)) && DayNumber(NextDay(d)) == DayNumber(d) + 1
  {
    hide DayNumber, DaysBeforeYear, Leap;
    PlainNumber(d);
    PlainNumber(NextDay(d));
    if d.day == DaysInMonth(d.year, d.month) && d.month == 12 {
      YearEnds(d.year);
      YearLength(d.year);
    }
  }

  /** A day past the end of its month is a day of the next month. */
  lemma OverlongDayRollsOver(d: Date)
    requires 1 <= d.month <= 12 && d.day > DaysInMonth(d.year, d.month)
    ensures
      var next := if d.month < 12 then Date(d.year, d.month + 1, 1) else Date(d.year + 1, 1, 1);
      DayNumber(d) == DayNumber(next.(day := d.day - DaysInMonth(d.year, d.month)))
  {
    hide DayNumber, DaysBeforeYear, DaysBeforeMonth, DaysInMonth;
    var length := DaysInMonth(d.year, d.month);
    var next := if d.month < 12 then Date(d.year, d.month + 1, 1) else Date(d.year + 1, 1, 1);
    NextDayIsNext(d.(day := length));
    PlainNumber(d);
    PlainNumber(d.(day := length));
    PlainNumber(next);
    PlainNumber(next.(day := d.day - length));
  }

  /** Four digits, two digits and two digits between hyphens. */
  predicate IsDateText(text: string) {
    && |text| == 10 && text[4] == '-' && text[7] == '-'
    && AllDigits(text[..4]) && AllDigits(text[5..7]) && AllDigits(text[8..])
  }

  /** The date a text spells, be it in the calendar or not. */
  function Spelled(text: string): Date
    requires IsDateText(text)
  {
    Date(ValueOf(text[..4]), ValueOf(text[5..7]), ValueOf(text[8..]))
  }

  /** Years below 100 are taken for years of the twentieth century. */
  function Taken(d: Date): Date {
    if 0 <= d.year <= 99 then d.(year := 1900 + d.year) else d
  }
}
