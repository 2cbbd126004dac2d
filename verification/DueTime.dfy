/** From a wall-clock time in Vietnam to the instant an intent is due. */
module DueTime {
  import opened Calendar
  import opened Common
  import opened Texts

  /** Milliseconds. */
  const DAY := 86_400_000
  const VN_OFFSET := 25_200_000

  /** The digit groups of a time; `second` is empty where there is none. */
  datatype Fields = Fields(hour: string, minute: string, second: string)


  datatype Error = InvalidTime | InvalidDate

  /** The length of the hour group: one or two digits before a separator, or zero. */
  function HourDigits(raw: string, separators: string): (n: nat)
    ensures n == 0 || (n <= 2 && n < |raw| && AllDigits(raw[..n]) && raw[n] in separators)
  {
    if |raw| > 1 && AllDigits(raw[..1]) && raw[1] in separators then 1
    else if |raw| > 2 && AllDigits(raw[..2]) && raw[2] in separators then 2
    else 0
  }

  /** One or two digits, a separator, two digits and, optionally, a separator and two more digits. */
  function MatchTime(raw: string, first: string, second: string): (r: Option<Fields>)
    ensures r.Some? ==> AllDigits(r.value.hour) && AllDigits(r.value.minute) && AllDigits(r.value.second)
  {
    var n := HourDigits(raw, first);
    if n == 0 || |raw| < n + 3 || !AllDigits(raw[n + 1..n + 3]) then None
    else if |raw| == n + 3 then Some(Fields(raw[..n], raw[n + 1..], ""))
    else if |raw| == n + 6 && raw[n + 3] in second && AllDigits(raw[n + 4..])
    then Some(Fields(raw[..n], raw[n + 1..n + 3], raw[n + 4..]))
    else None
  }

  function Colons(f: Fields): string {
    f.hour + ":" + f.minute + if f.second != "" then ":" + f.second else ""
  }

  /** The spelling 9h05 or 9h05m30 is rewritten with colons. */
  function NormalizeTimeText(text: string): string {
    var raw := Trim(text);
    match MatchTime(raw, "hH", "mM")
    case None => raw
    case Some(f) => Colons(f)
  }

  /** The milliseconds since midnight a time text denotes. */
  function TimeOfDay(text: string): (r: Option<int>)
    ensures r.Some? ==> 0 <= r.value < DAY
  {
    match MatchTime(NormalizeTimeText(text), ":", ":")
    case None => None
    case Some(f) =>
      var hour, minute, second := ValueOf(f.hour), ValueOf(f.minute), ValueOf(f.second);
      if hour <= 23 && minute <= 59 && second <= 59 then Some(((hour * 60 + minute) * 60 + second) * 1000) else None
  }

  /** Rewriting with colons keeps the digit groups, so both spellings denote the same time. */
  lemma BothSpellingsAgree(text: string)
    requires MatchTime(Trim(text), "hH", "mM").Some?
    ensures MatchTime(NormalizeTimeText(text), ":", ":") == MatchTime(Trim(text), "hH", "mM")
    ensures TimeOfDay(text) == TimeOfDay(Colons(MatchTime(Trim(text), "hH", "mM").value))
  {
    hide MatchTime, Trim, Colons, Shaped;
    var f := MatchTime(Trim(text), "hH", "mM").value;
    MatchedShape(Trim(text), "hH", "mM");
    ColonsMatch(f);
    ColonsStay(f);
  }

  predicate Shaped(f: Fields) {
    && 1 <= |f.hour| <= 2 && |f.minute| == 2 && |f.second| in {0, 2}
    && AllDigits(f.hour) && AllDigits(f.minute) && AllDigits(f.second)
  }

  lemma MatchedShape(raw: string, first: string, second: string)
    ensures MatchTime(raw, first, second).Some? ==> Shaped(MatchTime(raw, first, second).value)
  {
  }

  lemma ColonsMatch(f: Fields)
    requires Shaped(f)
    ensures MatchTime(Colons(f), ":", ":") == Some(f)
  {
    var s, n := Colons(f), |f.hour|;
    assert s[..n] == f.hour && s[n] == ':' && s[n + 1..n + 3] == f.minute;
    if n == 2 { assert s[1] == f.hour[1] && IsDigit(f.hour[1]); }
    assert HourDigits(s, ":") == n;
    if f.second == "" {
      assert s[n + 1..] == f.minute;
    } else {
      assert s[n + 3] == ':' && s[n + 4..] == f.second;
    }
  }

  lemma ColonsEnd(f: Fields)
    requires Shaped(f)
    ensures var s := Colons(f); s != "" && IsDigit(s[0]) && IsDigit(s[|s| - 1])
  {
    var s := Colons(f);
    assert s[0] == f.hour[0] && f.hour[0] in f.hour;
    if f.second == "" {
      assert s[|s| - 1] == f.minute[1] && f.minute[1] in f.minute;
    } else {
      assert s[|s| - 1] == f.second[1] && f.second[1] in f.second;
    }
  }

  lemma ColonsAreNotLegacy(f: Fields)
    requires Shaped(f)
    ensures HourDigits(Colons(f), "hH") == 0
  {
    var s, n := Colons(f), |f.hour|;
    assert s[n] == ':';
    if n == 2 {
      assert s[1] == f.hour[1] && f.hour[1] in f.hour;
    } else {
      assert s[..2][1] == ':' && s[..2][1] in s[..2];
    }
  }

  /** A text with colons is neither trimmed nor rewritten. */
  lemma ColonsStay(f: Fields)
    requires Shaped(f)
    ensures NormalizeTimeText(Colons(f)) == Colons(f)
  {
    ColonsEnd(f);
    ColonsAreNotLegacy(f);
    hide Trim, HourDigits, Colons;
    TrimKeeps(Colons(f));
  }

  // ---- Due times ----

  /** An empty date text counts as none. */
  predicate Dated(dateText: Option<string>) {
    dateText.Some? && dateText.value != ""
  }

  /** Which wall clock a Vietnamese reader sees at an instant. */
  function WallClock(instant: int): int {
    (instant + VN_OFFSET) % DAY
  }

  /** A Vietnamese reader sees this date at the instant. */
  predicate Shows(instant: int, d: Date) {
    Real(d) && DayNumber(d) == (instant + VN_OFFSET) / DAY
  }

  lemma ShownDateIsUnique(instant: int, a: Date, b: Date)
    requires Shows(instant, a) && Shows(instant, b)
    ensures a == b
  {
    hide DayNumber, Real;
    if Earlier(a, b) { EarlierIsSmaller(a, b); }
    if Earlier(b, a) { EarlierIsSmaller(b, a); }
  }

  /** The spelled date is the one seen exactly when it is in the calendar and its year is not below 100. */
  lemma SpelledDateIsShownIff(instant: int, d: Date)
    requires d.year >= 0 && DayNumber(Taken(d)) == (instant + VN_OFFSET) / DAY
    ensures Shows(instant, d) <==> Real(d) && d.year >= 100
  {
    hide DayNumber;
    if Shows(instant, d) && d.year < 100 {
      SameDayLaterYear(d);
    }
  }

  lemma SameDayLaterYear(d: Date)
    requires Real(d)
    ensures DayNumber(d.(year := d.year + 1900)) != DayNumber(d)
  {
    hide DayNumber, DaysBeforeYear, DaysBeforeMonth, DaysInMonth, Leap;
    var later := d.year + 1900;
    PlainNumber(d);
    PlainNumber(d.(year := later));
    MonthEnds(d.year, d.month);
    YearLength(d.year);
    LaterYear(d.year, later);
    MonthStarts(later, d.month);
  }

  /** With a date, the due time is on the day the date text denotes. Without one, it is the one instant of the next
      24 hours at which the clock in Vietnam shows the time. */
  method ResolveVietnamDueAt(dateText: Option<string>, timeText: string, now: int) returns (r: Result<int, Error>)
    ensures r == Fail(InvalidTime) <==> TimeOfDay(timeText).None?
    ensures r == Fail(InvalidDate) <==> TimeOfDay(timeText).Some? && Dated(dateText) && !IsDateText(dateText.value)
    ensures r.Ok? ==> (r.value + 25_200_000) % 86_400_000 == TimeOfDay(timeText).value
    ensures r.Ok? && Dated(dateText) ==>
      var d := Spelled(dateText.value);
      && (r.value + 25_200_000) / 86_400_000 == DayNumber(Taken(d))
      && (Shows(r.value, d) <==> Real(d) && d.year >= 100)
    ensures r.Ok? && !Dated(dateText) ==> now <= r.value < now + 86_400_000
    ensures r.Ok? && !Dated(dateText) ==>
      forall x :: now <= x < now + 86_400_000 && WallClock(x) == TimeOfDay(timeText).value ==> x == r.value
  {
    hide TimeOfDay, DayNumber, Real;
    var time := TimeOfDay(timeText);
    if time.None? {
      return Fail(InvalidTime);
    }
    var chosen := (now + VN_OFFSET) / DAY;
    var dated := dateText.Some? && dateText.value != "";
    if dated {
      if !IsDateText(dateText.value) {
        return Fail(InvalidDate);
      }
      chosen := DayNumber(Taken(Spelled(dateText.value)));
    }
    var dueAt := chosen * DAY + time.value - VN_OFFSET;
    WallClockOf(chosen, time.value);
    if dated {
      SpelledDateIsShownIff(dueAt, Spelled(dateText.value));
    }
    if !dated && dueAt < now {
      dueAt := dueAt + DAY;
      WallClockOf(chosen + 1, time.value);
    }
    if !dated {
      forall x | now <= x < now + DAY && WallClock(x) == time.value ensures x == dueAt {
        OncePerDay(now, x, dueAt);
      }
    }
    r := Ok(dueAt);
  }

  lemma WallClockOf(day: int, time: int)
    requires 0 <= time < DAY
    ensures WallClock(day * DAY + time - VN_OFFSET) == time
    ensures (day * DAY + time) / DAY == day
  {
  }

  /** Two instants of one 24-hour stretch with the same wall clock are one. */
  lemma OncePerDay(now: int, x: int, y: int)
    requires now <= x < now + DAY && now <= y < now + DAY && WallClock(x) == WallClock(y)
    ensures x == y
  {
  }
}
