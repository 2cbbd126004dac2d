/** What texts the keys accept, position by position, and how the calendar counts. */
module KeyShapes {
  import opened Calendar
  import opened Common
  import opened Texts
  import opened OriginKeys

  const DIGITS := "0123456789"
  const CAPITALS := "ABCDEFGHIJKLMNOPQRSTUVWXYZ"
  const SMALL := "abcdefghijklmnopqrstuvwxyz"

  lemma Classes(c: char)
    ensures IsDigit(c) <==> c in DIGITS
    ensures IsUpper(c) <==> c in CAPITALS
    ensures IsLower(c) <==> c in SMALL
  {
  }

  // ---- White space ----

  /** The white space and line ends of ECMAScript. */
  predicate White(c: char) {
    c as int in {0x9, 0xA, 0xB, 0xC, 0xD, 0x20, 0xA0, 0x1680, 0x2000, 0x2001, 0x2002, 0x2003, 0x2004, 0x2005, 0x2006, 0x2007,
                 0x2008, 0x2009, 0x200A, 0x2028, 0x2029, 0x202F, 0x205F, 0x3000, 0xFEFF}
  }

  lemma SpaceIsWhite(c: char)
    ensures IsSpace(c) <==> White(c)
  {
  }

  predicate AllWhite(s: string) {
    forall c :: c in s ==> White(c)
  }

  /** Trimming takes white space off both ends and nothing else: what is left neither begins nor ends with any. */
  lemma TrimTakes(s: string) returns (before: string, after: string)
    ensures s == before + Trim(s) + after && AllWhite(before) && AllWhite(after)
    ensures Trim(s) != "" ==> !White(Trim(s)[0]) && !White(Trim(s)[|Trim(s)| - 1])
  {
    before := StartTakes(s);
    after := EndTakes(TrimStart(s));
    hide TrimStart, TrimEnd;
    StartTrimmed(s);
    EndTrimmed(TrimStart(s));
    forall c ensures IsSpace(c) <==> White(c) { SpaceIsWhite(c); }
  }

  lemma {:induction false} StartTakes(s: string) returns (before: string)
    ensures s == before + TrimStart(s) && AllWhite(before)
  {
    before := "";
    if s != "" && IsSpace(s[0]) {
      SpaceIsWhite(s[0]);
      var rest := StartTakes(s[1..]);
      before := [s[0]] + rest;
      assert s == [s[0]] + s[1..];
    }
  }

  lemma {:induction false} EndTakes(s: string) returns (after: string)
    ensures s == TrimEnd(s) + after && AllWhite(after)
  {
    after := "";
    if s != "" && IsSpace(s[|s| - 1]) {
      SpaceIsWhite(s[|s| - 1]);
      var rest := EndTakes(s[..|s| - 1]);
      after := rest + [s[|s| - 1]];
      assert s == s[..|s| - 1] + [s[|s| - 1]];
    }
  }

  // ---- Accounts, symbols, dates ----

  /** "mt5:" and eight to eighty letters, digits, underscores or hyphens. */
  lemma AccountShape(text: string)
    ensures IsMt5Account(text) <==>
      && 12 <= |text| <= 84 && text[..4] == "mt5:"
      && forall i :: 4 <= i < |text| ==> text[i] in CAPITALS || text[i] in SMALL || text[i] in DIGITS || text[i] in "_-"
  {
    forall c ensures IsAccountChar(c) <==> c in CAPITALS || c in SMALL || c in DIGITS || c in "_-" { Classes(c); }
    hide IsAccountChar;
    if |text| >= 4 {
      assert "mt5:" <= text <==> text[..4] == "mt5:";
      assert forall i :: 4 <= i < |text| ==> text[i] == text[4..][i - 4];
    }
  }

  /** Three to twenty-four capitals, digits, dots, underscores, plus signs or hyphens. */
  lemma SymbolShape(s: string)
    ensures IsSymbol(s) <==>
      3 <= |s| <= 24 && forall i :: 0 <= i < |s| ==> s[i] in CAPITALS || s[i] in DIGITS || s[i] in "._+-"
  {
    forall c ensures IsSymbolChar(c) <==> c in CAPITALS || c in DIGITS || c in "._+-" { Classes(c); }
    hide IsSymbolChar;
  }

  /** The number a digit stands for. */
  function Figure(c: char): int {
    c as int - 0x30
  }

  lemma OneFigure(c: char)
    requires IsDigit(c)
    ensures ValueOf([c]) == Figure(c)
  {
    assert [c][..0] == "";
  }

  lemma MoreFigures(s: string, c: char)
    requires AllDigits(s) && IsDigit(c)
    ensures AllDigits(s + [c]) && ValueOf(s + [c]) == 10 * ValueOf(s) + Figure(c)
  {
    assert (s + [c])[..|s|] == s;
  }

  lemma TwoFigures(s: string)
    requires |s| == 2 && AllDigits(s)
    ensures ValueOf(s) == 10 * Figure(s[0]) + Figure(s[1])
  {
    assert s == [s[0]] + [s[1]];
    OneFigure(s[0]);
    MoreFigures([s[0]], s[1]);
  }

  lemma FourFigures(s: string)
    requires |s| == 4 && AllDigits(s)
    ensures ValueOf(s) == 1000 * Figure(s[0]) + 100 * Figure(s[1]) + 10 * Figure(s[2]) + Figure(s[3])
  {
    TwoFigures(s[..2]);
    MoreFigures(s[..2], s[2]);
    MoreFigures(s[..2] + [s[2]], s[3]);
    assert s == s[..2] + [s[2]] + [s[3]];
  }

  /** Four digits, a hyphen, two digits, a hyphen and two digits, read as year, month and day. */
  lemma DateShape(text: string)
    ensures IsDateText(text) <==>
      && |text| == 10 && text[4] == '-' && text[7] == '-'
      && forall i :: 0 <= i < 10 && i != 4 && i != 7 ==> text[i] in DIGITS
    ensures IsDateText(text) ==>
      Spelled(text) == Date(1000 * Figure(text[0]) + 100 * Figure(text[1]) + 10 * Figure(text[2]) + Figure(text[3]),
                            10 * Figure(text[5]) + Figure(text[6]), 10 * Figure(text[8]) + Figure(text[9]))
  {
    if |text| == 10 {
      DigitsAt(text, 0, 4);
      DigitsAt(text, 5, 7);
      DigitsAt(text, 8, 10);
      assert text[..4] == text[0..4] && text[8..] == text[8..10];
    }
    if IsDateText(text) {
      FourFigures(text[..4]);
      TwoFigures(text[5..7]);
      TwoFigures(text[8..]);
    }
  }

  lemma DigitsAt(text: string, from: int, to: int)
    requires 0 <= from <= to <= |text|
    ensures AllDigits(text[from..to]) <==> forall i :: from <= i < to ==> text[i] in DIGITS
  {
    forall c ensures IsDigit(c) <==> c in DIGITS { Classes(c); }
    hide IsDigit;
    assert forall i :: from <= i < to ==> text[i] == text[from..to][i - from];
  }

  /** Whole numbers that a double represents exactly. */
  lemma SafeRange(n: int)
    ensures SafeInteger(n) <==> -9_007_199_254_740_991 <= n <= 9_007_199_254_740_991
  {
  }

  /** A numeral has no leading zero, and its last figure is the number's last digit. */
  lemma {:induction false} NumeralShape(n: nat)
    ensures var s := Decimal(n);
      && s != "" && (|s| > 1 ==> s[0] != '0') && (|s| == 1 <==> n < 10)
      && s[|s| - 1] == DIGITS[n % 10] && (n >= 10 ==> s[..|s| - 1] == Decimal(n / 10))
  {
    if n >= 10 { NumeralShape(n / 10); }
  }

  // ---- The keys ----

  /** A Telegram key spells its origin; nothing else is given one. */
  lemma TelegramKeyShape(updateId: int, commandIndex: int, account: string)
    ensures TelegramKey(updateId, commandIndex, account).Ok? <==>
      && IsMt5Account(Trim(account)) && 0 < updateId <= 9_007_199_254_740_991 && 0 <= commandIndex <= 9_007_199_254_740_991
    ensures TelegramKey(updateId, commandIndex, account).Ok? ==>
      TelegramKey(updateId, commandIndex, account).value
      == "tg:" + Decimal(updateId) + ":" + Decimal(commandIndex) + ":" + Trim(account)
  {
    Mt5AccountsPass(account);
    hide Trim, IsMt5Account;
  }

  /** An H1 key spells its origin, with the trimmed date, the hour, the upper-cased symbol and the account. */
  lemma RollKeyShape(date: string, hour: int, symbol: string, account: string, upper: string -> string)
    ensures RollKey(date, hour, symbol, account, upper).Ok? <==>
      && IsMt5Account(Trim(account)) && IsDateText(Trim(date)) && Spelled(Trim(date)).year >= 100 && Real(Spelled(Trim(date)))
      && (hour == 3 || hour == 6 || hour == 9 || hour == 12) && IsSymbol(upper(Trim(symbol)))
    ensures RollKey(date, hour, symbol, account, upper).Ok? ==>
      RollKey(date, hour, symbol, account, upper).value
      == "h1tp:" + Trim(date) + ":" + Decimal(hour) + ":" + upper(Trim(symbol)) + ":" + Trim(account)
  {
    Mt5AccountsPass(account);
    hide Trim, IsMt5Account, IsSymbol, Real;
  }

  /** A number alone names a cTrader account, and so does a number behind that provider's name; an MT5 account names itself. */
  lemma ProviderShape(raw: string)
    ensures
      var text := Trim(raw);
      NormalizeProviderAccountId(raw)
      == (if text != "" && (forall i :: 0 <= i < |text| ==> text[i] in DIGITS) && (exists i :: 0 <= i < |text| && text[i] != '0')
          then "ctrader:" + text
          else if |text| > 8 && text[..8] == "ctrader:" && (forall i :: 8 <= i < |text| ==> text[i] in DIGITS) then text
          else if IsMt5Account(text) then text else "")
  {
    var text := Trim(raw);
    hide Trim, IsMt5Account;
    DigitsAt(text, 0, |text|);
    assert text[0..|text|] == text;
    if AllDigits(text) { PositiveIff(text); }
    if |text| > 8 {
      DigitsAt(text, 8, |text|);
      assert "ctrader:" <= text <==> text[..8] == "ctrader:";
    }
  }

  lemma {:induction false} PositiveIff(s: string)
    requires AllDigits(s)
    ensures ValueOf(s) > 0 <==> exists i :: 0 <= i < |s| && s[i] != '0'
  {
    if s != "" {
      var n := |s| - 1;
      PositiveIff(s[..n]);
      assert IsDigit(s[n]);
      if i :| 0 <= i < |s| && s[i] != '0' {
        if i < n { assert s[..n][i] != '0'; }
      }
    }
  }

  // ---- The calendar ----

  const LENGTHS := [31, 28, 31, 30, 31, 30, 31, 31, 30, 31, 30, 31]

  /** How long a month is: in February a day longer in years that four divides, unless a hundred does and four hundred does not. */
  function Length(year: int, month: int): int
    requires 1 <= month <= 12
  {
    if month == 2 && year % 4 == 0 && (year % 100 != 0 || year % 400 == 0) then 29 else LENGTHS[month - 1]
  }

  predicate InCalendar(d: Date) {
    1 <= d.month <= 12 && 1 <= d.day <= Length(d.year, d.month)
  }

  lemma LengthIs(year: int, month: int)
    requires 1 <= month <= 12
    ensures DaysInMonth(year, month) == Length(year, month)
  {
  }

  lemma RealIs(d: Date)
    ensures Real(d) <==> InCalendar(d)
  {
    hide DaysInMonth, Length;
    if 1 <= d.month <= 12 { LengthIs(d.year, d.month); }
  }

  /** The day after. */
  function Tomorrow(d: Date): Date
    requires InCalendar(d)
  {
    if d.day < Length(d.year, d.month) then Date(d.year, d.month, d.day + 1)
    else if d.month == 12 then Date(d.year + 1, 1, 1)
    else Date(d.year, d.month + 1, 1)
  }

  /** Days are numbered from 1 January 1970, one by one through the calendar; a day or month beyond its range runs on into the
      next, day by day and twelve months to the year. */
  lemma CalendarCounts(d: Date, n: int)
    ensures DayNumber(Date(1970, 1, 1)) == 0
    ensures InCalendar(d) ==> InCalendar(Tomorrow(d)) && DayNumber(Tomorrow(d)) == DayNumber(d) + 1
    ensures DayNumber(d.(day := n)) == DayNumber(d) + n - d.day
    ensures DayNumber(Date(d.year, d.month + 12 * n, d.day)) == DayNumber(Date(d.year + n, d.month, d.day))
  {
    hide *;
    Epoch();
    if InCalendar(d) { TomorrowIsNext(d); }
    MonthsRunOn(d, n);
    DaysRunOn(d, n);
  }

  lemma Epoch()
    ensures DayNumber(Date(1970, 1, 1)) == 0
  {
    hide DayNumber, DaysInMonth;
    PlainNumber(Date(1970, 1, 1));
    FirstYear();
  }

  lemma FirstYear()
    ensures DaysBeforeYear(1970) == 0
  {
  }

  lemma TomorrowIsNext(d: Date)
    requires InCalendar(d)
    ensures InCalendar(Tomorrow(d)) && DayNumber(Tomorrow(d)) == DayNumber(d) + 1
  {
    hide DayNumber, DaysInMonth, Length;
    LengthIs(d.year, d.month);
    NextDayIsNext(d);
    RealIs(Tomorrow(d));
  }

  lemma DaysRunOn(d: Date, n: int)
    ensures DayNumber(d.(day := n)) == DayNumber(d) + n - d.day
  {
    hide DaysBeforeYear, DaysBeforeMonth;
  }

  lemma MonthsRunOn(d: Date, n: int)
    ensures DayNumber(Date(d.year, d.month + 12 * n, d.day)) == DayNumber(Date(d.year + n, d.month, d.day))
  {
    hide DaysBeforeYear, DaysBeforeMonth;
    assert (d.month + 12 * n - 1) / 12 == (d.month - 1) / 12 + n;
  }

  /** Years below 100 mean the twentieth century. */
  lemma TakenAs(d: Date)
    ensures Taken(d) == (if d.year < 0 || d.year >= 100 then d else Date(d.year + 1900, d.month, d.day))
  {
  }
}
