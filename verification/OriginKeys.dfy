/** Origin keys: the text that names where a broker task came from, and the parsers that accept only that text. */
module OriginKeys {
  import opened Calendar
  import opened Common
  import opened Texts

  datatype Error =
    | NotAnMt5Account | InvalidUpdateId | InvalidCommandIndex | InvalidDate | InvalidHour | InvalidSymbol
    | InvalidOriginKey | NotCanonical | AccountMismatch

  datatype TelegramOrigin = TelegramOrigin(updateId: nat, commandIndex: nat, account: string)
  datatype RollOrigin = RollOrigin(date: string, hour: int, symbol: string, account: string)

  predicate IsAccountChar(c: char) {
    IsUpper(c) || IsLower(c) || IsDigit(c) || c == '_' || c == '-'
  }

  predicate IsMt5Account(text: string) {
    "mt5:" <= text && 12 <= |text| <= 84 && forall c :: c in text[4..] ==> IsAccountChar(c)
  }

  /** A numeric id is a cTrader account, an id that carries its provider is kept, anything else is none. */
  function NormalizeProviderAccountId(raw: string): string {
    var text := Trim(raw);
    if text != "" && AllDigits(text) && ValueOf(text) > 0 then "ctrader:" + text
    else if "ctrader:" <= text && |text| > 8 && AllDigits(text[8..]) then text
    else if IsMt5Account(text) then text
    else ""
  }

  function NormalizedMt5AccountId(raw: string): Result<string, Error> {
    var account := NormalizeProviderAccountId(raw);
    if "mt5:" <= account then Ok(account) else Fail(NotAnMt5Account)
  }

  /** Only an MT5 account id passes, and it passes trimmed. */
  lemma Mt5AccountsPass(raw: string)
    ensures NormalizedMt5AccountId(raw) == if IsMt5Account(Trim(raw)) then Ok(Trim(raw)) else Fail(NotAnMt5Account)
  {
    hide Trim;
    var text := Trim(raw);
    assert ("ctrader:" + text)[0] == 'c';
    assert "ctrader:" <= text ==> text[0] == 'c';
    assert "mt5:" <= text ==> text[0] == 'm' && text[0] in text && !IsDigit(text[0]);
  }

  lemma AccountEnds(text: string)
    requires IsMt5Account(text)
    ensures !IsSpace(text[0]) && !IsSpace(text[|text| - 1])
  {
    var last := text[4..][|text| - 5];
    assert last in text[4..] && last == text[|text| - 1];
  }

  lemma AccountIsTrimmed(text: string)
    requires IsMt5Account(text)
    ensures Trim(text) == text
  {
    hide IsMt5Account, IsSpace;
    AccountEnds(text);
    TrimKeeps(text);
  }

  // ---- Telegram origins ----

  function TelegramKey(updateId: int, commandIndex: int, accountId: string): Result<string, Error> {
    match NormalizedMt5AccountId(accountId)
    case Fail(e) => Fail(e)
    case Ok(account) =>
      if !(SafeInteger(updateId) && updateId > 0) then Fail(InvalidUpdateId)
      else if !(SafeInteger(commandIndex) && commandIndex >= 0) then Fail(InvalidCommandIndex)
      else Ok("tg:" + Decimal(updateId) + ":" + Decimal(commandIndex) + ":" + account)
  }

  /** The three groups of the pattern `tg:(digits):(digits):(mt5 account)`. */
  function MatchTelegram(value: string): Option<(string, string, string)> {
    if !("tg:" <= value) then None else
    match Cut(value[3..])
    case None => None
    case Some((uid, rest)) =>
      match Cut(rest)
      case None => None
      case Some((index, account)) =>
        if uid != "" && AllDigits(uid) && index != "" && AllDigits(index) && IsMt5Account(account)
        then Some((uid, index, account)) else None
  }

  function ParseTelegramKey(originKey: string): Result<TelegramOrigin, Error> {
    var value := Trim(originKey);
    match MatchTelegram(value)
    case None => Fail(InvalidOriginKey)
    case Some((uid, index, accountText)) =>
      if !AllDigits(uid) || !AllDigits(index) then Fail(InvalidOriginKey) else
      var updateId, commandIndex := ValueOf(uid), ValueOf(index);
      match NormalizedMt5AccountId(accountText)
      case Fail(e) => Fail(e)
      case Ok(account) =>
        if !SafeInteger(updateId) || updateId <= 0 || !SafeInteger(commandIndex) || commandIndex < 0
        then Fail(InvalidOriginKey)
        else
          match TelegramKey(updateId, commandIndex, account)
          case Fail(e) => Fail(e)
          case Ok(key) => if key != value then Fail(NotCanonical) else Ok(TelegramOrigin(updateId, commandIndex, account))
  }

  predicate ValidTelegramOrigin(o: TelegramOrigin) {
    SafeInteger(o.updateId) && o.updateId > 0 && SafeInteger(o.commandIndex) && IsMt5Account(o.account)
  }

  function TelegramText(o: TelegramOrigin): string {
    "tg:" + Decimal(o.updateId) + ":" + Decimal(o.commandIndex) + ":" + o.account
  }

  lemma TelegramKeyOfValid(o: TelegramOrigin)
    requires ValidTelegramOrigin(o)
    ensures TelegramKey(o.updateId, o.commandIndex, o.account) == Ok(TelegramText(o))
  {
    Mt5AccountsPass(o.account);
    AccountIsTrimmed(o.account);
  }

  lemma TelegramTextMatches(o: TelegramOrigin)
    requires ValidTelegramOrigin(o)
    ensures MatchTelegram(TelegramText(o)) == Some((Decimal(o.updateId), Decimal(o.commandIndex), o.account))
  {
    hide Decimal, IsMt5Account, Cut;
    DecimalRoundTrip(o.updateId);
    DecimalRoundTrip(o.commandIndex);
    var uid, index := Decimal(o.updateId), Decimal(o.commandIndex);
    var rest := index + ":" + o.account;
    var value := TelegramText(o);
    assert value == "tg:" + (uid + ":" + rest);
    assert value[..3] == "tg:" && value[3..] == uid + ":" + rest;
    CutField(uid, rest);
    CutField(index, o.account);
  }

  lemma TelegramTextIsTrimmed(o: TelegramOrigin)
    requires IsMt5Account(o.account)
    ensures Trim(TelegramText(o)) == TelegramText(o)
  {
    hide IsSpace, Trim, Decimal;
    var middle := Decimal(o.updateId) + ":" + Decimal(o.commandIndex) + ":";
    assert TelegramText(o) == "tg:" + middle + o.account;
    KeyIsTrimmed("tg:", middle, o.account);
  }

  lemma KeyIsTrimmed(tag: string, middle: string, account: string)
    requires IsMt5Account(account) && tag != "" && IsLower(tag[0])
    ensures Trim(tag + middle + account) == tag + middle + account
  {
    AccountEnds(account);
    hide IsMt5Account, Trim;
    FirstAndLast(tag, middle, account);
    TrimKeeps(tag + middle + account);
  }

  /** The parser accepts a text as an origin exactly when the origin is valid and the trimmed text is its key. */
  lemma TelegramParseIffPrint(originKey: string, o: TelegramOrigin)
    ensures ParseTelegramKey(originKey) == Ok(o)
       <==> ValidTelegramOrigin(o) && TelegramKey(o.updateId, o.commandIndex, o.account) == Ok(Trim(originKey))
  {
    hide Trim, Decimal, MatchTelegram, TelegramText;
    var value := Trim(originKey);
    if ParseTelegramKey(originKey) == Ok(o) {
      MatchedAccount(value);
    }
    if ValidTelegramOrigin(o) && TelegramKey(o.updateId, o.commandIndex, o.account) == Ok(value) {
      TelegramKeyOfValid(o);
      TelegramTextMatches(o);
      DecimalRoundTrip(o.updateId);
      DecimalRoundTrip(o.commandIndex);
      Mt5AccountsPass(o.account);
      AccountIsTrimmed(o.account);
    }
  }

  lemma MatchedAccount(value: string)
    ensures MatchTelegram(value).Some? ==>
      IsMt5Account(MatchTelegram(value).value.2)
      && NormalizedMt5AccountId(MatchTelegram(value).value.2) == Ok(MatchTelegram(value).value.2)
  {
    if MatchTelegram(value).Some? {
      Mt5AccountsPass(MatchTelegram(value).value.2);
      AccountIsTrimmed(MatchTelegram(value).value.2);
    }
  }

  /** Printing and parsing a valid origin gives it back. */
  lemma TelegramRoundTrip(o: TelegramOrigin)
    requires ValidTelegramOrigin(o)
    ensures TelegramKey(o.updateId, o.commandIndex, o.account).Ok?
    ensures ParseTelegramKey(TelegramKey(o.updateId, o.commandIndex, o.account).value) == Ok(o)
  {
    hide Trim, Decimal, ParseTelegramKey;
    TelegramKeyOfValid(o);
    TelegramTextIsTrimmed(o);
    TelegramParseIffPrint(TelegramText(o), o);
  }

  // ---- H1 roll origins ----

  /** The dates that survive `Date.UTC` and `toISOString`: real calendar days, of the year 100 or later because
      `Date.UTC` takes a year below 100 for one of the twentieth century. */
  predicate IsCalendarDate(s: string) {
    IsDateText(s) && Spelled(s).year >= 100 && Real(Spelled(s))
  }

  predicate IsSymbolChar(c: char) {
    IsUpper(c) || IsDigit(c) || c == '.' || c == '_' || c == '+' || c == '-'
  }

  predicate IsSymbol(s: string) {
    3 <= |s| <= 24 && forall c :: c in s ==> IsSymbolChar(c)
  }

  /** `upper` stands for `String.prototype.toUpperCase`. */
  function RollKey(brokerDate: string, hour: int, rawSymbol: string, accountId: string, upper: string -> string): Result<string, Error> {
    var date, symbol := Trim(brokerDate), upper(Trim(rawSymbol));
    match NormalizedMt5AccountId(accountId)
    case Fail(e) => Fail(e)
    case Ok(account) =>
      if !IsCalendarDate(date) then Fail(InvalidDate)
      else if hour !in {3, 6, 9, 12} then Fail(InvalidHour)
      else if !IsSymbol(symbol) then Fail(InvalidSymbol)
      else Ok("h1tp:" + date + ":" + Decimal(hour) + ":" + symbol + ":" + account)
  }

  function HourOf(text: string): Option<int> {
    if text == "3" then Some(3) else if text == "6" then Some(6) else if text == "9" then Some(9)
    else if text == "12" then Some(12) else if text == "14" then Some(14) else None
  }

  /** The groups of the pattern `h1tp:(date):(3|6|9|12|14):(symbol):(mt5 account)`. */
  function MatchRoll(value: string): Option<RollOrigin> {
    if !("h1tp:" <= value) then None else
    match Cut(value[5..])
    case None => None
    case Some((date, rest)) =>
      match Cut(rest)
      case None => None
      case Some((hourText, rest)) =>
        match Cut(rest)
        case None => None
        case Some((symbol, account)) =>
          match HourOf(hourText)
          case None => None
          case Some(hour) =>
            if IsDateText(date) && IsSymbol(symbol) && IsMt5Account(account)
            then Some(RollOrigin(date, hour, symbol, account)) else None
  }

  function ParseRollKey(originKey: string, upper: string -> string): Result<RollOrigin, Error> {
    var value := Trim(originKey);
    match MatchRoll(value)
    case None => Fail(InvalidOriginKey)
    case Some(o) =>
      match NormalizedMt5AccountId(o.account)
      case Fail(e) => Fail(e)
      case Ok(account) =>
        match RollKey(o.date, o.hour, o.symbol, account, upper)
        case Fail(e) => Fail(e)
        case Ok(key) => if key != value then Fail(NotCanonical) else Ok(RollOrigin(o.date, o.hour, o.symbol, account))
  }

  predicate ValidRollOrigin(o: RollOrigin) {
    IsCalendarDate(o.date) && o.hour in {3, 6, 9, 12} && IsSymbol(o.symbol) && IsMt5Account(o.account)
  }

  function RollText(o: RollOrigin): string
    requires o.hour >= 0
  {
    "h1tp:" + o.date + ":" + Decimal(o.hour) + ":" + o.symbol + ":" + o.account
  }

  /** Upper-casing leaves text alone that is a symbol already. */
  ghost predicate KeepsSymbols(upper: string -> string) {
    forall s :: IsSymbol(s) ==> upper(s) == s
  }

  lemma DateIsTrimmed(date: string)
    requires IsDateText(date)
    ensures Trim(date) == date && ':' !in date
  {
    forall i | 0 <= i < 10 && i != 4 && i != 7 ensures IsDigit(date[i]) {
      if i < 4 { assert date[..4][i] in date[..4]; }
      else if i < 7 { assert date[5..7][i - 5] in date[5..7]; }
      else { assert date[8..][i - 8] in date[8..]; }
    }
    TrimKeeps(date);
  }

  lemma SymbolIsTrimmed(symbol: string)
    requires IsSymbol(symbol)
    ensures Trim(symbol) == symbol && ':' !in symbol
  {
    assert symbol[0] in symbol && symbol[|symbol| - 1] in symbol;
    TrimKeeps(symbol);
  }

  lemma RollKeyOfFields(o: RollOrigin, upper: string -> string)
    requires KeepsSymbols(upper) && IsDateText(o.date) && IsSymbol(o.symbol) && IsMt5Account(o.account)
    ensures NormalizedMt5AccountId(o.account) == Ok(o.account)
    ensures RollKey(o.date, o.hour, o.symbol, o.account, upper).Ok? <==> ValidRollOrigin(o)
    ensures ValidRollOrigin(o) ==> RollKey(o.date, o.hour, o.symbol, o.account, upper) == Ok(RollText(o))
  {
    hide IsCalendarDate, IsMt5Account, Decimal, Trim, IsSymbol, IsDateText;
    Mt5AccountsPass(o.account);
    AccountIsTrimmed(o.account);
    DateIsTrimmed(o.date);
    SymbolIsTrimmed(o.symbol);
    assert upper(o.symbol) == o.symbol;
  }

  lemma HourText(hour: int)
    requires hour in {3, 6, 9, 12}
    ensures HourOf(Decimal(hour)) == Some(hour) && ':' !in Decimal(hour)
  {
    assert Decimal(12) == Decimal(1) + "2" == "12";
  }

  lemma RollTextMatches(o: RollOrigin)
    requires ValidRollOrigin(o)
    ensures MatchRoll(RollText(o)) == Some(o)
  {
    hide Decimal, IsMt5Account, Cut, HourOf, IsSymbol, Trim, IsDateText, DaysInMonth;
    HourText(o.hour);
    DateIsTrimmed(o.date);
    SymbolIsTrimmed(o.symbol);
    var hour := Decimal(o.hour);
    var rest1 := o.symbol + ":" + o.account;
    var rest2 := hour + ":" + rest1;
    assert RollText(o) == "h1tp:" + (o.date + ":" + rest2);
    assert RollText(o)[..5] == "h1tp:" && RollText(o)[5..] == o.date + ":" + rest2;
    CutField(o.date, rest2);
    CutField(hour, rest1);
    CutField(o.symbol, o.account);
  }

  lemma MatchedRoll(value: string)
    ensures MatchRoll(value).Some? ==>
      var o := MatchRoll(value).value;
      IsDateText(o.date) && IsSymbol(o.symbol) && IsMt5Account(o.account)
  {
    hide IsDateText, IsSymbol, IsMt5Account, HourOf;
  }

  /** The roll parser accepts a text as an origin exactly when the origin is valid and the trimmed text is its key. */
  lemma RollParseIffPrint(originKey: string, o: RollOrigin, upper: string -> string)
    requires KeepsSymbols(upper)
    ensures ParseRollKey(originKey, upper) == Ok(o) <==> ValidRollOrigin(o) && RollText(o) == Trim(originKey)
  {
    hide Trim, MatchRoll, RollText, RollKey, IsMt5Account, IsSymbol, IsDateText, KeepsSymbols, NormalizedMt5AccountId;
    var value := Trim(originKey);
    MatchedRoll(value);
    if MatchRoll(value).Some? { RollKeyOfFields(MatchRoll(value).value, upper); }
    if ValidRollOrigin(o) && RollText(o) == value {
      RollTextMatches(o);
    }
  }

  lemma RollRoundTrip(o: RollOrigin, upper: string -> string)
    requires KeepsSymbols(upper) && ValidRollOrigin(o)
    ensures RollKey(o.date, o.hour, o.symbol, o.account, upper) == Ok(RollText(o))
    ensures ParseRollKey(RollText(o), upper) == Ok(o)
  {
    hide Trim, Decimal, ParseRollKey, KeepsSymbols, RollKey;
    RollKeyOfFields(o, upper);
    var middle := o.date + ":" + Decimal(o.hour) + ":" + o.symbol + ":";
    assert RollText(o) == "h1tp:" + middle + o.account;
    KeyIsTrimmed("h1tp:", middle, o.account);
    RollParseIffPrint(RollText(o), o, upper);
  }

  /** The pattern lists hour 14, but no key with hour 14 is accepted: printing it back refuses. */
  lemma HourFourteenIsRefused(originKey: string, upper: string -> string)
    requires KeepsSymbols(upper) && MatchRoll(Trim(originKey)).Some? && MatchRoll(Trim(originKey)).value.hour == 14
    ensures ParseRollKey(originKey, upper).Fail?
  {
    hide MatchRoll, Trim, KeepsSymbols, RollText;
    var r := ParseRollKey(originKey, upper);
    if r.Ok? {
      RollParseIffPrint(originKey, r.value, upper);
      RollTextMatches(r.value);
    }
  }

  // ---- The text behind a ledger key ----

  datatype Origin = Telegram(telegram: TelegramOrigin) | Roll(roll: RollOrigin)

  /** What `mt5BrokerOriginLedgerKey` hashes, without an expected account. */
  function LedgerText(originKey: string, upper: string -> string): Result<string, Error> {
    var value := Trim(originKey);
    if "h1tp:" <= value then
      match ParseRollKey(value, upper) { case Fail(e) => Fail(e) case Ok(o) => Ok(RollTextOf(o)) }
    else
      match ParseTelegramKey(value) { case Fail(e) => Fail(e) case Ok(o) => Ok(TelegramText(o)) }
  }

  function RollTextOf(o: RollOrigin): string {
    if o.hour >= 0 then RollText(o) else ""
  }

  predicate ValidOrigin(o: Origin) {
    match o
    case Telegram(t) => ValidTelegramOrigin(t)
    case Roll(r) => ValidRollOrigin(r)
  }

  function OriginText(o: Origin): string
    requires ValidOrigin(o)
  {
    match o
    case Telegram(t) => TelegramText(t)
    case Roll(r) => RollText(r)
  }

  lemma {:induction false} TrimTwice(s: string)
    ensures Trim(Trim(s)) == Trim(s)
  {
    StartTrimmed(s);
    EndTrimmed(TrimStart(s));
    TrimKeeps(Trim(s));
  }

  lemma {:induction false} StartTrimmed(s: string)
    ensures TrimStart(s) == "" || !IsSpace(TrimStart(s)[0])
  {
    if s != "" { StartTrimmed(s[1..]); }
  }

  lemma {:induction false} EndTrimmed(s: string)
    requires s == "" || !IsSpace(s[0])
    ensures TrimEnd(s) == "" || (TrimEnd(s)[0] == s[0] && !IsSpace(TrimEnd(s)[|TrimEnd(s)| - 1]))
  {
    if s != "" && IsSpace(s[|s| - 1]) { EndTrimmed(s[..|s| - 1]); }
  }

  /** Two texts share a ledger text exactly when they name the same valid origin. */
  lemma LedgerTextNamesOneOrigin(originKey: string, upper: string -> string, o: Origin)
    requires KeepsSymbols(upper) && ValidOrigin(o)
    ensures LedgerText(originKey, upper) == Ok(OriginText(o)) <==> Trim(originKey) == OriginText(o)
  {
    hide Trim, ParseRollKey, ParseTelegramKey, KeepsSymbols, RollText, TelegramText, ValidRollOrigin, ValidTelegramOrigin, TelegramKey;
    var value := Trim(originKey);
    TrimTwice(originKey);
    TagsDiffer(o);
    if "h1tp:" <= value {
      var parsed := ParseRollKey(value, upper);
      if parsed.Ok? { RollParseIffPrint(value, parsed.value, upper); assert parsed.value.hour >= 0 by { RollHour(parsed.value); } }
      if o.Roll? { RollParseIffPrint(value, o.roll, upper); }
    } else {
      var parsed := ParseTelegramKey(value);
      if parsed.Ok? { TelegramParseIffPrint(value, parsed.value); TelegramKeyOfValid(parsed.value); }
      if o.Telegram? { TelegramParseIffPrint(value, o.telegram); TelegramKeyOfValid(o.telegram); }
    }
  }

  lemma RollHour(o: RollOrigin)
    requires ValidRollOrigin(o)
    ensures o.hour >= 0
  {
  }

  lemma TagsDiffer(o: Origin)
    requires ValidOrigin(o)
    ensures "h1tp:" <= OriginText(o) <==> o.Roll?
  {
    if o.Telegram? { assert OriginText(o)[0] == 't'; }
  }

  /** Different valid origins never share a key. */
  lemma OriginTextInjective(o: Origin, p: Origin, upper: string -> string)
    requires KeepsSymbols(upper) && ValidOrigin(o) && ValidOrigin(p) && OriginText(o) == OriginText(p)
    ensures o == p
  {
    hide Trim, KeepsSymbols, RollText, TelegramText, ValidRollOrigin, ValidTelegramOrigin, RollKey, TelegramKey, ParseTelegramKey, ParseRollKey;
    TagsDiffer(o);
    TagsDiffer(p);
    if o.Roll? {
      RollRoundTrip(o.roll, upper);
      RollRoundTrip(p.roll, upper);
    } else {
      TelegramRoundTrip(o.telegram);
      TelegramRoundTrip(p.telegram);
      TelegramKeyOfValid(o.telegram);
      TelegramKeyOfValid(p.telegram);
    }
  }
}
