/** Which broker tasks get an identity, and what the text behind it says. */
module TaskFields {
  import opened Common
  import opened Texts
  import opened CanonicalJson
  import opened JsonText
  import opened OriginKeys
  import opened BrokerTask

  /** The text is the key of a valid origin that names the account: an H1 roll for roll tasks, a Telegram command else. */
  ghost predicate NamesAccount(originKey: string, action: string, account: string) {
    if action == "tp_roll" then exists o: RollOrigin :: ValidRollOrigin(o) && RollNames(o, originKey, account)
    else exists o: TelegramOrigin :: ValidTelegramOrigin(o) && TelegramNames(o, originKey, account)
  }

  predicate RollNames(o: RollOrigin, originKey: string, account: string) {
    o.hour >= 0 && RollText(o) == originKey && o.account == account
  }

  predicate TelegramNames(o: TelegramOrigin, originKey: string, account: string) {
    TelegramText(o) == originKey && o.account == account
  }

  lemma RollAsserted(originKey: string, expected: string, upper: string -> string)
    requires KeepsSymbols(upper) && IsMt5Account(Trim(expected))
    ensures AssertRollKey(originKey, expected, upper).Ok? <==> NamesAccount(Trim(originKey), "tp_roll", Trim(expected))
  {
    hide Trim, ParseRollKey, RollText, KeepsSymbols, NormalizedMt5AccountId, IsMt5Account, ValidRollOrigin;
    Mt5AccountsPass(expected);
    NotEmptyTrim(expected);
    forall o | ValidRollOrigin(o) && RollNames(o, Trim(originKey), Trim(expected)) ensures ParseRollKey(originKey, upper) == Ok(o) {
      RollParseIffPrint(originKey, o, upper);
    }
    if ParseRollKey(originKey, upper).Ok? {
      RollParseIffPrint(originKey, ParseRollKey(originKey, upper).value, upper);
      ValidHour(ParseRollKey(originKey, upper).value);
    }
  }

  lemma ValidHour(o: RollOrigin)
    requires ValidRollOrigin(o)
    ensures o.hour >= 0
  {
  }

  lemma NotEmptyTrim(s: string)
    ensures IsMt5Account(Trim(s)) ==> s != ""
  {
  }

  lemma TelegramAsserted(originKey: string, expected: string)
    requires IsMt5Account(Trim(expected))
    ensures AssertTelegramKey(originKey, expected).Ok? <==> NamesAccount(Trim(originKey), "", Trim(expected))
  {
    hide Trim, ParseTelegramKey, TelegramText, NormalizedMt5AccountId, IsMt5Account, ValidTelegramOrigin;
    Mt5AccountsPass(expected);
    NotEmptyTrim(expected);
    forall o | ValidTelegramOrigin(o) && TelegramNames(o, Trim(originKey), Trim(expected)) ensures ParseTelegramKey(originKey) == Ok(o) {
      TelegramParseIffPrint(originKey, o);
      TelegramKeyOfValid(o);
    }
    if ParseTelegramKey(originKey).Ok? {
      TelegramParseIffPrint(originKey, ParseTelegramKey(originKey).value);
      TelegramKeyOfValid(ParseTelegramKey(originKey).value);
    }
  }

  /** A task gets an identity exactly when its account is an MT5 account, its origin is valid for its action and names that
      very account, and profile, login, server and action are complete. */
  lemma IdentifiedIff(t: Task, lower: string -> string, upper: string -> string)
    requires KeepsSymbols(upper)
    ensures
      var (action, account) := (lower(Trim(t.action)), Trim(t.providerAccountId));
      TaskText(t, lower, upper).Identified? <==>
        && IsMt5Account(account) && NamesAccount(Trim(t.originKey), action, account)
        && lower(Trim(t.bridgeProfile)) != "" && 0 < t.login <= 9_007_199_254_740_991 && Trim(t.server) != ""
        && action in {"entry", "entry_prepare", "close", "modify", "partial", "tp_roll"}
  {
    hide Trim, AssertTelegramKey, AssertRollKey, NormalizedMt5AccountId, KeepsSymbols, NamesAccount, Canonical, Immutable, BrokerPayload, IsMt5Account;
    Mt5AccountsPass(t.providerAccountId);
    var action, account := lower(Trim(t.action)), Trim(t.providerAccountId);
    if IsMt5Account(account) {
      RollAsserted(t.originKey, t.providerAccountId, upper);
      TelegramAsserted(t.originKey, t.providerAccountId);
      ActionKinds(Trim(t.originKey), action, account);
    }
  }

  lemma ActionKinds(originKey: string, action: string, account: string)
    ensures action != "tp_roll" ==> (NamesAccount(originKey, action, account) <==> NamesAccount(originKey, "", account))
  {
  }

  /** The text of an identified task is the canonical JSON of its eight normalised fields, without the routing member. */
  lemma TaskTextShows(t: Task, lower: string -> string, upper: string -> string)
    requires KeepsSymbols(upper) && WellFormedTask(t) && TaskText(t, lower, upper).Identified?
    ensures t.login > 0
    ensures exists payload :: (forall m :: m in payload <==> m in t.payload && m.key != "legacyProfile") && Writes(TaskText(t, lower, upper).text, Object([
      Member("originKey", Text(Trim(t.originKey))), Member("providerAccountId", Text(Trim(t.providerAccountId))),
      Member("bridgeProfile", Text(lower(Trim(t.bridgeProfile)))), Member("login", Number(Decimal(t.login))),
      Member("server", Text(Trim(t.server))), Member("action", Text(lower(Trim(t.action)))),
      Member("payload", Object(payload)), Member("protection", t.protection)]))
  {
    hide Trim, TaskText, KeepsSymbols, Canonical, Writes, Decimal, BrokerPayload, WellFormed;
    IdentifiedText(t, lower, upper);
    BrokerPayloadWellFormed(t.payload);
    ImmutableWellFormed(Trim(t.originKey), Trim(t.providerAccountId), lower(Trim(t.bridgeProfile)), t.login, Trim(t.server),
                        lower(Trim(t.action)), BrokerPayload(t.payload), t.protection);
    CanonicalWrites(ImmutableOf(t, lower));
    var payload := BrokerPayload(t.payload);
    forall m ensures m in payload <==> m in t.payload && m.key != "legacyProfile" { BrokerPayloadMembers(t.payload, m); }
  }
}
