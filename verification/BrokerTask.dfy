/** The identity of a broker task: the text whose digest two executors compare before they act. */
module BrokerTask {
  import opened Common
  import opened Texts
  import opened CanonicalJson
  import opened OriginKeys

  /** The arguments of `mt5BrokerTaskDigest`; `payload` in insertion order, `protection` null where it is absent. */
  datatype Task = Task(
    originKey: string,
    providerAccountId: string,
    bridgeProfile: string,
    login: int,
    server: string,
    action: string,
    payload: seq<Member>,
    protection: Json)

  datatype Outcome = Identified(text: string) | Refused(error: Error) | Incomplete

  const ACTIONS := {"entry", "entry_prepare", "close", "modify", "partial", "tp_roll"}

  function AssertTelegramKey(originKey: string, expected: string): Result<string, Error> {
    match ParseTelegramKey(originKey)
    case Fail(e) => Fail(e)
    case Ok(o) =>
      if expected == "" then Ok(TelegramText(o)) else
      match NormalizedMt5AccountId(expected)
      case Fail(e) => Fail(e)
      case Ok(account) => if o.account != account then Fail(AccountMismatch) else Ok(TelegramText(o))
  }

  function AssertRollKey(originKey: string, expected: string, upper: string -> string): Result<string, Error> {
    match ParseRollKey(originKey, upper)
    case Fail(e) => Fail(e)
    case Ok(o) =>
      if expected == "" then Ok(RollTextOf(o)) else
      match NormalizedMt5AccountId(expected)
      case Fail(e) => Fail(e)
      case Ok(account) => if o.account != account then Fail(AccountMismatch) else Ok(RollTextOf(o))
  }

  /** The payload without the member that only routes. */
  function BrokerPayload(payload: seq<Member>): seq<Member> {
    if payload == [] then []
    else (if payload[0].key == "legacyProfile" then [] else [payload[0]]) + BrokerPayload(payload[1..])
  }

  /** The normalised fields, in the order the code lists them. */
  function Immutable(originKey: string, account: string, profile: string, login: nat, server: string, action: string,
                     payload: seq<Member>, protection: Json): Json {
    Object([
      Member("originKey", Text(originKey)),
      Member("providerAccountId", Text(account)),
      Member("bridgeProfile", Text(profile)),
      Member("login", Number(Decimal(login))),
      Member("server", Text(server)),
      Member("action", Text(action)),
      Member("payload", Object(payload)),
      Member("protection", protection)
    ])
  }

  /** The text `mt5BrokerTaskDigest` hashes. `lower` and `upper` stand for the case mappings of JavaScript strings. */
  function TaskText(t: Task, lower: string -> string, upper: string -> string): Outcome {
    var action := lower(Trim(t.action));
    var origin := if action == "tp_roll" then AssertRollKey(t.originKey, t.providerAccountId, upper)
                  else AssertTelegramKey(t.originKey, t.providerAccountId);
    match origin
    case Fail(e) => Refused(e)
    case Ok(originKey) =>
      match NormalizedMt5AccountId(t.providerAccountId)
      case Fail(e) => Refused(e)
      case Ok(account) =>
        var profile, server := lower(Trim(t.bridgeProfile)), Trim(t.server);
        if profile == "" || !SafeInteger(t.login) || t.login <= 0 || server == "" || action !in ACTIONS then Incomplete
        else Identified(Canonical(
               Immutable(originKey, account, profile, t.login, server, action, BrokerPayload(t.payload), t.protection)))
  }

  ghost predicate WellFormedTask(t: Task) {
    WellFormed(Object(t.payload)) && WellFormed(t.protection)
  }

  /** Two tasks ask for the same thing: every normalised field agrees, the routing member apart. */
  predicate Agree(s: Task, t: Task, lower: string -> string) {
    && Trim(s.originKey) == Trim(t.originKey)
    && Trim(s.providerAccountId) == Trim(t.providerAccountId)
    && lower(Trim(s.bridgeProfile)) == lower(Trim(t.bridgeProfile))
    && s.login == t.login
    && Trim(s.server) == Trim(t.server)
    && lower(Trim(s.action)) == lower(Trim(t.action))
    && Same(Object(BrokerPayload(s.payload)), Object(BrokerPayload(t.payload)))
    && Same(s.protection, t.protection)
  }

  lemma {:induction false} BrokerPayloadMembers(payload: seq<Member>, m: Member)
    ensures m in BrokerPayload(payload) <==> m in payload && m.key != "legacyProfile"
  {
    if payload != [] { BrokerPayloadMembers(payload[1..], m); }
  }

  lemma {:induction false} BrokerPayloadDistinct(payload: seq<Member>)
    requires DistinctKeys(payload)
    ensures DistinctKeys(BrokerPayload(payload))
  {
    if payload != [] {
      var rest := BrokerPayload(payload[1..]);
      BrokerPayloadDistinct(payload[1..]);
      forall i | 0 <= i < |rest| ensures rest[i].key != payload[0].key {
        BrokerPayloadMembers(payload[1..], rest[i]);
        var k :| 0 <= k < |payload[1..]| && payload[1..][k] == rest[i];
        assert payload[k + 1] == rest[i];
      }
    }
  }

  lemma BrokerPayloadWellFormed(payload: seq<Member>)
    requires WellFormed(Object(payload))
    ensures WellFormed(Object(BrokerPayload(payload)))
  {
    BrokerPayloadDistinct(payload);
    var rest := BrokerPayload(payload);
    forall i | 0 <= i < |rest| ensures WellFormed(rest[i].value) {
      BrokerPayloadMembers(payload, rest[i]);
    }
  }

  ghost predicate Aligned(members: seq<Member>, others: seq<Member>) {
    |members| == |others| && forall i :: 0 <= i < |members| ==> members[i].key == others[i].key
  }

  ghost predicate ValuesSame(members: seq<Member>, others: seq<Member>) {
    |members| == |others| && forall i :: 0 <= i < |members| ==> Same(members[i].value, others[i].value)
  }

  lemma AlignedMatch(members: seq<Member>, others: seq<Member>)
    requires Aligned(members, others) && ValuesSame(members, others)
    ensures Matched(members, others) && Covered(members, others)
  {
    forall i | 0 <= i < |members| ensures HasMatch(members[i], others) && HasCover(members, others[i]) {
      assert SameMember(members[i], others[i]);
    }
  }

  lemma MatchAligned(members: seq<Member>, others: seq<Member>)
    requires Aligned(members, others) && DistinctKeys(members) && Matched(members, others)
    ensures ValuesSame(members, others)
  {
    hide HasMatch, DistinctKeys, Same;
    forall i | 0 <= i < |members| ensures Same(members[i].value, others[i].value) {
      assert HasMatch(members[i], others);
      MatchIsAligned(members, others, i);
    }
  }

  lemma MatchIsAligned(members: seq<Member>, others: seq<Member>, i: nat)
    requires Aligned(members, others) && DistinctKeys(members) && i < |members| && HasMatch(members[i], others)
    ensures Same(members[i].value, others[i].value)
  {
    hide Same;
    var j :| 0 <= j < |others| && SameMember(members[i], others[j]);
    assert members[j].key == members[i].key;
    assert i == j;
  }

  /** Objects that list the same distinct keys in the same order are the same exactly when their values are. */
  lemma AlignedObjects(members: seq<Member>, others: seq<Member>)
    requires Aligned(members, others) && DistinctKeys(members)
    ensures Same(Object(members), Object(others)) <==> ValuesSame(members, others)
  {
    hide Matched, Covered, ValuesSame, DistinctKeys, Aligned;
    if ValuesSame(members, others) { AlignedMatch(members, others); }
    if Matched(members, others) { MatchAligned(members, others); }
  }

  lemma TextValues(a: string, b: string)
    ensures Same(Text(a), Text(b)) <==> a == b
  {
  }

  lemma LoginValues(m: nat, n: nat)
    ensures Same(Number(Decimal(m)), Number(Decimal(n))) <==> m == n
  {
    DecimalRoundTrip(m);
    DecimalRoundTrip(n);
  }

  lemma {:induction false} DecimalIsNumeral(n: nat)
    ensures WellFormed(Number(Decimal(n)))
  {
    hide Decimal;
    DecimalRoundTrip(n);
    forall c | c in Decimal(n) ensures c in NUMERAL {
      assert NUMERAL[c as int - '0' as int] == c;
    }
  }

  /** The eight fields, as members. */
  function Fields(originKey: string, account: string, profile: string, login: nat, server: string, action: string,
                  payload: seq<Member>, protection: Json): (members: seq<Member>)
    ensures Immutable(originKey, account, profile, login, server, action, payload, protection) == Object(members)
    ensures |members| == 8 && DistinctKeys(members)
  {
    Immutable(originKey, account, profile, login, server, action, payload, protection).members
  }

  lemma ImmutableWellFormed(originKey: string, account: string, profile: string, login: nat, server: string, action: string,
                            payload: seq<Member>, protection: Json)
    requires WellFormed(Object(payload)) && WellFormed(protection)
    ensures WellFormed(Immutable(originKey, account, profile, login, server, action, payload, protection))
  {
    hide Decimal;
    DecimalIsNumeral(login);
    var members := Fields(originKey, account, profile, login, server, action, payload, protection);
    forall i | 0 <= i < 8 ensures WellFormed(members[i].value) {
    }
  }

  lemma AssertedTelegramKey(originKey: string, expected: string)
    ensures AssertTelegramKey(originKey, expected).Ok? ==> AssertTelegramKey(originKey, expected).value == Trim(originKey)
  {
    hide Trim, ParseTelegramKey, TelegramText, TelegramKey, NormalizedMt5AccountId, ValidTelegramOrigin;
    var parsed := ParseTelegramKey(originKey);
    if parsed.Ok? {
      TelegramParseIffPrint(originKey, parsed.value);
      TelegramKeyOfValid(parsed.value);
    }
  }

  lemma AssertedRollKey(originKey: string, expected: string, upper: string -> string)
    requires KeepsSymbols(upper)
    ensures AssertRollKey(originKey, expected, upper).Ok? ==> AssertRollKey(originKey, expected, upper).value == Trim(originKey)
  {
    hide Trim, ParseRollKey, RollText, NormalizedMt5AccountId, ValidRollOrigin, KeepsSymbols;
    var parsed := ParseRollKey(originKey, upper);
    if parsed.Ok? {
      RollParseIffPrint(originKey, parsed.value, upper);
      RollHour(parsed.value);
    }
  }

  function ImmutableOf(t: Task, lower: string -> string): Json
    requires t.login >= 0
  {
    Immutable(Trim(t.originKey), Trim(t.providerAccountId), lower(Trim(t.bridgeProfile)), t.login, Trim(t.server),
              lower(Trim(t.action)), BrokerPayload(t.payload), t.protection)
  }

  lemma IdentifiedText(t: Task, lower: string -> string, upper: string -> string)
    requires KeepsSymbols(upper) && TaskText(t, lower, upper).Identified?
    ensures t.login > 0 && TaskText(t, lower, upper).text == Canonical(ImmutableOf(t, lower))
  {
    hide Trim, AssertTelegramKey, AssertRollKey, KeepsSymbols, NormalizedMt5AccountId, Canonical, Immutable, IsMt5Account;
    AssertedTelegramKey(t.originKey, t.providerAccountId);
    AssertedRollKey(t.originKey, t.providerAccountId, upper);
    Mt5AccountsPass(t.providerAccountId);
  }

  lemma ImmutablesAgree(s: Task, t: Task, lower: string -> string)
    requires s.login >= 0 && t.login >= 0
    ensures Same(ImmutableOf(s, lower), ImmutableOf(t, lower)) <==> Agree(s, t, lower)
  {
    hide Trim, Decimal, BrokerPayload, Same;
    var ms := ImmutableOf(s, lower).members;
    var ns := ImmutableOf(t, lower).members;
    assert Aligned(ms, ns) && DistinctKeys(ms);
    AlignedObjects(ms, ns);
    EightValues(ms, ns);
    hide DistinctKeys, Aligned, ValuesSame;
    TextValues(Trim(s.originKey), Trim(t.originKey));
    TextValues(Trim(s.providerAccountId), Trim(t.providerAccountId));
    TextValues(lower(Trim(s.bridgeProfile)), lower(Trim(t.bridgeProfile)));
    LoginValues(s.login, t.login);
    TextValues(Trim(s.server), Trim(t.server));
    TextValues(lower(Trim(s.action)), lower(Trim(t.action)));
  }

  lemma EightValues(ms: seq<Member>, ns: seq<Member>)
    requires |ms| == |ns| == 8
    ensures ValuesSame(ms, ns) <==>
      && Same(ms[0].value, ns[0].value) && Same(ms[1].value, ns[1].value)
      && Same(ms[2].value, ns[2].value) && Same(ms[3].value, ns[3].value)
      && Same(ms[4].value, ns[4].value) && Same(ms[5].value, ns[5].value)
      && Same(ms[6].value, ns[6].value) && Same(ms[7].value, ns[7].value)
  {
    hide Same;
  }

  /** Two identified tasks have the same text exactly when they agree on every normalised field except the
      routing member `legacyProfile`. */
  lemma TaskTextIdentifies(s: Task, t: Task, lower: string -> string, upper: string -> string)
    requires KeepsSymbols(upper) && WellFormedTask(s) && WellFormedTask(t)
    ensures TaskText(s, lower, upper).Identified? && TaskText(t, lower, upper).Identified? ==>
      (TaskText(s, lower, upper) == TaskText(t, lower, upper) <==> Agree(s, t, lower))
  {
    hide Trim, TaskText, KeepsSymbols, Canonical, Immutable, Agree, BrokerPayload, WellFormed, Same;
    if TaskText(s, lower, upper).Identified? && TaskText(t, lower, upper).Identified? {
      IdentifiedText(s, lower, upper);
      IdentifiedText(t, lower, upper);
      TextsIdentify(s, t, lower);
    }
  }

  lemma TextsIdentify(s: Task, t: Task, lower: string -> string)
    requires WellFormedTask(s) && WellFormedTask(t) && s.login >= 0 && t.login >= 0
    ensures Canonical(ImmutableOf(s, lower)) == Canonical(ImmutableOf(t, lower)) <==> Agree(s, t, lower)
  {
    hide Trim, Canonical, Immutable, Agree, BrokerPayload, WellFormed, Same;
    BrokerPayloadWellFormed(s.payload);
    BrokerPayloadWellFormed(t.payload);
    ImmutableWellFormed(Trim(s.originKey), Trim(s.providerAccountId), lower(Trim(s.bridgeProfile)), s.login, Trim(s.server),
                        lower(Trim(s.action)), BrokerPayload(s.payload), s.protection);
    ImmutableWellFormed(Trim(t.originKey), Trim(t.providerAccountId), lower(Trim(t.bridgeProfile)), t.login, Trim(t.server),
                        lower(Trim(t.action)), BrokerPayload(t.payload), t.protection);
    CanonicalIdentifies(ImmutableOf(s, lower), ImmutableOf(t, lower));
    ImmutablesAgree(s, t, lower);
  }
}
