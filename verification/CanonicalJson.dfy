/** Canonical JSON text: object keys sorted at every level, so that the text identifies the value up to key order. */
module CanonicalJson {
  import opened Ordering

  /** A JSON value. A number is held as the text `JSON.stringify` gives for it; object members keep insertion order. */
  datatype Json =
    | Null
    | Bool(flag: bool)
    | Number(text: string)
    | Text(content: string)
    | List(items: seq<Json>)
    | Object(members: seq<Member>)

  datatype Member = Member(key: string, value: Json)

  const NUMERAL := "0123456789+-.e"

  predicate DistinctKeys(members: seq<Member>) {
    forall i, j :: 0 <= i < j < |members| ==> members[i].key != members[j].key
  }

  /** Finite numbers, and no key twice in one object. */
  predicate WellFormed(j: Json) {
    match j
    case Number(text) => text != "" && forall c :: c in text ==> c in NUMERAL
    case List(items) => forall i :: 0 <= i < |items| ==> WellFormed(items[i])
    case Object(members) => DistinctKeys(members) && forall i :: 0 <= i < |members| ==> WellFormed(members[i].value)
    case _ => true
  }

  /** Equal up to the order of members, at every level. */
  predicate Same(a: Json, b: Json) {
    match a
    case List(items) =>
      b.List? && |items| == |b.items| && forall i :: 0 <= i < |items| ==> Same(items[i], b.items[i])
    case Object(members) =>
      b.Object? && Matched(members, b.members) && Covered(members, b.members)
    case _ => a == b
  }

  predicate Matched(members: seq<Member>, others: seq<Member>) {
    forall i :: 0 <= i < |members| ==> HasMatch(members[i], others)
  }

  predicate HasMatch(m: Member, others: seq<Member>) {
    exists j :: 0 <= j < |others| && SameMember(m, others[j])
  }

  predicate Covered(members: seq<Member>, others: seq<Member>) {
    forall j :: 0 <= j < |others| ==> HasCover(members, others[j])
  }

  predicate HasCover(members: seq<Member>, n: Member) {
    exists i :: 0 <= i < |members| && SameMember(members[i], n)
  }

  predicate SameMember(m: Member, n: Member) {
    m.key == n.key && Same(m.value, n.value)
  }

  // ---- Printing ----

  function HexDigit(n: nat): char
    requires n < 16
  {
    "0123456789abcdef"[n]
  }

  /** One character inside a JSON string (section 7 of RFC 8259; the short escapes where there is one). */
  function Quoted(c: char): string {
    if c == '"' then "\\\""
    else if c == '\\' then "\\\\"
    else if c == '\U{0008}' then "\\b"
    else if c == '\t' then "\\t"
    else if c == '\n' then "\\n"
    else if c == '\U{000C}' then "\\f"
    else if c == '\r' then "\\r"
    else if c < ' ' then "\\u00" + [HexDigit(c as int / 16), HexDigit(c as int % 16)]
    else [c]
  }

  function QuotedAll(s: string): string {
    if s == "" then "" else Quoted(s[0]) + QuotedAll(s[1..])
  }

  function Quote(s: string): string {
    "\"" + QuotedAll(s) + "\""
  }

  function JoinComma(texts: seq<string>): string {
    if texts == [] then "" else if |texts| == 1 then texts[0] else texts[0] + "," + JoinComma(texts[1..])
  }

  /** An object member whose value has been printed. */
  datatype Entry = Entry(key: string, text: string)

  predicate EntryBefore(a: Entry, b: Entry) {
    !Less(b.key, a.key)
  }

  function EntryText(e: Entry): string {
    Quote(e.key) + ":" + e.text
  }

  function EntryTexts(entries: seq<Entry>): seq<string> {
    if entries == [] then [] else [EntryText(entries[0])] + EntryTexts(entries[1..])
  }

  /** `canonicalJson`: keys are sorted by UTF-16 code unit before the members are joined. */
  function Canonical(j: Json): string {
    match j
    case Null => "null"
    case Bool(flag) => if flag then "true" else "false"
    case Number(text) => text
    case Text(content) => Quote(content)
    case List(items) => "[" + JoinComma(CanonicalItems(items)) + "]"
    case Object(members) => "{" + JoinComma(EntryTexts(StableSort(CanonicalEntries(members), EntryBefore))) + "}"
  }

  function CanonicalItems(items: seq<Json>): (texts: seq<string>)
    ensures |texts| == |items|
    ensures forall i :: 0 <= i < |items| ==> texts[i] == Canonical(items[i])
  {
    if items == [] then [] else [Canonical(items[0])] + CanonicalItems(items[1..])
  }

  function CanonicalEntries(members: seq<Member>): (entries: seq<Entry>)
    ensures |entries| == |members|
    ensures forall i :: 0 <= i < |members| ==> entries[i] == Entry(members[i].key, Canonical(members[i].value))
  {
    if members == [] then []
    else [Entry(members[0].key, Canonical(members[0].value))] + CanonicalEntries(members[1..])
  }

  // ---- The text of a value ends where the value ends ----

  /** What can follow a value: nothing, or a character no value continues with. */
  predicate Delimited(rest: string) {
    rest == "" || rest[0] in ",]}"
  }

  /** Two texts that stay apart whatever follows them. */
  ghost predicate Splits(t: string, u: string) {
    forall x, y :: Delimited(x) && Delimited(y) && t + x == u + y ==> t == u
  }

  lemma PrefixSplit(t: string, u: string, x: string, y: string)
    requires t + x == u + y && |t| == |u|
    ensures t == u && x == y
  {
    assert t == (t + x)[..|t|] && u == (u + y)[..|u|];
    assert x == (t + x)[|t|..] && y == (u + y)[|u|..];
  }

  lemma HexDigitInjective(m: nat, n: nat)
    requires m < 16 && n < 16 && HexDigit(m) == HexDigit(n)
    ensures m == n
  {
  }

  lemma QuotedInjective(c: char, d: char)
    requires Quoted(c) == Quoted(d)
    ensures c == d
  {
    if |Quoted(c)| == 6 {
      assert Quoted(c)[4] == HexDigit(c as int / 16) && Quoted(c)[5] == HexDigit(c as int % 16);
      assert Quoted(d)[4] == HexDigit(d as int / 16) && Quoted(d)[5] == HexDigit(d as int % 16);
      HexDigitInjective(c as int / 16, d as int / 16);
      HexDigitInjective(c as int % 16, d as int % 16);
      assert c as int == d as int;
    } else {
      assert Quoted(c)[|Quoted(c)| - 1] == Quoted(d)[|Quoted(d)| - 1];
    }
  }

  lemma QuotedSplits(c: char, d: char, x: string, y: string)
    requires Quoted(c) + x == Quoted(d) + y
    ensures c == d && x == y
  {
    var whole := Quoted(c) + x;
    assert whole[0] == Quoted(c)[0] == Quoted(d)[0];
    if whole[0] == '\\' {
      assert whole[1] == Quoted(c)[1] == Quoted(d)[1];
    }
    assert |Quoted(c)| == |Quoted(d)|;
    PrefixSplit(Quoted(c), Quoted(d), x, y);
    QuotedInjective(c, d);
  }

  /** No character inside a string prints as the closing quote. */
  lemma NotClosing(s: string, x: string, y: string)
    requires s != ""
    ensures QuotedAll(s) + ("\"" + x) != "\"" + y
  {
    assert (QuotedAll(s) + ("\"" + x))[0] == Quoted(s[0])[0] != '"';
    assert ("\"" + y)[0] == '"';
  }

  lemma {:induction false} QuotedAllSplits(s: string, t: string, x: string, y: string)
    requires QuotedAll(s) + ("\"" + x) == QuotedAll(t) + ("\"" + y)
    ensures s == t && x == y
  {
    hide Quoted;
    assert QuotedAll("") + ("\"" + x) == "\"" + x && QuotedAll("") + ("\"" + y) == "\"" + y;
    if t != "" { NotClosing(t, y, x); }
    if s != "" { NotClosing(s, x, y); }
    if s == "" {
      PrefixSplit("\"", "\"", x, y);
    } else {
      var sRest, tRest := QuotedAll(s[1..]) + ("\"" + x), QuotedAll(t[1..]) + ("\"" + y);
      assert QuotedAll(s) + ("\"" + x) == Quoted(s[0]) + sRest;
      assert QuotedAll(t) + ("\"" + y) == Quoted(t[0]) + tRest;
      QuotedSplits(s[0], t[0], sRest, tRest);
      QuotedAllSplits(s[1..], t[1..], x, y);
      assert s == [s[0]] + s[1..] && t == [t[0]] + t[1..];
    }
  }

  lemma QuoteSplits(s: string, t: string, x: string, y: string)
    requires Quote(s) + x == Quote(t) + y
    ensures s == t && x == y
  {
    hide QuotedAll;
    var sBody, tBody := QuotedAll(s) + ("\"" + x), QuotedAll(t) + ("\"" + y);
    assert Quote(s) + x == "\"" + sBody && Quote(t) + y == "\"" + tBody;
    PrefixSplit("\"", "\"", sBody, tBody);
    QuotedAllSplits(s, t, x, y);
  }

  lemma NumeralGoesOn(t: string, u: string, x: string, y: string)
    requires |t| < |u| && Delimited(x) && forall c :: c in u ==> c in NUMERAL
    ensures t + x != u + y
  {
    assert (u + y)[|t|] == u[|t|] && u[|t|] in u;
    if x != "" { assert (t + x)[|t|] == x[0]; }
  }

  lemma NumeralSplits(t: string, u: string, x: string, y: string)
    requires (forall c :: c in t ==> c in NUMERAL) && (forall c :: c in u ==> c in NUMERAL)
    requires Delimited(x) && Delimited(y) && t + x == u + y
    ensures t == u && x == y
  {
    if |t| < |u| { NumeralGoesOn(t, u, x, y); }
    if |u| < |t| { NumeralGoesOn(u, t, y, x); }
    PrefixSplit(t, u, x, y);
  }

  // ---- Reading a quoted string back ----

  function HexValue(c: char): nat {
    if '0' <= c <= '9' then c as int - '0' as int else if 'a' <= c <= 'f' then c as int - 'a' as int + 10 else 0
  }

  /** What a short escape stands for (section 7 of RFC 8259). */
  function ShortEscape(c: char): char {
    if c == 'b' then '\U{0008}' else if c == 't' then '\t' else if c == 'n' then '\n'
    else if c == 'f' then '\U{000C}' else if c == 'r' then '\r' else c
  }

  /** Resolves the escapes of a string body; `\\u00` is followed by two digits. */
  function Unquote(s: string): string {
    if s == "" then ""
    else if s[0] != '\\' || |s| == 1 then [s[0]] + Unquote(s[1..])
    else if s[1] == 'u' && |s| >= 6 && HexValue(s[4]) < 2 then
      [(16 * HexValue(s[4]) + HexValue(s[5])) as char] + Unquote(s[6..])
    else [ShortEscape(s[1])] + Unquote(s[2..])
  }

  lemma HexRoundTrip(n: nat)
    requires n < 16
    ensures HexValue(HexDigit(n)) == n
  {
  }

  /** A character is quoted as itself, by a short escape or by four hexadecimal digits. */
  lemma QuotedForms(c: char)
    ensures
      var q := Quoted(c);
      || (q == [c] && c != '\\')
      || (|q| == 2 && q[0] == '\\' && q[1] != 'u' && ShortEscape(q[1]) == c)
      || (|q| == 6 && q[0] == '\\' && q[1] == 'u' && HexValue(q[4]) < 2 && 16 * HexValue(q[4]) + HexValue(q[5]) == c as int)
  {
    if c < ' ' {
      HexRoundTrip(c as int / 16);
      HexRoundTrip(c as int % 16);
    }
  }

  lemma UnquoteOne(c: char, rest: string)
    ensures Unquote(Quoted(c) + rest) == [c] + Unquote(rest)
  {
    var s := Quoted(c) + rest;
    assert s[|Quoted(c)|..] == rest && s[0] == Quoted(c)[0];
    QuotedForms(c);
    if |Quoted(c)| == 6 {
      assert s[1] == 'u' && s[4] == Quoted(c)[4] && s[5] == Quoted(c)[5];
    } else if |Quoted(c)| == 2 {
      assert s[1] == Quoted(c)[1];
    }
    hide Quoted, HexValue, HexDigit, ShortEscape;
  }

  /** Resolving the escapes of a quoted string gives the string back. */
  lemma {:induction false} UnquoteQuoted(s: string)
    ensures Unquote(QuotedAll(s)) == s
  {
    hide Quoted, Unquote;
    if s == "" {
      NothingToUnquote();
    } else {
      UnquoteOne(s[0], QuotedAll(s[1..]));
      UnquoteQuoted(s[1..]);
      assert s == [s[0]] + s[1..];
    }
  }

  lemma NothingToUnquote()
    ensures Unquote("") == ""
  {
  }

  // ---- Lists of texts ----

  /** Text that does not begin with a delimiter. */
  predicate Solid(t: string) {
    t != "" && t[0] !in ",]}"
  }

  function Following(rest: seq<string>, close: char, x: string): (f: string)
    requires close in "]}"
    ensures Delimited(f) && f != ""
  {
    if rest == [] then [close] + x else "," + (JoinComma(rest) + ([close] + x))
  }

  lemma JoinCommaHead(ts: seq<string>, close: char, x: string)
    requires ts != [] && close in "]}"
    ensures JoinComma(ts) + ([close] + x) == ts[0] + Following(ts[1..], close, x)
  {
  }

  lemma JoinCommaSolid(ts: seq<string>, close: char, x: string, y: string)
    requires ts != [] && Solid(ts[0]) && close in "]}"
    ensures JoinComma(ts) + ([close] + x) != JoinComma([]) + ([close] + y)
  {
    JoinCommaHead(ts, close, x);
    assert (JoinComma(ts) + ([close] + x))[0] == ts[0][0];
    assert (JoinComma([]) + ([close] + y))[0] == close;
  }

  /** A closed list of texts that split pairwise can be read in one way only. */
  lemma {:induction false} TextsSplit(ts: seq<string>, us: seq<string>, close: char, x: string, y: string)
    requires close in "]}"
    requires forall i :: 0 <= i < |ts| ==> Solid(ts[i])
    requires forall i :: 0 <= i < |us| ==> Solid(us[i])
    requires forall i, j :: 0 <= i < |ts| && 0 <= j < |us| ==> Splits(ts[i], us[j])
    requires JoinComma(ts) + ([close] + x) == JoinComma(us) + ([close] + y)
    ensures ts == us && x == y
  {
    if ts != [] && us == [] { JoinCommaSolid(ts, close, x, y); }
    if us != [] && ts == [] { JoinCommaSolid(us, close, y, x); }
    if ts == [] {
      assert JoinComma(ts) + ([close] + x) == [close] + x && JoinComma(us) + ([close] + y) == [close] + y;
      PrefixSplit([close], [close], x, y);
    } else {
      HeadsSplit(ts, us, close, x, y);
      if ts[1..] != [] {
        TextsSplit(ts[1..], us[1..], close, x, y);
      }
      assert ts == [ts[0]] + ts[1..] && us == [us[0]] + us[1..];
    }
  }

  lemma HeadsSplit(ts: seq<string>, us: seq<string>, close: char, x: string, y: string)
    requires close in "]}" && ts != [] && us != [] && Splits(ts[0], us[0])
    requires JoinComma(ts) + ([close] + x) == JoinComma(us) + ([close] + y)
    ensures ts[0] == us[0] && (ts[1..] == [] <==> us[1..] == [])
    ensures ts[1..] == [] ==> x == y
    ensures ts[1..] != [] ==> JoinComma(ts[1..]) + ([close] + x) == JoinComma(us[1..]) + ([close] + y)
  {
    hide JoinComma;
    JoinCommaHead(ts, close, x);
    JoinCommaHead(us, close, y);
    var f, g := Following(ts[1..], close, x), Following(us[1..], close, y);
    assert ts[0] + f == us[0] + g;
    PrefixSplit(ts[0], us[0], f, g);
    assert f[0] == g[0];
    assert f[1..] == g[1..];
  }

  // ---- Values ----

  /** Which kind of value starts with this character. */
  function Kind(c: char): nat {
    if c == 'n' then 0 else if c in "tf" then 1 else if c in NUMERAL then 2
    else if c == '"' then 3 else if c == '[' then 4 else if c == '{' then 5 else 6
  }

  lemma KindOfText(j: Json)
    requires WellFormed(j)
    ensures Solid(Canonical(j))
    ensures Kind(Canonical(j)[0]) ==
      match j { case Null => 0 case Bool(_) => 1 case Number(_) => 2 case Text(_) => 3 case List(_) => 4 case Object(_) => 5 }
  {
    hide JoinComma, CanonicalItems, CanonicalEntries, EntryTexts, StableSort, QuotedAll, Kind;
    FixedKinds();
    match j {
      case Number(text) =>
        assert text[0] in text;
        NumeralKind(text[0]);
      case _ =>
    }
  }

  lemma FixedKinds()
    ensures Kind('n') == 0 && Kind('t') == Kind('f') == 1 && Kind('"') == 3 && Kind('[') == 4 && Kind('{') == 5
  {
  }

  lemma NumeralKind(c: char)
    requires c in NUMERAL
    ensures Kind(c) == 2 && c !in ",]}"
  {
  }

  lemma EntrySplits(e: Entry, f: Entry)
    requires Splits(e.text, f.text)
    ensures Splits(EntryText(e), EntryText(f))
    ensures EntryText(e) == EntryText(f) ==> e == f
  {
    hide Quote;
    forall x, y | Delimited(x) && Delimited(y) && EntryText(e) + x == EntryText(f) + y
      ensures e == f
    {
      assert EntryText(e) + x == Quote(e.key) + (":" + (e.text + x));
      assert EntryText(f) + y == Quote(f.key) + (":" + (f.text + y));
      QuoteSplits(e.key, f.key, ":" + (e.text + x), ":" + (f.text + y));
      PrefixSplit(":", ":", e.text + x, f.text + y);
    }
    if EntryText(e) == EntryText(f) {
      assert EntryText(e) + "" == EntryText(f) + "";
    }
  }

  lemma {:induction false} EntryTextsAt(entries: seq<Entry>)
    ensures |EntryTexts(entries)| == |entries|
    ensures forall i :: 0 <= i < |entries| ==> EntryTexts(entries)[i] == EntryText(entries[i])
  {
    if entries != [] { EntryTextsAt(entries[1..]); }
  }

  /** A printed object can be read in one way only, once the texts of its values split. */
  lemma EntriesSplit(es: seq<Entry>, fs: seq<Entry>, x: string, y: string)
    requires forall i, j :: 0 <= i < |es| && 0 <= j < |fs| ==> Splits(es[i].text, fs[j].text)
    requires JoinComma(EntryTexts(es)) + ("}" + x) == JoinComma(EntryTexts(fs)) + ("}" + y)
    ensures es == fs && x == y
  {
    hide Splits, JoinComma, Quote;
    EntryTextsAt(es);
    EntryTextsAt(fs);
    forall i, j | 0 <= i < |es| && 0 <= j < |fs|
      ensures Splits(EntryTexts(es)[i], EntryTexts(fs)[j])
      ensures EntryTexts(es)[i] == EntryTexts(fs)[j] ==> es[i] == fs[j]
    {
      EntrySplits(es[i], fs[j]);
    }
    forall i | 0 <= i < |es| ensures Solid(EntryTexts(es)[i]) { EntrySolid(es[i]); }
    forall i | 0 <= i < |fs| ensures Solid(EntryTexts(fs)[i]) { EntrySolid(fs[i]); }
    TextsSplit(EntryTexts(es), EntryTexts(fs), '}', x, y);
    forall i | 0 <= i < |es| ensures es[i] == fs[i] {
      assert EntryTexts(es)[i] == EntryTexts(fs)[i];
    }
  }

  lemma EntrySolid(e: Entry)
    ensures Solid(EntryText(e))
  {
  }

  function SortedEntries(members: seq<Member>): seq<Entry> {
    StableSort(CanonicalEntries(members), EntryBefore)
  }

  /** Every sorted entry is the print of a member, and every member is printed. */
  lemma EntryOfMember(members: seq<Member>, e: Entry) returns (k: nat)
    requires e in SortedEntries(members)
    ensures k < |members| && e == Entry(members[k].key, Canonical(members[k].value))
  {
    hide Canonical;
    SameMembers(SortedEntries(members), CanonicalEntries(members), e);
    k :| 0 <= k < |members| && CanonicalEntries(members)[k] == e;
  }

  lemma MemberHasEntry(members: seq<Member>, k: nat)
    requires k < |members|
    ensures Entry(members[k].key, Canonical(members[k].value)) in SortedEntries(members)
  {
    hide Canonical;
    assert CanonicalEntries(members)[k] in CanonicalEntries(members);
    SameMembers(SortedEntries(members), CanonicalEntries(members), CanonicalEntries(members)[k]);
  }

  lemma {:induction false} CanonicalSplits(a: Json, b: Json)
    requires WellFormed(a) && WellFormed(b)
    ensures Splits(Canonical(a), Canonical(b))
    decreases a, 1
  {
    hide Canonical;
    forall x, y | Delimited(x) && Delimited(y) && Canonical(a) + x == Canonical(b) + y
      ensures Canonical(a) == Canonical(b)
    {
      SplitAt(a, b, x, y);
    }
  }

  lemma {:induction false} SplitAt(a: Json, b: Json, x: string, y: string)
    requires WellFormed(a) && WellFormed(b) && Delimited(x) && Delimited(y)
    requires Canonical(a) + x == Canonical(b) + y
    ensures Canonical(a) == Canonical(b)
    decreases a, 0
  {
    hide Splits, Delimited, Quote, JoinComma;
    KindOfText(a);
    KindOfText(b);
    assert Canonical(a)[0] == (Canonical(a) + x)[0] == Canonical(b)[0];
    match a
    case Null =>
    case Bool(flag) => assert Canonical(a)[0] == (if flag then 't' else 'f');
    case Number(text) => NumeralSplits(text, b.text, x, y);
    case Text(content) => QuoteSplits(content, b.content, x, y);
    case List(items) => ItemsSplitAt(items, b.items, x, y);
    case Object(members) => MembersSplitAt(members, b.members, x, y);
  }

  lemma {:induction false} ItemsSplitAt(items: seq<Json>, others: seq<Json>, x: string, y: string)
    requires WellFormed(List(items)) && WellFormed(List(others)) && Delimited(x) && Delimited(y)
    requires Canonical(List(items)) + x == Canonical(List(others)) + y
    ensures CanonicalItems(items) == CanonicalItems(others)
    decreases items, 2
  {
    hide Splits, JoinComma, Solid;
    var ts, us := CanonicalItems(items), CanonicalItems(others);
    ReadList('[', JoinComma(ts), ']', x, JoinComma(us), y);
    assert WellFormed(List(items)) && WellFormed(List(others));
    forall i, j | 0 <= i < |items| && 0 <= j < |others| ensures Splits(ts[i], us[j]) {
      CanonicalSplits(items[i], others[j]);
    }
    forall i | 0 <= i < |ts| ensures Solid(ts[i]) { KindOfText(items[i]); }
    forall i | 0 <= i < |us| ensures Solid(us[i]) { KindOfText(others[i]); }
    TextsSplit(ts, us, ']', x, y);
  }

  lemma ReadList(open: char, ts: string, close: char, x: string, us: string, y: string)
    requires [open] + ts + [close] + x == [open] + us + [close] + y
    ensures ts + ([close] + x) == us + ([close] + y)
  {
    assert [open] + ts + [close] + x == [open] + (ts + ([close] + x));
    assert [open] + us + [close] + y == [open] + (us + ([close] + y));
    PrefixSplit([open], [open], ts + ([close] + x), us + ([close] + y));
  }

  lemma {:induction false} MembersSplitAt(members: seq<Member>, others: seq<Member>, x: string, y: string)
    requires WellFormed(Object(members)) && WellFormed(Object(others)) && Delimited(x) && Delimited(y)
    requires Canonical(Object(members)) + x == Canonical(Object(others)) + y
    ensures SortedEntries(members) == SortedEntries(others)
    decreases members, 2
  {
    hide Splits, JoinComma, EntryTexts, DistinctKeys;
    var es, fs := SortedEntries(members), SortedEntries(others);
    ReadList('{', JoinComma(EntryTexts(es)), '}', x, JoinComma(EntryTexts(fs)), y);
    hide SortedEntries;
    forall i, j | 0 <= i < |es| && 0 <= j < |fs| ensures Splits(es[i].text, fs[j].text) {
      var k := EntryOfMember(members, es[i]);
      var l := EntryOfMember(others, fs[j]);
      CanonicalSplits(members[k].value, others[l].value);
    }
    EntriesSplit(es, fs, x, y);
  }

  /** Equal text means equal values up to key order. */
  lemma {:induction false} EqualTextIsSame(a: Json, b: Json)
    requires WellFormed(a) && WellFormed(b) && Canonical(a) == Canonical(b)
    ensures Same(a, b)
    decreases a
  {
    hide Canonical, Solid, Quote, JoinComma, Matched, Covered;
    assert Canonical(a) + "" == Canonical(b) + "";
    KindOfText(a);
    KindOfText(b);
    match a
    case Null =>
    case Bool(flag) => BoolText(flag); BoolText(b.flag);
    case Number(text) => assert Canonical(a) == text && Canonical(b) == b.text by { NumberText(text); NumberText(b.text); }
    case Text(content) =>
      TextText(content);
      TextText(b.content);
      QuoteSplits(content, b.content, "", "");
    case List(items) =>
      ItemsSplitAt(items, b.items, "", "");
      forall i | 0 <= i < |items| ensures Same(items[i], b.items[i]) {
        assert CanonicalItems(items)[i] == CanonicalItems(b.items)[i];
        EqualTextIsSame(items[i], b.items[i]);
      }
    case Object(members) =>
      MembersSplitAt(members, b.members, "", "");
      MembersAreSame(members, b.members);
  }

  lemma {:induction false} MembersAreSame(members: seq<Member>, others: seq<Member>)
    requires WellFormed(Object(members)) && WellFormed(Object(others))
    requires SortedEntries(members) == SortedEntries(others)
    ensures Matched(members, others) && Covered(members, others)
    decreases members, 2
  {
    hide Canonical, SortedEntries, WellFormed, SameMember;
    forall i | 0 <= i < |members| ensures HasMatch(members[i], others) {
      var j := FindMatch(members, others, i);
    }
    forall j | 0 <= j < |others| ensures HasCover(members, others[j]) {
      var i := FindCover(members, others, j);
    }
  }

  lemma {:induction false} FindMatch(members: seq<Member>, others: seq<Member>, i: nat) returns (j: nat)
    requires WellFormed(Object(members)) && WellFormed(Object(others)) && i < |members|
    requires SortedEntries(members) == SortedEntries(others)
    ensures j < |others| && SameMember(members[i], others[j])
    decreases members, 1
  {
    hide Canonical, SortedEntries, DistinctKeys, Same;
    MemberHasEntry(members, i);
    j := EntryOfMember(others, Entry(members[i].key, Canonical(members[i].value)));
    MemberIsSame(members[i], others[j]);
  }

  lemma {:induction false} FindCover(members: seq<Member>, others: seq<Member>, j: nat) returns (i: nat)
    requires WellFormed(Object(members)) && WellFormed(Object(others)) && j < |others|
    requires SortedEntries(members) == SortedEntries(others)
    ensures i < |members| && SameMember(members[i], others[j])
    decreases members, 1
  {
    hide Canonical, SortedEntries, DistinctKeys, Same;
    MemberHasEntry(others, j);
    i := EntryOfMember(members, Entry(others[j].key, Canonical(others[j].value)));
    MemberIsSame(members[i], others[j]);
  }

  lemma {:induction false} MemberIsSame(m: Member, n: Member)
    requires WellFormed(m.value) && WellFormed(n.value)
    requires m.key == n.key && Canonical(m.value) == Canonical(n.value)
    ensures SameMember(m, n)
    decreases m
  {
    hide Canonical, WellFormed;
    EqualTextIsSame(m.value, n.value);
  }

  lemma BoolText(flag: bool)
    ensures Canonical(Bool(flag))[0] == if flag then 't' else 'f'
  {
  }

  lemma NumberText(text: string)
    ensures Canonical(Number(text)) == text
  {
  }

  lemma TextText(content: string)
    ensures Canonical(Text(content)) == Quote(content)
  {
  }

  // ---- Key order does not matter ----

  ghost predicate DistinctEntries(es: seq<Entry>) {
    forall i, j :: 0 <= i < j < |es| ==> es[i].key != es[j].key
  }

  ghost predicate StrictlySorted(es: seq<Entry>) {
    forall i, j :: 0 <= i < j < |es| ==> Less(es[i].key, es[j].key)
  }

  lemma {:induction false} InsertStrict(e: Entry, es: seq<Entry>)
    requires StrictlySorted(es) && forall i :: 0 <= i < |es| ==> es[i].key != e.key
    ensures StrictlySorted(Insert(e, es, EntryBefore))
  {
    hide Less;
    if es == [] {
    } else if EntryBefore(e, es[0]) {
      LessTotal(e.key, es[0].key);
      forall j | 0 <= j < |es| ensures Less(e.key, es[j].key) {
        if j > 0 { LessTransitive(e.key, es[0].key, es[j].key); }
      }
    } else {
      InsertStrict(e, es[1..]);
      var tail := Insert(e, es[1..], EntryBefore);
      forall j | 0 <= j < |tail| ensures Less(es[0].key, tail[j].key) {
        assert tail[j] in multiset(tail);
        if tail[j] != e {
          assert tail[j] in es[1..];
          var k :| 0 <= k < |es[1..]| && es[1..][k] == tail[j];
          assert es[k + 1] == tail[j];
        }
      }
    }
  }

  lemma {:induction false} SortStrict(es: seq<Entry>)
    requires DistinctEntries(es)
    ensures StrictlySorted(StableSort(es, EntryBefore))
  {
    hide Less;
    if es != [] {
      SortStrict(es[1..]);
      var tail := StableSort(es[1..], EntryBefore);
      forall i | 0 <= i < |tail| ensures tail[i].key != es[0].key {
        SameMembers(tail, es[1..], tail[i]);
        var k :| 0 <= k < |es[1..]| && es[1..][k] == tail[i];
        assert es[k + 1] == tail[i];
      }
      InsertStrict(es[0], tail);
    }
  }

  /** A strictly sorted list is determined by its members. */
  lemma {:induction false} SortedUnique(es: seq<Entry>, fs: seq<Entry>)
    requires StrictlySorted(es) && StrictlySorted(fs)
    requires forall e :: e in es <==> e in fs
    ensures es == fs
  {
    hide Less;
    assert es == [] || es[0] in es;
    assert fs == [] || fs[0] in fs;
    if es != [] {
      var k :| 0 <= k < |fs| && fs[k] == es[0];
      var l :| 0 <= l < |es| && es[l] == fs[0];
      LessTotal(es[0].key, fs[0].key);
      assert es[0] == fs[0];
      forall e ensures e in es[1..] <==> e in fs[1..] {
        TailMember(es, e);
        TailMember(fs, e);
      }
      SortedUnique(es[1..], fs[1..]);
      assert es == [es[0]] + es[1..] && fs == [fs[0]] + fs[1..];
    }
  }

  lemma TailMember(es: seq<Entry>, e: Entry)
    requires StrictlySorted(es) && es != []
    ensures e in es[1..] <==> e in es && e != es[0]
  {
    hide Less;
    LessTotal(es[0].key, es[0].key);
    if e in es && e != es[0] {
      var k :| 0 <= k < |es| && es[k] == e;
      assert es[1..][k - 1] == e;
    }
  }

  /** The canonical text does not depend on the order of keys. */
  lemma {:induction false} SameIsEqualText(a: Json, b: Json)
    requires WellFormed(a) && WellFormed(b) && Same(a, b)
    ensures Canonical(a) == Canonical(b)
    decreases a
  {
    hide Matched, Covered;
    match a
    case List(items) =>
      forall i | 0 <= i < |items| ensures CanonicalItems(items)[i] == CanonicalItems(b.items)[i] {
        SameIsEqualText(items[i], b.items[i]);
      }
      assert CanonicalItems(items) == CanonicalItems(b.items);
    case Object(members) =>
      SameMembersSortAlike(members, b.members);
    case _ =>
  }

  lemma {:induction false} SameMembersSortAlike(members: seq<Member>, others: seq<Member>)
    requires WellFormed(Object(members)) && WellFormed(Object(others)) && Matched(members, others) && Covered(members, others)
    ensures SortedEntries(members) == SortedEntries(others)
    decreases members, 1
  {
    hide Canonical, SortedEntries, Matched, Covered;
    SortedStrictly(members);
    SortedStrictly(others);
    forall e ensures e in SortedEntries(members) <==> e in SortedEntries(others) {
      if e in SortedEntries(members) { EntryCarriesOver(members, others, e); }
      if e in SortedEntries(others) { EntryCarriesBack(members, others, e); }
    }
    SortedUnique(SortedEntries(members), SortedEntries(others));
  }

  lemma {:induction false} EntryCarriesOver(members: seq<Member>, others: seq<Member>, e: Entry)
    requires WellFormed(Object(members)) && WellFormed(Object(others)) && Matched(members, others)
    requires e in SortedEntries(members)
    ensures e in SortedEntries(others)
    decreases members, 0
  {
    hide Canonical, SortedEntries, SameMember, DistinctKeys, Same;
    var i := EntryOfMember(members, e);
    var j :| 0 <= j < |others| && SameMember(members[i], others[j]);
    SameMemberPrintsAlike(members[i], others[j]);
    MemberHasEntry(others, j);
  }

  lemma {:induction false} EntryCarriesBack(members: seq<Member>, others: seq<Member>, e: Entry)
    requires WellFormed(Object(members)) && WellFormed(Object(others)) && Covered(members, others)
    requires e in SortedEntries(others)
    ensures e in SortedEntries(members)
    decreases members, 0
  {
    hide Canonical, SortedEntries, SameMember, DistinctKeys, Same;
    var j := EntryOfMember(others, e);
    var i :| 0 <= i < |members| && SameMember(members[i], others[j]);
    SameMemberPrintsAlike(members[i], others[j]);
    MemberHasEntry(members, i);
  }

  lemma {:induction false} SameMemberPrintsAlike(m: Member, n: Member)
    requires WellFormed(m.value) && WellFormed(n.value) && SameMember(m, n)
    ensures m.key == n.key && Canonical(m.value) == Canonical(n.value)
    decreases m
  {
    hide Canonical, WellFormed;
    SameIsEqualText(m.value, n.value);
  }

  lemma SortedStrictly(members: seq<Member>)
    requires DistinctKeys(members)
    ensures StrictlySorted(SortedEntries(members))
  {
    SortStrict(CanonicalEntries(members));
  }

  /** Canonical text identifies a value exactly up to the order of keys. */
  lemma CanonicalIdentifies(a: Json, b: Json)
    requires WellFormed(a) && WellFormed(b)
    ensures Canonical(a) == Canonical(b) <==> Same(a, b)
  {
    hide Canonical, Same;
    if Same(a, b) { SameIsEqualText(a, b); }
    if Canonical(a) == Canonical(b) { EqualTextIsSame(a, b); }
  }
}
