/** What canonical JSON text is (RFC 8259), independently of how it is printed. */
module JsonText {
  import opened Ordering
  import opened CanonicalJson

  /** The characters with a short escape, and the letter each one is written with. */
  const ESCAPES: map<char, char> := map[
    '"' := '"', '\\' := '\\', '\U{0008}' := 'b', '\U{000C}' := 'f', '\n' := 'n', '\r' := 'r', '\t' := 't']

  const HEX := "0123456789abcdef"

  /** How one character stands inside a string: short escapes where there is one, else `\\u00xx` for control characters. */
  ghost predicate Stands(piece: string, c: char) {
    if c in ESCAPES then piece == ['\\', ESCAPES[c]]
    else if c as int < 0x20 then exists hi, lo :: 0 <= hi < 2 && 0 <= lo < 16 && Hexed(piece, c, hi, lo)
    else piece == [c]
  }

  predicate Hexed(piece: string, c: char, hi: int, lo: int) {
    0 <= hi < 2 && 0 <= lo < 16 && c as int == 16 * hi + lo && piece == "\\u00" + [HEX[hi], HEX[lo]]
  }

  function Concat(pieces: seq<string>): string {
    if pieces == [] then "" else Concat(pieces[..|pieces| - 1]) + pieces[|pieces| - 1]
  }

  ghost predicate WritesString(t: string, s: string) {
    exists pieces :: StringOf(t, s, pieces)
  }

  ghost predicate StringOf(t: string, s: string, pieces: seq<string>) {
    && |pieces| == |s| && t == "\"" + Concat(pieces) + "\""
    && forall i :: 0 <= i < |s| ==> Stands(pieces[i], s[i])
  }

  /** The texts with commas between them. */
  function Commas(ts: seq<string>): string {
    if ts == [] then ""
    else Commas(ts[..|ts| - 1]) + (if |ts| == 1 then "" else ",") + ts[|ts| - 1]
  }

  /** The text `t` is the canonical text of `j`. */
  ghost predicate Writes(t: string, j: Json)
    decreases j, 1
  {
    match j
    case Null => t == "null"
    case Bool(flag) => t == if flag then "true" else "false"
    case Number(text) => t == text
    case Text(content) => WritesString(t, content)
    case List(items) => exists ts :: ItemsOf(t, items, ts)
    case Object(members) => exists order, qs, vs :: MembersOf(t, members, order, qs, vs)
  }

  ghost predicate ItemsOf(t: string, items: seq<Json>, ts: seq<string>)
    decreases items, 0
  {
    |ts| == |items| && t == "[" + Commas(ts) + "]" && forall i :: 0 <= i < |items| ==> Writes(ts[i], items[i])
  }

  /** `order` lists every member once, and so that the keys ascend by UTF-16 code units. */
  ghost predicate Ordered(members: seq<Member>, order: seq<nat>) {
    && |order| == |members|
    && (forall i :: 0 <= i < |order| ==> order[i] < |members|)
    && (forall i, k :: 0 <= i < k < |order| ==> order[i] != order[k])
    && (forall i :: 0 < i < |order| ==> Ascends(UnitsOf(members[order[i - 1]].key), UnitsOf(members[order[i]].key)))
  }

  function Pairs(qs: seq<string>, vs: seq<string>): (ts: seq<string>)
    requires |qs| == |vs|
    ensures |ts| == |qs| && forall i :: 0 <= i < |qs| ==> ts[i] == qs[i] + ":" + vs[i]
  {
    if qs == [] then [] else [qs[0] + ":" + vs[0]] + Pairs(qs[1..], vs[1..])
  }

  ghost predicate MembersOf(t: string, members: seq<Member>, order: seq<nat>, qs: seq<string>, vs: seq<string>)
    decreases members, 0
  {
    && Ordered(members, order) && |qs| == |vs| == |order| && t == "{" + Commas(Pairs(qs, vs)) + "}"
    && (forall i :: 0 <= i < |order| ==> WritesString(qs[i], members[order[i]].key))
    && (forall i :: 0 <= i < |order| ==> Writes(vs[i], members[order[i]].value))
  }

  // ---- The printer writes it ----

  lemma {:induction false} CommasFromLeft(t: string, ts: seq<string>)
    ensures Commas([t] + ts) == if ts == [] then t else t + "," + Commas(ts)
  {
    hide Commas;
    CommasLast([], t);
    if ts == [] {
      assert [t] + ts == [] + [t];
    } else {
      var n := |ts| - 1;
      CommasFromLeft(t, ts[..n]);
      CommasLast([t] + ts[..n], ts[n]);
      CommasLast(ts[..n], ts[n]);
      assert [t] + ts[..n] + [ts[n]] == [t] + ts && ts[..n] + [ts[n]] == ts;
    }
  }

  lemma CommasLast(ts: seq<string>, t: string)
    ensures Commas(ts + [t]) == if ts == [] then t else Commas(ts) + "," + t
  {
    assert (ts + [t])[..|ts|] == ts;
  }

  lemma {:induction false} JoinIsCommas(ts: seq<string>)
    ensures JoinComma(ts) == Commas(ts)
  {
    if ts != [] {
      JoinIsCommas(ts[1..]);
      CommasFromLeft(ts[0], ts[1..]);
      assert [ts[0]] + ts[1..] == ts;
    }
  }

  lemma {:induction false} ConcatFromLeft(p: string, pieces: seq<string>)
    ensures Concat([p] + pieces) == p + Concat(pieces)
  {
    if pieces == [] {
      assert [p][..0] == [];
    } else {
      assert ([p] + pieces)[..|pieces|] == [p] + pieces[..|pieces| - 1];
      ConcatFromLeft(p, pieces[..|pieces| - 1]);
    }
  }

  lemma QuotedStands(c: char)
    ensures Stands(Quoted(c), c)
  {
    if c !in ESCAPES && c < ' ' {
      assert Hexed(Quoted(c), c, c as int / 16, c as int % 16);
    }
  }

  lemma OnePieceMore(c: char, t: string, rest: seq<string>)
    requires |rest| == |t| && forall i :: 0 <= i < |t| ==> Stands(rest[i], t[i])
    ensures Concat([Quoted(c)] + rest) == Quoted(c) + Concat(rest)
    ensures forall i :: 0 <= i < |t| + 1 ==> Stands(([Quoted(c)] + rest)[i], ([c] + t)[i])
  {
    QuotedStands(c);
    ConcatFromLeft(Quoted(c), rest);
    hide Quoted, Stands, Concat;
  }

  lemma {:induction false} QuotedPieces(s: string) returns (pieces: seq<string>)
    ensures |pieces| == |s| && QuotedAll(s) == Concat(pieces) && forall i :: 0 <= i < |s| ==> Stands(pieces[i], s[i])
  {
    pieces := [];
    if s != "" {
      var rest := QuotedPieces(s[1..]);
      OnePieceMore(s[0], s[1..], rest);
      hide Quoted, Stands, Concat;
      pieces := [Quoted(s[0])] + rest;
      assert [s[0]] + s[1..] == s;
    }
  }

  lemma QuoteWrites(s: string)
    ensures WritesString(Quote(s), s)
  {
    var pieces := QuotedPieces(s);
    assert StringOf(Quote(s), s, pieces);
  }

  // ---- Sorting the members ----

  lemma {:induction false} EntryTextsArePairs(entries: seq<Entry>, qs: seq<string>, vs: seq<string>)
    requires |qs| == |vs| == |entries|
    requires forall i :: 0 <= i < |entries| ==> qs[i] == Quote(entries[i].key) && vs[i] == entries[i].text
    ensures EntryTexts(entries) == Pairs(qs, vs)
  {
    hide Quote;
    if entries != [] { EntryTextsArePairs(entries[1..], qs[1..], vs[1..]); }
  }

  lemma BeforeIsPreorder()
    ensures TotalPreorder(EntryBefore)
  {
    forall a: Entry, b: Entry ensures EntryBefore(a, b) || EntryBefore(b, a) { LessTotal(a.key, b.key); }
    forall a: Entry, b: Entry, c: Entry | EntryBefore(a, b) && EntryBefore(b, c) ensures EntryBefore(a, c) {
      LessTotal(a.key, b.key);
      LessTotal(b.key, c.key);
      LessTotal(a.key, c.key);
      if Less(c.key, a.key) {
        if Less(a.key, b.key) { LessTransitive(c.key, a.key, b.key); }
      }
    }
  }

  lemma {:induction false} FindPlaces(all: seq<Entry>, entries: seq<Entry>) returns (order: seq<nat>)
    requires forall e :: e in entries ==> e in all
    ensures |order| == |entries|
    ensures forall i :: 0 <= i < |order| ==> order[i] < |all| && entries[i] == all[order[i]]
  {
    order := [];
    if entries != [] {
      var rest := FindPlaces(all, entries[1..]);
      assert entries[0] in entries;
      var k :| 0 <= k < |all| && all[k] == entries[0];
      order := [k] + rest;
    }
  }

  /** The numbers of the members in the order of the sorted entries. */
  lemma FindOrder(members: seq<Member>, entries: seq<Entry>) returns (order: seq<nat>)
    requires forall e :: e in entries ==> e in CanonicalEntries(members)
    ensures |order| == |entries|
    ensures forall i :: 0 <= i < |order| ==> order[i] < |members| && entries[i] == CanonicalEntries(members)[order[i]]
  {
    order := FindPlaces(CanonicalEntries(members), entries);
  }

  lemma {:induction false} EntriesOnce(members: seq<Member>)
    requires DistinctKeys(members)
    ensures forall e :: e in CanonicalEntries(members) ==> multiset(CanonicalEntries(members))[e] == 1
  {
    var es := CanonicalEntries(members);
    DistinctMeansOnce(es);
  }

  lemma {:induction false} DistinctMeansOnce(es: seq<Entry>)
    requires forall i, j :: 0 <= i < j < |es| ==> es[i].key != es[j].key
    ensures forall e :: e in es ==> multiset(es)[e] == 1
  {
    if es != [] {
      DistinctMeansOnce(es[1..]);
      assert es == [es[0]] + es[1..];
      assert multiset(es) == multiset{es[0]} + multiset(es[1..]);
      forall e | e in es ensures multiset(es)[e] == 1 {
        if e in es[1..] {
          var i :| 0 <= i < |es[1..]| && es[1..][i] == e;
          assert es[i + 1].key != es[0].key;
        }
      }
    }
  }

  lemma TwiceCountsTwice(es: seq<Entry>, i: nat, k: nat)
    requires i < k < |es| && es[i] == es[k]
    ensures multiset(es)[es[i]] >= 2
  {
    assert es == es[..k] + es[k..];
    assert es[i] in es[..k] && es[k] in es[k..];
    assert multiset(es) == multiset(es[..k]) + multiset(es[k..]);
  }

  /** The sorted entries list every member once, keys ascending. */
  lemma SortedIsOrdered(members: seq<Member>) returns (order: seq<nat>)
    requires DistinctKeys(members)
    ensures Ordered(members, order)
    ensures
      var es := StableSort(CanonicalEntries(members), EntryBefore);
      |es| == |order| && forall i :: 0 <= i < |es| ==> es[i] == CanonicalEntries(members)[order[i]]
  {
    var all := CanonicalEntries(members);
    var es := StableSort(all, EntryBefore);
    BeforeIsPreorder();
    StableSortSorted(all, EntryBefore);
    EntriesOnce(members);
    forall e | e in es ensures e in all { SameMembers(all, es, e); }
    order := FindOrder(members, es);
    forall i, k | 0 <= i < k < |order| ensures order[i] != order[k] {
      if es[i] == es[k] {
        TwiceCountsTwice(es, i, k);
        SameMembers(all, es, es[i]);
      }
    }
    forall i | 0 < i < |order| ensures Ascends(UnitsOf(members[order[i - 1]].key), UnitsOf(members[order[i]].key)) {
      var a, b := members[order[i - 1]].key, members[order[i]].key;
      assert EntryBefore(es[i - 1], es[i]);
      assert order[i - 1] != order[i] && a != b;
      LessTotal(a, b);
      LessIsByUnits(a, b);
    }
  }

  lemma ObjectWrites(members: seq<Member>)
    requires DistinctKeys(members)
    requires forall i :: 0 <= i < |members| ==> Writes(Canonical(members[i].value), members[i].value)
    ensures Writes(Canonical(Object(members)), Object(members))
  {
    hide StableSort, CanonicalEntries, EntryTexts, Ordered, Quote, Commas, Pairs, JoinComma, Writes, WritesString;
    var es := StableSort(CanonicalEntries(members), EntryBefore);
    var order := SortedIsOrdered(members);
    var qs := seq(|es|, i requires 0 <= i < |es| => Quote(es[i].key));
    var vs := seq(|es|, i requires 0 <= i < |es| => es[i].text);
    EntryTextsArePairs(es, qs, vs);
    JoinIsCommas(EntryTexts(es));
    ObjectText(members);
    forall i | 0 <= i < |order|
      ensures WritesString(qs[i], members[order[i]].key) && Writes(vs[i], members[order[i]].value)
    {
      QuoteWrites(members[order[i]].key);
    }
    MembersAreObject(Canonical(Object(members)), members, order, qs, vs);
  }

  lemma ObjectText(members: seq<Member>)
    ensures Canonical(Object(members)) == "{" + JoinComma(EntryTexts(StableSort(CanonicalEntries(members), EntryBefore))) + "}"
  {
  }

  lemma MembersAreObject(t: string, members: seq<Member>, order: seq<nat>, qs: seq<string>, vs: seq<string>)
    requires MembersOf(t, members, order, qs, vs)
    ensures Writes(t, Object(members))
  {
  }

  /** The printed text of every well-formed value is its canonical JSON text: keys ascend by UTF-16 code units at every level,
      every member stands once, and strings have the shortest escapes. */
  lemma {:induction false} CanonicalWrites(j: Json)
    requires WellFormed(j)
    ensures Writes(Canonical(j), j)
    decreases j
  {
    match j
    case Text(content) => QuoteWrites(content);
    case List(items) =>
      forall i | 0 <= i < |items| ensures Writes(Canonical(items[i]), items[i]) { CanonicalWrites(items[i]); }
      JoinIsCommas(CanonicalItems(items));
      assert ItemsOf(Canonical(j), items, CanonicalItems(items));
    case Object(members) =>
      forall i | 0 <= i < |members| ensures Writes(Canonical(members[i].value), members[i].value) {
        CanonicalWrites(members[i].value);
      }
      ObjectWrites(members);
    case _ =>
  }
}
