/** Lossless pagination of report blocks under an escaped-length budget. */
module Pagination {
  import opened Common

  datatype Error = InvalidBudget | NoRoomForContent

  const MIN_BUDGET := 256
  const SEPARATOR := "\n\n"
  const NO_DATA := "Kh\U{00F4}ng c\U{00F3} d\U{1EEF} li\U{1EC7}u ph\U{00F9} h\U{1EE3}p."

  // ---- Escaping ----

  /** `replaceAll` for a one-character pattern. */
  function ReplaceAll(s: string, c: char, entity: string): string {
    if s == "" then "" else (if s[0] == c then entity else [s[0]]) + ReplaceAll(s[1..], c, entity)
  }

  function Escape(s: string): string {
    ReplaceAll(ReplaceAll(ReplaceAll(s, '&', "&amp;"), '<', "&lt;"), '>', "&gt;")
  }

  /** What becomes of one character. */
  function Entity(c: char): string {
    if c == '&' then "&amp;" else if c == '<' then "&lt;" else if c == '>' then "&gt;" else [c]
  }

  function EscapeEach(s: string): string {
    if s == "" then "" else Entity(s[0]) + EscapeEach(s[1..])
  }

  lemma {:induction false} ReplaceAllConcat(a: string, b: string, c: char, entity: string)
    ensures ReplaceAll(a + b, c, entity) == ReplaceAll(a, c, entity) + ReplaceAll(b, c, entity)
  {
    if a == "" {
      assert a + b == b;
    } else {
      assert (a + b)[1..] == a[1..] + b;
      ReplaceAllConcat(a[1..], b, c, entity);
    }
  }

  lemma EscapeConcat(a: string, b: string)
    ensures Escape(a + b) == Escape(a) + Escape(b)
  {
    ReplaceAllConcat(a, b, '&', "&amp;");
    var a1, b1 := ReplaceAll(a, '&', "&amp;"), ReplaceAll(b, '&', "&amp;");
    ReplaceAllConcat(a1, b1, '<', "&lt;");
    ReplaceAllConcat(ReplaceAll(a1, '<', "&lt;"), ReplaceAll(b1, '<', "&lt;"), '>', "&gt;");
  }

  lemma ReplaceAllOne(x: char, c: char, entity: string)
    ensures ReplaceAll([x], c, entity) == if x == c then entity else [x]
  {
    assert [x][1..] == "";
  }

  lemma {:induction false} ReplaceAllAbsent(s: string, c: char, entity: string)
    requires c !in s
    ensures ReplaceAll(s, c, entity) == s
  {
    if s != "" {
      ReplaceAllAbsent(s[1..], c, entity);
      assert s == [s[0]] + s[1..];
    }
  }

  lemma EscapeOne(c: char)
    ensures Escape([c]) == Entity(c)
  {
    ReplaceAllOne(c, '&', "&amp;");
    var first := if c == '&' then "&amp;" else [c];
    if c == '&' { ReplaceAllAbsent("&amp;", '<', "&lt;"); } else { ReplaceAllOne(c, '<', "&lt;"); }
    var second := ReplaceAll(first, '<', "&lt;");
    if c == '&' { ReplaceAllAbsent("&amp;", '>', "&gt;"); }
    else if c == '<' { ReplaceAllAbsent("&lt;", '>', "&gt;"); }
    else { ReplaceAllOne(c, '>', "&gt;"); }
  }

  /** The three passes, ampersands first, escape each character once. */
  lemma {:induction false} EscapeIsPerCharacter(s: string)
    ensures Escape(s) == EscapeEach(s)
  {
    if s == "" {
    } else {
      assert s == [s[0]] + s[1..];
      EscapeConcat([s[0]], s[1..]);
      EscapeOne(s[0]);
      EscapeIsPerCharacter(s[1..]);
    }
  }

  /** Reading the entities back, as a Telegram client does. */
  function Unescape(s: string): string {
    if s == "" then ""
    else if "&amp;" <= s then "&" + Unescape(s[5..])
    else if "&lt;" <= s then "<" + Unescape(s[4..])
    else if "&gt;" <= s then ">" + Unescape(s[4..])
    else [s[0]] + Unescape(s[1..])
  }

  lemma UnescapeEntity(c: char, rest: string)
    ensures Unescape(Entity(c) + rest) == [c] + Unescape(rest)
  {
    var s := Entity(c) + rest;
    assert s[|Entity(c)|..] == rest && s[0] == Entity(c)[0];
    if c == '<' { assert s[1] == 'l'; }
    else if c == '>' { assert s[1] == 'g'; }
    else if c == '&' { assert "&amp;" <= s; }
  }

  /** Escaping loses nothing. */
  lemma {:induction false} UnescapeEscape(s: string)
    ensures Unescape(Escape(s)) == s
  {
    EscapeIsPerCharacter(s);
    if s != "" {
      EscapeIsPerCharacter(s[1..]);
      UnescapeEntity(s[0], EscapeEach(s[1..]));
      UnescapeEscape(s[1..]);
      assert s == [s[0]] + s[1..];
    }
  }

  // ---- Lengths in UTF-16 code units ----

  function Width(c: char): nat {
    if c as int >= 0x10000 then 2 else 1
  }

  function Units(s: string): nat {
    if s == "" then 0 else Width(s[0]) + Units(s[1..])
  }

  function EscapedLength(s: string): nat {
    Units(Escape(s))
  }

  /** The escaped length of one character, between 1 and 5. */
  function Cost(c: char): (n: nat)
    ensures 1 <= n <= 5
  {
    if c == '&' then 5 else if c == '<' || c == '>' then 4 else Width(c)
  }

  lemma {:induction false} UnitsConcat(a: string, b: string)
    ensures Units(a + b) == Units(a) + Units(b)
  {
    if a == "" {
      assert a + b == b;
    } else {
      assert (a + b)[1..] == a[1..] + b;
      UnitsConcat(a[1..], b);
    }
  }

  lemma LengthConcat(a: string, b: string)
    ensures EscapedLength(a + b) == EscapedLength(a) + EscapedLength(b)
  {
    EscapeConcat(a, b);
    UnitsConcat(Escape(a), Escape(b));
  }

  lemma LengthOne(c: char)
    ensures EscapedLength([c]) == Cost(c)
  {
    EscapeOne(c);
    if c == '&' { UnitsAscii("&amp;"); }
    else if c == '<' { UnitsAscii("&lt;"); }
    else if c == '>' { UnitsAscii("&gt;"); }
    else {
      var one := [c];
      assert one[1..] == "";
      assert Units(one) == Width(c) + Units(one[1..]);
    }
  }

  lemma {:induction false} UnitsAscii(s: string)
    requires forall i :: 0 <= i < |s| ==> s[i] as int < 0x80
    ensures Units(s) == |s|
  {
    if s != "" { UnitsAscii(s[1..]); }
  }

  lemma LengthEmpty()
    ensures EscapedLength("") == 0
  {
  }

  lemma SeparatorLength()
    ensures EscapedLength(SEPARATOR) == 2
  {
    assert SEPARATOR == "\n" + "\n";
    LengthConcat("\n", "\n");
    LengthOne('\n');
  }

  lemma LengthAppend(prefix: string, s: string, k: nat)
    requires k < |s|
    ensures EscapedLength(prefix + s[..k + 1]) == EscapedLength(prefix + s[..k]) + Cost(s[k])
  {
    assert prefix + s[..k + 1] == (prefix + s[..k]) + [s[k]];
    LengthConcat(prefix + s[..k], [s[k]]);
    LengthOne(s[k]);
  }

  lemma {:induction false} LengthGrows(prefix: string, s: string, j: nat, k: nat)
    requires j < k <= |s|
    ensures EscapedLength(prefix + s[..j]) < EscapedLength(prefix + s[..k])
    decreases k
  {
    LengthAppend(prefix, s, k - 1);
    if j < k - 1 { LengthGrows(prefix, s, j, k - 1); }
  }

  /** The first `n` characters fit behind the prefix, and one more would not. */
  ghost predicate LongestFit(value: string, prefix: string, maxChars: nat, n: nat) {
    && n <= |value|
    && EscapedLength(prefix + value[..n]) <= maxChars
    && (n < |value| ==> EscapedLength(prefix + value[..n + 1]) > maxChars)
  }

  /** Binary search for the longest prefix that fits; it fails exactly when not even one character does. */
  method TakePrefixForEscapedLimit(value: string, prefix: string, maxChars: nat) returns (r: Result<(string, string), Error>)
    requires value != ""
    ensures r.Ok? <==> EscapedLength(prefix + value[..1]) <= maxChars
    ensures r.Fail? ==> r.error == NoRoomForContent
    ensures r.Ok? ==>
      var (chunk, rest) := r.value;
      chunk != "" && value == chunk + rest && LongestFit(value, prefix, maxChars, |chunk|)
  {
    var low, high, best := 1, |value|, 0;
    while low <= high
      invariant 0 <= best < low <= |value| + 1 && high <= |value| && best == low - 1
      invariant low <= high + 1
      invariant best > 0 ==> EscapedLength(prefix + value[..best]) <= maxChars
      invariant high < |value| ==> EscapedLength(prefix + value[..high + 1]) > maxChars
    {
      var mid := (low + high) / 2;
      if EscapedLength(prefix + value[..mid]) <= maxChars {
        best := mid;
        low := mid + 1;
      } else {
        high := mid - 1;
      }
    }
    if best == 0 {
      return Fail(NoRoomForContent);
    }
    if best > 1 { LengthGrows(prefix, value, 1, best); }
    r := Ok((value[..best], value[best..]));
  }

  // ---- Pages ----

  function Joined(fragments: seq<string>): string {
    if fragments == [] then "" else Joined(fragments[..|fragments| - 1]) + fragments[|fragments| - 1]
  }

  function Flat(groups: seq<seq<string>>): seq<string> {
    if groups == [] then [] else Flat(groups[..|groups| - 1]) + groups[|groups| - 1]
  }

  /** The text of a page: the header, then each fragment behind a blank line. */
  function Render(header: string, fragments: seq<string>): string {
    if fragments == [] then header
    else Render(header, fragments[..|fragments| - 1]) + SEPARATOR + fragments[|fragments| - 1]
  }

  function NonEmpty(blocks: seq<string>): seq<string> {
    if blocks == [] then []
    else
      var b := blocks[|blocks| - 1];
      NonEmpty(blocks[..|blocks| - 1]) + if b == "" then [] else [b]
  }

  /** The page cannot take the text that follows it: neither as a further paragraph, nor, where a block was cut,
      its next character. */
  predicate Full(header: string, page: seq<string>, following: string, maxChars: nat) {
    following != ""
    && (EscapedLength(Render(header, page) + SEPARATOR + following) > maxChars
        || EscapedLength(Render(header, page) + following[..1]) > maxChars)
  }

  /** How the blocks were laid out: the fragments of each finished page, those of the open one, and for each
      finished page the text that was still to come in its block. */
  datatype Plan = Plan(layout: seq<seq<string>>, open: seq<string>, breaks: seq<string>)

  ghost predicate PageFits(header: string, page: seq<string>, maxChars: nat) {
    page != [] && EscapedLength(Render(header, page)) <= maxChars
  }

  /** Each page but the first begins with the text that was still to come. */
  ghost predicate Linked(layout: seq<seq<string>>, breaks: seq<string>)
    requires |layout| <= |breaks| + 1
  {
    forall i :: 0 < i < |layout| ==> layout[i] != [] && layout[i][0] <= breaks[i - 1]
  }

  lemma LinkedPush(layout: seq<seq<string>>, breaks: seq<string>, page: seq<string>, following: string)
    requires |layout| == |breaks| && Linked(layout, breaks)
    requires |layout| > 0 ==> page != [] && page[0] <= breaks[|layout| - 1]
    ensures Linked(layout + [page], breaks + [following]) && Linked(layout + [page], breaks)
  {
  }

  /** A finished page shows its fragments, fits, and was full. */
  ghost predicate PageDone(header: string, maxChars: nat, page: string, fragments: seq<string>, following: string) {
    && page == Escape(Render(header, fragments))
    && PageFits(header, fragments, maxChars) && Full(header, fragments, following, maxChars)
  }

  ghost predicate Placed(header: string, maxChars: nat, pages: seq<string>, current: string, plan: Plan) {
    && |pages| == |plan.layout| == |plan.breaks|
    && (forall i :: 0 <= i < |pages| ==> PageDone(header, maxChars, pages[i], plan.layout[i], plan.breaks[i]))
    && Linked(plan.layout, plan.breaks)
    && (|pages| > 0 && plan.open != [] ==> plan.open[0] <= plan.breaks[|pages| - 1])
    && current == Render(header, plan.open) && EscapedLength(current) <= maxChars
  }

  /** The fragments so far, in order: those of the finished pages, then those of the open one. */
  function Fragments(plan: Plan): seq<string> {
    Flat(plan.layout) + plan.open
  }

  lemma {:induction false} RenderLonger(header: string, fragments: seq<string>)
    ensures |Render(header, fragments)| >= |header| + 2 * |fragments|
  {
    if fragments != [] { RenderLonger(header, fragments[..|fragments| - 1]); }
  }

  lemma {:induction false} JoinedAppend(fragments: seq<string>, f: string)
    ensures Joined(fragments + [f]) == Joined(fragments) + f
  {
    assert (fragments + [f])[..|fragments|] == fragments;
  }

  lemma FlatAppend(groups: seq<seq<string>>, g: seq<string>)
    ensures Flat(groups + [g]) == Flat(groups) + g
  {
    assert (groups + [g])[..|groups|] == groups;
  }

  lemma RenderAppend(header: string, fragments: seq<string>, f: string)
    ensures Render(header, fragments + [f]) == Render(header, fragments) + SEPARATOR + f
  {
    assert (fragments + [f])[..|fragments|] == fragments;
  }

  /** The rest of the block goes onto the open page. */
  lemma AppendPlaced(header: string, maxChars: nat, pages: seq<string>, current: string, plan: Plan, block: string)
    requires Placed(header, maxChars, pages, current, plan)
    requires EscapedLength(current + SEPARATOR + block) <= maxChars
    requires plan.open == [] && |pages| > 0 ==> plan.breaks[|pages| - 1] == block
    ensures Placed(header, maxChars, pages, current + SEPARATOR + block, plan.(open := plan.open + [block]))
    ensures Fragments(plan.(open := plan.open + [block])) == Fragments(plan) + [block]
  {
    hide Full, PageFits, EscapedLength;
    RenderAppend(header, plan.open, block);
  }

  lemma ShownPage(header: string, maxChars: nat, page: seq<string>, following: string)
    requires PageFits(header, page, maxChars) && Full(header, page, following, maxChars)
    ensures PageDone(header, maxChars, Escape(Render(header, page)), page, following)
  {
  }

  /** Finishing a page that fits, is full, and starts with the text that was still to come. */
  lemma PushPlaced(header: string, maxChars: nat, pages: seq<string>, current: string, plan: Plan, page: seq<string>, following: string)
    requires Placed(header, maxChars, pages, current, plan) && EscapedLength(header) <= maxChars
    requires PageFits(header, page, maxChars) && Full(header, page, following, maxChars)
    requires |pages| > 0 ==> page[0] <= plan.breaks[|pages| - 1]
    ensures Placed(header, maxChars, pages + [Escape(Render(header, page))], header, Plan(plan.layout + [page], [], plan.breaks + [following]))
  {
    hide EscapedLength, Escape, Full, Linked, PageDone;
    assert Render(header, []) == header;
    LinkedPush(plan.layout, plan.breaks, page, following);
    ShownPage(header, maxChars, page, following);
  }

  /** The open page is finished because the block does not fit behind it. */
  lemma FlushPlaced(header: string, maxChars: nat, pages: seq<string>, current: string, plan: Plan, block: string)
    requires Placed(header, maxChars, pages, current, plan) && plan.open != [] && block != ""
    requires EscapedLength(current + SEPARATOR + block) > maxChars && EscapedLength(header) <= maxChars
    ensures Placed(header, maxChars, pages + [Escape(current)], header, Plan(plan.layout + [plan.open], [], plan.breaks + [block]))
    ensures Fragments(Plan(plan.layout + [plan.open], [], plan.breaks + [block])) == Fragments(plan)
  {
    hide EscapedLength, Escape, Render;
    FlatAppend(plan.layout, plan.open);
    PushPlaced(header, maxChars, pages, current, plan, plan.open, block);
  }

  /** A page is filled with the longest prefix of the block that fits it. */
  lemma CutPlaced(header: string, maxChars: nat, pages: seq<string>, plan: Plan, chunk: string, rest: string)
    requires Placed(header, maxChars, pages, header, plan) && plan.open == [] && chunk != ""
    requires LongestFit(chunk + rest, header + SEPARATOR, maxChars, |chunk|) && rest != ""
    requires |pages| > 0 ==> plan.breaks[|pages| - 1] == chunk + rest
    ensures Placed(header, maxChars, pages + [Escape(header + SEPARATOR + chunk)], header,
                   Plan(plan.layout + [[chunk]], [], plan.breaks + [rest]))
    ensures Fragments(Plan(plan.layout + [[chunk]], [], plan.breaks + [rest])) == Fragments(plan) + [chunk]
  {
    hide EscapedLength, Escape, Full, PageFits, LongestFit;
    CutFills(header, maxChars, chunk, rest);
    FlatAppend(plan.layout, [chunk]);
    PushPlaced(header, maxChars, pages, header, plan, [chunk], rest);
  }

  lemma RenderOne(header: string, chunk: string)
    ensures Render(header, [chunk]) == header + SEPARATOR + chunk
  {
    RenderAppend(header, [], chunk);
    assert [] + [chunk] == [chunk];
  }

  lemma TakeOneMore(prefix: string, chunk: string, rest: string)
    requires rest != ""
    ensures prefix + (chunk + rest)[..|chunk|] == prefix + chunk
    ensures prefix + (chunk + rest)[..|chunk| + 1] == (prefix + chunk) + rest[..1]
  {
    assert (chunk + rest)[..|chunk|] == chunk;
    assert (chunk + rest)[..|chunk| + 1] == chunk + rest[..1];
  }

  lemma CutFills(header: string, maxChars: nat, chunk: string, rest: string)
    requires chunk != "" && LongestFit(chunk + rest, header + SEPARATOR, maxChars, |chunk|) && rest != ""
    ensures Render(header, [chunk]) == header + SEPARATOR + chunk
    ensures PageFits(header, [chunk], maxChars) && Full(header, [chunk], rest, maxChars)
  {
    hide EscapedLength, Escape, Render;
    RenderOne(header, chunk);
    TakeOneMore(header + SEPARATOR, chunk, rest);
  }

  /** The code's test `current !== header` tells whether the open page has content. */
  lemma OpenMeansLonger(header: string, maxChars: nat, pages: seq<string>, current: string, plan: Plan)
    requires Placed(header, maxChars, pages, current, plan)
    ensures |pages| == |plan.breaks|
    ensures plan.open == [] <==> current == header
    ensures plan.open != [] ==> |current| > |header|
  {
    RenderLonger(header, plan.open);
  }

  lemma TooWide(header: string, block: string, maxChars: nat)
    requires block != "" && EscapedLength(header + SEPARATOR + block[..1]) > maxChars
    ensures EscapedLength(header) + 2 + Cost(block[0]) > maxChars
  {
    hide EscapedLength;
    LengthConcat(header + SEPARATOR, block[..1]);
    LengthConcat(header, SEPARATOR);
    SeparatorLength();
    assert block[..1] == [block[0]];
    LengthOne(block[0]);
  }

  /** A page under the bare header takes the longest prefix of the block; it fails when not even one character fits. */
  method CutPage(header: string, block: string, maxChars: nat, pages0: seq<string>, ghost plan0: Plan)
    returns (failed: bool, pages: seq<string>, rest: string, ghost plan: Plan, ghost chunk: string)
    requires EscapedLength(header) <= maxChars && block != "" && EscapedLength(header + SEPARATOR + block) > maxChars
    requires Placed(header, maxChars, pages0, header, plan0) && plan0.open == []
    requires |pages0| == |plan0.breaks| && (pages0 != [] ==> plan0.breaks[|pages0| - 1] == block)
    ensures failed ==> TooWideFor(header, block[0], maxChars)
    ensures !failed ==>
      && Placed(header, maxChars, pages, header, plan) && plan.open == []
      && pages != [] && |pages| == |plan.breaks| && plan.breaks[|pages| - 1] == rest
      && Fragments(plan) == Fragments(plan0) + [chunk]
      && chunk != "" && rest != "" && chunk + rest == block
  {
    hide Placed, Full, Escape, EscapedLength, Fragments;
    var prefix := header + SEPARATOR;
    var split := TakePrefixForEscapedLimit(block, prefix, maxChars);
    if split.Fail? {
      TooWide(header, block, maxChars);
      return true, pages0, block, plan0, "";
    }
    var (first, left) := split.value;
    assert first + "" == first && block[..|block|] == block;
    CutPlaced(header, maxChars, pages0, plan0, first, left);
    pages := pages0 + [Escape(prefix + first)];
    failed, rest, plan, chunk := false, left, Plan(plan0.layout + [[first]], [], plan0.breaks + [left]), first;
  }

  /** Lays out one block. The new fragments join to the block; it fails only on a character too wide for a page. */
  method PlaceBlock(header: string, sourceBlock: string, maxChars: nat, pages0: seq<string>, current0: string, ghost plan0: Plan)
    returns (failed: bool, pages: seq<string>, current: string, ghost plan: Plan, ghost part: seq<string>)
    requires EscapedLength(header) < maxChars
    requires Placed(header, maxChars, pages0, current0, plan0) && (pages0 == [] || plan0.open != [])
    ensures failed ==> BlockTooWide(header, sourceBlock, maxChars)
    ensures !failed ==>
      && Placed(header, maxChars, pages, current, plan) && (pages == [] || plan.open != [])
      && Fragments(plan) == Fragments(plan0) + part && Joined(part) == sourceBlock
      && (sourceBlock == "" <==> part == [])
  {
    hide Placed, Full, Escape, EscapedLength, Fragments;
    failed, pages, current, plan, part := false, pages0, current0, plan0, [];
    var block := sourceBlock;
    assert Fragments(plan0) + [] == Fragments(plan0);
    OpenMeansLonger(header, maxChars, pages, current, plan);
    while block != ""
      invariant Placed(header, maxChars, pages, current, plan)
      invariant |pages| == |plan.breaks| && (plan.open == [] <==> current == header)
      invariant plan.open == [] && pages != [] ==> block != "" && plan.breaks[|pages| - 1] == block
      invariant Fragments(plan) == Fragments(plan0) + part && Joined(part) + block == sourceBlock
      invariant block == "" && sourceBlock != "" ==> part != []
      invariant sourceBlock == "" ==> part == []
      decreases |block|, |current|
    {
      var candidate := current + SEPARATOR + block;
      if EscapedLength(candidate) <= maxChars {
        AppendPlaced(header, maxChars, pages, current, plan, block);
        JoinedAppend(part, block);
        plan, part := plan.(open := plan.open + [block]), part + [block];
        current, block := candidate, "";
        OpenMeansLonger(header, maxChars, pages, current, plan);
      } else if current != header {
        FlushPlaced(header, maxChars, pages, current, plan, block);
        OpenMeansLonger(header, maxChars, pages, current, plan);
        plan := Plan(plan.layout + [plan.open], [], plan.breaks + [block]);
        pages := pages + [Escape(current)];
        current := header;
      } else {
        var tooWide, cut, rest;
        ghost var cutPlan, chunk;
        tooWide, cut, rest, cutPlan, chunk := CutPage(header, block, maxChars, pages, plan);
        if tooWide {
          assert block[0] in sourceBlock;
          return true, pages, current, plan, part;
        }
        JoinedAppend(part, chunk);
        pages, plan, part := cut, cutPlan, part + [chunk];
        block := rest;
      }
    }
  }

  /** The fragments of consecutive blocks, grouped by block. */
  ghost predicate CutsOf(fragments: seq<string>, blocks: seq<string>) {
    exists cuts: seq<seq<string>> :: Flat(cuts) == fragments && GroupsJoin(cuts, blocks)
  }

  ghost predicate GroupsJoin(cuts: seq<seq<string>>, blocks: seq<string>) {
    |cuts| == |blocks| && forall b :: 0 <= b < |cuts| ==> cuts[b] != [] && Joined(cuts[b]) == blocks[b]
  }

  lemma CutsExtend(fragments: seq<string>, blocks: seq<string>, part: seq<string>, block: string)
    requires CutsOf(fragments, NonEmpty(blocks)) && Joined(part) == block && (block == "" <==> part == [])
    ensures CutsOf(fragments + part, NonEmpty(blocks + [block]))
  {
    hide Joined;
    assert (blocks + [block])[..|blocks|] == blocks;
    var cuts :| Flat(cuts) == fragments && GroupsJoin(cuts, NonEmpty(blocks));
    if block == "" {
      assert fragments + part == fragments && NonEmpty(blocks + [block]) == NonEmpty(blocks) + [] == NonEmpty(blocks);
    } else {
      FlatAppend(cuts, part);
      assert GroupsJoin(cuts + [part], NonEmpty(blocks) + [block]);
    }
  }

  predicate TooWideFor(header: string, c: char, maxChars: nat) {
    EscapedLength(header) + 2 + Cost(c) > maxChars
  }

  predicate BlockTooWide(header: string, block: string, maxChars: nat) {
    exists c :: c in block && TooWideFor(header, c, maxChars)
  }

  predicate HasTooWide(header: string, blocks: seq<string>, maxChars: nat) {
    exists b :: 0 <= b < |blocks| && BlockTooWide(header, blocks[b], maxChars)
  }

  lemma FoundTooWide(header: string, blocks: seq<string>, b: nat, maxChars: nat)
    requires b < |blocks| && BlockTooWide(header, blocks[b], maxChars)
    ensures HasTooWide(header, blocks, maxChars)
  {
  }

  /** What a pagination delivers: pages within the budget that render consecutive fragments of the blocks, each
      page closed only when the text that follows does not fit. */
  ghost predicate Paginated(header: string, blocks: seq<string>, maxChars: nat, pages: seq<string>, plan: Plan) {
    && CutsOf(Flat(plan.layout), NonEmpty(blocks))
    && pages != [] && |pages| == |plan.layout| && |plan.breaks| >= |pages| - 1
    && (forall i :: 0 <= i < |pages| ==> pages[i] == Escape(Render(header, plan.layout[i])) && Units(pages[i]) <= maxChars)
    && Linked(plan.layout, plan.breaks)
    && (forall i :: 0 <= i < |pages| - 1 ==> Full(header, plan.layout[i], plan.breaks[i], maxChars))
  }

  /** Pages for all blocks. It fails exactly when the budget is invalid or some character cannot share a page
      with the header. */
  method PaginateNeoTechBlocksLossless(header: string, blocks: seq<string>, maxChars: nat)
    returns (r: Result<seq<string>, Error>, ghost plan: Plan)
    ensures r == Fail(InvalidBudget) <==> maxChars < 256 || EscapedLength(header) >= maxChars
    ensures
      var shown := if blocks == [] then ["Kh\U{00F4}ng c\U{00F3} d\U{1EEF} li\U{1EC7}u ph\U{00F9} h\U{1EE3}p."] else blocks;
      && (r == Fail(NoRoomForContent) <==>
            !(maxChars < 256 || EscapedLength(header) >= maxChars) && HasTooWide(header, shown, maxChars))
      && (r.Ok? ==> Paginated(header, shown, maxChars, r.value, plan))
  {
    hide Escape, EscapedLength, Full, CutsOf, Render, Placed, Fragments, HasTooWide, BlockTooWide, Paginated, NonEmpty;
    plan := Plan([], [], []);
    if maxChars < MIN_BUDGET || EscapedLength(header) >= maxChars {
      return Fail(InvalidBudget), plan;
    }
    var sources := Sources(blocks);
    var pages: seq<string>, current := [], header;
    StartPlaced(header, maxChars);
    var k: nat := 0;
    assert sources[..0] == [];
    while k < |sources|
      invariant k <= |sources|
      invariant Placed(header, maxChars, pages, current, plan) && (pages == [] || plan.open != [])
      invariant CutsOf(Fragments(plan), NonEmpty(sources[..k]))
    {
      var failed;
      ghost var part;
      ghost var before := plan;
      failed, pages, current, plan, part := PlaceBlock(header, sources[k], maxChars, pages, current, plan);
      if failed {
        FoundTooWide(header, sources, k, maxChars);
        return Fail(NoRoomForContent), plan;
      }
      CutsExtend(Fragments(before), sources[..k], part, sources[k]);
      assert sources[..k] + [sources[k]] == sources[..k + 1];
      k := k + 1;
    }
    assert sources[..k] == sources;
    OpenMeansLonger(header, maxChars, pages, current, plan);
    NothingTooWide(header, sources, maxChars, pages, current, plan);
    FinishPlaced(header, maxChars, pages, current, plan, sources);
    if current != header || pages == [] {
      pages := pages + [Escape(current)];
      plan := Plan(plan.layout + [plan.open], [], plan.breaks);
    }
    r := Ok(pages);
  }

  function Sources(blocks: seq<string>): seq<string> {
    if blocks == [] then [NO_DATA] else blocks
  }

  lemma StartPlaced(header: string, maxChars: nat)
    requires EscapedLength(header) <= maxChars
    ensures Placed(header, maxChars, [], header, Plan([], [], []))
    ensures CutsOf(Fragments(Plan([], [], [])), NonEmpty([]))
  {
    assert Flat([]) == [] && GroupsJoin([], []);
    assert Fragments(Plan([], [], [])) == [];
    assert NonEmpty([]) == [];
  }

  lemma {:induction false} CharacterWeighs(s: string, c: char)
    requires c in s
    ensures EscapedLength(s) >= Cost(c)
  {
    hide EscapedLength;
    assert s == [s[0]] + s[1..];
    LengthConcat([s[0]], s[1..]);
    LengthOne(s[0]);
    if c != s[0] { CharacterWeighs(s[1..], c); }
  }

  lemma {:induction false} RenderAtLeastHeader(header: string, fragments: seq<string>)
    ensures EscapedLength(Render(header, fragments)) >= EscapedLength(header)
  {
    hide EscapedLength;
    if fragments != [] {
      var n := |fragments| - 1;
      RenderAtLeastHeader(header, fragments[..n]);
      LengthConcat(Render(header, fragments[..n]), SEPARATOR);
      LengthConcat(Render(header, fragments[..n]) + SEPARATOR, fragments[n]);
    }
  }

  /** A page that shows a character has room for the header, the separator and that character. */
  lemma {:induction false} RenderRoom(header: string, fragments: seq<string>, f: string, c: char)
    requires f in fragments && c in f
    ensures EscapedLength(Render(header, fragments)) >= EscapedLength(header) + 2 + Cost(c)
  {
    hide EscapedLength;
    var n := |fragments| - 1;
    LengthConcat(Render(header, fragments[..n]), SEPARATOR);
    LengthConcat(Render(header, fragments[..n]) + SEPARATOR, fragments[n]);
    SeparatorLength();
    if f == fragments[n] {
      CharacterWeighs(f, c);
      RenderAtLeastHeader(header, fragments[..n]);
    } else {
      RenderRoom(header, fragments[..n], f, c);
    }
  }

  lemma {:induction false} JoinedMember(fragments: seq<string>, c: char) returns (f: string)
    requires c in Joined(fragments)
    ensures f in fragments && c in f
  {
    var n := |fragments| - 1;
    if c in fragments[n] { f := fragments[n]; } else { f := JoinedMember(fragments[..n], c); }
  }

  lemma {:induction false} InFlat(groups: seq<seq<string>>, k: nat, f: string)
    requires k < |groups| && f in groups[k]
    ensures f in Flat(groups)
  {
    if k < |groups| - 1 { InFlat(groups[..|groups| - 1], k, f); }
  }

  lemma {:induction false} FlatMember(groups: seq<seq<string>>, f: string) returns (k: nat)
    requires f in Flat(groups)
    ensures k < |groups| && f in groups[k]
  {
    var n := |groups| - 1;
    if f in groups[n] { k := n; } else { k := FlatMember(groups[..n], f); }
  }

  lemma {:induction false} NonEmptyMember(blocks: seq<string>, b: nat) returns (k: nat)
    requires b < |blocks| && blocks[b] != ""
    ensures k < |NonEmpty(blocks)| && NonEmpty(blocks)[k] == blocks[b]
  {
    var n := |blocks| - 1;
    if b == n { k := |NonEmpty(blocks)| - 1; } else { k := NonEmptyMember(blocks[..n], b); }
  }

  /** Every character of every block stands in some fragment. */
  lemma CharacterShown(fragments: seq<string>, blocks: seq<string>, b: nat, c: char) returns (f: string)
    requires CutsOf(fragments, NonEmpty(blocks)) && b < |blocks| && c in blocks[b]
    ensures f in fragments && c in f
  {
    hide NonEmpty, Flat, Joined;
    var cuts :| Flat(cuts) == fragments && GroupsJoin(cuts, NonEmpty(blocks));
    var k := NonEmptyMember(blocks, b);
    f := JoinedMember(cuts[k], c);
    InFlat(cuts, k, f);
  }

  /** When every block has been laid out, every character has shared a page with the header. */
  lemma NothingTooWide(header: string, sources: seq<string>, maxChars: nat, pages: seq<string>, current: string, plan: Plan)
    requires Placed(header, maxChars, pages, current, plan) && CutsOf(Fragments(plan), NonEmpty(sources))
    ensures !HasTooWide(header, sources, maxChars)
  {
    hide CutsOf, NonEmpty, Flat, Render, EscapedLength, Full;
    forall b, c | 0 <= b < |sources| && c in sources[b]
      ensures !TooWideFor(header, c, maxChars)
    {
      var f := CharacterShown(Fragments(plan), sources, b, c);
      if f in plan.open {
        RenderRoom(header, plan.open, f, c);
      } else {
        var k := FlatMember(plan.layout, f);
        RenderRoom(header, plan.layout[k], f, c);
      }
    }
  }

  lemma FinishPlaced(header: string, maxChars: nat, pages: seq<string>, current: string, plan: Plan, sources: seq<string>)
    requires Placed(header, maxChars, pages, current, plan) && CutsOf(Fragments(plan), NonEmpty(sources))
    requires pages == [] || plan.open != []
    ensures Paginated(header, sources, maxChars, pages + [Escape(current)], Plan(plan.layout + [plan.open], [], plan.breaks))
  {
    hide Escape, CutsOf, Full, Render, Flat, PageFits, Linked;
    assert forall i :: 0 <= i < |pages| ==> PageDone(header, maxChars, pages[i], plan.layout[i], plan.breaks[i]);
    FlatAppend(plan.layout, plan.open);
    LinkedPush(plan.layout, plan.breaks, plan.open, "");
    forall i | 0 <= i < |pages| ensures Units(Escape(Render(header, plan.layout[i]))) <= maxChars {
      FittingPage(header, plan.layout[i], maxChars);
    }
  }

  lemma FittingPage(header: string, page: seq<string>, maxChars: nat)
    requires PageFits(header, page, maxChars)
    ensures Units(Escape(Render(header, page))) <= maxChars
  {
  }

  /** A header that leaves seven units never makes the pagination fail. */
  lemma SevenUnitsSuffice(header: string, blocks: seq<string>, maxChars: nat)
    requires EscapedLength(header) + 7 <= maxChars
    ensures !HasTooWide(header, blocks, maxChars)
  {
    hide EscapedLength;
    forall b, c | 0 <= b < |blocks| && c in blocks[b]
      ensures !TooWideFor(header, c, maxChars)
    {
      assert Cost(c) <= 5;
    }
  }
}
