/** What a reader of the pages sees, in characters and UTF-16 code units. */
module PageReading {
  import Ordering
  import opened Pagination

  /** Each fragment behind an empty line. */
  function Paragraphs(fragments: seq<string>): string {
    if fragments == [] then "" else "\n\n" + fragments[0] + Paragraphs(fragments[1..])
  }

  lemma {:induction false} ParagraphsAppend(fragments: seq<string>, f: string)
    ensures Paragraphs(fragments + [f]) == Paragraphs(fragments) + "\n\n" + f
  {
    if fragments == [] {
      assert [f][1..] == [];
    } else {
      ParagraphsAppend(fragments[1..], f);
      assert (fragments + [f])[1..] == fragments[1..] + [f];
    }
  }

  lemma {:induction false} PageIsHeaderAndParagraphs(header: string, fragments: seq<string>)
    ensures Render(header, fragments) == header + Paragraphs(fragments)
  {
    if fragments != [] {
      var n := |fragments| - 1;
      PageIsHeaderAndParagraphs(header, fragments[..n]);
      ParagraphsAppend(fragments[..n], fragments[n]);
      assert fragments[..n] + [fragments[n]] == fragments;
    }
  }

  /** The length the budget is compared with counts the UTF-16 code units of the text. */
  lemma {:induction false} LengthIsInUnits(s: string)
    ensures Units(s) == |Ordering.UnitsOf(s)|
  {
    if s != "" { LengthIsInUnits(s[1..]); }
  }

  lemma {:induction false} JoinedConcat(a: seq<string>, b: seq<string>)
    ensures Joined(a + b) == Joined(a) + Joined(b)
  {
    if b == [] {
      assert a + b == a;
    } else {
      var n := |b| - 1;
      JoinedConcat(a, b[..n]);
      assert (a + b)[..|a| + n] == a + b[..n];
    }
  }

  lemma {:induction false} JoinedSkipsEmpty(blocks: seq<string>)
    ensures Joined(NonEmpty(blocks)) == Joined(blocks)
  {
    if blocks != [] {
      var n := |blocks| - 1;
      JoinedSkipsEmpty(blocks[..n]);
      JoinedConcat(NonEmpty(blocks[..n]), if blocks[n] == "" then [] else [blocks[n]]);
      assert [blocks[n]][..0] == [];
    }
  }

  lemma {:induction false} CutsJoin(cuts: seq<seq<string>>, blocks: seq<string>)
    requires GroupsJoin(cuts, blocks)
    ensures Joined(Flat(cuts)) == Joined(blocks)
  {
    if cuts != [] {
      var n := |cuts| - 1;
      CutsJoin(cuts[..n], blocks[..n]);
      JoinedConcat(Flat(cuts[..n]), cuts[n]);
    }
  }

  /** The escaped text has more UTF-16 code units than the budget. */
  predicate TooLong(text: string, maxChars: nat) {
    |Ordering.UnitsOf(Escape(text))| > maxChars
  }

  /** The next page begins with text that was too long for this one: as a further paragraph, or by its first character. */
  ghost predicate BreaksOff(header: string, page: seq<string>, next: seq<string>, following: string, maxChars: nat) {
    && next != [] && next[0] <= following && following != ""
    && (TooLong(header + Paragraphs(page) + "\n\n" + following, maxChars)
        || TooLong(header + Paragraphs(page) + following[..1], maxChars))
  }

  lemma PageReadsBack(header: string, fragments: seq<string>, page: string)
    requires page == Escape(Render(header, fragments))
    ensures Unescape(page) == header + Paragraphs(fragments) && Units(page) == |Ordering.UnitsOf(page)|
  {
    hide Escape, Unescape, Render, Paragraphs, Units, Ordering.UnitsOf;
    UnescapeEscape(Render(header, fragments));
    PageIsHeaderAndParagraphs(header, fragments);
    LengthIsInUnits(page);
  }

  lemma FullBreaksOff(header: string, page: seq<string>, next: seq<string>, following: string, maxChars: nat)
    requires Full(header, page, following, maxChars) && next != [] && next[0] <= following
    ensures BreaksOff(header, page, next, following, maxChars)
  {
    hide Escape, Render, Paragraphs;
    PageIsHeaderAndParagraphs(header, page);
    LengthIsInUnits(Escape(header + Paragraphs(page) + "\n\n" + following));
    LengthIsInUnits(Escape(header + Paragraphs(page) + following[..1]));
  }

  /** Read back, a page is the header and its fragments, each behind an empty line; no page has more UTF-16 code units than
      the budget; a page ends only where the text that the next one begins with was too long for it, as a further paragraph
      or, inside a block, by its first character; and all fragments together are all blocks together. */
  lemma PagesReadBack(header: string, blocks: seq<string>, maxChars: nat, pages: seq<string>, plan: Plan)
    requires Paginated(header, blocks, maxChars, pages, plan)
    ensures |pages| == |plan.layout| > 0
    ensures forall i :: 0 <= i < |pages| ==>
      Unescape(pages[i]) == header + Paragraphs(plan.layout[i]) && |Ordering.UnitsOf(pages[i])| <= maxChars
    ensures forall i :: 0 <= i < |pages| - 1 ==> BreaksOff(header, plan.layout[i], plan.layout[i + 1], plan.breaks[i], maxChars)
    ensures Joined(Flat(plan.layout)) == Joined(blocks)
  {
    hide Escape, Unescape, Render, Flat, Joined, NonEmpty, Paragraphs, Full, BreaksOff, Ordering.UnitsOf;
    forall i | 0 <= i < |pages| - 1 ensures BreaksOff(header, plan.layout[i], plan.layout[i + 1], plan.breaks[i], maxChars) {
      FullBreaksOff(header, plan.layout[i], plan.layout[i + 1], plan.breaks[i], maxChars);
    }
    forall i | 0 <= i < |pages|
      ensures Unescape(pages[i]) == header + Paragraphs(plan.layout[i]) && |Ordering.UnitsOf(pages[i])| <= maxChars
    {
      PageReadsBack(header, plan.layout[i], pages[i]);
    }
    var cuts: seq<seq<string>> :| Flat(cuts) == Flat(plan.layout) && GroupsJoin(cuts, NonEmpty(blocks));
    CutsJoin(cuts, NonEmpty(blocks));
    JoinedSkipsEmpty(blocks);
  }
}
