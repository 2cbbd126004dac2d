/** Which texts are times of day, and what a due time shows. */
module DueShapes {
  import opened Calendar
  import opened Common
  import opened Texts
  import opened DueTime

  /** One or two figures, a separator, two figures and perhaps a separator and two more: with colons, or as in 9h05m30. */
  predicate Clock(raw: string, h: string, m: string, s: string, x: char, y: char) {
    && raw == h + [x] + m + (if s == "" then "" else [y] + s)
    && AllDigits(h) && AllDigits(m) && AllDigits(s) && |h| in {1, 2} && |m| == 2 && |s| in {0, 2}
    && ((x == ':' && y == ':') || (x in "hH" && y in "mM"))
  }

  predicate Reads(raw: string, h: string, m: string, s: string, x: char, y: char, ms: int) {
    && Clock(raw, h, m, s, x, y) && ValueOf(h) <= 23 && ValueOf(m) <= 59 && ValueOf(s) <= 59
    && ms == 3_600_000 * ValueOf(h) + 60_000 * ValueOf(m) + 1000 * ValueOf(s)
  }

  lemma ClockMatches(raw: string, h: string, m: string, s: string, x: char, y: char, first: string, second: string)
    requires Clock(raw, h, m, s, x, y) && x in first && y in second && forall c :: c in first ==> !IsDigit(c)
    ensures MatchTime(raw, first, second) == Some(Fields(h, m, s))
  {
    var n := |h|;
    assert raw[..n] == h && raw[n] == x && raw[n + 1..n + 3] == m;
    if n == 2 { assert raw[1] == h[1] && h[1] in h; }
    assert HourDigits(raw, first) == n by { if n == 1 { assert raw[..1] == h; } }
    if s == "" {
      assert raw[n + 1..] == m;
    } else {
      assert raw[n + 3] == y && raw[n + 4..] == s;
    }
  }

  lemma MatchedIsClock(raw: string, first: string, second: string) returns (x: char, y: char)
    requires MatchTime(raw, first, second).Some?
    requires (first == ":" && second == ":") || (first == "hH" && second == "mM")
    ensures var f := MatchTime(raw, first, second).value; Clock(raw, f.hour, f.minute, f.second, x, y)
    ensures x in first && y in second
  {
    var f := MatchTime(raw, first, second).value;
    var n := HourDigits(raw, first);
    x := raw[n];
    y := if |raw| == n + 6 then raw[n + 3] else second[0];
    assert raw == raw[..n] + [raw[n]] + raw[n + 1..];
    if |raw| == n + 6 { assert raw[n + 1..] == raw[n + 1..n + 3] + [raw[n + 3]] + raw[n + 4..]; }
  }

  /** A colon text is not the other spelling. */
  lemma ColonsStayAsTheyAre(text: string, h: string, m: string, s: string)
    requires Clock(Trim(text), h, m, s, ':', ':')
    ensures NormalizeTimeText(text) == Trim(text)
  {
    hide Trim;
    var f := Fields(h, m, s);
    assert Trim(text) == Colons(f);
    ColonsAreNotLegacy(f);
  }

  /** A text means a time of day exactly when, trimmed, it reads so. */
  lemma TimeIff(text: string, ms: int)
    ensures TimeOfDay(text) == Some(ms) <==> exists h, m, s, x, y :: Reads(Trim(text), h, m, s, x, y, ms)
  {
    hide MatchTime, Trim, Clock, Colons;
    var raw := Trim(text);
    if TimeOfDay(text) == Some(ms) {
      if MatchTime(raw, "hH", "mM").Some? {
        BothSpellingsAgree(text);
        var x, y := MatchedIsClock(raw, "hH", "mM");
        var f := MatchTime(raw, "hH", "mM").value;
        assert Reads(raw, f.hour, f.minute, f.second, x, y, ms);
      } else {
        var x, y := MatchedIsClock(raw, ":", ":");
        var f := MatchTime(raw, ":", ":").value;
        assert Reads(raw, f.hour, f.minute, f.second, x, y, ms);
      }
    }
    if h, m, s, x, y :| Reads(raw, h, m, s, x, y, ms) {
      ClockIsRead(text, h, m, s, x, y, ms);
    }
  }

  lemma ClockIsRead(text: string, h: string, m: string, s: string, x: char, y: char, ms: int)
    requires Reads(Trim(text), h, m, s, x, y, ms)
    ensures TimeOfDay(text) == Some(ms)
  {
    hide MatchTime, Trim, Colons;
    var raw := Trim(text);
    if x == ':' {
      ColonsStayAsTheyAre(text, h, m, s);
      ClockMatches(raw, h, m, s, x, y, ":", ":");
    } else {
      ClockMatches(raw, h, m, s, x, y, "hH", "mM");
      BothSpellingsAgree(text);
    }
  }
}
