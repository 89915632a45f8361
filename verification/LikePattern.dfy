/**
 Keyword search with LIKE: the keyword is escaped and put between two `%`, and the
 database matches the pattern with backslash as the escape character (section 8.5 of
 ISO/IEC 9075:1992, like predicate).
 */
module LikePattern {
  import opened Common

  const ESCAPE := '\\'

  /** The LIKE predicate; an escape character with nothing after it matches nothing. */
  predicate Like(pattern: string, text: string)
    decreases |pattern| + |text|
  {
    if pattern == "" then text == ""
    else if pattern[0] == ESCAPE then
      |pattern| > 1 && text != "" && text[0] == pattern[1] && Like(pattern[2..], text[1..])
    else if pattern[0] == '%' then
      Like(pattern[1..], text) || (text != "" && Like(pattern, text[1..]))
    else if pattern[0] == '_' then
      text != "" && Like(pattern[1..], text[1..])
    else
      text != "" && text[0] == pattern[0] && Like(pattern[1..], text[1..])
  }

  predicate IsSpecial(c: char) {
    c == ESCAPE || c == '%' || c == '_'
  }

  function Escaped(keyword: string): string {
    if keyword == "" then ""
    else (if IsSpecial(keyword[0]) then [ESCAPE, keyword[0]] else [keyword[0]]) + Escaped(keyword[1..])
  }

  function ToLikePattern(keyword: string): string {
    "%" + Escaped(keyword) + "%"
  }

  ghost predicate OccursAt(keyword: string, text: string, i: int) {
    0 <= i <= |text| - |keyword| && text[i..i + |keyword|] == keyword
  }

  ghost predicate Contains(keyword: string, text: string) {
    exists i :: OccursAt(keyword, text, i)
  }

  /** An escaped keyword matches itself, literally, and what follows matches the rest. */
  lemma {:induction false} EscapedIsLiteral(keyword: string, rest: string, text: string)
    ensures Like(Escaped(keyword) + rest, text)
            <==> keyword <= text && Like(rest, text[|keyword|..])
  {
    if keyword == "" {
      assert Escaped(keyword) + rest == rest;
    } else {
      var c, tail := keyword[0], Escaped(keyword[1..]) + rest;
      var first := if IsSpecial(c) then [ESCAPE, c] else [c];
      assert Escaped(keyword) + rest == first + tail;
      assert (first + tail)[|first|..] == tail;
      assert Like(first + tail, text) <==> text != "" && text[0] == c && Like(tail, text[1..]);
      if text != "" {
        EscapedIsLiteral(keyword[1..], rest, text[1..]);
        PrefixUnfolds(keyword, text);
      }
    }
  }

  lemma PrefixUnfolds(keyword: string, text: string)
    requires keyword != "" && text != ""
    ensures keyword <= text <==> keyword[0] == text[0] && keyword[1..] <= text[1..]
    ensures |keyword| <= |text| ==> text[1..][|keyword| - 1..] == text[|keyword|..]
  {
    assert keyword == [keyword[0]] + keyword[1..] && text == [text[0]] + text[1..];
  }

  lemma {:induction false} PercentMatchesAll(text: string)
    ensures Like("%", text)
  {
    assert "%"[1..] == "";
    if text != "" { PercentMatchesAll(text[1..]); }
  }

  /** Unescaped, the two wildcards keep their meaning: one stands for one character, one for any text. */
  lemma WildcardsAreWild(text: string)
    ensures Like("_", text) <==> |text| == 1
    ensures Like("%", text)
  {
    assert "_"[1..] == "";
    PercentMatchesAll(text);
  }

  lemma ContainsUnfolds(keyword: string, text: string)
    ensures Contains(keyword, text) <==> OccursAt(keyword, text, 0) || (text != "" && Contains(keyword, text[1..]))
  {
    if i :| OccursAt(keyword, text, i) {
      if i > 0 {
        assert text[1..][i - 1..i - 1 + |keyword|] == text[i..i + |keyword|];
        assert OccursAt(keyword, text[1..], i - 1);
      }
    }
    if text != "" {
      if i :| OccursAt(keyword, text[1..], i) {
        assert text[1..][i..i + |keyword|] == text[i + 1..i + 1 + |keyword|];
        assert OccursAt(keyword, text, i + 1);
      }
    }
  }

  /** The pattern of any keyword matches exactly the texts that contain it literally. */
  lemma {:induction false} PatternMatchesSubstring(keyword: string, text: string)
    ensures Like(ToLikePattern(keyword), text) <==> Contains(keyword, text)
    decreases |text|
  {
    var pattern := ToLikePattern(keyword);
    assert pattern == "%" + (Escaped(keyword) + "%");
    assert pattern[1..] == Escaped(keyword) + "%";
    EscapedIsLiteral(keyword, "%", text);
    if |keyword| <= |text| { PercentMatchesAll(text[|keyword|..]); }
    ContainsUnfolds(keyword, text);
    if text != "" { PatternMatchesSubstring(keyword, text[1..]); }
  }

  /** The condition of the keyword search; a missing description matches nothing. */
  predicate KeywordCondition(keyword: string, title: string, description: Option<string>) {
    Like(ToLikePattern(keyword), title)
    || (description.Some? && Like(ToLikePattern(keyword), description.value))
  }

  /** A book is found if and only if its title or description contains the keyword as typed. */
  lemma SearchFindsLiteralKeyword(keyword: string, title: string, description: Option<string>)
    ensures KeywordCondition(keyword, title, description)
            <==> Contains(keyword, title) || (description.Some? && Contains(keyword, description.value))
  {
    PatternMatchesSubstring(keyword, title);
    if description.Some? { PatternMatchesSubstring(keyword, description.value); }
  }
}
