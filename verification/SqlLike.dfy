/**
  SQL pattern matching: escapeLikePattern of internal/api/validate.go, read by the
  LIKE rules of section 9.7.1 of the PostgreSQL documentation with ESCAPE '\'.
 */
module SqlLike {

  /**
    text LIKE pattern ESCAPE '\'.  A pattern that ends in the escape character is an
    error in SQL; no pattern here does, since each ends in '%'.
   */
  predicate Like(pattern: string, text: string)
    decreases |pattern| + |text|
  {
    if pattern == "" then text == ""
    else if pattern[0] == '\\' then
      |pattern| > 1 && text != "" && text[0] == pattern[1] && Like(pattern[2..], text[1..])
    else if pattern[0] == '%' then Like(pattern[1..], text) || (text != "" && Like(pattern, text[1..]))
    else if pattern[0] == '_' then text != "" && Like(pattern[1..], text[1..])
    else text != "" && text[0] == pattern[0] && Like(pattern[1..], text[1..])
  }

  /** strings.ReplaceAll for a one-character string. */
  function ReplaceAll(s: string, c: char, sub: string): string {
    if s == "" then "" else (if s[0] == c then sub else [s[0]]) + ReplaceAll(s[1..], c, sub)
  }

  function EscapeLikePattern(s: string): string {
    ReplaceAll(ReplaceAll(ReplaceAll(s, '\\', "\\\\"), '%', "\\%"), '_', "\\_")
  }

  predicate Special(c: char) {
    c == '\\' || c == '%' || c == '_'
  }

  /** Every special character behind a backslash. */
  function Escaped(s: string): string {
    if s == "" then "" else (if Special(s[0]) then ['\\', s[0]] else [s[0]]) + Escaped(s[1..])
  }

  lemma {:induction false} ReplaceAllConcat(s: string, t: string, c: char, sub: string)
    ensures ReplaceAll(s + t, c, sub) == ReplaceAll(s, c, sub) + ReplaceAll(t, c, sub)
  {
    if s == "" {
      assert s + t == t;
    } else {
      var first := if s[0] == c then sub else [s[0]];
      var whole := s + t;
      assert whole[0] == s[0] && whole[1..] == s[1..] + t;
      ReplaceAllConcat(s[1..], t, c, sub);
      assert ReplaceAll(whole, c, sub) == first + (ReplaceAll(s[1..], c, sub) + ReplaceAll(t, c, sub));
    }
  }

  lemma ReplaceAllOne(x: char, c: char, sub: string)
    ensures ReplaceAll([x], c, sub) == if x == c then sub else [x]
  {
    assert [x][1..] == "";
  }

  lemma ReplaceAllTwo(x: char, y: char, c: char, sub: string)
    ensures ReplaceAll([x, y], c, sub) == (if x == c then sub else [x]) + if y == c then sub else [y]
  {
    ReplaceAllConcat([x], [y], c, sub);
    ReplaceAllOne(x, c, sub);
    ReplaceAllOne(y, c, sub);
  }

  /** What the three replacements make of one character. */
  lemma EscapeOne(c: char)
    ensures EscapeLikePattern([c]) == if Special(c) then ['\\', c] else [c]
  {
    ReplaceAllOne(c, '\\', "\\\\");
    ReplaceAllOne(c, '%', "\\%");
    ReplaceAllOne(c, '_', "\\_");
    ReplaceAllTwo('\\', '\\', '%', "\\%");
    ReplaceAllTwo('\\', '\\', '_', "\\_");
    ReplaceAllTwo('\\', '%', '_', "\\_");
  }

  /** The three replacements, one after the other, escape each character once. */
  lemma {:induction false} EscapeIsPerCharacter(s: string)
    ensures EscapeLikePattern(s) == Escaped(s)
  {
    if s != "" {
      EscapeIsPerCharacter(s[1..]);
      EscapeOne(s[0]);
      var head1 := ReplaceAll([s[0]], '\\', "\\\\");
      var tail1 := ReplaceAll(s[1..], '\\', "\\\\");
      assert [s[0]] + s[1..] == s;
      ReplaceAllConcat([s[0]], s[1..], '\\', "\\\\");
      ReplaceAllConcat(head1, tail1, '%', "\\%");
      ReplaceAllConcat(ReplaceAll(head1, '%', "\\%"), ReplaceAll(tail1, '%', "\\%"), '_', "\\_");
    }
  }

  lemma {:induction false} PercentMatchesAll(text: string)
    ensures Like("%", text)
    decreases text
  {
    assert "%"[1..] == "";
    if text != "" {
      PercentMatchesAll(text[1..]);
    }
  }

  /** An escaped prefix with '%' behind it matches exactly the texts that start with the prefix. */
  lemma {:induction false} EscapedMatchesPrefix(s: string, text: string)
    ensures Like(Escaped(s) + "%", text) <==> s <= text
  {
    var pattern := Escaped(s) + "%";
    if s == "" {
      assert pattern == "%";
      PercentMatchesAll(text);
    } else {
      var tail := Escaped(s[1..]) + "%";
      if Special(s[0]) {
        assert pattern == ['\\', s[0]] + tail;
        assert pattern[2..] == tail;
      } else {
        assert pattern == [s[0]] + tail;
        assert pattern[1..] == tail;
      }
      if text != "" {
        EscapedMatchesPrefix(s[1..], text[1..]);
        assert s <= text <==> s[0] == text[0] && s[1..] <= text[1..];
      }
    }
  }

  /** Filtering by an escaped prefix selects by that prefix. */
  lemma EscapeLikeTheorem(s: string, text: string)
    ensures Like(EscapeLikePattern(s) + "%", text) <==> s <= text
  {
    EscapeIsPerCharacter(s);
    EscapedMatchesPrefix(s, text);
  }

  // ---- A prefix that is not escaped ----

  predicate Plain(s: string) {
    forall c :: c in s ==> !Special(c)
  }

  /**
    A text that the raw pattern matches: each pair behind a backslash and each wildcard is
    made one shorter, or another character.
   */
  function Matched(s: string): string {
    if s == "" then ""
    else if s[0] == '\\' then
      if |s| == 1 then "%" else [s[1]] + Matched(s[2..])
    else if s[0] == '%' then Matched(s[1..])
    else if s[0] == '_' then "x" + Matched(s[1..])
    else [s[0]] + Matched(s[1..])
  }

  lemma LikeOfCons(c: char, rest: string)
    ensures ([c] + rest)[1..] == rest
  {
  }

  /** The raw pattern matches that text, which is not longer than the prefix. */
  lemma {:induction false} MatchedIsMatched(s: string)
    ensures Like(s + "%", Matched(s)) && |Matched(s)| <= |s|
    decreases |s|
  {
    if s == "" {
      assert s + "%" == "%";
      PercentMatchesAll("");
    } else if s[0] == '\\' && |s| == 1 {
      assert s + "%" == "\\%";
      assert "\\%"[2..] == "" && "%"[1..] == "";
    } else if s[0] == '\\' {
      MatchedIsMatched(s[2..]);
      assert (s + "%")[2..] == s[2..] + "%";
      LikeOfCons(s[1], Matched(s[2..]));
    } else {
      MatchedIsMatched(s[1..]);
      assert (s + "%")[1..] == s[1..] + "%";
      LikeOfCons('x', Matched(s[1..]));
      LikeOfCons(s[0], Matched(s[1..]));
    }
  }

  /** It is not the prefix, and so does not start with it, if that has a special character. */
  lemma {:induction false} MatchedIsOther(s: string)
    ensures !Plain(s) ==> Matched(s) != s
    decreases |s|
  {
    if s != "" {
      MatchedIsMatched(s[1..]);
      if |s| > 1 {
        MatchedIsMatched(s[2..]);
      }
      MatchedIsOther(s[1..]);
      assert s == [s[0]] + s[1..];
      LikeOfCons(s[0], Matched(s[1..]));
    }
  }

  lemma {:induction false} PlainIsEscaped(s: string)
    requires Plain(s)
    ensures Escaped(s) == s
  {
    if s != "" {
      assert s[0] in s && forall c :: c in s[1..] ==> c in s;
      PlainIsEscaped(s[1..]);
    }
  }

  /** s used as a pattern selects exactly the texts that start with it. */
  ghost predicate SelectsByPrefix(s: string) {
    forall text :: Like(s + "%", text) <==> s <= text
  }

  /** s used as a pattern selects a text that does not start with it. */
  ghost predicate SelectsOther(s: string) {
    exists text :: Like(s + "%", text) && !(s <= text)
  }

  /**
    An unescaped prefix selects by that prefix if and only if it has no special
    character; with one it selects a text that does not start with it.
   */
  lemma RawPatternTheorem(s: string)
    ensures SelectsByPrefix(s) <==> Plain(s)
    ensures SelectsOther(s) <==> !Plain(s)
  {
    if Plain(s) {
      PlainIsEscaped(s);
      forall text ensures Like(s + "%", text) <==> s <= text {
        EscapedMatchesPrefix(s, text);
      }
    } else {
      var text := Matched(s);
      MatchedIsMatched(s);
      MatchedIsOther(s);
      assert Like(s + "%", text) && !(s <= text);
    }
  }

  // ---- What a raw prefix misses ----

  /** The last backslash of s escapes what comes behind s. */
  predicate OpenEscape(s: string)
    decreases |s|
  {
    if s == "" then false
    else if s[0] == '\\' then |s| == 1 || OpenEscape(s[2..])
    else OpenEscape(s[1..])
  }

  lemma PatternTail(s: string, n: nat)
    requires n <= |s|
    ensures (s + "%")[n..] == s[n..] + "%"
  {
  }

  /** Without an open escape, a text with more behind it is matched as well. */
  lemma {:induction false} MatchesLonger(s: string, text: string, more: string)
    requires !OpenEscape(s) && Like(s + "%", text)
    ensures Like(s + "%", text + more)
    decreases |s| + |text|
  {
    if text != "" {
      PatternTail(text, 1);
      assert (text + more)[1..] == text[1..] + more;
    }
    if s == "" {
      assert s + "%" == "%";
      PercentMatchesAll(text + more);
    } else if s[0] == '\\' {
      PatternTail(s, 2);
      MatchesLonger(s[2..], text[1..], more);
    } else {
      PatternTail(s, 1);
      if s[0] != '%' {
        MatchesLonger(s[1..], text[1..], more);
      } else if Like(s[1..] + "%", text) {
        MatchesLonger(s[1..], text, more);
      } else {
        MatchesLonger(s, text[1..], more);
      }
    }
  }

  predicate EndsIn(s: string, c: char) {
    s != "" && s[|s| - 1] == c
  }

  /** With an open escape, only texts that end in '%' are matched. */
  lemma {:induction false} OpenEscapeMatches(s: string, text: string)
    requires OpenEscape(s) && Like(s + "%", text)
    ensures EndsIn(text, '%') && EndsIn(s, '\\')
    decreases |s| + |text|
  {
    if s == "\\" {
      assert s + "%" == "\\%" && "\\%"[2..] == "";
    } else if s[0] == '\\' {
      PatternTail(s, 2);
      OpenEscapeMatches(s[2..], text[1..]);
    } else {
      PatternTail(s, 1);
      if s[0] != '%' {
        OpenEscapeMatches(s[1..], text[1..]);
      } else if Like(s[1..] + "%", text) {
        OpenEscapeMatches(s[1..], text);
      } else {
        OpenEscapeMatches(s, text[1..]);
      }
    }
  }

  /** s used as a pattern selects every text that starts with it. */
  ghost predicate SelectsItsTexts(s: string) {
    forall text | s <= text :: Like(s + "%", text)
  }

  /** A raw prefix selects all that starts with it if and only if it selects itself. */
  lemma RawMissTheorem(s: string)
    ensures SelectsItsTexts(s) <==> Like(s + "%", s)
  {
    if Like(s + "%", s) {
      if OpenEscape(s) {
        OpenEscapeMatches(s, s);
      }
      forall text | s <= text ensures Like(s + "%", text) {
        MatchesLonger(s, s, text[|s|..]);
        assert text == s + text[|s|..];
      }
    }
  }

  /** Without a backslash it does. */
  lemma {:induction false} RawMatchesItself(s: string)
    requires '\\' !in s
    ensures Like(s + "%", s)
  {
    if s == "" {
      assert s + "%" == "%";
    } else {
      PatternTail(s, 1);
      RawMatchesItself(s[1..]);
      if s[0] == '%' {
        LikeSkipsOne(s[1..] + "%", s);
      }
    }
  }

  lemma LikeSkipsOne(rest: string, text: string)
    requires text != "" && Like(rest, text[1..])
    ensures Like("%" + rest, text)
  {
    assert ("%" + rest)[1..] == rest;
    assert Like("%" + rest, text[1..]);
  }

  /** So does a prefix of two backslashes, of which one escapes the other. */
  lemma EscapedBackslashMatches()
    ensures SelectsItsTexts("\\\\")
  {
    assert ("\\\\" + "%")[2..] == "%";
    PercentMatchesAll("\\\\"[1..]);
    RawMissTheorem("\\\\");
  }

  /** With a backslash it can miss even itself, since the backslash escapes what follows. */
  lemma RawMissesItself()
    ensures !Like("/\\a" + "%", "/\\a") && Like("/\\a" + "%", "/a")
  {
    var pattern := "/\\a" + "%";
    assert pattern[0] == '/' && pattern[1..] == "\\a%";
    assert "/\\a"[1..] == "\\a" && "/a"[1..] == "a";
    assert "\\a%"[2..] == "%" && "a"[1..] == "";
    PercentMatchesAll("");
  }

  /** With a wildcard it can match more. */
  lemma RawMatchesMore()
    ensures Like("a_" + "%", "ax") && !("a_" <= "ax")
  {
    var pattern := "a_" + "%";
    assert pattern[0] == 'a' && pattern[1..] == "_%" && "ax"[1..] == "x";
    assert "_%"[1..] == "%" && "x"[1..] == "";
    PercentMatchesAll("");
    assert Like("_%", "x");
    assert "a_"[1] != "ax"[1];
  }
}
