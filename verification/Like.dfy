/** The LIKE patterns of internal/query/search.go: a search text is escaped and put
    between wildcards, so that it is found as it stands. */
module Like {

  const ESCAPE := '\\'

  /** SQLite's LIKE ignores the case of ASCII letters, and of no others. */
  function Fold(c: char): char {
    if 'A' <= c <= 'Z' then (c as int + 32) as char else c
  }

  function FoldAll(s: string): (r: string)
    ensures |r| == |s| && forall i :: 0 <= i < |s| ==> r[i] == Fold(s[i])
  {
    seq(|s|, i requires 0 <= i < |s| => Fold(s[i]))
  }

  /** `s LIKE pattern ESCAPE '\'`. */
  predicate Matches(pattern: string, s: string)
    decreases |pattern| + |s|
  {
    if pattern == "" then s == ""
    else if pattern[0] == ESCAPE then
      |pattern| > 1 && s != "" && Fold(pattern[1]) == Fold(s[0]) && Matches(pattern[2..], s[1..])
    else if pattern[0] == '%' then Matches(pattern[1..], s) || (s != "" && Matches(pattern, s[1..]))
    else if pattern[0] == '_' then s != "" && Matches(pattern[1..], s[1..])
    else s != "" && Fold(pattern[0]) == Fold(s[0]) && Matches(pattern[1..], s[1..])
  }

  function EscapeChar(c: char): string {
    if c == ESCAPE || c == '%' || c == '_' then [ESCAPE, c] else [c]
  }

  function EscapeLike(text: string): string {
    if text == "" then "" else EscapeChar(text[0]) + EscapeLike(text[1..])
  }

  /** `text` stands at the start of `s`, up to ASCII case. */
  predicate StartsWith(s: string, text: string) {
    |text| <= |s| && FoldAll(s[..|text|]) == FoldAll(text)
  }

  predicate Contains(s: string, text: string) {
    exists i :: 0 <= i <= |s| && StartsWith(s[i..], text)
  }

  // ----- an escaped text stands for itself -----

  lemma {:induction false} EscapedChar(c: char, rest: string, s: string)
    ensures Matches(EscapeChar(c) + rest, s) <==> s != "" && Fold(c) == Fold(s[0]) && Matches(rest, s[1..])
  {
    var pattern := EscapeChar(c) + rest;
    if c == ESCAPE || c == '%' || c == '_' {
      assert pattern[0] == ESCAPE && pattern[1] == c && pattern[2..] == rest;
    } else {
      assert pattern[0] == c && pattern[1..] == rest;
    }
  }

  lemma StartsWithStep(s: string, text: string)
    requires text != ""
    ensures StartsWith(s, text) <==> s != "" && Fold(s[0]) == Fold(text[0]) && StartsWith(s[1..], text[1..])
  {
    if s != "" && |text| <= |s| {
      var a, b := s[..|text|], text;
      assert s[1..][..|text| - 1] == a[1..];
      assert FoldAll(a) == [Fold(a[0])] + FoldAll(a[1..]) && FoldAll(b) == [Fold(b[0])] + FoldAll(b[1..]);
    }
  }

  /** An escaped text followed by any pattern: the text, then the pattern on the rest. */
  lemma {:induction false} EscapedText(text: string, rest: string, s: string)
    ensures Matches(EscapeLike(text) + rest, s) <==> StartsWith(s, text) && Matches(rest, s[|text|..])
  {
    if text == "" {
      assert EscapeLike(text) + rest == rest && s[..0] == "" && s[0..] == s;
    } else {
      var tail := EscapeLike(text[1..]);
      assert EscapeLike(text) + rest == EscapeChar(text[0]) + (tail + rest);
      EscapedChar(text[0], tail + rest, s);
      StartsWithStep(s, text);
      if s != "" {
        EscapedText(text[1..], rest, s[1..]);
        if |text| <= |s| {
          assert s[1..][|text| - 1..] == s[|text|..];
        }
      }
    }
  }

  lemma {:induction false} PercentMatchesAll(s: string)
    ensures Matches("%", s)
  {
    assert "%"[1..] == "";
    if s != "" {
      PercentMatchesAll(s[1..]);
    }
  }

  lemma {:induction false} PercentSkips(rest: string, s: string)
    ensures Matches("%" + rest, s) <==> exists i :: 0 <= i <= |s| && Matches(rest, s[i..])
  {
    var pattern := "%" + rest;
    assert pattern[0] == '%' && pattern[1..] == rest;
    assert s[0..] == s;
    if s != "" {
      PercentSkips(rest, s[1..]);
      if i :| 0 <= i <= |s| && Matches(rest, s[i..]) && i > 0 {
        assert s[1..][i - 1..] == s[i..];
      }
      if i :| 0 <= i <= |s[1..]| && Matches(rest, s[1..][i..]) {
        assert s[i + 1..] == s[1..][i..];
      }
    }
  }

  // ----- the three uses -----

  /** The prefix search finds exactly the values that start with the text. */
  lemma {:induction false} PrefixPattern(text: string, s: string)
    ensures Matches(EscapeLike(text) + "%", s) <==> StartsWith(s, text)
  {
    EscapedText(text, "%", s);
    if StartsWith(s, text) {
      PercentMatchesAll(s[|text|..]);
    }
  }

  /** The relation search finds exactly the values in which the text occurs. */
  lemma {:induction false} ContainsPattern(text: string, s: string)
    ensures Matches("%" + EscapeLike(text) + "%", s) <==> Contains(s, text)
  {
    assert "%" + EscapeLike(text) + "%" == "%" + (EscapeLike(text) + "%");
    PercentSkips(EscapeLike(text) + "%", s);
    forall i | 0 <= i <= |s| ensures Matches(EscapeLike(text) + "%", s[i..]) <==> StartsWith(s[i..], text) {
      PrefixPattern(text, s[i..]);
    }
  }

  /** The asset search lower-cases its pattern, which changes nothing. */
  lemma {:induction false} LoweredPattern(pattern: string, s: string)
    ensures Matches(FoldAll(pattern), s) <==> Matches(pattern, s)
    decreases |pattern| + |s|
  {
    if pattern != "" {
      var lowered := FoldAll(pattern);
      assert lowered[1..] == FoldAll(pattern[1..]);
      if pattern[0] == ESCAPE {
        if |pattern| > 1 && s != "" {
          assert lowered[2..] == FoldAll(pattern[2..]);
          LoweredPattern(pattern[2..], s[1..]);
        }
      } else {
        LoweredPattern(pattern[1..], s);
        if s != "" {
          LoweredPattern(pattern[1..], s[1..]);
          LoweredPattern(pattern, s[1..]);
        }
      }
    }
  }

  /** So it finds exactly the paths in which the lower-cased text occurs. */
  lemma {:induction false} AssetPattern(text: string, s: string)
    ensures Matches(FoldAll("%" + EscapeLike(text) + "%"), s) <==> Contains(s, text)
  {
    LoweredPattern("%" + EscapeLike(text) + "%", s);
    ContainsPattern(text, s);
  }

  /** Without the escaping the search would find more: an underscore stands for any
      character. */
  lemma UnescapedFindsMore()
    ensures Matches("a_" + "%", "abc") && !StartsWith("abc", "a_")
    ensures !Matches(EscapeLike("a_") + "%", "abc")
  {
    assert ("a_" + "%")[1..] == "_%" && "abc"[1..] == "bc" && "_%"[1..] == "%" && "bc"[1..] == "c";
    PercentMatchesAll("c");
    assert Matches("_%", "bc");
    assert "abc"[..2] == "ab" && FoldAll("ab")[1] == 'b' && FoldAll("a_")[1] == '_';
    PrefixPattern("a_", "abc");
  }

  /** The same character, or one ASCII letter in its two cases. */
  predicate SameLetter(c: char, d: char) {
    || c == d
    || ('A' <= c <= 'Z' && d as int == c as int + 32)
    || ('A' <= d <= 'Z' && c as int == d as int + 32)
  }

  predicate OccursAt(s: string, text: string, i: nat) {
    i + |text| <= |s| && forall j :: 0 <= j < |text| ==> SameLetter(s[i + j], text[j])
  }

  lemma FoldIsAsciiCase(c: char, d: char)
    ensures Fold(c) == Fold(d) <==> SameLetter(c, d)
  {
  }

  lemma StartsWithIsOccurs(s: string, text: string, i: nat)
    requires i <= |s|
    ensures StartsWith(s[i..], text) <==> OccursAt(s, text, i)
  {
    if i + |text| <= |s| {
      var part := s[i..][..|text|];
      forall j | 0 <= j < |text| ensures FoldAll(part)[j] == FoldAll(text)[j] <==> SameLetter(s[i + j], text[j]) {
        FoldIsAsciiCase(s[i + j], text[j]);
      }
      if FoldAll(part) != FoldAll(text) {
        var j :| 0 <= j < |text| && FoldAll(part)[j] != FoldAll(text)[j];
      }
    }
  }

  /** What the searches find, letter by letter: the prefix search the values that start
      with the text, the relation and asset searches those in which it occurs, both up
      to the case of ASCII letters. */
  lemma {:induction false} SearchesIgnoreAsciiCase(text: string, s: string)
    ensures Matches(EscapeLike(text) + "%", s) <==> OccursAt(s, text, 0)
    ensures Matches("%" + EscapeLike(text) + "%", s) <==> exists i: nat :: OccursAt(s, text, i)
    ensures Matches(FoldAll("%" + EscapeLike(text) + "%"), s) <==> exists i: nat :: OccursAt(s, text, i)
  {
    PrefixPattern(text, s);
    ContainsPattern(text, s);
    AssetPattern(text, s);
    assert s[0..] == s;
    forall i: nat | i <= |s| ensures StartsWith(s[i..], text) <==> OccursAt(s, text, i) {
      StartsWithIsOccurs(s, text, i);
    }
    hide Matches, StartsWith;
    if i: nat :| OccursAt(s, text, i) {
      assert i <= |s| && StartsWith(s[i..], text);
    }
    if i :| 0 <= i <= |s| && StartsWith(s[i..], text) {
      assert OccursAt(s, text, i);
    }
  }
}
