/** Searching by substring through SQL LIKE, with the user's own wildcards neutralised. */
module Search {
  const ESCAPE := '\\'

  /** Python's `str.replace` of a single character. */
  function Replace(s: string, c: char, sub: string): string {
    if s == [] then [] else (if s[0] == c then sub else [s[0]]) + Replace(s[1..], c, sub)
  }

  /** Backslashes first, then the two wildcards. */
  function EscapeLike(s: string): string {
    Replace(Replace(Replace(s, '\\', "\\\\"), '%', "\\%"), '_', "\\_")
  }

  predicate Special(c: char) { c == '\\' || c == '%' || c == '_' }

  function Escaped(c: char): string {
    if Special(c) then [ESCAPE, c] else [c]
  }

  /** One pass over the characters. */
  function EscapeEach(s: string): string {
    if s == [] then [] else Escaped(s[0]) + EscapeEach(s[1..])
  }

  /**
   * `text LIKE pattern ESCAPE '\'`, comparing characters after `fold` (the identity for LIKE, lower case for
   * ILIKE): % matches any run, _ any one character, and an escaped character itself.  A pattern that ends in
   * the middle of an escape matches nothing.
   */
  predicate Like(pattern: string, text: string, fold: char -> char)
    decreases |pattern| + |text|
  {
    if pattern == [] then text == []
    else if pattern[0] == ESCAPE then
      |pattern| >= 2 && text != [] && fold(pattern[1]) == fold(text[0]) && Like(pattern[2..], text[1..], fold)
    else if pattern[0] == '%' then
      Like(pattern[1..], text, fold) || (text != [] && Like(pattern, text[1..], fold))
    else if pattern[0] == '_' then text != [] && Like(pattern[1..], text[1..], fold)
    else text != [] && fold(pattern[0]) == fold(text[0]) && Like(pattern[1..], text[1..], fold)
  }

  /** `s` occurs in `text` at position `at`. */
  predicate OccursAt(s: string, text: string, at: int, fold: char -> char) {
    0 <= at <= |text| - |s| && forall k | 0 <= k < |s| :: fold(s[k]) == fold(text[at + k])
  }

  // ---- three replaces are one pass ----

  lemma {:induction false} ReplaceConcat(a: string, b: string, c: char, sub: string)
    ensures Replace(a + b, c, sub) == Replace(a, c, sub) + Replace(b, c, sub)
  {
    if a == [] {
      assert a + b == b;
    } else {
      ReplaceConcat(a[1..], b, c, sub);
      assert (a + b)[1..] == a[1..] + b && (a + b)[0] == a[0];
      var head := if a[0] == c then sub else [a[0]];
      assert head + (Replace(a[1..], c, sub) + Replace(b, c, sub)) ==
             (head + Replace(a[1..], c, sub)) + Replace(b, c, sub);
    }
  }

  /** The first character's share of each pass. */
  lemma EscapeFirst(c: char)
    ensures EscapeLike([c]) == Escaped(c)
  {
    var first := Replace([c], '\\', "\\\\");
    ReplaceOne(c, '\\', "\\\\");
    if c == '\\' {
      assert first == ['\\'] + ['\\'];
      ReplaceConcat(['\\'], ['\\'], '%', "\\%");
      ReplaceOne('\\', '%', "\\%");
      ReplaceConcat(['\\'], ['\\'], '_', "\\_");
      ReplaceOne('\\', '_', "\\_");
    } else {
      ReplaceOne(c, '%', "\\%");
      ReplaceOne(c, '_', "\\_");
      if c == '%' {
        assert Replace([c], '%', "\\%") == ['\\'] + ['%'];
        ReplaceConcat(['\\'], ['%'], '_', "\\_");
        ReplaceOne('\\', '_', "\\_");
        ReplaceOne('%', '_', "\\_");
      }
    }
  }

  lemma ReplaceOne(d: char, c: char, sub: string)
    ensures Replace([d], c, sub) == if d == c then sub else [d]
  {
  }

  /** Because the backslash goes first, the chained replaces escape each special character exactly once. */
  lemma {:induction false} EscapeIsOnePass(s: string)
    ensures EscapeLike(s) == EscapeEach(s)
  {
    if s != [] {
      EscapeIsOnePass(s[1..]);
      EscapeFirst(s[0]);
      var a, b := [s[0]], s[1..];
      assert s == a + b;
      ReplaceConcat(a, b, '\\', "\\\\");
      ReplaceConcat(Replace(a, '\\', "\\\\"), Replace(b, '\\', "\\\\"), '%', "\\%");
      ReplaceConcat(Replace(Replace(a, '\\', "\\\\"), '%', "\\%"),
                    Replace(Replace(b, '\\', "\\\\"), '%', "\\%"), '_', "\\_");
    }
  }

  // ---- what the pattern matches ----

  /** An escaped prefix matches itself, character for character. */
  lemma {:induction false} EscapedPrefix(s: string, rest: string, text: string, fold: char -> char)
    ensures Like(EscapeEach(s) + rest, text, fold) <==>
            OccursAt(s, text, 0, fold) && Like(rest, text[|s|..], fold)
  {
    var pattern := EscapeEach(s) + rest;
    if s == [] {
      assert pattern == rest && text[0..] == text;
    } else {
      var tail := EscapeEach(s[1..]) + rest;
      assert pattern == Escaped(s[0]) + tail;
      if Special(s[0]) {
        assert pattern[0] == ESCAPE && pattern[1] == s[0] && pattern[2..] == tail;
      } else {
        assert pattern[0] == s[0] && pattern[1..] == tail;
      }
      if text != [] {
        EscapedPrefix(s[1..], rest, text[1..], fold);
        if |s| <= |text| {
          assert text[1..][|s[1..]|..] == text[|s|..];
        }
        assert OccursAt(s, text, 0, fold) <==> fold(s[0]) == fold(text[0]) && OccursAt(s[1..], text[1..], 0, fold) by {
          ShiftOccurrence(s, text, fold);
        }
      }
    }
  }

  lemma ShiftOccurrence(s: string, text: string, fold: char -> char)
    requires s != [] && text != []
    ensures OccursAt(s, text, 0, fold) <==> fold(s[0]) == fold(text[0]) && OccursAt(s[1..], text[1..], 0, fold)
  {
  }

  lemma {:induction false} PercentMatchesAll(text: string, fold: char -> char)
    ensures Like("%", text, fold)
  {
    if text != [] {
      PercentMatchesAll(text[1..], fold);
    } else {
      assert "%"[1..] == [];
    }
  }

  /** A leading % matches exactly when the rest of the pattern matches some suffix. */
  lemma {:induction false} PercentSkips(rest: string, text: string, fold: char -> char)
    ensures Like("%" + rest, text, fold) <==> exists at | 0 <= at <= |text| :: Like(rest, text[at..], fold)
  {
    var pattern := "%" + rest;
    assert pattern[0] == '%' && pattern[1..] == rest;
    assert text[0..] == text;
    if text != [] {
      PercentSkips(rest, text[1..], fold);
      forall at | 1 <= at <= |text| ensures text[at..] == text[1..][at - 1..] {}
      if exists at | 0 <= at <= |text[1..]| :: Like(rest, text[1..][at..], fold) {
        var at :| 0 <= at <= |text[1..]| && Like(rest, text[1..][at..], fold);
        assert text[at + 1..] == text[1..][at..];
      }
      if exists at | 1 <= at <= |text| :: Like(rest, text[at..], fold) {
        var at :| 1 <= at <= |text| && Like(rest, text[at..], fold);
        assert Like(rest, text[1..][at - 1..], fold);
      }
    }
  }

  /** The pattern the search builds from what the user typed. */
  function Pattern(typed: string): string {
    "%" + EscapeLike(typed) + "%"
  }

  /** The search finds exactly the texts that contain what was typed, wildcards and backslashes included. */
  lemma SearchIsSubstring(typed: string, text: string, fold: char -> char)
    ensures Like(Pattern(typed), text, fold) <==> exists at :: OccursAt(typed, text, at, fold)
  {
    var rest := EscapeEach(typed) + "%";
    EscapeIsOnePass(typed);
    assert Pattern(typed) == "%" + rest;
    PercentSkips(rest, text, fold);
    forall at | 0 <= at <= |text|
      ensures Like(rest, text[at..], fold) <==> OccursAt(typed, text, at, fold)
    {
      EscapedPrefix(typed, "%", text[at..], fold);
      SuffixOccurrence(typed, text, at, fold);
      if OccursAt(typed, text[at..], 0, fold) {
        PercentMatchesAll(text[at..][|typed|..], fold);
      }
    }
  }

  // ---- why the escaping, and why in that order ----

  /** Unescaped, an underscore finds every text there is, and a percent sign too. */
  lemma WildcardsFindEverything(text: string, fold: char -> char)
    ensures Like("%%%", text, fold)
    ensures Like("%_%", text, fold) <==> text != []
  {
    assert "%" + "%%" == "%%%" && "%" + "%" == "%%" && "%" + "_%" == "%_%" && "_%"[1..] == "%" && text[0..] == text;
    PercentMatchesAll(text, fold);
    PercentSkips("%", text, fold);
    PercentSkips("%%", text, fold);
    PercentSkips("_%", text, fold);
    if text != [] {
      PercentMatchesAll(text[1..], fold);
      assert Like("_%", text[0..], fold);
    }
  }

  /** With the backslash last its own pass would undo the escaping of the others. */
  lemma BackslashMustGoFirst()
    ensures Replace(Replace("%", '%', "\\%"), '\\', "\\\\") == "\\\\%" != EscapeLike("%")
  {
    ReplaceOne('%', '%', "\\%");
    assert "\\%" == ['\\'] + ['%'];
    ReplaceConcat(['\\'], ['%'], '\\', "\\\\");
    ReplaceOne('\\', '\\', "\\\\");
    ReplaceOne('%', '\\', "\\\\");
    EscapeFirst('%');
  }

  lemma SuffixOccurrence(s: string, text: string, at: nat, fold: char -> char)
    requires at <= |text|
    ensures OccursAt(s, text[at..], 0, fold) <==> OccursAt(s, text, at, fold)
  {
  }
}
