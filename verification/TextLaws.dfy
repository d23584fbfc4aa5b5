/** What the text stages of the sanitizer do in terms of characters and lines: which texts count as another language,
    as an announcement or as blank, what each cut keeps, and how many lines an intent allows
    (api/internal/completion/sanitizer/sanitizer.go:34-150, api/internal/completion/policy.go:78-95). */
module TextLaws {
  import opened Wrappers
  import opened GoStrings
  import opened Sanitizer

  // ---- characters

  /** The white-space code points (`unicode.IsSpace`). */
  const SPACES: set<int> :=
    {0x09, 0x0A, 0x0B, 0x0C, 0x0D, 0x20, 0x85, 0xA0, 0x1680, 0x2000, 0x2001, 0x2002, 0x2003, 0x2004, 0x2005, 0x2006,
     0x2007, 0x2008, 0x2009, 0x200A, 0x2028, 0x2029, 0x202F, 0x205F, 0x3000}

  function Byte(c: char): int {
    c as int
  }

  predicate Continues(c: char) {
    0x80 <= Byte(c) < 0xC0
  }

  /** White space is what the UTF-8 encodings of the white-space code points are. */
  lemma SpaceIsUnicodeSpace(a: char, b: char, c: char)
    ensures Byte(a) < 0x80 ==> (Space1(a) <==> Byte(a) in SPACES)
    ensures Space1(a) ==> Byte(a) < 0x80
    ensures 0xC2 <= Byte(a) < 0xE0 && Continues(b) ==>
              (Space2(a, b) <==> (Byte(a) - 0xC0) * 64 + (Byte(b) - 0x80) in SPACES)
    ensures Space2(a, b) ==> 0xC2 <= Byte(a) < 0xE0 && Continues(b)
    ensures 0xE1 <= Byte(a) < 0xF0 && Continues(b) && Continues(c) ==>
              (Space3(a, b, c)
               <==> (Byte(a) - 0xE0) * 4096 + (Byte(b) - 0x80) * 64 + (Byte(c) - 0x80) in SPACES)
    ensures Space3(a, b, c) ==> 0xE1 <= Byte(a) < 0xF0 && Continues(b) && Continues(c)
  {
  }

  /** The UTF-8 encoding of one white-space character. */
  predicate SpaceRune(r: string) {
    (|r| == 1 && Space1(r[0])) || (|r| == 2 && Space2(r[0], r[1])) || (|r| == 3 && Space3(r[0], r[1], r[2]))
  }

  lemma RuneAtStart(r: string, rest: string)
    requires SpaceRune(r)
    ensures SpaceAtStart(r + rest) > 0
  {
  }

  lemma RuneAtEnd(rest: string, r: string)
    requires SpaceRune(r)
    ensures SpaceAtEnd(rest + r) > 0
  {
  }

  lemma StartIsRune(s: string)
    requires SpaceAtStart(s) > 0
    ensures SpaceRune(s[..SpaceAtStart(s)])
  {
  }

  lemma EndIsRune(s: string)
    requires SpaceAtEnd(s) > 0
    ensures SpaceRune(s[|s| - SpaceAtEnd(s)..])
  {
  }

  lemma SpaceAtStartExactlyWhen(s: string)
    ensures SpaceAtStart(s) > 0 <==> exists r, rest :: SpaceRune(r) && s == r + rest
  {
    var n := SpaceAtStart(s);
    if n > 0 {
      StartIsRune(s);
      assert s == s[..n] + s[n..];
    }
    if r, rest :| SpaceRune(r) && s == r + rest { RuneAtStart(r, rest); }
  }

  lemma SpaceAtEndExactlyWhen(s: string)
    ensures SpaceAtEnd(s) > 0 <==> exists rest, r :: SpaceRune(r) && s == rest + r
  {
    var n := |s| - SpaceAtEnd(s);
    if n < |s| {
      EndIsRune(s);
      assert s == s[..n] + s[n..];
    }
    if rest, r :| SpaceRune(r) && s == rest + r { RuneAtEnd(rest, r); }
  }

  /** Trimming takes white-space characters off both ends ... */
  lemma TrimTakesSpaces(s: string, r: string)
    requires SpaceRune(r)
    ensures TrimLeft(r + s) == TrimLeft(s) && TrimRight(s + r) == TrimRight(s)
  {
    assert (r + s)[|r|..] == s && (s + r)[..|s|] == s;
  }

  /** ... as long as there are any, and nothing else. */
  lemma TrimTakesNothingElse(s: string)
    requires (forall r, rest :: SpaceRune(r) ==> s != r + rest) && (forall rest, r :: SpaceRune(r) ==> s != rest + r)
    ensures TrimSpace(s) == s
  {
    SpaceAtStartExactlyWhen(s);
    SpaceAtEndExactlyWhen(s);
  }

  /** Lower-casing changes the letters A to Z and nothing else. */
  lemma {:induction false} LowerIs(s: string)
    ensures |ToLower(s)| == |s|
    ensures forall i :: 0 <= i < |s| ==>
              Byte(ToLower(s)[i]) == if 65 <= Byte(s[i]) <= 90 then Byte(s[i]) + 32 else Byte(s[i])
  {
    if s != "" { LowerIs(s[1..]); }
  }

  lemma {:induction false} CrLfAfter(line: string, rest: string)
    requires '\r' !in line
    ensures ReplaceCrLf(line + rest) == line + ReplaceCrLf(rest)
  {
    if line == "" {
      assert line + rest == rest;
    } else {
      assert (line + rest)[1..] == line[1..] + rest;
      CrLfAfter(line[1..], rest);
      assert line == [line[0]] + line[1..];
    }
  }

  lemma {:induction false} CrAfter(line: string, rest: string)
    requires '\r' !in line
    ensures ReplaceCr(line + rest) == line + ReplaceCr(rest)
  {
    if line == "" {
      assert line + rest == rest;
    } else {
      assert (line + rest)[1..] == line[1..] + rest;
      CrAfter(line[1..], rest);
      assert line == [line[0]] + line[1..];
    }
  }

  /** A line ended by a carriage return, a line feed, or both, is that line and one line feed. */
  lemma LineEndIsNormalized(line: string, end: string, rest: string)
    requires '\r' !in line && end in {"\n", "\r\n", "\r"} && (end == "\r" && rest != "" ==> rest[0] != '\n')
    ensures Normalize(line + (end + rest)) == line + ("\n" + Normalize(rest))
  {
    CrLfAfter(line, end + rest);
    CrAfter(line, ReplaceCrLf(end + rest));
    if end == "\r\n" {
      assert (end + rest)[2..] == rest;
      assert ("\n" + ReplaceCrLf(rest))[1..] == ReplaceCrLf(rest);
    } else {
      assert (end + rest)[1..] == rest;
      assert ([end[0]] + ReplaceCrLf(rest))[1..] == ReplaceCrLf(rest);
    }
  }

  // ---- words

  /** The texts that open, after white space and in any case, with `word`. */
  ghost predicate OpensWith(text: string, word: string) {
    exists rest :: ToLower(TrimSpace(text)) == word + rest
  }

  /** What no completion in the language opens with; each group of languages has its own words. */
  function ForeignWords(language: string): set<string> {
    if ToLower(language) in {"typescript", "typescriptreact", "javascript", "javascriptreact"}
    then {"def ", "package main", "func "}
    else if ToLower(language) == "python" then {"package main", "func ", "const "}
    else if ToLower(language) == "go" then {"def ", "import {"}
    else {}
  }

  ghost predicate Foreign(language: string, text: string) {
    exists word :: word in ForeignWords(language) && OpensWith(text, word)
  }

  lemma OpensExactlyWhen(text: string, word: string)
    ensures OpensWith(text, word) <==> HasPrefix(ToLower(TrimSpace(text)), word)
  {
    var lower := ToLower(TrimSpace(text));
    if HasPrefix(lower, word) { assert lower == word + lower[|word|..]; }
  }

  /** A text is refused exactly when it opens with a word foreign to the language. */
  lemma RefusedExactlyWhenForeign(language: string, text: string)
    ensures WrongLanguage(language, text) <==> Foreign(language, text)
  {
    forall word ensures OpensWith(text, word) <==> HasPrefix(ToLower(TrimSpace(text)), word) {
      OpensExactlyWhen(text, word);
    }
    if WrongLanguage(language, text) {
      var word :| word in ForeignWords(language) && HasPrefix(ToLower(TrimSpace(text)), word);
      assert OpensWith(text, word);
    }
  }

  const ANNOUNCEMENTS: set<string> :=
    {"here is the completion:", "the code should be:", "you can use:", "completion:", "typescript:", "typescript"}

  lemma AnnouncesExactlyWhen(line: string)
    ensures Announces(line) <==> ToLower(TrimSpace(line)) in ANNOUNCEMENTS
  {
  }

  /** A first line that only announces the completion comes off, whatever its case and the white space around it; no
      other line does. */
  lemma AnnouncementComesOff(line: string, rest: string)
    requires '\n' !in line
    ensures StripExplanation(line + "\n" + rest)
            == if ToLower(TrimSpace(line)) in ANNOUNCEMENTS then rest else line + "\n" + rest
    ensures StripExplanation(line) == line
  {
    SplitFirst(line, rest);
    JoinSplit(rest);
    AnnouncesExactlyWhen(line);
    assert ([line] + Split(rest))[1..] == Split(rest);
  }

  // ---- lines

  /** How many lines an intent allows, whatever the configuration. */
  predicate IntentAllows(intent: string, lines: nat) {
    && (intent in {"member-access", "function-arguments", "tailwind-class", "import", "condition-expression"} ==>
          lines <= 1)
    && (intent == "component-props" ==> lines <= 2)
    && (intent == "object-fields" ==> lines <= 8)
    && (intent == "type-definition" ==> lines <= 12)
  }

  lemma LimitIsConfiguredAndIntents(intent: string, configured: int, lines: nat)
    ensures lines <= MaxLinesForIntent(intent, configured) <==> lines <= configured && IntentAllows(intent, lines)
  {
  }

  function NotBlank(blank: Blankness, lines: seq<string>): seq<string> {
    if lines == [] then []
    else (if blank(lines[0]) then [] else [lines[0]]) + NotBlank(blank, lines[1..])
  }

  lemma {:induction false} NotBlankOfBoth(blank: Blankness, a: seq<string>, b: seq<string>)
    ensures NotBlank(blank, a + b) == NotBlank(blank, a) + NotBlank(blank, b)
  {
    if a == [] {
      assert a + b == b;
    } else {
      assert (a + b)[1..] == a[1..] + b;
      NotBlankOfBoth(blank, a[1..], b);
    }
  }

  lemma {:induction false} LeadingAreBlank(blank: Blankness, lines: seq<string>)
    ensures NotBlank(blank, DropLeadingBlank(blank, lines)) == NotBlank(blank, lines)
    decreases |lines|
  {
    if lines != [] && blank(lines[0]) { LeadingAreBlank(blank, lines[1..]); }
  }

  lemma {:induction false} TrailingAreBlank(blank: Blankness, lines: seq<string>)
    ensures NotBlank(blank, DropTrailingBlank(blank, lines)) == NotBlank(blank, lines)
    decreases |lines|
  {
    if lines != [] && blank(lines[|lines| - 1]) {
      TrailingAreBlank(blank, lines[..|lines| - 1]);
      NotBlankOfBoth(blank, lines[..|lines| - 1], [lines[|lines| - 1]]);
      assert lines == lines[..|lines| - 1] + [lines[|lines| - 1]];
    }
  }

  lemma {:induction false} CollapsedAreBlank(blank: Blankness, lines: seq<string>, afterBlank: bool)
    ensures NotBlank(blank, CollapseLines(blank, lines, afterBlank)) == NotBlank(blank, lines)
    decreases |lines|
  {
    if lines != [] {
      CollapsedAreBlank(blank, lines[1..], blank(lines[0]));
      if !blank(lines[0]) {
        var out := CollapseLines(blank, lines, afterBlank);
        assert out[1..] == CollapseLines(blank, lines[1..], false);
      } else if !afterBlank {
        var out := CollapseLines(blank, lines, afterBlank);
        assert out[1..] == CollapseLines(blank, lines[1..], true);
      } else {
        assert CollapseLines(blank, lines, afterBlank) == CollapseLines(blank, lines[1..], true);
      }
    }
  }

  /** Trimming and collapsing lose no line that is not blank. */
  lemma OnlyBlankLinesGo(blank: Blankness, lines: seq<string>)
    ensures NotBlank(blank, TrimLines(blank, lines)) == NotBlank(blank, lines)
    ensures NotBlank(blank, CollapseLines(blank, lines, false)) == NotBlank(blank, lines)
  {
    LeadingAreBlank(blank, lines);
    TrailingAreBlank(blank, DropLeadingBlank(blank, lines));
    CollapsedAreBlank(blank, lines, false);
  }

  // ---- cuts

  /** The first lines of a text are a prefix of it that ends before a line break, or all of it. */
  lemma {:induction false} FirstLinesArePrefix(s: string, k: nat)
    requires 1 <= k <= |Split(s)|
    ensures var out := Join(Split(s)[..k]);
            out <= s && (|out| == |s| <==> k == |Split(s)|) && (|out| < |s| ==> s[|out|] == '\n')
  {
    if s != "" {
      var rest := Split(s[1..]);
      if s[0] == '\n' {
        if k == 1 {
          assert Split(s)[..1] == [""];
        } else {
          FirstLinesArePrefix(s[1..], k - 1);
          assert Split(s)[..k] == [""] + rest[..k - 1];
          assert ([""] + rest[..k - 1])[1..] == rest[..k - 1];
        }
      } else {
        FirstLinesArePrefix(s[1..], k);
        var head := [s[0]] + rest[0];
        assert Split(s)[..k] == [head] + rest[..k][1..];
        assert ([head] + rest[..k][1..])[1..] == rest[..k][1..];
      }
    }
  }

  lemma {:induction false} LastNewlineIs(s: string)
    ensures match LastNewline(s)
            case None => '\n' !in s
            case Some(i) => s[i] == '\n' && '\n' !in s[i + 1..]
  {
    if s != "" && s[|s| - 1] != '\n' {
      LastNewlineIs(s[..|s| - 1]);
      if LastNewline(s).Some? {
        var i := LastNewline(s).value;
        assert s[i + 1..] == s[..|s| - 1][i + 1..] + [s[|s| - 1]];
      }
    }
  }

  /** The line limit keeps the first `max` lines, whole; the limit of `maxBytes` then keeps all of a shorter text, and
      of a longer one what comes before the last line break within the limit, or the first `maxBytes` bytes when there
      is none but perhaps at the very start. */
  lemma CutsKeepTheStart(s: string, max: int, maxBytes: nat)
    requires max >= 1
    ensures var out := LimitLines(s, max);
            && out <= s && (out == s <==> |Split(s)| <= max) && (out != s ==> s[|out|] == '\n')
            && |Split(out)| == if |Split(s)| <= max then |Split(s)| else max
    ensures var out, n := LimitChars(s, maxBytes), |LimitChars(s, maxBytes)|;
            && out <= s && n <= maxBytes && (out == s <==> |s| <= maxBytes)
            && (out != s && n < maxBytes ==> n > 0 && s[n] == '\n' && '\n' !in s[n + 1..maxBytes])
            && (out != s && n == maxBytes >= 1 ==> '\n' !in s[1..maxBytes])
  {
    LimitedLines(s, max);
    JoinSplit(s);
    FirstLinesArePrefix(s, if |Split(s)| > max then max else |Split(s)|);
    assert Split(s)[..|Split(s)|] == Split(s);
    if |s| > maxBytes {
      LastNewlineIs(s[..maxBytes]);
      if LastNewline(s[..maxBytes]).Some? {
        var i := LastNewline(s[..maxBytes]).value;
        assert s[i + 1..maxBytes] == s[..maxBytes][i + 1..];
        if i == 0 && maxBytes >= 1 { assert s[1..maxBytes] == s[..maxBytes][1..]; }
      } else if maxBytes >= 1 {
        assert s[1..maxBytes] == s[..maxBytes][1..];
      }
    }
  }
}
