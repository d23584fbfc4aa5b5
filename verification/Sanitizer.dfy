/** The completion sanitizer (api/internal/completion/sanitizer/sanitizer.go:17-150) and the line policy
    (api/internal/completion/policy.go:78-93). */
module Sanitizer {
  import opened Wrappers
  import opened GoStrings

  datatype Config = Config(maxLines: int, maxChars: nat)
  datatype Request = Request(prefix: string, suffix: string, language: string, intent: string)

  function MinInt(a: int, b: int): int {
    if a < b then a else b
  }

  // ---- policy

  function MaxLinesForIntent(intent: string, configured: int): int {
    if intent == "member-access" || intent == "function-arguments" || intent == "tailwind-class"
       || intent == "import" || intent == "condition-expression" then MinInt(configured, 1)
    else if intent == "component-props" then MinInt(configured, 2)
    else if intent == "object-fields" then MinInt(configured, 8)
    else if intent == "type-definition" then MinInt(configured, 12)
    else configured
  }

  predicate SingleLineIntent(intent: string) {
    MaxLinesForIntent(intent, 2) == 1
  }

  /** A single-line intent is exactly one that every configuration of at least one line limits to one line. */
  lemma SingleLineMeansOneLine(intent: string)
    ensures SingleLineIntent(intent)
            <==> forall configured :: configured >= 1 ==> MaxLinesForIntent(intent, configured) == 1
  {
    if !SingleLineIntent(intent) { assert MaxLinesForIntent(intent, 2) != 1; }
  }

  // ---- stages

  function WrongLanguage(language: string, text: string): bool {
    var lower, l := ToLower(TrimSpace(text)), ToLower(language);
    if l == "typescript" || l == "typescriptreact" || l == "javascript" || l == "javascriptreact" then
      HasPrefix(lower, "def ") || HasPrefix(lower, "package main") || HasPrefix(lower, "func ")
    else if l == "python" then
      HasPrefix(lower, "package main") || HasPrefix(lower, "func ") || HasPrefix(lower, "const ")
    else if l == "go" then HasPrefix(lower, "def ") || HasPrefix(lower, "import {")
    else false
  }

  /** What stands between the fences of a text that opens with one. */
  function InsideFence(t: string): string {
    match Index(t, "\n")
    case None => ""
    case Some(first) =>
      var rest := t[first + 1..];
      match Index(rest, "\n```")
      case Some(end) => rest[..end]
      case None => TrimSuffix(rest, "```")
  }

  function StripFence(s: string): string {
    if !HasPrefix(TrimSpace(s), "```") then TrimSuffix(s, "\n```") else InsideFence(TrimSpace(s))
  }

  /** Whether a first line only announces the completion. */
  predicate Announces(line: string) {
    var first := ToLower(TrimSpace(line));
    first == "here is the completion:" || first == "the code should be:" || first == "you can use:"
    || first == "completion:" || first == "typescript:" || first == "typescript"
  }

  function StripExplanation(s: string): string {
    var lines := Split(s);
    if |lines| > 1 && Announces(lines[0]) then Join(lines[1..]) else s
  }

  // The stages on lines are written for any notion of a blank line; the pipeline uses `Blank`.

  type Blankness = string -> bool

  function DropLeadingBlank(blank: Blankness, lines: seq<string>): seq<string>
    decreases |lines|
  {
    if lines != [] && blank(lines[0]) then DropLeadingBlank(blank, lines[1..]) else lines
  }

  function DropTrailingBlank(blank: Blankness, lines: seq<string>): seq<string>
    decreases |lines|
  {
    if lines != [] && blank(lines[|lines| - 1]) then DropTrailingBlank(blank, lines[..|lines| - 1]) else lines
  }

  function TrimLines(blank: Blankness, lines: seq<string>): seq<string> {
    DropTrailingBlank(blank, DropLeadingBlank(blank, lines))
  }

  function TrimBlankLines(blank: Blankness, s: string): string {
    Join(TrimLines(blank, Split(s)))
  }

  /** Blank lines after a blank line are left out. */
  function CollapseLines(blank: Blankness, lines: seq<string>, afterBlank: bool): seq<string>
    decreases |lines|
  {
    if lines == [] then []
    else if blank(lines[0]) then
      (if afterBlank then [] else [lines[0]]) + CollapseLines(blank, lines[1..], true)
    else [lines[0]] + CollapseLines(blank, lines[1..], false)
  }

  function CollapseBlankLines(blank: Blankness, s: string): string {
    Join(CollapseLines(blank, Split(s), false))
  }

  /** The longest `i` up to `n` for which the end of `a` is the start of `b`; at least `least`, otherwise 0. */
  function LongestOverlap(a: string, b: string, n: nat, least: nat): (i: nat)
    requires n <= |a| && n <= |b|
    ensures i <= n
  {
    if n < least || n == 0 then 0
    else if a[|a| - n..] == b[..n] then n
    else LongestOverlap(a, b, n - 1, least)
  }

  function OverlapLimit(a: string, b: string): nat {
    MinInt(1000, MinInt(|a|, |b|))
  }

  function Overlap(a: string, b: string): (n: nat)
    ensures n <= |a| && n <= |b|
  {
    LongestOverlap(a, b, OverlapLimit(a, b), 1)
  }

  function RemovePrefixOverlap(prefix: string, text: string): string {
    var n := Overlap(prefix, text);
    if n == 0 then text else TrimPrefix(text[n..], " ")
  }

  function SuffixOverlap(text: string, suffix: string): (n: nat)
    ensures n <= |text| && n <= |suffix|
  {
    LongestOverlap(text, suffix, OverlapLimit(text, suffix), 2)
  }

  function RemoveSuffixOverlap(text: string, suffix: string): string {
    text[..|text| - SuffixOverlap(text, suffix)]
  }

  function LimitLines(s: string, max: int): string {
    if max < 1 then ""
    else
      var lines := Split(s);
      Join(if |lines| > max then lines[..max] else lines)
  }

  function LimitChars(s: string, max: nat): string {
    if |s| <= max then s
    else
      match LastNewline(s[..max])
      case Some(cut) => if cut > 0 then s[..cut] else s[..max]
      case None => s[..max]
  }

  /** The tail of the pipeline, from the last trim on. */
  function Tidy(blank: Blankness, s: string, maxLines: int, maxChars: nat): string {
    TrimBlankLines(blank, LimitChars(LimitLines(Collapsed(blank, s), maxLines), maxChars))
  }

  function Collapsed(blank: Blankness, s: string): string {
    CollapseBlankLines(blank, TrimBlankLines(blank, s))
  }

  /** What the tail works on. */
  function Core(q: Request, raw: string): string {
    var text := TrimBlankLines(Blank, StripExplanation(StripFence(Normalize(raw))));
    RemoveSuffixOverlap(RemovePrefixOverlap(Normalize(q.prefix), text), Normalize(q.suffix))
  }

  function Sanitize(config: Config, q: Request, raw: string): string {
    if WrongLanguage(q.language, Collapsed(Blank, Core(q, raw))) then ""
    else Tidy(Blank, Core(q, raw), MaxLinesForIntent(q.intent, config.maxLines), config.maxChars)
  }

  // ---- the loops

  method TrimBlankLinesLoop(blank: Blankness, s: string) returns (out: string)
    ensures out == TrimBlankLines(blank, s)
  {
    var lines := Split(s);
    while |lines| > 0 && blank(lines[0])
      invariant DropLeadingBlank(blank, lines) == DropLeadingBlank(blank, Split(s))
    {
      lines := lines[1..];
    }
    while |lines| > 0 && blank(lines[|lines| - 1])
      invariant DropTrailingBlank(blank, lines) == TrimLines(blank, Split(s))
    {
      lines := lines[..|lines| - 1];
    }
    return Join(lines);
  }

  lemma CollapseNext(blank: Blankness, lines: seq<string>, i: nat, afterBlank: bool, out: seq<string>)
    requires i < |lines|
    ensures out + CollapseLines(blank, lines[i..], afterBlank)
            == (if blank(lines[i]) && afterBlank then out else out + [lines[i]])
               + CollapseLines(blank, lines[i + 1..], blank(lines[i]))
  {
    assert lines[i..][0] == lines[i] && lines[i..][1..] == lines[i + 1..];
  }

  method CollapseBlankLinesLoop(blank: Blankness, s: string) returns (text: string)
    ensures text == CollapseBlankLines(blank, s)
  {
    var lines := Split(s);
    var out: seq<string> := [];
    var blanks := 0;
    for i := 0 to |lines|
      invariant blanks >= 0
      invariant out + CollapseLines(blank, lines[i..], blanks > 0) == CollapseLines(blank, lines, false)
    {
      CollapseNext(blank, lines, i, blanks > 0, out);
      if blank(lines[i]) {
        blanks := blanks + 1;
        if blanks > 1 { continue; }
      } else {
        blanks := 0;
      }
      out := out + [lines[i]];
    }
    assert lines[|lines|..] == [] && out + [] == out;
    return Join(out);
  }

  method OverlapLoop(a: string, b: string) returns (n: nat)
    ensures n == Overlap(a, b)
  {
    var i := OverlapLimit(a, b);
    while i >= 1
      invariant 0 <= i <= OverlapLimit(a, b)
      invariant LongestOverlap(a, b, i, 1) == Overlap(a, b)
    {
      if a[|a| - i..] == b[..i] { return i; }
      i := i - 1;
    }
    return 0;
  }

  method RemoveSuffixOverlapLoop(text: string, suffix: string) returns (out: string)
    ensures out == RemoveSuffixOverlap(text, suffix)
  {
    var i := OverlapLimit(text, suffix);
    while i >= 2
      invariant 0 <= i <= OverlapLimit(text, suffix)
      invariant LongestOverlap(text, suffix, i, 2) == SuffixOverlap(text, suffix)
    {
      if text[|text| - i..] == suffix[..i] { return text[..|text| - i]; }
      i := i - 1;
    }
    return text;
  }

  method SanitizeText(config: Config, q: Request, raw: string) returns (out: string)
    ensures out == Sanitize(config, q, raw)
  {
    var text := Normalize(raw);
    var prefix, suffix := Normalize(q.prefix), Normalize(q.suffix);
    text := StripFence(text);
    text := StripExplanation(text);
    text := TrimBlankLinesLoop(Blank, text);
    var n := OverlapLoop(prefix, text);
    if n != 0 { text := TrimPrefix(text[n..], " "); }
    text := RemoveSuffixOverlapLoop(text, suffix);
    text := TrimBlankLinesLoop(Blank, text);
    text := CollapseBlankLinesLoop(Blank, text);
    if WrongLanguage(q.language, text) { return ""; }
    text := LimitLines(text, MaxLinesForIntent(q.intent, config.maxLines));
    text := LimitChars(text, config.maxChars);
    out := TrimBlankLinesLoop(Blank, text);
  }

  // ---- overlaps

  /** The end of `a` of length `n` is the start of `b`. */
  predicate Overlaps(a: string, b: string, n: nat) {
    n <= |a| && n <= |b| && a[|a| - n..] == b[..n]
  }

  lemma {:induction false} LongestOverlapIsLongest(a: string, b: string, n: nat, least: nat)
    requires n <= |a| && n <= |b| && least >= 1
    ensures var i := LongestOverlap(a, b, n, least);
            && (i > 0 ==> i >= least && Overlaps(a, b, i))
            && forall m :: least <= m <= n && Overlaps(a, b, m) ==> m <= i
  {
    if n >= least && a[|a| - n..] != b[..n] { LongestOverlapIsLongest(a, b, n - 1, least); }
  }

  lemma DroppedSpace(prefix: string, tail: string)
    ensures prefix + TrimPrefix(tail, " ") == prefix + tail || prefix + " " + TrimPrefix(tail, " ") == prefix + tail
  {
    if " " <= tail {
      assert tail == " " + tail[1..];
      assert prefix + " " + tail[1..] == prefix + (" " + tail[1..]);
    }
  }

  lemma PrefixOverlapIsLongest(prefix: string, text: string)
    ensures Overlaps(prefix, text, Overlap(prefix, text))
    ensures forall m: nat :: m <= 1000 && Overlaps(prefix, text, m) ==> m <= Overlap(prefix, text)
  {
    LongestOverlapIsLongest(prefix, text, OverlapLimit(prefix, text), 1);
  }

  /** Prepending the prefix to the text without an overlap of length `n`, perhaps without one space after it. */
  lemma MergedWithoutSpace(prefix: string, text: string, n: nat)
    requires Overlaps(prefix, text, n)
    ensures var out := TrimPrefix(text[n..], " ");
            || prefix + out == prefix[..|prefix| - n] + text
            || prefix + " " + out == prefix[..|prefix| - n] + text
  {
    Merged(prefix, text, n);
    DroppedSpace(prefix, text[n..]);
  }

  /** The prefix overlap is the longest one of at most 1000 bytes, and dropping it from the text and prepending
      the prefix merges the two on it, up to one space that may be dropped after it. */
  lemma PrefixOverlapMerges(prefix: string, text: string)
    ensures Overlaps(prefix, text, Overlap(prefix, text))
    ensures forall m: nat :: m <= 1000 && Overlaps(prefix, text, m) ==> m <= Overlap(prefix, text)
    ensures var n, out := Overlap(prefix, text), RemovePrefixOverlap(prefix, text);
            || prefix + out == prefix[..|prefix| - n] + text
            || (n > 0 && prefix + " " + out == prefix[..|prefix| - n] + text)
  {
    PrefixOverlapIsLongest(prefix, text);
    if Overlap(prefix, text) == 0 {
      assert prefix[..|prefix|] == prefix;
    } else {
      MergedWithoutSpace(prefix, text, Overlap(prefix, text));
    }
  }

  /** Two ways to merge texts on an overlap. */
  lemma Merged(a: string, b: string, n: nat)
    requires Overlaps(a, b, n)
    ensures a + b[n..] == a[..|a| - n] + b
  {
    assert a == a[..|a| - n] + b[..n];
    assert b == b[..n] + b[n..];
    assert a[..|a| - n] + b[..n] + b[n..] == a[..|a| - n] + (b[..n] + b[n..]);
  }

  /** The same on the other side, with overlaps of at least two bytes and nothing else dropped. */
  lemma SuffixOverlapMerges(text: string, suffix: string)
    ensures var n, out := SuffixOverlap(text, suffix), RemoveSuffixOverlap(text, suffix);
            && (n == 0 || (2 <= n && Overlaps(text, suffix, n)))
            && out + suffix == text + suffix[n..]
    ensures forall m: nat :: 2 <= m <= 1000 && Overlaps(text, suffix, m) ==> m <= SuffixOverlap(text, suffix)
  {
    LongestOverlapIsLongest(text, suffix, OverlapLimit(text, suffix), 2);
    Merged(text, suffix, SuffixOverlap(text, suffix));
  }

  // ---- lines in normal form

  predicate NoAdjacentBlanks(blank: Blankness, lines: seq<string>) {
    forall i :: 0 <= i < |lines| - 1 ==> !(blank(lines[i]) && blank(lines[i + 1]))
  }

  predicate BlankFreeEnds(blank: Blankness, lines: seq<string>) {
    lines != [] ==> !blank(lines[0]) && !blank(lines[|lines| - 1])
  }

  /** Empty, or lines with text at both ends and no two blank lines in a row, within the limits. */
  ghost predicate Tidied(blank: Blankness, s: string, maxLines: int, maxChars: nat) {
    s == "" ||
    (BlankFreeEnds(blank, Split(s)) && NoAdjacentBlanks(blank, Split(s)) && |Split(s)| <= maxLines && |s| <= maxChars)
  }

  lemma {:induction false} LeadingDropped(blank: Blankness, lines: seq<string>) returns (i: nat)
    ensures i <= |lines| && DropLeadingBlank(blank, lines) == lines[i..] && (i < |lines| ==> !blank(lines[i]))
  {
    i := 0;
    if lines != [] && blank(lines[0]) {
      var j := LeadingDropped(blank, lines[1..]);
      i := j + 1;
      assert lines[1..][j..] == lines[i..];
    }
  }

  lemma {:induction false} TrailingDropped(blank: Blankness, lines: seq<string>) returns (n: nat)
    ensures n <= |lines| && DropTrailingBlank(blank, lines) == lines[..n] && (n > 0 ==> !blank(lines[n - 1]))
    ensures lines != [] && !blank(lines[0]) ==> n > 0
    ensures lines != [] && !blank(lines[|lines| - 1]) ==> n == |lines|
  {
    n := |lines|;
    if lines != [] && blank(lines[|lines| - 1]) {
      n := TrailingDropped(blank, lines[..|lines| - 1]);
      assert lines[..|lines| - 1][..n] == lines[..n];
    } else {
      assert lines[..n] == lines;
    }
  }

  /** Trimming keeps a stretch of the lines with text at both ends. */
  lemma TrimmedIsSlice(blank: Blankness, lines: seq<string>) returns (i: nat, j: nat)
    ensures i <= j <= |lines| && TrimLines(blank, lines) == lines[i..j]
    ensures BlankFreeEnds(blank, lines[i..j])
  {
    i := LeadingDropped(blank, lines);
    var n := TrailingDropped(blank, lines[i..]);
    j := i + n;
    assert lines[i..][..n] == lines[i..j];
    if n > 0 { assert lines[i..][n - 1] == lines[i..j][n - 1] && lines[i..][0] == lines[i]; }
  }

  lemma TrimKeepsTrimmed(blank: Blankness, lines: seq<string>)
    requires BlankFreeEnds(blank, lines)
    ensures TrimLines(blank, lines) == lines
  {
    if lines != [] {
      assert DropLeadingBlank(blank, lines) == lines;
      assert DropTrailingBlank(blank, lines) == lines;
    }
  }

  lemma PrependKeepsApart(blank: Blankness, first: string, rest: seq<string>)
    requires NoAdjacentBlanks(blank, rest)
    requires blank(first) && rest != [] ==> !blank(rest[0])
    ensures NoAdjacentBlanks(blank, [first] + rest)
  {
    var out := [first] + rest;
    forall i | 0 <= i < |out| - 1 ensures !(blank(out[i]) && blank(out[i + 1])) {
      if i > 0 { assert out[i] == rest[i - 1] && out[i + 1] == rest[i]; }
    }
  }

  lemma {:induction false} CollapsedShape(blank: Blankness, lines: seq<string>, afterBlank: bool)
    ensures var out := CollapseLines(blank, lines, afterBlank);
            && NoAdjacentBlanks(blank, out)
            && (afterBlank && out != [] ==> !blank(out[0]))
            && (lines != [] && !blank(lines[0]) ==> out != [] && out[0] == lines[0])
            && (lines != [] && !blank(lines[|lines| - 1]) ==> out != [] && out[|out| - 1] == lines[|lines| - 1])
            && IsSublist(out, lines)
  {
    if lines != [] {
      CollapsedShape(blank, lines[1..], blank(lines[0]));
      var out, rest := CollapseLines(blank, lines, afterBlank), CollapseLines(blank, lines[1..], blank(lines[0]));
      if blank(lines[0]) && afterBlank {
        assert out == rest;
      } else {
        assert out == [lines[0]] + rest && out[1..] == rest;
        PrependKeepsApart(blank, lines[0], rest);
      }
      if |lines| > 1 { assert lines[1..][|lines| - 2] == lines[|lines| - 1]; }
    }
  }

  lemma {:induction false} CollapseKeepsCollapsed(blank: Blankness, lines: seq<string>, afterBlank: bool)
    requires NoAdjacentBlanks(blank, lines) && (afterBlank && lines != [] ==> !blank(lines[0]))
    ensures CollapseLines(blank, lines, afterBlank) == lines
  {
    if lines != [] {
      forall i | 0 <= i < |lines[1..]| - 1 ensures !(blank(lines[1..][i]) && blank(lines[1..][i + 1])) {
        assert !(blank(lines[i + 1]) && blank(lines[i + 1 + 1]));
      }
      if |lines| > 1 { assert lines[1..][0] == lines[1] && !(blank(lines[0]) && blank(lines[0 + 1])); }
      CollapseKeepsCollapsed(blank, lines[1..], blank(lines[0]));
    }
  }

  lemma {:induction false} SublistLines(a: seq<string>, b: seq<string>)
    requires IsSublist(a, b) && Lines(b)
    ensures Lines(a)
    decreases |b|
  {
    if a != [] {
      if a[0] == b[0] && IsSublist(a[1..], b[1..]) {
        SublistLines(a[1..], b[1..]);
        assert forall i :: 0 < i < |a| ==> a[i] == a[1..][i - 1];
      } else {
        SublistLines(a, b[1..]);
      }
    }
  }

  /** The lines of a trimmed text. */
  lemma TrimmedText(blank: Blankness, s: string)
    ensures var out, lines := TrimBlankLines(blank, s), TrimLines(blank, Split(s));
            && (lines == [] ==> out == "")
            && (lines != [] ==> Split(out) == lines && BlankFreeEnds(blank, lines))
            && IsSubsequence(out, s)
  {
    var i, j := TrimmedIsSlice(blank, Split(s));
    SplitLines(s);
    JoinSplit(s);
    SliceIsSublist(Split(s), i, j);
    SublistJoins(Split(s)[i..j], Split(s));
    if i < j {
      SublistLines(Split(s)[i..j], Split(s));
      SplitJoin(Split(s)[i..j]);
    }
  }

  /** The lines of a collapsed text. */
  lemma CollapsedLines(blank: Blankness, s: string)
    ensures var out, lines := CollapseBlankLines(blank, s), CollapseLines(blank, Split(s), false);
            && Split(out) == (if lines == [] then [""] else lines)
            && IsSubsequence(out, s)
  {
    var lines := CollapseLines(blank, Split(s), false);
    CollapsedShape(blank, Split(s), false);
    SplitLines(s);
    JoinSplit(s);
    SublistLines(lines, Split(s));
    SublistJoins(lines, Split(s));
    if lines != [] { SplitJoin(lines); }
  }

  lemma CollapsedEnds(blank: Blankness, lines: seq<string>)
    requires lines != [] && BlankFreeEnds(blank, lines)
    ensures BlankFreeEnds(blank, CollapseLines(blank, lines, false)) && CollapseLines(blank, lines, false) != []
  {
    CollapsedShape(blank, lines, false);
  }

  lemma CollapsedNoAdjacent(blank: Blankness, lines: seq<string>)
    ensures NoAdjacentBlanks(blank, CollapseLines(blank, lines, false))
  {
    CollapsedShape(blank, lines, false);
  }

  lemma CollapsedTrimmed(blank: Blankness, t: string)
    requires t == "" || BlankFreeEnds(blank, Split(t))
    ensures var out := CollapseBlankLines(blank, t);
            && NoAdjacentBlanks(blank, Split(out))
            && (out == "" || BlankFreeEnds(blank, Split(out)))
            && IsSubsequence(out, t)
  {
    CollapsedNoAdjacent(blank, Split(t));
    CollapsedLines(blank, t);
    if t == "" { SubsequenceLength(CollapseBlankLines(blank, t), t); }
    else { CollapsedEnds(blank, Split(t)); }
  }

  /** Trimming and collapsing leaves an empty text or one with text at both ends and no two blank lines in a row. */
  lemma CollapsedText(blank: Blankness, s: string)
    ensures var out := Collapsed(blank, s);
            && NoAdjacentBlanks(blank, Split(out))
            && (out == "" || BlankFreeEnds(blank, Split(out)))
            && IsSubsequence(out, s)
  {
    TrimmedText(blank, s);
    CollapsedTrimmed(blank, TrimBlankLines(blank, s));
    SubsequenceTrans(Collapsed(blank, s), TrimBlankLines(blank, s), s);
  }

  /** A limit of lines keeps the first ones. */
  lemma LimitedLines(s: string, max: int)
    requires max >= 1
    ensures var out, lines := LimitLines(s, max), Split(s);
            Split(out) == (if |lines| > max then lines[..max] else lines) && IsSubsequence(out, s)
  {
    var lines := Split(s);
    var kept := if |lines| > max then lines[..max] else lines;
    SplitLines(s);
    JoinSplit(s);
    SplitJoin(kept);
    assert kept == lines[..|kept|];
    PrefixIsSublist(lines, |kept|);
    SublistJoins(kept, lines);
  }

  lemma LimitedChars(s: string, max: nat)
    ensures var out := LimitChars(s, max);
            && out <= s && |out| <= max
            && IsSubsequence(out, s)
            && (|s| <= max ==> out == s)
  {
    SliceIsSubsequence(s, 0, |LimitChars(s, max)|);
    assert s[0..|LimitChars(s, max)|] == LimitChars(s, max);
  }

  /** A stretch of the lines of a cut text, with text at both ends, has no two blank lines in a row: only its last
      line can differ from the lines of the whole. */
  lemma SliceOfCut(blank: Blankness, cut: seq<string>, all: seq<string>, i: nat, j: nat)
    requires LinesOfPrefix(cut, all) && NoAdjacentBlanks(blank, all)
    requires i < j <= |cut| && BlankFreeEnds(blank, cut[i..j])
    ensures NoAdjacentBlanks(blank, cut[i..j])
  {
    var lines := cut[i..j];
    forall k | 0 <= k < |lines| - 1 ensures !(blank(lines[k]) && blank(lines[k + 1])) {
      assert lines[k] == all[i + k];
      if i + k + 1 < |cut| - 1 {
        assert lines[k + 1] == all[i + k + 1];
      } else {
        assert k + 1 == |lines| - 1;
      }
    }
  }

  /** Cutting a text short and trimming it again keeps the normal form. */
  lemma CutText(blank: Blankness, s: string, n: nat)
    requires n <= |s| && NoAdjacentBlanks(blank, Split(s))
    ensures var out := TrimBlankLines(blank, s[..n]);
            && (out == "" || (BlankFreeEnds(blank, Split(out)) && NoAdjacentBlanks(blank, Split(out))))
            && |Split(out)| <= |Split(s)|
  {
    PrefixLines(s, n);
    TrimmedText(blank, s[..n]);
    var i, j := TrimmedIsSlice(blank, Split(s[..n]));
    if i < j { SliceOfCut(blank, Split(s[..n]), Split(s), i, j); }
  }

  // ---- the guarantees

  /** The tail's result is in normal form and a subsequence of what it was given. */
  lemma TidyTidies(blank: Blankness, s: string, maxLines: int, maxChars: nat)
    requires maxLines >= 1
    ensures Tidied(blank, Tidy(blank, s, maxLines, maxChars), maxLines, maxChars)
    ensures |Tidy(blank, s, maxLines, maxChars)| <= maxChars
    ensures IsSubsequence(Tidy(blank, s, maxLines, maxChars), s)
  {
    var collapsed := Collapsed(blank, s);
    var limited := LimitLines(collapsed, maxLines);
    var cut := LimitChars(limited, maxChars);
    var out := TrimBlankLines(blank, cut);
    CollapsedText(blank, s);
    LimitedLines(collapsed, maxLines);
    LimitedChars(limited, maxChars);
    assert limited[..|cut|] == cut;
    CutText(blank, limited, |cut|);
    TrimmedText(blank, cut);
    SubsequenceLength(out, cut);
    SubsequenceTrans(out, cut, limited);
    SubsequenceTrans(out, limited, collapsed);
    SubsequenceTrans(out, collapsed, s);
  }

  lemma {:induction false} SubsequenceLength(a: string, b: string)
    requires IsSubsequence(a, b)
    ensures |a| <= |b|
    decreases |b|
  {
    if a != "" {
      if a[0] == b[0] && IsSubsequence(a[1..], b[1..]) { SubsequenceLength(a[1..], b[1..]); }
      else { SubsequenceLength(a, b[1..]); }
    }
  }

  /** A text in normal form passes every stage of the tail unchanged. */
  lemma TidyKeepsTidied(blank: Blankness, s: string, maxLines: int, maxChars: nat)
    requires maxLines >= 1 && Tidied(blank, s, maxLines, maxChars) && blank("")
    ensures Tidy(blank, s, maxLines, maxChars) == s
  {
    JoinSplit(s);
    if s == "" {
      assert Split("") == [""];
      assert TrimLines(blank, [""]) == [];
      assert CollapseLines(blank, [""], false) == [""];
    } else {
      TrimKeepsTrimmed(blank, Split(s));
      CollapseKeepsCollapsed(blank, Split(s), false);
    }
  }

  /** The trim / collapse / limit tail is idempotent. */
  lemma TidyIsIdempotent(blank: Blankness, s: string, maxLines: int, maxChars: nat)
    requires maxLines >= 1 && blank("")
    ensures Tidy(blank, Tidy(blank, s, maxLines, maxChars), maxLines, maxChars) == Tidy(blank, s, maxLines, maxChars)
  {
    TidyTidies(blank, s, maxLines, maxChars);
    TidyKeepsTidied(blank, Tidy(blank, s, maxLines, maxChars), maxLines, maxChars);
  }

  // ---- the stages before the tail leave characters out and add none

  lemma {:induction false} TrimLeftIsSuffix(s: string) returns (i: nat)
    ensures i <= |s| && TrimLeft(s) == s[i..]
    decreases |s|
  {
    i := 0;
    var n := SpaceAtStart(s);
    if n > 0 {
      var j := TrimLeftIsSuffix(s[n..]);
      i := n + j;
      assert s[n..][j..] == s[i..];
    }
  }

  lemma {:induction false} TrimRightIsPrefix(s: string) returns (n: nat)
    ensures n <= |s| && TrimRight(s) == s[..n]
    decreases |s|
  {
    n := |s|;
    var k := SpaceAtEnd(s);
    if k > 0 {
      n := TrimRightIsPrefix(s[..|s| - k]);
      assert s[..|s| - k][..n] == s[..n];
    } else {
      assert s[..n] == s;
    }
  }

  lemma TrimSpaceIsSubsequence(s: string)
    ensures IsSubsequence(TrimSpace(s), s)
  {
    var i := TrimLeftIsSuffix(s);
    var n := TrimRightIsPrefix(TrimLeft(s));
    assert TrimSpace(s) == s[i..i + n];
    SliceIsSubsequence(s, i, i + n);
  }

  lemma AfterFenceIsSubsequence(t: string, first: nat, out: string)
    requires first < |t| && out <= t[first + 1..]
    ensures IsSubsequence(out, t)
  {
    SliceIsSubsequence(t, first + 1, first + 1 + |out|);
    assert t[first + 1..first + 1 + |out|] == out;
  }

  lemma UnfencedIsSubsequence(s: string)
    ensures IsSubsequence(TrimSuffix(s, "\n```"), s)
  {
    StartIsSubsequence(s, TrimSuffix(s, "\n```"));
  }

  lemma InsideFenceIsSubsequence(t: string)
    ensures IsSubsequence(InsideFence(t), t)
  {
    match Index(t, "\n")
    case None =>
    case Some(first) => AfterFenceIsSubsequence(t, first, InsideFence(t));
  }

  lemma FenceIsSubsequence(s: string)
    ensures IsSubsequence(StripFence(s), s)
  {
    if HasPrefix(TrimSpace(s), "```") {
      TrimSpaceIsSubsequence(s);
      InsideFenceIsSubsequence(TrimSpace(s));
      SubsequenceTrans(InsideFence(TrimSpace(s)), TrimSpace(s), s);
    } else {
      UnfencedIsSubsequence(s);
    }
  }

  lemma ExplanationIsSubsequence(s: string)
    ensures IsSubsequence(StripExplanation(s), s)
  {
    var lines := Split(s);
    JoinSplit(s);
    SubsequenceSelf(s);
    if StripExplanation(s) != s {
      SliceIsSublist(lines, 1, |lines|);
      assert lines[1..|lines|] == lines[1..];
      SublistJoins(lines[1..], lines);
    }
  }

  lemma EndIsSubsequence(text: string, out: string)
    requires |out| <= |text| && out == text[|text| - |out|..]
    ensures IsSubsequence(out, text)
  {
    SliceIsSubsequence(text, |text| - |out|, |text|);
    assert text[|text| - |out|..|text|] == out;
  }

  lemma StartIsSubsequence(text: string, out: string)
    requires out <= text
    ensures IsSubsequence(out, text)
  {
    SliceIsSubsequence(text, 0, |out|);
    assert text[0..|out|] == out;
  }

  lemma OverlapsAreSubsequences(prefix: string, text: string, suffix: string)
    ensures IsSubsequence(RemoveSuffixOverlap(RemovePrefixOverlap(prefix, text), suffix), text)
  {
    var a := RemovePrefixOverlap(prefix, text);
    var b := RemoveSuffixOverlap(a, suffix);
    PrefixOverlapLeavesEnd(prefix, text);
    EndIsSubsequence(text, a);
    StartIsSubsequence(a, b);
    SubsequenceTrans(b, a, text);
  }

  lemma PrefixOverlapLeavesEnd(prefix: string, text: string)
    ensures var a := RemovePrefixOverlap(prefix, text);
            |a| <= |text| && text[|text| - |a|..] == a
  {
  }

  lemma CoreIsSubsequence(q: Request, raw: string)
    ensures IsSubsequence(Core(q, raw), Normalize(raw))
  {
    var n := Normalize(raw);
    var f := StripFence(n);
    var e := StripExplanation(f);
    var t := TrimBlankLines(Blank, e);
    FenceIsSubsequence(n);
    ExplanationIsSubsequence(f);
    TrimmedText(Blank, e);
    OverlapsAreSubsequences(Normalize(q.prefix), t, Normalize(q.suffix));
    SubsequenceTrans(e, f, n);
    SubsequenceTrans(t, e, n);
    SubsequenceTrans(Core(q, raw), t, n);
  }

  /** The sanitized text is empty or what the tail makes of the core. */
  lemma SanitizedCases(config: Config, q: Request, raw: string)
    ensures Sanitize(config, q, raw) == ""
            || Sanitize(config, q, raw)
               == Tidy(Blank, Core(q, raw), MaxLinesForIntent(q.intent, config.maxLines), config.maxChars)
  {
  }

  lemma PolicyLimit(intent: string, configured: int)
    requires configured >= 1
    ensures 1 <= MaxLinesForIntent(intent, configured) <= configured
    ensures SingleLineIntent(intent) ==> MaxLinesForIntent(intent, configured) == 1
  {
  }

  lemma TidiedOutput(blank: Blankness, out: string, core: string, source: string, limit: int, maxChars: nat)
    requires limit >= 1 && IsSubsequence(core, source) && blank("")
    requires out == "" || out == Tidy(blank, core, limit, maxChars)
    ensures Tidied(blank, out, limit, maxChars) && Tidy(blank, out, limit, maxChars) == out
    ensures IsSubsequence(out, source)
  {
    TidyTidies(blank, core, limit, maxChars);
    TidyKeepsTidied(blank, out, limit, maxChars);
    if out != "" { SubsequenceTrans(out, core, source); }
  }

  lemma OneLineOnly(s: string)
    requires |Split(s)| <= 1
    ensures '\n' !in s
  {
    SplitLines(s);
    JoinSplit(s);
  }

  /** No carriage return, no blank first or last line, no two blank lines in a row, at most `limit` lines and
      `maxChars` bytes, nothing that was not in `source` in that order, and a fixed point of the tail. */
  ghost predicate Presentable(blank: Blankness, source: string, limit: int, maxChars: nat, out: string) {
    && '\r' !in out
    && Tidied(blank, out, limit, maxChars)
    && (limit == 1 ==> '\n' !in out)
    && IsSubsequence(out, source)
    && Tidy(blank, out, limit, maxChars) == out
  }

  lemma TailIsPresentable(blank: Blankness, source: string, limit: int, maxChars: nat, core: string, out: string)
    requires out == "" || out == Tidy(blank, core, limit, maxChars)
    requires IsSubsequence(core, source) && '\r' !in source && limit >= 1 && blank("")
    ensures Presentable(blank, source, limit, maxChars, out)
  {
    TidiedOutput(blank, out, core, source, limit, maxChars);
    if '\r' in out { SubsequenceChars(out, source, '\r'); }
    if limit == 1 && out != "" { OneLineOnly(out); }
  }

  /** For every request and raw text, with limits of at least 1, what comes out is presentable within the line limit
      of the request's intent, which is one line for a single-line intent. */
  lemma SanitizedText(config: Config, q: Request, raw: string)
    requires config.maxLines >= 1 && config.maxChars >= 1
    ensures var limit := MaxLinesForIntent(q.intent, config.maxLines);
            && 1 <= limit <= config.maxLines && (SingleLineIntent(q.intent) ==> limit == 1)
            && Presentable(Blank, Normalize(raw), limit, config.maxChars, Sanitize(config, q, raw))
  {
    SanitizedCases(config, q, raw);
    CoreIsSubsequence(q, raw);
    PolicyLimit(q.intent, config.maxLines);
    NormalizedHasNoCr(ReplaceCrLf(raw));
    TailIsPresentable(Blank, Normalize(raw), MaxLinesForIntent(q.intent, config.maxLines), config.maxChars,
                      Core(q, raw), Sanitize(config, q, raw));
  }
}
