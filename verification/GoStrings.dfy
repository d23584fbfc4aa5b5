/** The parts of Go's `strings` package that the sanitizer uses, on strings of bytes: a `char` is one byte. */
module GoStrings {
  import opened Wrappers

  // ---- white space

  /** The number of bytes of the white-space rune that `s` starts with, 0 when it starts with none. */
  function SpaceAtStart(s: string): (n: nat)
    ensures n <= |s|
  {
    if |s| >= 1 && Space1(s[0]) then 1
    else if |s| >= 2 && Space2(s[0], s[1]) then 2
    else if |s| >= 3 && Space3(s[0], s[1], s[2]) then 3
    else 0
  }

  function SpaceAtEnd(s: string): (n: nat)
    ensures n <= |s|
  {
    var n := |s|;
    if n >= 1 && Space1(s[n - 1]) then 1
    else if n >= 2 && Space2(s[n - 2], s[n - 1]) then 2
    else if n >= 3 && Space3(s[n - 3], s[n - 2], s[n - 1]) then 3
    else 0
  }

  // The UTF-8 encodings, of one, two and three bytes, of the white-space characters (`unicode.IsSpace`).

  predicate Space1(a: char) {
    '\t' <= a <= '\r' || a == ' '
  }

  predicate Space2(a: char, b: char) {
    a == '\U{C2}' && (b == '\U{85}' || b == '\U{A0}')
  }

  predicate Space3(a: char, b: char, c: char) {
    || (a == '\U{E1}' && b == '\U{9A}' && c == '\U{80}')
    || (a == '\U{E2}' && b == '\U{80}'
        && ('\U{80}' <= c <= '\U{8A}' || c == '\U{A8}' || c == '\U{A9}' || c == '\U{AF}'))
    || (a == '\U{E2}' && b == '\U{81}' && c == '\U{9F}')
    || (a == '\U{E3}' && b == '\U{80}' && c == '\U{80}')
  }

  function TrimLeft(s: string): string {
    var n := SpaceAtStart(s);
    if n == 0 then s else TrimLeft(s[n..])
  }

  function TrimRight(s: string): string {
    var n := SpaceAtEnd(s);
    if n == 0 then s else TrimRight(s[..|s| - n])
  }

  function TrimSpace(s: string): string {
    TrimRight(TrimLeft(s))
  }

  predicate Blank(line: string) {
    TrimSpace(line) == ""
  }

  lemma OneRune(s: string)
    requires SpaceAtEnd(s) > 0 && SpaceAtEnd(s) == |s|
    ensures SpaceAtStart(s) > 0
  {
  }

  lemma SpaceStaysAtStart(t: string, more: string)
    requires SpaceAtStart(t) > 0
    ensures SpaceAtStart(t + more) > 0
  {
  }

  /** What ends as white space rune by rune starts with one. */
  lemma {:induction false} AllSpaceFromTheEnd(s: string)
    requires s != "" && TrimRight(s) == ""
    ensures SpaceAtStart(s) > 0
    decreases |s|
  {
    var n := SpaceAtEnd(s);
    if n == |s| {
      OneRune(s);
    } else {
      var t := s[..|s| - n];
      AllSpaceFromTheEnd(t);
      SpaceStaysAtStart(t, s[|s| - n..]);
      assert t + s[|s| - n..] == s;
    }
  }

  /** A line is blank if and only if reading it from the left finds nothing but white-space runes. */
  lemma BlankIsAllSpace(line: string)
    ensures Blank(line) <==> TrimLeft(line) == ""
  {
    NoSpaceLeft(line);
    if TrimLeft(line) != "" && TrimRight(TrimLeft(line)) == "" { AllSpaceFromTheEnd(TrimLeft(line)); }
  }

  lemma {:induction false} NoSpaceLeft(s: string)
    ensures SpaceAtStart(TrimLeft(s)) == 0
    decreases |s|
  {
    var n := SpaceAtStart(s);
    if n > 0 { NoSpaceLeft(s[n..]); }
  }

  // ---- searching and cutting

  predicate HasPrefix(s: string, p: string) {
    p <= s
  }

  function TrimSuffix(s: string, p: string): string {
    if |p| <= |s| && s[|s| - |p|..] == p then s[..|s| - |p|] else s
  }

  function TrimPrefix(s: string, p: string): string {
    if p <= s then s[|p|..] else s
  }

  /** `strings.Index` */
  function Index(s: string, p: string): (at: Option<nat>)
    ensures at.Some? ==> at.value + |p| <= |s|
  {
    if p <= s then Some(0)
    else if s == "" then None
    else
      match Index(s[1..], p)
      case None => None
      case Some(i) => Some(i + 1)
  }

  /** `strings.LastIndex(s, "\n")` */
  function LastNewline(s: string): (at: Option<nat>)
    ensures at.Some? ==> at.value < |s|
  {
    if s == "" then None
    else if s[|s| - 1] == '\n' then Some(|s| - 1)
    else LastNewline(s[..|s| - 1])
  }

  function LowerChar(c: char): char {
    if 'A' <= c <= 'Z' then c - 'A' + 'a' else c
  }

  /** `strings.ToLower`, on ASCII. */
  function ToLower(s: string): string {
    if s == "" then "" else [LowerChar(s[0])] + ToLower(s[1..])
  }

  /** `strings.ReplaceAll(s, "\r\n", "\n")` */
  function ReplaceCrLf(s: string): string {
    if s == "" then ""
    else if |s| >= 2 && s[0] == '\r' && s[1] == '\n' then "\n" + ReplaceCrLf(s[2..])
    else [s[0]] + ReplaceCrLf(s[1..])
  }

  /** `strings.ReplaceAll(s, "\r", "\n")` */
  function ReplaceCr(s: string): string {
    if s == "" then "" else [if s[0] == '\r' then '\n' else s[0]] + ReplaceCr(s[1..])
  }

  /** Every line end becomes a line feed. */
  function Normalize(s: string): string {
    ReplaceCr(ReplaceCrLf(s))
  }

  lemma {:induction false} NormalizedHasNoCr(s: string)
    ensures '\r' !in ReplaceCr(s)
  {
    if s != "" { NormalizedHasNoCr(s[1..]); }
  }

  // ---- lines

  /** `strings.Split(s, "\n")` */
  function Split(s: string): (lines: seq<string>)
    ensures |lines| >= 1
  {
    if s == "" then [""]
    else
      var rest := Split(s[1..]);
      if s[0] == '\n' then [""] + rest else [[s[0]] + rest[0]] + rest[1..]
  }

  /** `strings.Join(lines, "\n")` */
  function Join(lines: seq<string>): string {
    if lines == [] then ""
    else if |lines| == 1 then lines[0]
    else lines[0] + "\n" + Join(lines[1..])
  }

  ghost predicate Lines(lines: seq<string>) {
    forall i :: 0 <= i < |lines| ==> '\n' !in lines[i]
  }

  lemma {:induction false} SplitLines(s: string)
    ensures Lines(Split(s))
  {
    if s != "" { SplitLines(s[1..]); }
  }

  lemma {:induction false} JoinSplit(s: string)
    ensures Join(Split(s)) == s
  {
    if s != "" {
      JoinSplit(s[1..]);
      var rest := Split(s[1..]);
      var head := [s[0]] + rest[0];
      if s[0] == '\n' {
        assert ([""] + rest)[1..] == rest;
      } else if |rest| > 1 {
        assert ([head] + rest[1..])[1..] == rest[1..];
        assert head + "\n" + Join(rest[1..]) == [s[0]] + (rest[0] + "\n" + Join(rest[1..]));
      }
      assert s == [s[0]] + s[1..];
    }
  }

  /** Splitting at a newline: what comes before it, if it has none, is the first line. */
  lemma {:induction false} SplitFirst(line: string, rest: string)
    requires '\n' !in line
    ensures Split(line + "\n" + rest) == [line] + Split(rest)
    ensures Split(line) == [line]
  {
    if line == "" {
      assert (line + "\n" + rest)[1..] == rest;
    } else {
      SplitFirst(line[1..], rest);
      assert (line + "\n" + rest)[1..] == line[1..] + "\n" + rest;
      assert line == [line[0]] + line[1..];
    }
  }

  lemma {:induction false} SplitJoin(lines: seq<string>)
    requires lines != [] && Lines(lines)
    ensures Split(Join(lines)) == lines
  {
    if |lines| == 1 {
      SplitFirst(lines[0], "");
      assert lines == [lines[0]];
    } else {
      SplitJoin(lines[1..]);
      SplitFirst(lines[0], Join(lines[1..]));
      assert lines == [lines[0]] + lines[1..];
    }
  }

  /** All of `p` but its last line are the first lines of `all`, and the last is a prefix of the next one. */
  ghost predicate LinesOfPrefix(p: seq<string>, all: seq<string>) {
    && 1 <= |p| <= |all|
    && (forall i :: 0 <= i < |p| - 1 ==> p[i] == all[i])
    && p[|p| - 1] <= all[|p| - 1]
  }

  lemma NewlineInFront(p: seq<string>, all: seq<string>)
    requires LinesOfPrefix(p, all)
    ensures LinesOfPrefix([""] + p, [""] + all)
  {
  }

  lemma CharInFront(c: char, p: seq<string>, all: seq<string>)
    requires LinesOfPrefix(p, all)
    ensures LinesOfPrefix([[c] + p[0]] + p[1..], [[c] + all[0]] + all[1..])
  {
  }

  /** The lines of a prefix. */
  lemma {:induction false} PrefixLines(s: string, n: nat)
    requires n <= |s|
    ensures LinesOfPrefix(Split(s[..n]), Split(s))
  {
    if n > 0 {
      PrefixLines(s[1..], n - 1);
      assert s[..n][1..] == s[1..][..n - 1];
      if s[0] == '\n' { NewlineInFront(Split(s[1..][..n - 1]), Split(s[1..])); }
      else { CharInFront(s[0], Split(s[1..][..n - 1]), Split(s[1..])); }
    }
  }

  // ---- subsequences

  predicate IsSubsequence(a: string, b: string) {
    a == "" ||
    (b != "" && ((a[0] == b[0] && IsSubsequence(a[1..], b[1..])) || IsSubsequence(a, b[1..])))
  }

  lemma {:induction false} SubsequenceChars(a: string, b: string, c: char)
    requires IsSubsequence(a, b) && c in a
    ensures c in b
    decreases |b|
  {
    if a[0] == b[0] && IsSubsequence(a[1..], b[1..]) {
      if c != a[0] { SubsequenceChars(a[1..], b[1..], c); }
    } else {
      SubsequenceChars(a, b[1..], c);
    }
  }

  lemma {:induction false} SubsequenceConcat(a: string, b: string, c: string, d: string)
    requires IsSubsequence(a, b) && IsSubsequence(c, d)
    ensures IsSubsequence(a + c, b + d)
    decreases |b|
  {
    if b == "" {
      assert a + c == c && b + d == d;
    } else {
      assert (b + d)[1..] == b[1..] + d;
      if a == "" {
        assert a + c == c;
        SubsequenceConcat("", b[1..], c, d);
        assert "" + c == c;
      } else if a[0] == b[0] && IsSubsequence(a[1..], b[1..]) {
        SubsequenceConcat(a[1..], b[1..], c, d);
        assert (a + c)[1..] == a[1..] + c;
      } else {
        SubsequenceConcat(a, b[1..], c, d);
      }
    }
  }

  lemma {:induction false} SubsequenceSelf(a: string)
    ensures IsSubsequence(a, a)
  {
    if a != "" { SubsequenceSelf(a[1..]); }
  }

  lemma {:induction false} SubsequenceTrans(a: string, b: string, c: string)
    requires IsSubsequence(a, b) && IsSubsequence(b, c)
    ensures IsSubsequence(a, c)
    decreases |c|, |b|
  {
    if a != "" {
      if b[0] == c[0] && IsSubsequence(b[1..], c[1..]) {
        if a[0] == b[0] && IsSubsequence(a[1..], b[1..]) {
          SubsequenceTrans(a[1..], b[1..], c[1..]);
        } else {
          SubsequenceTrans(a, b[1..], c[1..]);
        }
      } else {
        SubsequenceTrans(a, b, c[1..]);
      }
    }
  }

  lemma SliceIsSubsequence(s: string, i: nat, j: nat)
    requires i <= j <= |s|
    ensures IsSubsequence(s[i..j], s)
  {
    SubsequenceSelf(s[i..j]);
    SubsequenceConcat("", s[..i], s[i..j], s[i..j]);
    assert s[..i] + s[i..j] == s[..j] && "" + s[i..j] == s[i..j];
    SubsequenceConcat(s[i..j], s[..j], "", s[j..]);
    assert s[..j] + s[j..] == s && s[i..j] + "" == s[i..j];
  }

  /** A list of lines with some of the lines of another left out. */
  predicate IsSublist(a: seq<string>, b: seq<string>) {
    a == [] ||
    (b != [] && ((a[0] == b[0] && IsSublist(a[1..], b[1..])) || IsSublist(a, b[1..])))
  }

  lemma {:induction false} SublistJoins(a: seq<string>, b: seq<string>)
    requires IsSublist(a, b)
    ensures IsSubsequence(Join(a), Join(b))
    decreases |b|
  {
    if a != [] {
      if a[0] == b[0] && IsSublist(a[1..], b[1..]) {
        SublistJoins(a[1..], b[1..]);
        SubsequenceSelf(a[0]);
        if |a| == 1 {
          if |b| > 1 {
            SliceIsSubsequence(Join(b), 0, |b[0]|);
            assert Join(b)[0..|b[0]|] == b[0];
          }
        } else {
          SubsequenceSelf(a[0] + "\n");
          SubsequenceConcat(a[0] + "\n", b[0] + "\n", Join(a[1..]), Join(b[1..]));
        }
      } else {
        SublistJoins(a, b[1..]);
        SliceIsSubsequence(Join(b), |b[0]| + 1, |Join(b)|);
        assert Join(b)[|b[0]| + 1..|Join(b)|] == Join(b[1..]);
        SubsequenceTrans(Join(a), Join(b[1..]), Join(b));
      }
    }
  }

  lemma {:induction false} SublistSelf(a: seq<string>)
    ensures IsSublist(a, a)
  {
    if a != [] { SublistSelf(a[1..]); }
  }

  lemma {:induction false} PrefixIsSublist(a: seq<string>, n: nat)
    requires n <= |a|
    ensures IsSublist(a[..n], a)
  {
    if n > 0 {
      PrefixIsSublist(a[1..], n - 1);
      assert a[..n][1..] == a[1..][..n - 1];
    }
  }

  lemma {:induction false} SliceIsSublist(a: seq<string>, i: nat, j: nat)
    requires i <= j <= |a|
    ensures IsSublist(a[i..j], a)
  {
    if i == 0 {
      PrefixIsSublist(a, j);
      assert a[0..j] == a[..j];
    } else {
      SliceIsSublist(a[1..], i - 1, j - 1);
      assert a[1..][i - 1..j - 1] == a[i..j];
    }
  }
}
