/** What the sanitizer leaves alone, and what a fence around the answer changes: nothing
    (api/internal/completion/sanitizer/sanitizer.go:17-97). */
module SanitizerLaws {
  import opened Wrappers
  import opened GoStrings
  import opened Sanitizer
  import opened TextLaws

  predicate OccursAt(s: string, p: string, j: nat) {
    j + |p| <= |s| && s[j..j + |p|] == p
  }

  lemma {:induction false} IndexIsFirst(s: string, p: string, j: nat)
    requires OccursAt(s, p, j)
    ensures Index(s, p).Some? && Index(s, p).value <= j && OccursAt(s, p, Index(s, p).value)
  {
    if !(p <= s) {
      assert j > 0 && s[1..][j - 1..j - 1 + |p|] == s[j..j + |p|];
      IndexIsFirst(s[1..], p, j - 1);
      var i := Index(s[1..], p).value;
      assert s[1..][i..i + |p|] == s[i + 1..i + 1 + |p|];
    }
  }

  lemma {:induction false} WithoutCr(s: string)
    requires '\r' !in s
    ensures Normalize(s) == s
  {
    NoCrLf(s);
    NoCr(s);
  }

  lemma {:induction false} NoCrLf(s: string)
    requires '\r' !in s
    ensures ReplaceCrLf(s) == s
  {
    if s != "" { NoCrLf(s[1..]); }
  }

  lemma {:induction false} NoCr(s: string)
    requires '\r' !in s
    ensures ReplaceCr(s) == s
  {
    if s != "" { NoCr(s[1..]); }
  }

  // ---- fences

  const FENCE := "```"
  const CLOSING := "\n```"

  /** `body` has no closing fence of its own, and none that the one after it would complete. */
  ghost predicate ClosedOnlyByItsFence(body: string) {
    forall j :: 0 <= j < |body| ==> !OccursAt(body + CLOSING, CLOSING, j)
  }

  function Fenced(tag: string, body: string): string {
    FENCE + tag + "\n" + (body + CLOSING)
  }

  lemma BackticksAreNotSpace(s: string)
    requires |s| >= 2 && s[0] == '`' && s[|s| - 1] == '`'
    ensures TrimSpace(s) == s
  {
  }

  lemma FencedParts(tag: string, body: string, s: string)
    requires s == Fenced(tag, body) && '\n' !in tag
    ensures |s| >= 2 && s[0] == '`' && s[|s| - 1] == '`' && HasPrefix(s, FENCE)
    ensures OccursAt(s, "\n", 3 + |tag|) && s[3 + |tag| + 1..] == body + CLOSING
    ensures forall j :: 0 <= j < 3 + |tag| ==> !OccursAt(s, "\n", j)
  {
    var head := FENCE + tag;
    assert '\n' !in head;
    assert s == head + ("\n" + (body + CLOSING));
    forall j | 0 <= j < |head| ensures !OccursAt(s, "\n", j) {
      assert s[j..j + 1][0] == s[j] == head[j];
    }
  }

  /** The first line and the closing fence come off, and nothing else. */
  lemma StripFenced(tag: string, body: string, s: string)
    requires s == Fenced(tag, body) && '\n' !in tag && ClosedOnlyByItsFence(body)
    ensures StripFence(s) == body
  {
    FencedParts(tag, body, s);
    BackticksAreNotSpace(s);
    IndexIsFirst(s, "\n", 3 + |tag|);
    assert OccursAt(body + CLOSING, CLOSING, |body|);
    IndexIsFirst(body + CLOSING, CLOSING, |body|);
    assert (body + CLOSING)[..|body|] == body;
  }

  lemma StripUnfenced(body: string)
    requires !HasPrefix(TrimSpace(body), FENCE) && ClosedOnlyByItsFence(body)
    ensures StripFence(body) == body
  {
    var k := |body| - |CLOSING|;
    if k >= 0 && body[k..] == CLOSING {
      assert (body + CLOSING)[k..k + |CLOSING|] == CLOSING;
      assert OccursAt(body + CLOSING, CLOSING, k);
    }
  }

  lemma FencedHasNoCr(tag: string, body: string)
    requires '\r' !in tag && '\r' !in body
    ensures '\r' !in Fenced(tag, body)
  {
  }

  /** An answer between fences, with any language tag, is sanitized to what the bare answer is. */
  lemma FenceChangesNothing(config: Config, q: Request, tag: string, body: string)
    requires '\n' !in tag && '\r' !in tag && '\r' !in body
    requires !HasPrefix(TrimSpace(body), FENCE) && ClosedOnlyByItsFence(body)
    ensures Sanitize(config, q, Fenced(tag, body)) == Sanitize(config, q, body)
  {
    FencedHasNoCr(tag, body);
    WithoutCr(Fenced(tag, body));
    WithoutCr(body);
    StripFenced(tag, body, Fenced(tag, body));
    StripUnfenced(body);
  }

  /** A first line that opens a fence and nothing after it: there is no completion. */
  lemma FenceLineIsNothing(config: Config, q: Request, line: string)
    requires '\n' !in line && '\r' !in line && FENCE <= line && SpaceAtEnd(line) == 0
    ensures StripFence(line) == "" && Sanitize(config, q, line) == ""
  {
    WithoutCr(line);
    assert TrimSpace(line) == line;
    IndexOccurs(line, "\n");
    NothingStaysNothing(config, q, line);
  }

  lemma NothingStaysNothing(config: Config, q: Request, raw: string)
    requires StripFence(Normalize(raw)) == ""
    ensures Sanitize(config, q, raw) == ""
  {
    assert Split("") == [""] && Blank("");
    assert TrimBlankLines(Blank, "") == "" && CollapseBlankLines(Blank, "") == "";
    OverlapsAreSubsequences(Normalize(q.prefix), "", Normalize(q.suffix));
    SubsequenceLength(Core(q, raw), "");
    assert Core(q, raw) == "" && Collapsed(Blank, "") == "";
  }

  /** A fence that is never closed: the first line comes off. */
  lemma OpenFenceComesOff(config: Config, q: Request, tag: string, body: string)
    requires '\n' !in tag && '\r' !in tag && '\r' !in body && body != "" && SpaceAtEnd(FENCE + tag + "\n" + body) == 0
    requires forall j :: 0 <= j < |body| ==> !OccursAt(body, CLOSING, j)
    requires !(|FENCE| <= |body| && body[|body| - |FENCE|..] == FENCE) && !HasPrefix(TrimSpace(body), FENCE)
    ensures Sanitize(config, q, FENCE + tag + "\n" + body) == Sanitize(config, q, body)
  {
    var s := FENCE + tag + "\n" + body;
    NoCrInBoth(FENCE + tag, body);
    WithoutCr(s);
    WithoutCr(body);
    OpenFenceStripped(tag, body, s);
    NotClosed(body);
    SameInside(config, q, s, body);
  }

  lemma OpenFenceStripped(tag: string, body: string, s: string)
    requires s == FENCE + tag + "\n" + body && '\n' !in tag && SpaceAtEnd(s) == 0
    requires forall j :: 0 <= j < |body| ==> !OccursAt(body, CLOSING, j)
    requires !(|FENCE| <= |body| && body[|body| - |FENCE|..] == FENCE)
    ensures StripFence(s) == body
  {
    OpenFenceParts(tag, body, s);
    IndexOccurs(body, CLOSING);
  }

  lemma OpenFenceParts(tag: string, body: string, s: string)
    requires s == FENCE + tag + "\n" + body && '\n' !in tag && SpaceAtEnd(s) == 0
    ensures TrimSpace(s) == s && HasPrefix(s, FENCE) && Index(s, "\n") == Some(3 + |tag|)
    ensures s[3 + |tag| + 1..] == body
  {
    assert s[0] == '`';
    var head := FENCE + tag;
    assert s[3 + |tag|] == '\n';
    IndexIsFirst(s, "\n", 3 + |tag|);
    var i := Index(s, "\n").value;
    assert s[i..i + 1][0] == s[i];
    assert head <= s && '\n' !in head;
    assert forall k :: 0 <= k < |head| ==> s[k] == head[k];
  }

  lemma NotClosed(body: string)
    requires forall j :: 0 <= j < |body| ==> !OccursAt(body, CLOSING, j)
    requires !HasPrefix(TrimSpace(body), FENCE)
    ensures StripFence(body) == body
  {
    var k := |body| - |CLOSING|;
    if k >= 0 { assert OccursAt(body, CLOSING, k) <==> body[k..] == CLOSING; }
  }

  /** A closing fence without an opening one comes off. */
  lemma ClosingFenceComesOff(config: Config, q: Request, body: string)
    requires '\r' !in body && ClosedOnlyByItsFence(body)
    requires !HasPrefix(TrimSpace(body), FENCE) && !HasPrefix(TrimSpace(body + CLOSING), FENCE)
    ensures Sanitize(config, q, body + CLOSING) == Sanitize(config, q, body)
  {
    WithoutCr(body);
    assert '\r' !in body + CLOSING;
    WithoutCr(body + CLOSING);
    StripUnfenced(body);
    assert (body + CLOSING)[|body|..] == CLOSING && (body + CLOSING)[..|body|] == body;
  }

  predicate Unfenced(s: string) {
    !HasPrefix(TrimSpace(s), FENCE) && !(|CLOSING| <= |s| && s[|s| - |CLOSING|..] == CLOSING)
  }

  /** An answer after a line that announces it is sanitized to what the answer alone is. */
  lemma AnnouncementChangesNothing(config: Config, q: Request, line: string, body: string)
    requires '\n' !in line && '\r' !in line && '\r' !in body && ToLower(TrimSpace(line)) in ANNOUNCEMENTS
    requires Unfenced(line + "\n" + body) && Unfenced(body)
    requires |Split(body)| > 1 ==> ToLower(TrimSpace(Split(body)[0])) !in ANNOUNCEMENTS
    ensures Sanitize(config, q, line + "\n" + body) == Sanitize(config, q, body)
  {
    var raw := line + "\n" + body;
    WithoutCr(body);
    NoCrInBoth(line, body);
    WithoutCr(raw);
    UnfencedStays(raw);
    UnfencedStays(body);
    AnnouncementComesOff(line, body);
    NotAnnounced(body);
    SameInside(config, q, raw, body);
  }

  lemma NoCrInBoth(line: string, body: string)
    requires '\r' !in line && '\r' !in body
    ensures '\r' !in line + "\n" + body
  {
  }

  lemma UnfencedStays(s: string)
    requires Unfenced(s)
    ensures StripFence(s) == s
  {
  }

  lemma NotAnnounced(s: string)
    requires |Split(s)| > 1 ==> ToLower(TrimSpace(Split(s)[0])) !in ANNOUNCEMENTS
    ensures StripExplanation(s) == s
  {
    AnnouncesExactlyWhen(Split(s)[0]);
  }

  lemma {:induction false} IndexOccurs(s: string, p: string)
    ensures Index(s, p).Some? ==> OccursAt(s, p, Index(s, p).value)
  {
    if !(p <= s) && s != "" {
      IndexOccurs(s[1..], p);
      if Index(s, p).Some? {
        var i := Index(s[1..], p).value;
        assert s[1..][i..i + |p|] == s[i + 1..i + 1 + |p|];
      }
    }
  }

  /** The texts are the same once fence and announcement are off. */
  lemma SameInside(config: Config, q: Request, a: string, b: string)
    requires StripExplanation(StripFence(Normalize(a))) == StripExplanation(StripFence(Normalize(b)))
    ensures Sanitize(config, q, a) == Sanitize(config, q, b)
  {
  }

  // ---- what passes

  /** The longest repetition, of `least` to 1000 bytes, of the end of `a` at the start of `b` has `n` bytes; 0 when
      there is none. */
  ghost predicate LongestRepetition(a: string, b: string, n: nat, least: nat) {
    && (n == 0 || least <= n <= 1000) && Overlaps(a, b, n)
    && forall m: nat :: n < m && least <= m <= 1000 ==> !Overlaps(a, b, m)
  }

  /** What was repeated comes off at both ends, with one space after the repeated prefix, and nothing else. */
  lemma RepetitionsRemoved(prefix: string, suffix: string, before: string, gap: string, body: string, after: string)
    requires LongestRepetition(prefix, before + (gap + (body + after)), |before|, 1)
    requires LongestRepetition(body + after, suffix, |after|, 2)
    requires gap == if before != "" && gap != "" then " " else ""
    requires before != "" && gap == "" ==> !(" " <= body + after)
    ensures RemoveSuffixOverlap(RemovePrefixOverlap(prefix, before + (gap + (body + after))), suffix) == body
  {
    var text := before + (gap + (body + after));
    PrefixOverlapIsLongest(prefix, text);
    assert Overlap(prefix, text) == |before|;
    assert text[|before|..] == gap + (body + after);
    assert (" " + (body + after))[1..] == body + after;
    assert RemovePrefixOverlap(prefix, text) == body + after;
    SuffixOverlapMerges(body + after, suffix);
    assert SuffixOverlap(body + after, suffix) == |after|;
    assert (body + after)[..|body|] == body;
  }

  /** The text opens no fence and ends with no closing one, and its first line, if others follow, does not announce
      the completion. */
  predicate Bare(raw: string) {
    Unfenced(raw) && (|Split(raw)| > 1 ==> ToLower(TrimSpace(Split(raw)[0])) !in ANNOUNCEMENTS)
  }

  lemma BareStaysBare(raw: string)
    requires Bare(raw)
    ensures StripFence(raw) == raw && StripExplanation(raw) == raw
  {
    UnfencedStays(raw);
    NotAnnounced(raw);
  }

  /** Lines with text at both ends and no two blank lines in a row; or no text. */
  ghost predicate Neat(s: string) {
    s == "" || (BlankFreeEnds(Blank, Split(s)) && NoAdjacentBlanks(Blank, Split(s)))
  }

  /** What the limits leave of a text: its first lines, cut at a line break, without blank lines at the end. */
  function Limited(config: Config, q: Request, s: string): string {
    TrimBlankLines(Blank, LimitChars(LimitLines(s, MaxLinesForIntent(q.intent, config.maxLines)), config.maxChars))
  }

  /** A bare text comes out without what it repeats of the text around the cursor, and cut to the limits; or not at all,
      exactly when it is in a foreign language. */
  lemma RepetitionsComeOff(config: Config, q: Request, raw: string, before: string, gap: string, body: string,
                           after: string)
    requires raw == before + (gap + (body + after)) && '\r' !in raw && Bare(raw)
    requires raw == "" || BlankFreeEnds(Blank, Split(raw))
    requires Neat(body)
    requires LongestRepetition(Normalize(q.prefix), raw, |before|, 1)
    requires LongestRepetition(body + after, Normalize(q.suffix), |after|, 2)
    requires gap == if before != "" && gap != "" then " " else ""
    requires before != "" && gap == "" ==> !(" " <= body + after)
    ensures Sanitize(config, q, raw) == if Foreign(q.language, body) then "" else Limited(config, q, body)
  {
    WithoutCr(raw);
    BareStaysBare(raw);
    TrimmedIsItself(raw);
    RepetitionsRemoved(Normalize(q.prefix), Normalize(q.suffix), before, gap, body, after);
    CollapsedIsItself(body);
    RefusedExactlyWhenForeign(q.language, body);
  }

  lemma TrimmedIsItself(s: string)
    requires s == "" || BlankFreeEnds(Blank, Split(s))
    ensures TrimBlankLines(Blank, s) == s
  {
    JoinSplit(s);
    if s == "" {
      assert Split("") == [""] && Blank("");
      assert TrimLines(Blank, [""]) == [];
    } else {
      TrimKeepsTrimmed(Blank, Split(s));
    }
  }

  lemma CollapsedIsItself(s: string)
    requires Neat(s)
    ensures Collapsed(Blank, s) == s
  {
    TrimmedIsItself(s);
    JoinSplit(s);
    if s == "" {
      assert CollapseLines(Blank, [""], false) == [""];
    } else {
      CollapseKeepsCollapsed(Blank, Split(s), false);
    }
  }

  /** A neat and bare text that repeats nothing and keeps the configured limits and those of its intent passes
      unchanged; it is refused if and only if it opens with a word foreign to the language. */
  lemma CleanTextPasses(config: Config, q: Request, raw: string)
    requires '\r' !in raw && Bare(raw) && Neat(raw) && raw != ""
    requires |Split(raw)| <= config.maxLines && IntentAllows(q.intent, |Split(raw)|) && |raw| <= config.maxChars
    requires LongestRepetition(Normalize(q.prefix), raw, 0, 1) && LongestRepetition(raw, Normalize(q.suffix), 0, 2)
    ensures Sanitize(config, q, raw) == if Foreign(q.language, raw) then "" else raw
  {
    assert raw == "" + ("" + (raw + "")) && raw + "" == raw;
    RepetitionsComeOff(config, q, raw, "", "", raw, "");
    LimitIsConfiguredAndIntents(q.intent, config.maxLines, |Split(raw)|);
    CutsKeepTheStart(raw, MaxLinesForIntent(q.intent, config.maxLines), config.maxChars);
    TrimmedIsItself(raw);
  }
}
