/** The text windows around the cursor (src/context/textWindow.ts:6-24, src/context/contextBuilder.ts:15-30) and what
    the API request cuts from them (src/completion/backendCompletionEngine.ts:99-105, 132-143). */
module ContextWindows {
  import opened Wrappers
  import opened JsSlices

  /** A UTF-16 code unit. */
  type Unit = u: int | 0 <= u < 0x1_0000
  type Text = seq<Unit>

  const NEWLINE: Unit := 10

  function IndexOf(s: Text, u: Unit): (at: Option<nat>)
    ensures at.Some? ==> at.value < |s|
  {
    if s == [] then None
    else if s[0] == u then Some(0)
    else
      match IndexOf(s[1..], u)
      case None => None
      case Some(i) => Some(i + 1)
  }

  function LastIndexOf(s: Text, u: Unit): (at: Option<nat>)
    ensures at.Some? ==> at.value < |s|
  {
    if s == [] then None
    else if s[|s| - 1] == u then Some(|s| - 1)
    else LastIndexOf(s[..|s| - 1], u)
  }

  // ---- windows

  datatype Window = Window(text: Text, truncated: bool)

  function TakePrefixWindow(text: Text, max: nat): Window {
    if |text| <= max then Window(text, false)
    else
      Window(FromFirstBreak(SliceLast(text, max)), true)
  }

  function TakeSuffixWindow(text: Text, max: nat): Window {
    if |text| <= max then Window(text, false)
    else
      var window := SliceFirst(text, max);
      match LastIndexOf(window, NEWLINE)
      case Some(i) => if i > 0 then Window(window[..i + 1], true) else Window(window, true)
      case None => Window(window, true)
  }

  /** A window of at least one unit (src/context/contextConfig.ts:17-25 allows no smaller one) keeps the end of the
      text before the cursor, within the limit; when it has to cut, it starts just after the first line break of
      the last `max` units, or with the first of those units when they hold no line break. */
  lemma PrefixWindowIsEnd(text: Text, max: nat)
    requires max > 0
    ensures var w, n := TakePrefixWindow(text, max), |text|;
            && |w.text| <= n && |w.text| <= max && w.text == text[n - |w.text|..]
            && (w.truncated <==> n > max)
            && (!w.truncated ==> w.text == text)
            && (w.truncated && |w.text| == max ==> NEWLINE !in w.text)
            && (w.truncated && |w.text| < max ==>
                  text[n - |w.text| - 1] == NEWLINE && NEWLINE !in text[n - max..n - |w.text| - 1])
  {
    if |text| > max {
      AfterFirstBreak(SliceLast(text, max));
      EndOfLast(text, max, |TakePrefixWindow(text, max).text|);
    }
  }

  /** What is left of a window that has been cut at its start. */
  function FromFirstBreak(window: Text): Text {
    match IndexOf(window, NEWLINE)
    case Some(i) => window[i + 1..]
    case None => window
  }

  lemma AfterFirstBreak(window: Text)
    ensures var w, n := FromFirstBreak(window), |window|;
            && |w| <= n && w == window[n - |w|..]
            && (|w| == n ==> NEWLINE !in w)
            && (|w| < n ==> window[n - |w| - 1] == NEWLINE && NEWLINE !in window[..n - |w| - 1])
  {
    IndexOfIs(window, NEWLINE);
  }

  lemma EndOfLast(text: Text, max: nat, k: nat)
    requires 0 < max < |text| && k <= max
    ensures var window, n := SliceLast(text, max), |text|;
            && |window| == max && window[max - k..] == text[n - k..]
            && (k < max ==> window[max - k - 1] == text[n - k - 1] && window[..max - k - 1] == text[n - max..n - k - 1])
  {
  }

  lemma PrefixWindowEnds(text: Text, max: nat)
    requires max > 0
    ensures var w := TakePrefixWindow(text, max).text;
            |w| <= |text| && |w| <= max && w == text[|text| - |w|..]
  {
    PrefixWindowIsEnd(text, max);
  }

  lemma {:induction false} IndexOfIs(s: Text, u: Unit)
    ensures IndexOf(s, u).Some? ==> s[IndexOf(s, u).value] == u && u !in s[..IndexOf(s, u).value]
    ensures IndexOf(s, u).None? ==> u !in s
  {
    if s != [] && s[0] != u {
      IndexOfIs(s[1..], u);
      if IndexOf(s, u).Some? { assert s[..IndexOf(s, u).value] == [s[0]] + s[1..][..IndexOf(s[1..], u).value]; }
    }
  }

  lemma {:induction false} LastIndexOfIs(s: Text, u: Unit)
    ensures LastIndexOf(s, u).Some? ==> s[LastIndexOf(s, u).value] == u && u !in s[LastIndexOf(s, u).value + 1..]
    ensures LastIndexOf(s, u).None? ==> u !in s
  {
    if s != [] && s[|s| - 1] != u {
      LastIndexOfIs(s[..|s| - 1], u);
      if LastIndexOf(s, u).Some? {
        var i := LastIndexOf(s, u).value;
        assert s[i + 1..] == s[..|s| - 1][i + 1..] + [s[|s| - 1]];
      }
    }
  }

  /** The window after the cursor keeps the start of the text, within the limit; when it has to cut, it ends with
      the last line break of the first `max` units, or with the last of those units when they hold no line break
      but perhaps at the very start. */
  lemma SuffixWindowIsStart(text: Text, max: nat)
    ensures var w := TakeSuffixWindow(text, max);
            && |w.text| <= |text| && |w.text| <= max && w.text == text[..|w.text|]
            && (w.truncated <==> |text| > max)
            && (!w.truncated ==> w.text == text)
            && (w.truncated && |w.text| < max ==>
                  |w.text| >= 2 && text[|w.text| - 1] == NEWLINE && NEWLINE !in text[|w.text|..max])
            && (w.truncated && |w.text| == max >= 1 ==> text[max - 1] == NEWLINE || NEWLINE !in text[1..max])
  {
    if |text| > max {
      var window := SliceFirst(text, max);
      LastIndexOfIs(window, NEWLINE);
      var w := TakeSuffixWindow(text, max).text;
      if |w| < max { assert text[|w|..max] == window[|w|..]; }
      else if max >= 1 { assert text[1..max] == window[1..]; }
    }
  }

  // ---- the cuts of the API request

  datatype Limits = Limits(prefix: nat, suffix: nat, repository: nat)

  /** `contextLimits` */
  function ContextLimits(focus: string, mode: string, repositoryTimedOut: bool): Limits {
    if mode == "fast" then Limits(1800, 700, 0)
    else
      var limits :=
        if focus == "member-access" then Limits(1500, 500, 2000)
        else if focus == "component-props" then Limits(2500, 1000, 4000)
        else if focus == "function-arguments" then Limits(2500, 1000, 4000)
        else if focus == "tailwind-class" then Limits(2000, 500, 3000)
        else Limits(4000, 2000, 8000);
      if repositoryTimedOut then limits.(repository := limits.repository / 2) else limits
  }

  lemma LimitsAreBounded(focus: string, mode: string, repositoryTimedOut: bool)
    ensures var l := ContextLimits(focus, mode, repositoryTimedOut);
            0 < l.prefix <= 4000 && 0 < l.suffix <= 2000 && l.repository <= 8000
  {
  }

  function SentPrefix(document: Text, cursor: nat, maxPrefix: nat, limits: Limits): Text
    requires cursor <= |document|
  {
    SliceLast(TakePrefixWindow(document[..cursor], maxPrefix).text, limits.prefix)
  }

  function SentSuffix(document: Text, cursor: nat, maxSuffix: nat, limits: Limits): Text
    requires cursor <= |document|
  {
    SliceFirst(TakeSuffixWindow(document[cursor..], maxSuffix).text, limits.suffix)
  }

  /** The end of an end is an end. */
  lemma EndOfEnd(document: Text, before: Text, w: Text, p: Text)
    requires before <= document && |p| <= |w| <= |before|
    requires w == before[|before| - |w|..] && p == w[|w| - |p|..]
    ensures p == document[|before| - |p|..|before|]
  {
    assert w == document[|before| - |w|..|before|];
  }

  lemma LastOfWindow(w: Text, n: nat)
    requires n > 0
    ensures var p := SliceLast(w, n); |p| <= |w| && |p| <= n && p == w[|w| - |p|..]
  {
  }

  lemma LastEndsAtCursor(document: Text, before: Text, w: Text, n: nat)
    requires before <= document && |w| <= |before| && w == before[|before| - |w|..] && n > 0
    ensures var p := SliceLast(w, n);
            |p| <= |w| && |p| <= n && p == document[|before| - |p|..|before|]
  {
    LastOfWindow(w, n);
    EndOfEnd(document, before, w, SliceLast(w, n));
  }

  lemma SentPrefixEndsAtCursor(document: Text, cursor: nat, maxPrefix: nat, limits: Limits)
    requires cursor <= |document| && maxPrefix > 0 && limits.prefix > 0
    ensures var p := SentPrefix(document, cursor, maxPrefix, limits);
            |p| <= cursor && |p| <= limits.prefix && |p| <= maxPrefix && p == document[cursor - |p|..cursor]
  {
    PrefixWindowEnds(document[..cursor], maxPrefix);
    LastEndsAtCursor(document, document[..cursor], TakePrefixWindow(document[..cursor], maxPrefix).text, limits.prefix);
  }

  lemma SentSuffixStartsAtCursor(document: Text, cursor: nat, maxSuffix: nat, limits: Limits)
    requires cursor <= |document|
    ensures var s := SentSuffix(document, cursor, maxSuffix, limits);
            && cursor + |s| <= |document| && |s| <= limits.suffix && |s| <= maxSuffix
            && s == document[cursor..cursor + |s|]
  {
    var after := document[cursor..];
    SuffixWindowIsStart(after, maxSuffix);
    var s := SentSuffix(document, cursor, maxSuffix, limits);
    assert s == after[..|s|];
  }

  /** The prefix sent and the suffix sent are one contiguous piece of the document, split exactly at the cursor,
      each within both its limits. */
  lemma SentTextIsContiguous(document: Text, cursor: nat, maxPrefix: nat, maxSuffix: nat, limits: Limits)
    requires cursor <= |document| && maxPrefix > 0 && limits.prefix > 0
    ensures var p := SentPrefix(document, cursor, maxPrefix, limits);
            var s := SentSuffix(document, cursor, maxSuffix, limits);
            && |p| <= cursor && cursor + |s| <= |document|
            && p == document[cursor - |p|..cursor] && s == document[cursor..cursor + |s|]
            && p + s == document[cursor - |p|..cursor + |s|]
            && |p| <= limits.prefix && |p| <= maxPrefix && |s| <= limits.suffix && |s| <= maxSuffix
            && (|p| == limits.prefix || p == TakePrefixWindow(document[..cursor], maxPrefix).text)
            && (|s| == limits.suffix || s == TakeSuffixWindow(document[cursor..], maxSuffix).text)
  {
    SentPrefixEndsAtCursor(document, cursor, maxPrefix, limits);
    SentSuffixStartsAtCursor(document, cursor, maxSuffix, limits);
  }

  /** What surrounds the cursor is sent whole exactly when it fits what the focus allows, if the windows hold it. */
  lemma ShortTextIsSentWhole(document: Text, cursor: nat, maxPrefix: nat, maxSuffix: nat, focus: string, mode: string,
                             repositoryTimedOut: bool, before: nat, after: nat)
    requires cursor <= |document| && cursor <= maxPrefix && |document| - cursor <= maxSuffix && maxPrefix > 0
    requires Allowance(focus, mode, before, after)
    ensures var limits := ContextLimits(focus, mode, repositoryTimedOut);
            && (SentPrefix(document, cursor, maxPrefix, limits) == document[..cursor] <==> cursor <= before)
            && (SentSuffix(document, cursor, maxSuffix, limits) == document[cursor..] <==> |document| - cursor <= after)
  {
    var limits := ContextLimits(focus, mode, repositoryTimedOut);
    assert limits.prefix == before && limits.suffix == after;
    assert |document[..cursor]| == cursor && |document[cursor..]| == |document| - cursor;
  }

  /** The units before and after the cursor that each focus allows. */
  predicate Allowance(focus: string, mode: string, before: nat, after: nat) {
    && (mode == "fast" ==> before == 1800 && after == 700)
    && (mode != "fast" && focus == "member-access" ==> before == 1500 && after == 500)
    && (mode != "fast" && focus in {"component-props", "function-arguments"} ==> before == 2500 && after == 1000)
    && (mode != "fast" && focus == "tailwind-class" ==> before == 2000 && after == 500)
    && (mode != "fast" && focus !in {"member-access", "component-props", "function-arguments", "tailwind-class"} ==>
          before == 4000 && after == 2000)
  }

  /** The units of repository files: none in fast mode, half of the focus's when gathering them took too long. */
  lemma RepositoryAllowance(focus: string, mode: string)
    ensures var units := ContextLimits(focus, mode, false).repository;
            var late := ContextLimits(focus, mode, true).repository;
            && (mode == "fast" ==> units == 0) && late == units / 2
            && (mode != "fast" && focus == "member-access" ==> units == 2000)
            && (mode != "fast" && focus in {"component-props", "function-arguments"} ==> units == 4000)
            && (mode != "fast" && focus == "tailwind-class" ==> units == 3000)
            && (mode != "fast"
                && focus !in {"member-access", "component-props", "function-arguments", "tailwind-class"} ==>
                  units == 8000)
  {
  }
}
