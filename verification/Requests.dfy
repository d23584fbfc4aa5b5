/** Completion requests, results and cache keys (src/completion/completionTypes.ts and the pure
    functions of src/completion/requestManager.ts). A UTF-16 unit is a `char`. */
module Requests {
  import opened Wrappers
  import opened JsSlices

  /** `hasTask` says that a repository-context task is still running; `fingerprint` is the fingerprint of
      the repository context already present, "" when there is none. */
  datatype Request = Request(
    language: string, prefix: string, suffix: string, style: string,
    safeFilePath: string, intent: string, mode: string, cursorOffset: int,
    hasTask: bool, fingerprint: string)

  datatype Source = Backend | Cache

  datatype CompletionResult = CompletionResult(text: string, requestId: Option<string>, source: Source)

  /** What the SHA-256 digests are computed from; the digest itself is taken to be injective. */
  datatype BaseKey = BaseKey(language: string, prefixTail: string, suffixHead: string, style: string)
  datatype Key = Key(base: BaseKey, fingerprint: string)

  datatype Entry = Entry(value: CompletionResult, documentKey: string, prefix: string, suffix: string,
                         fingerprint: string)

  function BaseKeyOf(q: Request): BaseKey {
    BaseKey(q.language, SliceLast(q.prefix, 2000), SliceFirst(q.suffix, 1000), q.style)
  }

  function KeyOf(q: Request): Key {
    Key(BaseKeyOf(q), q.fingerprint)
  }

  /** The texts are the same, or end in the same `n` units. */
  ghost predicate SameEnd(a: string, b: string, n: nat) {
    a == b || exists x, y, end :: |end| == n && a == x + end && b == y + end
  }

  ghost predicate SameStart(a: string, b: string, n: nat) {
    a == b || exists start, x, y :: |start| == n && a == start + x && b == start + y
  }

  lemma LastSlices(a: string, b: string, n: nat)
    requires n > 0
    ensures SliceLast(a, n) == SliceLast(b, n) <==> SameEnd(a, b, n)
  {
    if SliceLast(a, n) == SliceLast(b, n) && n <= |a| && n <= |b| {
      assert a == a[..|a| - n] + SliceLast(a, n) && b == b[..|b| - n] + SliceLast(a, n);
    }
    if a != b && SameEnd(a, b, n) {
      var x, y, end :| |end| == n && a == x + end && b == y + end;
      assert SliceLast(a, n) == end == SliceLast(b, n);
    }
  }

  lemma FirstSlices(a: string, b: string, n: nat)
    ensures SliceFirst(a, n) == SliceFirst(b, n) <==> SameStart(a, b, n)
  {
    if SliceFirst(a, n) == SliceFirst(b, n) && n <= |a| && n <= |b| {
      assert a == SliceFirst(a, n) + a[n..] && b == SliceFirst(a, n) + b[n..];
    }
    if a != b && SameStart(a, b, n) {
      var start, x, y :| |start| == n && a == start + x && b == start + y;
      assert SliceFirst(a, n) == start == SliceFirst(b, n);
    }
  }

  /** Two requests have the same key exactly when language, style and context agree, and the last 2000 units before the
      cursor and the first 1000 after it do. */
  lemma SameKeyExactlyWhen(a: Request, b: Request)
    ensures KeyOf(a) == KeyOf(b) <==> BaseKeyOf(a) == BaseKeyOf(b) && a.fingerprint == b.fingerprint
    ensures BaseKeyOf(a) == BaseKeyOf(b)
            <==> a.language == b.language && a.style == b.style
                 && SameEnd(a.prefix, b.prefix, 2000) && SameStart(a.suffix, b.suffix, 1000)
  {
    LastSlices(a.prefix, b.prefix, 2000);
    FirstSlices(a.suffix, b.suffix, 1000);
  }

  predicate StartsWith(s: string, p: string) {
    p <= s
  }

  /** `next.slice(base.length)`: what was typed to get from `base` to `next`, when `next` extends `base`. */
  function Typed(base: string, next: string): string {
    if |base| <= |next| then next[|base|..] else ""
  }

  /** `compatibleContinuation` */
  predicate CompatibleContinuation(base: Request, next: Request) {
    && base.language == next.language
    && base.safeFilePath == next.safeFilePath
    && base.suffix == next.suffix
    && base.intent == next.intent
    && base.mode == next.mode
    && StartsWith(next.prefix, base.prefix)
    && var typed := Typed(base.prefix, next.prefix);
       0 < |typed| <= 64 && '\n' !in typed && next.cursorOffset == base.cursorOffset + |typed|
  }

  /** `refineActiveCompletion` */
  function RefineActive(base: Request, next: Request, result: Option<CompletionResult>): Option<CompletionResult> {
    match result
    case None => None
    case Some(r) =>
      var typed := Typed(base.prefix, next.prefix);
      if StartsWith(r.text, typed) then Some(r.(text := r.text[|typed|..])) else None
  }

  /** A continuation is the same request after at most 64 more characters on the same line. */
  lemma ContinuationMeans(base: Request, next: Request)
    ensures CompatibleContinuation(base, next) <==>
              exists typed :: next.prefix == base.prefix + typed && 1 <= |typed| <= 64 && '\n' !in typed
                              && base == next.(prefix := base.prefix, cursorOffset := next.cursorOffset - |typed|,
                                               style := base.style, hasTask := base.hasTask,
                                               fingerprint := base.fingerprint)
  {
    if CompatibleContinuation(base, next) {
      assert next.prefix == base.prefix + Typed(base.prefix, next.prefix);
    }
    if typed :| next.prefix == base.prefix + typed && 1 <= |typed| <= 64 && '\n' !in typed
                && base == next.(prefix := base.prefix, cursorOffset := next.cursorOffset - |typed|,
                                 style := base.style, hasTask := base.hasTask, fingerprint := base.fingerprint) {
      assert Typed(base.prefix, next.prefix) == typed;
    }
  }

  /** The user's typing and what is offered after it add up to the completion first produced. */
  lemma RefineActiveAddsUp(base: Request, next: Request, r: CompletionResult)
    requires StartsWith(next.prefix, base.prefix)
    ensures var typed := Typed(base.prefix, next.prefix);
            var out := RefineActive(base, next, Some(r));
            (out.Some? <==> exists rest :: r.text == typed + rest)
            && (out.Some? ==> typed + out.value.text == r.text && base.prefix + r.text == next.prefix + out.value.text)
  {
    var typed := Typed(base.prefix, next.prefix);
    assert next.prefix == base.prefix + typed;
    var out := RefineActive(base, next, Some(r));
    if out.Some? {
      assert r.text == typed + out.value.text;
      assert base.prefix + (typed + out.value.text) == (base.prefix + typed) + out.value.text;
    }
    if rest :| r.text == typed + rest { assert StartsWith(r.text, typed); }
  }

  /** Refining for two keystrokes one after the other gives the result of refining for both at once. */
  lemma RefineActiveTwice(a: Request, b: Request, c: Request, result: Option<CompletionResult>)
    requires StartsWith(b.prefix, a.prefix) && StartsWith(c.prefix, b.prefix)
    ensures StartsWith(c.prefix, a.prefix)
    ensures RefineActive(b, c, RefineActive(a, b, result)) == RefineActive(a, c, result)
  {
    var ab, bc := Typed(a.prefix, b.prefix), Typed(b.prefix, c.prefix);
    assert Typed(a.prefix, c.prefix) == ab + bc;
    if result.Some? { StripTwice(result.value.text, ab, bc); }
  }

  lemma StripTwice(t: string, ab: string, bc: string)
    ensures StartsWith(t, ab + bc) <==> StartsWith(t, ab) && StartsWith(t[|ab|..], bc)
    ensures StartsWith(t, ab + bc) ==> t[|ab + bc|..] == t[|ab|..][|bc|..]
  {
    if StartsWith(t, ab + bc) {
      assert t[..|ab|] == (ab + bc)[..|ab|] == ab;
      assert t[|ab|..][..|bc|] == t[..|ab + bc|][|ab|..] == bc;
    }
    if StartsWith(t, ab) && StartsWith(t[|ab|..], bc) {
      assert t == ab + (bc + t[|ab|..][|bc|..]) == ab + bc + t[|ab|..][|bc|..];
    }
  }
}
