/** The streaming service as it is configured: the single-line decision (api/internal/completion/service.go:88-101) and
    the sanitizer in place, and what the client then ends up with. */
module CompletionService {
  import opened Wrappers
  import EventStream
  import opened StreamingChain
  import CompletionStream
  import Sanitizer
  import TextLaws
  import SanitizerLaws
  import GoStrings

  /** `singleLineFocus`; `focus` is that of the repository context, if there is one. */
  predicate SingleLineFocus(intent: string, focus: Option<string>) {
    if intent != "" then Sanitizer.SingleLineIntent(intent)
    else
      focus.Some?
      && (focus.value == "component-props" || focus.value == "member-access" || focus.value == "function-arguments"
          || focus.value == "tailwind-class")
  }

  /** A stated intent asks for one line exactly when it allows no second one; without one, a focus does exactly when as
      an intent it would allow no third one, and it is neither an import nor a condition. */
  lemma SingleLineExactlyWhen(intent: string, focus: Option<string>)
    ensures intent != "" ==> (SingleLineFocus(intent, focus) <==> !TextLaws.IntentAllows(intent, 2))
    ensures intent == "" ==>
              (SingleLineFocus(intent, focus)
               <==> focus.Some? && !TextLaws.IntentAllows(focus.value, 3)
                    && focus.value !in {"import", "condition-expression"})
  {
  }

  /** A text made of what one line holds, and nothing else, is one line. */
  lemma SubsequenceOfALine(out: string, line: string)
    requires '\n' !in line && '\r' !in line && GoStrings.IsSubsequence(out, GoStrings.Normalize(line))
    ensures '\n' !in out
  {
    SanitizerLaws.WithoutCr(line);
    if '\n' in out { GoStrings.SubsequenceChars(out, line, '\n'); }
  }

  lemma KeptLine(w: World, targets: seq<Target>, out: Routed)
    requires w.singleLine
    ensures '\n' !in CompletionStream.Emitted(w, targets, out)
  {
    if out.emitters != {} && 0 < out.reached <= |targets| { FirstLineOf(Output(targets[out.reached - 1]), ""); }
  }

  /** The sanitizer in place, for one request. */
  function Sanitizing(config: Sanitizer.Config, q: Sanitizer.Request): string -> string {
    raw => Sanitizer.Sanitize(config, q, raw)
  }

  /** End to end, with the sanitizer and the single-line decision of the request: when the stream succeeds, the client
      gets the sanitized form of what the request wanted of the one target that emitted, presentable within the
      limits of the request's intent; one line for a single-line intent, and for a single-line focus unless the
      provider's line held a carriage return. */
  lemma ClientGetsPresentableText(c: EventStream.Codec, config: Sanitizer.Config, q: Sanitizer.Request,
                                  focus: Option<string>, w: World, targets: seq<Target>, max: nat,
                                  requestId: string, requestGone: bool, chunks: seq<string>,
                                  initialId: Option<string>)
    requires EventStream.JsonLike(c) && Private(w) && PrivateTargets(targets)
    requires config.maxLines >= 1 && config.maxChars >= 1 && w.singleLine == SingleLineFocus(q.intent, focus)
    requires Succeeded(Route(w, EMPTY, targets, max, 0, None).err)
    requires EventStream.Concat(chunks)
             == EventStream.PrintAll(c, CompletionStream.Served(w, targets, max, Sanitizing(config, q), requestId,
                                                                requestGone))
    ensures var whole := CompletionStream.Emitted(w, targets, Route(w, EMPTY, targets, max, 0, None));
            var text := Sanitizer.Sanitize(config, q, whole);
            var limit := Sanitizer.MaxLinesForIntent(q.intent, config.maxLines);
            && EventStream.Interpret(c, EventStream.Concat(chunks), initialId)
               == EventStream.Completed(text, Some(requestId))
            && Sanitizer.Presentable(GoStrings.Blank, GoStrings.Normalize(whole), limit, config.maxChars, text)
            && (Sanitizer.SingleLineIntent(q.intent) ==> '\n' !in text)
            && (w.singleLine && '\r' !in whole ==> '\n' !in text)
  {
    CompletionStream.ClientGetsSanitizedOutput(c, w, targets, max, Sanitizing(config, q), requestId, requestGone,
                                               chunks, initialId);
    var out := Route(w, EMPTY, targets, max, 0, None);
    var whole := CompletionStream.Emitted(w, targets, out);
    Sanitizer.SanitizedText(config, q, whole);
    if w.singleLine && '\r' !in whole {
      KeptLine(w, targets, out);
      SubsequenceOfALine(Sanitizer.Sanitize(config, q, whole), whole);
    }
  }
}
