/** How a streamed completion reaches the client: the provider's deltas (api/internal/completion/providers/
    openai/provider.go:201-236) pass through the router's fallback (api/internal/completion/router/
    router.go:24-90) and the service's first-line cut (api/internal/completion/service.go:44-101) to the
    event writer (api/internal/http/handlers/stream.go:49-59). */
module StreamingChain {
  import opened Wrappers
  import opened EventStream

  // ---- errors

  datatype Kind = Authentication | RateLimit | Timeout | Unavailable | InvalidResponse | Unlisted(name: string)

  /** An error value, by what `errors.As` and `errors.Is` find in its chain. */
  datatype Err = Err(kind: Option<Kind>, canceled: bool, usefulLine: bool, message: string)

  /** `errUsefulLineComplete` */
  const USEFUL_LINE := Err(None, false, true, "useful completion line complete")

  /** `eligible` */
  predicate Eligible(k: Kind) {
    k == Authentication || k == RateLimit || k == Timeout || k == Unavailable || k == InvalidResponse
  }

  /** Whether the router may try the next target after this error. */
  predicate TriesNext(e: Err) {
    e.kind.Some? && Eligible(e.kind.value)
  }

  // ---- the service's callback

  /** Everything outside the process: `write(k)` is the outcome of the k-th event written, `ctx(k)` that of
      `ctx.Err()` after the k-th delta, `dead(k)` whether the context has ended before the router's k-th turn. */
  datatype World = World(singleLine: bool, write: nat -> Option<Err>, ctx: nat -> Option<Err>, dead: nat -> Option<Err>)

  /** `raw`, the chunks written, and how many deltas and writes there have been. */
  datatype Sink = Sink(raw: string, delivered: seq<string>, deltas: nat, writes: nat)

  datatype Fed = Fed(sink: Sink, err: Option<Err>)

  const EMPTY := Sink("", [], 0, 0)

  /** `strings.Index(s, "\n")` */
  function FindNewline(s: string): (at: Option<nat>)
    ensures at.Some? ==> at.value < |s|
  {
    if s == "" then None
    else if s[0] == '\n' then Some(0)
    else
      match FindNewline(s[1..])
      case None => None
      case Some(i) => Some(i + 1)
  }

  lemma {:induction false} FindNewlineIsFirst(s: string)
    ensures FindNewline(s).Some? ==> FindNewline(s).value < |s| && s[FindNewline(s).value] == '\n'
                                     && '\n' !in s[..FindNewline(s).value]
    ensures FindNewline(s).None? ==> '\n' !in s
  {
    if s != "" && s[0] != '\n' {
      FindNewlineIsFirst(s[1..]);
      assert s == [s[0]] + s[1..];
      if FindNewline(s).Some? {
        var i := FindNewline(s).value;
        assert s[..i] == [s[0]] + s[1..][..i - 1];
      }
    }
  }

  /** The part of `s` before its first newline. */
  function FirstLine(s: string): string {
    match FindNewline(s)
    case None => s
    case Some(i) => s[..i]
  }

  /** What a request wants of an output. */
  function Kept(w: World, output: string): string {
    if w.singleLine then FirstLine(output) else output
  }

  function Max(a: int, b: int): int {
    if a > b then a else b
  }

  /** Writing a chunk unless it is empty. */
  function WriteChunk(w: World, s: Sink, chunk: string): Fed {
    if chunk == "" then Fed(s, None)
    else
      match w.write(s.writes)
      case Some(e) => Fed(s.(writes := s.writes + 1), Some(e))
      case None => Fed(s.(writes := s.writes + 1, delivered := s.delivered + [chunk]), None)
  }

  /** The function that `Stream` hands to the provider (service.go:51-74). */
  function OnChunk(w: World, s: Sink, delta: string): Fed {
    var raw := s.raw + delta;
    var s1 := s.(raw := raw, deltas := s.deltas + 1);
    var newline := if w.singleLine then FindNewline(raw) else None;
    if newline.Some? then
      var kept := Max(0, newline.value - |s.raw|);
      var out := WriteChunk(w, s1.(raw := raw[..newline.value]), delta[..kept]);
      if out.err.Some? then out else Fed(out.sink, Some(USEFUL_LINE))
    else
      var out := WriteChunk(w, s1, delta);
      if out.err.Some? then out else Fed(out.sink, w.ctx(s1.deltas))
  }

  // ---- providers

  /** A provider's behaviour: a streaming one passes deltas on and ends, unless the callback stops it; any other
      one answers at once. */
  datatype Target =
    | Streaming(deltas: seq<string>, end: Option<Err>)
    | Answering(text: string, err: Option<Err>)

  /** `passed` counts the deltas handed to the callback. */
  datatype Streamed = Streamed(sink: Sink, err: Option<Err>, passed: nat)

  function Feed(w: World, s: Sink, deltas: seq<string>, end: Option<Err>): (out: Streamed)
    ensures out.passed <= |deltas|
    decreases |deltas|
  {
    if deltas == [] then Streamed(s, end, 0)
    else
      var fed := OnChunk(w, s, deltas[0]);
      if fed.err.Some? then Streamed(fed.sink, fed.err, 1)
      else
        var rest := Feed(w, fed.sink, deltas[1..], end);
        rest.(passed := rest.passed + 1)
  }

  predicate AnyText(deltas: seq<string>) {
    exists i :: 0 <= i < |deltas| && deltas[i] != ""
  }

  lemma {:induction false} FeedPasses(w: World, s: Sink, deltas: seq<string>, end: Option<Err>)
    ensures var out := Feed(w, s, deltas, end);
            && out.passed <= |deltas|
            && (out.passed < |deltas| ==> out.err.Some? && 0 < out.passed)
            && (deltas != [] ==> 0 < out.passed)
    decreases |deltas|
  {
    if deltas != [] { FeedPasses(w, OnChunk(w, s, deltas[0]).sink, deltas[1..], end); }
  }

  /** A line of the OpenAI-compatible event stream. */
  datatype Line = Ignored | DoneMark | Malformed(err: Err) | Deltas(contents: seq<string>)

  function NonEmpty(contents: seq<string>): seq<string> {
    if contents == [] then []
    else (if contents[0] != "" then [contents[0]] else []) + NonEmpty(contents[1..])
  }

  /** What the delta loop of the OpenAI provider does with its input, as a behaviour. */
  function Behaviour(lines: seq<Line>, scanErr: Option<Err>): Target {
    if lines == [] then Streaming([], scanErr)
    else
      match lines[0]
      case Ignored => Behaviour(lines[1..], scanErr)
      case DoneMark => Streaming([], None)
      case Malformed(e) => Streaming([], Some(e))
      case Deltas(contents) =>
        var rest := Behaviour(lines[1..], scanErr);
        if rest.Streaming? then rest.(deltas := NonEmpty(contents) + rest.deltas) else rest
  }

  // ---- the router

  /** `targets` reached so far, which of them handed non-empty text to the callback, and the outcome. */
  datatype Routed = Routed(sink: Sink, err: Option<Err>, reached: nat, emitters: set<nat>)

  /** One turn of the loop over targets: the sink after it, its error, and whether it emitted text. */
  datatype Turn = Turn(sink: Sink, err: Option<Err>, emitted: bool)

  function TakeTurn(w: World, s: Sink, t: Target): Turn {
    match t
    case Streaming(deltas, end) =>
      var out := Feed(w, s, deltas, end);
      Turn(out.sink, out.err, AnyText(deltas[..out.passed]))
    case Answering(text, err) =>
      if err.Some? then Turn(s, err, false)
      else if text != "" then
        var fed := OnChunk(w, s, text);
        Turn(fed.sink, fed.err, true)
      else Turn(s, None, false)
  }

  /** Whether the router stops at this turn's outcome. */
  predicate Stops(t: Target, turn: Turn) {
    || turn.err.None?
    || (t.Answering? && t.err.None?)
    || (t.Streaming? && (turn.emitted || turn.err.value.canceled))
    || !TriesNext(turn.err.value)
  }

  /** `StreamComplete` of the router, from target `i` on. */
  function Route(w: World, s: Sink, targets: seq<Target>, max: int, i: nat, last: Option<Err>): Routed
    requires i <= |targets|
    decreases |targets| - i
  {
    if i == |targets| || i >= max || w.dead(i).Some? then
      Routed(s, if w.dead(i).Some? then w.dead(i) else last, i, {})
    else
      var turn := TakeTurn(w, s, targets[i]);
      var emitter: set<nat> := if turn.emitted then {i} else {};
      if Stops(targets[i], turn) then Routed(turn.sink, turn.err, i + 1, emitter)
      else
        var rest := Route(w, turn.sink, targets, max, i + 1, turn.err);
        rest.(emitters := rest.emitters + emitter)
  }

  // ---- what the callback has delivered

  /** The chunks written add up to `raw`, and a single-line request has seen no newline yet. */
  ghost predicate Clean(w: World, s: Sink) {
    Concat(s.delivered) == s.raw && (w.singleLine ==> '\n' !in s.raw)
  }

  lemma FirstLineOf(a: string, b: string)
    ensures '\n' in a ==> FindNewline(a + b) == FindNewline(a) && FirstLine(a + b) == FirstLine(a)
    ensures '\n' !in a ==> FirstLine(a) == a
    ensures '\n' !in FirstLine(a) && FirstLine(a) <= a
  {
    FindNewlineIsFirst(a);
    if '\n' in a {
      var i := FindNewline(a).value;
      assert (a + b)[..i] == a[..i];
      NewlineAt(a + b, i);
    }
  }

  lemma {:induction false} NewlineAt(s: string, i: nat)
    requires i < |s| && s[i] == '\n' && '\n' !in s[..i]
    ensures FindNewline(s) == Some(i)
  {
    if i > 0 {
      assert s[0] == s[..i][0];
      assert s[1..][..i - 1] == s[..i][1..];
      NewlineAt(s[1..], i - 1);
    }
  }

  /** One delta: it is written through, or cut at the newline it brings. */
  lemma ChunkDelivers(w: World, s: Sink, delta: string)
    requires Clean(w, s) && forall k :: w.write(k).Some? ==> !w.write(k).value.usefulLine
    requires forall k :: w.ctx(k).Some? ==> !w.ctx(k).value.usefulLine
    ensures var out := OnChunk(w, s, delta);
            && (out.err.None? ==> Clean(w, out.sink) && out.sink.raw == s.raw + delta)
            && (out.err.Some? && out.err.value.usefulLine ==>
                  w.singleLine && '\n' in delta && Concat(out.sink.delivered) == out.sink.raw
                  && out.sink.raw == FirstLine(s.raw + delta))
  {
    var raw := s.raw + delta;
    FindNewlineIsFirst(raw);
    if w.singleLine && FindNewline(raw).Some? {
      var n := FindNewline(raw).value;
      var kept := n - |s.raw|;
      assert forall k :: 0 <= k < |s.raw| ==> raw[k] == s.raw[k] && raw[k] in s.raw;
      assert raw[n] == delta[kept];
      assert raw[..n] == s.raw + delta[..kept];
      ConcatAppend(s.delivered, delta[..kept]);
    } else {
      ConcatAppend(s.delivered, delta);
      if delta == "" { assert raw == s.raw; }
      assert w.singleLine ==> '\n' !in raw;
    }
  }

  ghost predicate Private(w: World) {
    && (forall k :: w.write(k).Some? ==> !w.write(k).value.usefulLine)
    && (forall k :: w.ctx(k).Some? ==> !w.ctx(k).value.usefulLine)
    && (forall k :: w.dead(k).Some? ==> !w.dead(k).value.usefulLine)
  }

  predicate Succeeded(err: Option<Err>) {
    err.None? || err.value.usefulLine
  }

  /** However a provider cuts its output into deltas: on success the chunks written add up to `raw`, which is
      the whole output, or for a single-line request exactly its first line. */
  lemma {:induction false} FeedDelivers(w: World, s: Sink, deltas: seq<string>, end: Option<Err>)
    requires Clean(w, s) && Private(w) && (end.Some? ==> !end.value.usefulLine)
    requires Succeeded(Feed(w, s, deltas, end).err)
    ensures var out := Feed(w, s, deltas, end);
            && Concat(out.sink.delivered) == out.sink.raw
            && out.sink.raw == Kept(w, s.raw + Concat(deltas))
            && (out.err.None? ==> out.passed == |deltas|)
            && (out.err.Some? ==> out.passed <= |deltas| && AnyText(deltas[..out.passed]))
    decreases |deltas|
  {
    if deltas == [] {
      assert s.raw + "" == s.raw;
      FirstLineOf(s.raw, "");
    } else {
      var fed := OnChunk(w, s, deltas[0]);
      ChunkDelivers(w, s, deltas[0]);
      assert s.raw + deltas[0] + Concat(deltas[1..]) == s.raw + Concat(deltas);
      if fed.err.Some? {
        FirstLineOf(s.raw + deltas[0], Concat(deltas[1..]));
        assert deltas[..1][0] == deltas[0] != "";
      } else {
        FeedDelivers(w, fed.sink, deltas[1..], end);
        var out, rest := Feed(w, s, deltas, end), Feed(w, fed.sink, deltas[1..], end);
        if out.err.Some? {
          var i :| 0 <= i < rest.passed && deltas[1..][..rest.passed][i] != "";
          assert deltas[..out.passed][i + 1] != "";
        }
      }
    }
  }

  // ---- what the router guarantees

  /** A target's whole output. */
  function Output(t: Target): string {
    match t
    case Streaming(deltas, _) => Concat(deltas)
    case Answering(text, err) => if err.None? then text else ""
  }

  ghost predicate PrivateTargets(targets: seq<Target>) {
    forall k :: 0 <= k < |targets| ==>
      match targets[k]
      case Streaming(_, end) => end.Some? ==> !end.value.usefulLine
      case Answering(_, err) => err.Some? ==> !err.value.usefulLine
  }

  lemma {:induction false} SilentFeed(w: World, s: Sink, deltas: seq<string>, end: Option<Err>)
    requires Clean(w, s) && var n := Feed(w, s, deltas, end).passed; n <= |deltas| && !AnyText(deltas[..n])
    ensures Feed(w, s, deltas, end).sink.raw == s.raw && Feed(w, s, deltas, end).sink.delivered == s.delivered
    decreases |deltas|
  {
    if deltas != [] {
      FeedPasses(w, s, deltas, end);
      var n := Feed(w, s, deltas, end).passed;
      assert deltas[..n][0] == "";
      var fed := OnChunk(w, s, deltas[0]);
      assert s.raw + "" == s.raw;
      FindNewlineIsFirst(s.raw);
      if fed.err.None? {
        var m := Feed(w, fed.sink, deltas[1..], end).passed;
        FeedPasses(w, fed.sink, deltas[1..], end);
        assert deltas[1..][..m] == deltas[..n][1..];
        SilentFeed(w, fed.sink, deltas[1..], end);
      }
    }
  }

  lemma {:induction false} SilentOutput(deltas: seq<string>)
    requires !AnyText(deltas)
    ensures Concat(deltas) == ""
  {
    if deltas != [] {
      assert deltas[0] == "";
      assert forall i :: 0 <= i < |deltas| - 1 ==> deltas[1..][i] == deltas[i + 1];
      SilentOutput(deltas[1..]);
    }
  }

  /** A turn that emitted nothing leaves what was collected and written as it was. */
  lemma SilentTurn(w: World, s: Sink, t: Target)
    requires Clean(w, s) && !TakeTurn(w, s, t).emitted
    ensures TakeTurn(w, s, t).sink.raw == s.raw && TakeTurn(w, s, t).sink.delivered == s.delivered
  {
    if t.Streaming? {
      FeedPasses(w, s, t.deltas, t.end);
      SilentFeed(w, s, t.deltas, t.end);
    }
  }

  /** A turn that succeeds delivers the target's whole output, or its first line. */
  lemma TurnDelivers(w: World, s: Sink, t: Target)
    requires Clean(w, s) && s.raw == "" && Private(w) && PrivateTargets([t])
    requires Succeeded(TakeTurn(w, s, t).err)
    ensures var turn := TakeTurn(w, s, t);
            && Concat(turn.sink.delivered) == turn.sink.raw
            && turn.sink.raw == Kept(w, Output(t))
            && (!turn.emitted ==> Output(t) == "")
            && (turn.err.Some? ==> turn.emitted)
  {
    assert t == [t][0];
    match t
    case Streaming(deltas, end) =>
      FeedDelivers(w, s, deltas, end);
      assert "" + Concat(deltas) == Concat(deltas);
      var out := Feed(w, s, deltas, end);
      if out.err.None? {
        assert deltas[..out.passed] == deltas;
        if !AnyText(deltas) { SilentOutput(deltas); }
      }
    case Answering(text, err) =>
      FirstLineOf("", "");
      if err.None? && text != "" {
        ChunkDelivers(w, s, text);
        assert "" + text == text;
        FirstLineOf(text, "");
      }
  }

  /** Streaming never delivers non-empty chunks of two targets; targets are reached in order, at most `max` of
      them, and one after the first only when every earlier one failed with an error that lets the router try the
      next and had emitted nothing. */
  lemma {:induction false} RouterStreamsFromOne(w: World, s: Sink, targets: seq<Target>, max: nat, i: nat,
                                                last: Option<Err>)
    requires i <= |targets| && Clean(w, s)
    ensures var out := Route(w, s, targets, max, i, last);
            && i <= out.reached <= |targets| && (out.reached > i ==> out.reached <= max)
            && (forall k :: i <= k < out.reached ==> w.dead(k).None?)
            && (out.emitters == {} || (out.emitters == {out.reached - 1} && out.reached > i))
            && (forall k {:trigger targets[k]} :: i <= k < out.reached - 1 ==>
                  var turn := TakeTurn(w, SinkBefore(w, s, targets, i, k), targets[k]);
                  turn.err.Some? && TriesNext(turn.err.value) && !turn.emitted)
    decreases |targets| - i
  {
    if i < |targets| && i < max && w.dead(i).None? {
      var turn := TakeTurn(w, s, targets[i]);
      if !Stops(targets[i], turn) {
        AnsweringEmitsOnSuccess(w, s, targets[i]);
        SilentTurn(w, s, targets[i]);
        RouterStreamsFromOne(w, turn.sink, targets, max, i + 1, turn.err);
        var out := Route(w, s, targets, max, i, last);
        forall k {:trigger targets[k]} | i <= k < out.reached - 1
          ensures var t := TakeTurn(w, SinkBefore(w, s, targets, i, k), targets[k]);
                  t.err.Some? && TriesNext(t.err.value) && !t.emitted
        {
        }
      }
    }
  }

  lemma AnsweringEmitsOnSuccess(w: World, s: Sink, t: Target)
    ensures t.Answering? && t.err.Some? ==> !TakeTurn(w, s, t).emitted
  {
  }

  /** The sink as target `k` finds it, after the turns of targets i..k. */
  function SinkBefore(w: World, s: Sink, targets: seq<Target>, i: nat, k: nat): Sink
    requires i <= k <= |targets|
    decreases k - i
  {
    if i == k then s else SinkBefore(w, TakeTurn(w, s, targets[i]).sink, targets, i + 1, k)
  }

  /** What was written and collected is the output of the one target that emitted, or its first line; nothing when
      none did. */
  ghost predicate DeliveredOne(w: World, targets: seq<Target>, out: Routed) {
    && Concat(out.sink.delivered) == out.sink.raw
    && (out.emitters == {} ==> out.sink.raw == "")
    && (out.emitters != {} ==>
          && 0 < out.reached <= |targets| && out.emitters == {out.reached - 1}
          && out.sink.raw == Kept(w, Output(targets[out.reached - 1])))
  }

  /** When the router succeeds, it has delivered the output of one target at most. */
  lemma {:induction false} RouterDelivers(w: World, s: Sink, targets: seq<Target>, max: nat, i: nat, last: Option<Err>)
    requires i <= |targets| && Clean(w, s) && s.raw == "" && Private(w) && PrivateTargets(targets)
    requires (last.Some? ==> !last.value.usefulLine)
    requires Succeeded(Route(w, s, targets, max, i, last).err)
    ensures DeliveredOne(w, targets, Route(w, s, targets, max, i, last))
    decreases |targets| - i
  {
    if i < |targets| && i < max && w.dead(i).None? {
      assert PrivateTargets([targets[i]]);
      if Stops(targets[i], TakeTurn(w, s, targets[i])) {
        RouteStops(w, s, targets, max, i, last);
        StoppedDelivers(w, s, targets, i);
      } else {
        SilentTurnGoesOn(w, s, targets[i]);
        RouteGoesOn(w, s, targets, max, i, last);
        RouterDelivers(w, TakeTurn(w, s, targets[i]).sink, targets, max, i + 1, TakeTurn(w, s, targets[i]).err);
      }
    }
  }

  /** The outcome when target `i` is the last one. */
  function StoppedAt(w: World, s: Sink, targets: seq<Target>, i: nat): Routed
    requires i < |targets|
  {
    var turn := TakeTurn(w, s, targets[i]);
    Routed(turn.sink, turn.err, i + 1, if turn.emitted then {i} else {})
  }

  lemma RouteStops(w: World, s: Sink, targets: seq<Target>, max: nat, i: nat, last: Option<Err>)
    requires i < |targets| && i < max && w.dead(i).None? && Stops(targets[i], TakeTurn(w, s, targets[i]))
    ensures Route(w, s, targets, max, i, last) == StoppedAt(w, s, targets, i)
  {
  }

  lemma StoppedDelivers(w: World, s: Sink, targets: seq<Target>, i: nat)
    requires i < |targets| && Clean(w, s) && s.raw == "" && Private(w) && PrivateTargets([targets[i]])
    requires Succeeded(StoppedAt(w, s, targets, i).err)
    ensures DeliveredOne(w, targets, StoppedAt(w, s, targets, i))
  {
    StoppingTurnDelivers(w, s, targets[i]);
  }

  /** A turn that neither stops the router nor emits leaves the outcome to the rest. */
  lemma RouteGoesOn(w: World, s: Sink, targets: seq<Target>, max: nat, i: nat, last: Option<Err>)
    requires i < |targets| && i < max && w.dead(i).None?
    requires !Stops(targets[i], TakeTurn(w, s, targets[i])) && !TakeTurn(w, s, targets[i]).emitted
    ensures var turn := TakeTurn(w, s, targets[i]);
            Route(w, s, targets, max, i, last) == Route(w, turn.sink, targets, max, i + 1, turn.err)
  {
    var turn := TakeTurn(w, s, targets[i]);
    var rest := Route(w, turn.sink, targets, max, i + 1, turn.err);
    assert rest.emitters + {} == rest.emitters;
  }

  lemma StoppingTurnDelivers(w: World, s: Sink, t: Target)
    requires Clean(w, s) && s.raw == "" && Private(w) && PrivateTargets([t])
    requires Succeeded(TakeTurn(w, s, t).err)
    ensures var turn := TakeTurn(w, s, t);
            && Concat(turn.sink.delivered) == turn.sink.raw
            && turn.sink.raw == (if turn.emitted then Kept(w, Output(t)) else "")
  {
    TurnDelivers(w, s, t);
    FirstLineOf("", "");
  }

  lemma SilentTurnGoesOn(w: World, s: Sink, t: Target)
    requires Clean(w, s) && s.raw == "" && Private(w) && PrivateTargets([t]) && !Stops(t, TakeTurn(w, s, t))
    ensures var turn := TakeTurn(w, s, t);
            Clean(w, turn.sink) && turn.sink.raw == "" && turn.err.Some? && !turn.err.value.usefulLine && !turn.emitted
  {
    SilentTurn(w, s, t);
    NextErrIsPrivate(w, s, t);
  }

  lemma NextErrIsPrivate(w: World, s: Sink, t: Target)
    requires Clean(w, s) && s.raw == "" && Private(w) && PrivateTargets([t]) && !Stops(t, TakeTurn(w, s, t))
    ensures TakeTurn(w, s, t).err.Some? && !TakeTurn(w, s, t).err.value.usefulLine && !TakeTurn(w, s, t).emitted
  {
    if Succeeded(TakeTurn(w, s, t).err) { TurnDelivers(w, s, t); }
  }
}
