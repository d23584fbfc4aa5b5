/** When the router falls back to the next target, when it does not, and what comes out in each case
    (api/internal/completion/router/router.go:53-93), for all targets; and what a failed write or an ended context does
    to a stream (api/internal/completion/service.go:51-74, api/internal/http/handlers/stream.go:49-59). */
module RouterLaws {
  import opened Wrappers
  import opened EventStream
  import opened StreamingChain

  // ---- targets that fail before any text

  /** The target ends with error `e` and no text; the empty deltas it may send stay without consequence while the
      context lasts. */
  ghost predicate Fruitless(w: World, t: Target, e: Err) {
    match t
    case Streaming(deltas, end) =>
      && end == Some(e) && (forall i :: 0 <= i < |deltas| ==> deltas[i] == "")
      && (deltas == [] || forall n :: w.ctx(n).None?)
    case Answering(_, err) => err == Some(e)
  }

  /** One of the five provider errors, and not the cancellation of a streaming target. */
  predicate Skippable(t: Target, e: Err) {
    && e.kind in {Some(Authentication), Some(RateLimit), Some(Timeout), Some(Unavailable), Some(InvalidResponse)}
    && (t.Streaming? ==> !e.canceled)
  }

  /** Nothing has been collected or written in between. */
  ghost predicate SameOutput(s: Sink, s': Sink) {
    s'.raw == s.raw && s'.delivered == s.delivered && s'.writes == s.writes
  }

  lemma {:induction false} FruitlessFeed(w: World, s: Sink, deltas: seq<string>, end: Option<Err>)
    requires Clean(w, s) && forall i :: 0 <= i < |deltas| ==> deltas[i] == ""
    requires deltas == [] || forall n :: w.ctx(n).None?
    ensures var out := Feed(w, s, deltas, end); out.err == end && SameOutput(s, out.sink)
    decreases |deltas|
  {
    if deltas != [] {
      assert s.raw + "" == s.raw;
      FindNewlineIsFirst(s.raw);
      FruitlessFeed(w, OnChunk(w, s, "").sink, deltas[1..], end);
    }
  }

  lemma FruitlessTurn(w: World, s: Sink, t: Target, e: Err)
    requires Clean(w, s) && Fruitless(w, t, e)
    ensures var turn := TakeTurn(w, s, t);
            turn.err == Some(e) && !turn.emitted && SameOutput(s, turn.sink) && Clean(w, turn.sink)
    ensures Stops(t, TakeTurn(w, s, t)) <==> !Skippable(t, e)
  {
    if t.Streaming? { FruitlessFeed(w, s, t.deltas, t.end); }
  }

  /** The first `n` targets fail before any text, with errors that let the router go on, while the context lasts. */
  ghost predicate SkipsFirst(w: World, targets: seq<Target>, max: nat, errors: seq<Err>) {
    && |errors| <= |targets| && |errors| <= max
    && forall k :: 0 <= k < |errors| ==>
         Fruitless(w, targets[k], errors[k]) && Skippable(targets[k], errors[k]) && w.dead(k).None?
  }

  function LastError(errors: seq<Err>): Option<Err> {
    if errors == [] then None else Some(errors[|errors| - 1])
  }

  /** ... and then the router stands before target `n` with the last error, and nothing delivered. */
  lemma {:induction false} Skip(w: World, targets: seq<Target>, max: nat, errors: seq<Err>) returns (s: Sink)
    requires SkipsFirst(w, targets, max, errors)
    ensures SameOutput(EMPTY, s) && Clean(w, s)
    ensures Route(w, EMPTY, targets, max, 0, None) == Route(w, s, targets, max, |errors|, LastError(errors))
  {
    s := EMPTY;
    if errors != [] {
      var n := |errors| - 1;
      var before := errors[..n];
      assert SkipsFirst(w, targets, max, before);
      s := Skip(w, targets, max, before);
      FruitlessTurn(w, s, targets[n], errors[n]);
      RouteGoesOn(w, s, targets, max, n, LastError(before));
      s := TakeTurn(w, s, targets[n]).sink;
    }
  }

  lemma {:induction false} ReachesOn(w: World, s: Sink, targets: seq<Target>, max: nat, i: nat, last: Option<Err>)
    requires i <= |targets|
    ensures var out := Route(w, s, targets, max, i, last);
            if i < |targets| && i < max && w.dead(i).None? then out.reached > i else out.reached == i
    decreases |targets| - i
  {
    if i < |targets| && i < max && w.dead(i).None? {
      var turn := TakeTurn(w, s, targets[i]);
      ReachesOn(w, turn.sink, targets, max, i + 1, turn.err);
    }
  }

  /** The router goes on after a target that failed before any text with one of the five errors, exactly as long as
      there is a target, `max` allows it and the context lasts; when it cannot go on, the outcome is the context's
      error or else that of the last target, and nothing has been delivered. */
  lemma RouterFallsBack(w: World, targets: seq<Target>, max: nat, errors: seq<Err>)
    requires SkipsFirst(w, targets, max, errors)
    ensures var n, out := |errors|, Route(w, EMPTY, targets, max, 0, None);
            if n < |targets| && n < max && w.dead(n).None? then out.reached > n
            else
              && out.reached == n && out.emitters == {} && out.sink.delivered == [] && out.sink.raw == ""
              && out.err == if w.dead(n).Some? then w.dead(n) else LastError(errors)
  {
    var s := Skip(w, targets, max, errors);
    ReachesOn(w, s, targets, max, |errors|, LastError(errors));
  }

  /** Any other error of a target that has sent no text ends the stream with it. */
  lemma OtherErrorsEndTheStream(w: World, targets: seq<Target>, max: nat, errors: seq<Err>, e: Err)
    requires SkipsFirst(w, targets, max, errors) && |errors| < |targets| && |errors| < max && w.dead(|errors|).None?
    requires Fruitless(w, targets[|errors|], e) && !Skippable(targets[|errors|], e)
    ensures var out := Route(w, EMPTY, targets, max, 0, None);
            out.reached == |errors| + 1 && out.err == Some(e) && out.emitters == {} && out.sink.delivered == []
  {
    var s := Skip(w, targets, max, errors);
    FruitlessTurn(w, s, targets[|errors|], e);
    RouteStops(w, s, targets, max, |errors|, LastError(errors));
  }

  // ---- targets that send text

  /** Every write succeeds and the context never ends. */
  ghost predicate Healthy(w: World) {
    && (forall k :: w.write(k).None?) && (forall k :: w.ctx(k).None?) && (forall k :: w.dead(k).None?)
  }

  /** All deltas go through, unless a single-line request has its line. */
  lemma {:induction false} HealthyFeed(w: World, s: Sink, deltas: seq<string>, end: Option<Err>)
    requires Healthy(w) && Clean(w, s)
    ensures var out := Feed(w, s, deltas, end);
            if w.singleLine && '\n' in Concat(deltas) then out.err == Some(USEFUL_LINE)
            else out.err == end && out.passed == |deltas| && out.sink.raw == s.raw + Concat(deltas)
                 && Concat(out.sink.delivered) == out.sink.raw
    decreases |deltas|
  {
    if deltas == [] {
      assert s.raw + "" == s.raw;
    } else {
      var fed := OnChunk(w, s, deltas[0]);
      ChunkDelivers(w, s, deltas[0]);
      assert s.raw + deltas[0] + Concat(deltas[1..]) == s.raw + Concat(deltas);
      FindNewlineIsFirst(s.raw + deltas[0]);
      if fed.err.None? { HealthyFeed(w, fed.sink, deltas[1..], end); }
    }
  }

  /** The first target that does not fail before any text delivers its output, or the first line of it, after any
      number of targets that did: whichever way it hands it over, in a world without failures. */
  lemma FirstGoodTargetIsDelivered(w: World, targets: seq<Target>, max: nat, errors: seq<Err>)
    requires Healthy(w) && SkipsFirst(w, targets, max, errors) && |errors| < |targets| && |errors| < max
    requires match targets[|errors|]
             case Streaming(_, end) => end.None?
             case Answering(_, err) => err.None?
    ensures var n, out := |errors|, Route(w, EMPTY, targets, max, 0, None);
            && Succeeded(out.err) && out.reached == n + 1
            && Concat(out.sink.delivered) == out.sink.raw == Kept(w, Output(targets[n]))
  {
    var n, t := |errors|, targets[|errors|];
    var s := Skip(w, targets, max, errors);
    GoodTurn(w, s, t);
    assert t == [t][0] && PrivateTargets([t]);
    TurnDelivers(w, s, t);
    RouteStops(w, s, targets, max, n, LastError(errors));
  }

  lemma GoodTurn(w: World, s: Sink, t: Target)
    requires Healthy(w) && Clean(w, s)
    requires match t
             case Streaming(_, end) => end.None?
             case Answering(_, err) => err.None?
    ensures Succeeded(TakeTurn(w, s, t).err) && Stops(t, TakeTurn(w, s, t))
  {
    match t
    case Streaming(deltas, end) =>
      HealthyFeed(w, s, deltas, end);
      if '\n' in Concat(deltas) && w.singleLine { LineStops(w, s, deltas, end); }
    case Answering(text, err) => FindNewlineIsFirst(s.raw + text);
  }

  /** The delta that brings a line break is not empty. */
  lemma {:induction false} LineStops(w: World, s: Sink, deltas: seq<string>, end: Option<Err>)
    requires Healthy(w) && Clean(w, s) && w.singleLine && '\n' in Concat(deltas)
    ensures AnyText(deltas[..Feed(w, s, deltas, end).passed])
    decreases |deltas|
  {
    var fed := OnChunk(w, s, deltas[0]);
    ChunkDelivers(w, s, deltas[0]);
    FindNewlineIsFirst(s.raw + deltas[0]);
    if fed.err.Some? {
      assert deltas[..1][0] == deltas[0] != "";
    } else {
      LineStops(w, fed.sink, deltas[1..], end);
      var n := Feed(w, fed.sink, deltas[1..], end).passed;
      var i :| 0 <= i < n && deltas[1..][..n][i] != "";
      assert deltas[..n + 1][i + 1] != "";
    }
  }

  /** A target that has sent text is the last one, whatever its error: the stream ends with that error and the text. */
  lemma NoFallbackAfterText(w: World, targets: seq<Target>, max: nat, errors: seq<Err>, e: Err)
    requires Healthy(w) && SkipsFirst(w, targets, max, errors) && |errors| < |targets| && |errors| < max
    requires targets[|errors|].Streaming? && targets[|errors|].end == Some(e) && AnyText(targets[|errors|].deltas)
    requires w.singleLine ==> '\n' !in Concat(targets[|errors|].deltas)
    ensures var n, out := |errors|, Route(w, EMPTY, targets, max, 0, None);
            out.reached == n + 1 && out.err == Some(e) && Concat(out.sink.delivered) == Concat(targets[n].deltas)
  {
    var t := targets[|errors|];
    var s := Skip(w, targets, max, errors);
    HealthyFeed(w, s, t.deltas, t.end);
    assert t.deltas[..|t.deltas|] == t.deltas;
    RouteStops(w, s, targets, max, |errors|, LastError(errors));
    assert "" + Concat(t.deltas) == Concat(t.deltas);
  }

  // ---- failed writes and ended contexts

  /** Every chunk delivered was a successful write, in order, and there was no other. */
  ghost predicate WroteAll(w: World, s: Sink) {
    && s.writes == |s.delivered|
    && forall k :: 0 <= k < |s.delivered| ==> w.write(k).None? && s.delivered[k] != ""
  }

  /** ... and then one write failed, with `err`. */
  ghost predicate WriteFailed(w: World, s: Sink, err: Option<Err>) {
    && s.writes == |s.delivered| + 1 && err.Some? && w.write(|s.delivered|) == err
    && forall k :: 0 <= k < |s.delivered| ==> w.write(k).None? && s.delivered[k] != ""
  }

  ghost predicate Written(w: World, s: Sink, err: Option<Err>) {
    WroteAll(w, s) || WriteFailed(w, s, err)
  }

  lemma ChunkWrites(w: World, s: Sink, delta: string)
    requires WroteAll(w, s)
    ensures var out := OnChunk(w, s, delta);
            Written(w, out.sink, out.err) && (!WroteAll(w, out.sink) ==> delta != "")
  {
  }

  lemma {:induction false} FeedWrites(w: World, s: Sink, deltas: seq<string>, end: Option<Err>)
    requires WroteAll(w, s)
    ensures var out := Feed(w, s, deltas, end);
            Written(w, out.sink, out.err) && (!WroteAll(w, out.sink) ==> AnyText(deltas[..out.passed]))
    decreases |deltas|
  {
    if deltas != [] {
      var fed := OnChunk(w, s, deltas[0]);
      ChunkWrites(w, s, deltas[0]);
      if fed.err.Some? {
        assert deltas[..1][0] == deltas[0];
      } else {
        FeedWrites(w, fed.sink, deltas[1..], end);
        var out, rest := Feed(w, s, deltas, end), Feed(w, fed.sink, deltas[1..], end);
        if !WroteAll(w, out.sink) {
          var i :| 0 <= i < rest.passed && deltas[1..][..rest.passed][i] != "";
          assert deltas[..out.passed][i + 1] != "";
        }
      }
    }
  }

  lemma TurnWrites(w: World, s: Sink, t: Target)
    requires WroteAll(w, s)
    ensures var turn := TakeTurn(w, s, t);
            Written(w, turn.sink, turn.err) && (!WroteAll(w, turn.sink) ==> Stops(t, turn))
  {
    match t
    case Streaming(deltas, end) => FeedWrites(w, s, deltas, end);
    case Answering(text, err) => if err.None? { ChunkWrites(w, s, text); }
  }

  lemma {:induction false} RouteWrites(w: World, s: Sink, targets: seq<Target>, max: nat, i: nat, last: Option<Err>)
    requires i <= |targets| && WroteAll(w, s)
    ensures var out := Route(w, s, targets, max, i, last); Written(w, out.sink, out.err)
    decreases |targets| - i
  {
    if i < |targets| && i < max && w.dead(i).None? {
      var turn := TakeTurn(w, s, targets[i]);
      TurnWrites(w, s, targets[i]);
      if !Stops(targets[i], turn) { RouteWrites(w, turn.sink, targets, max, i + 1, turn.err); }
    }
  }

  /** Whatever the targets do: what was delivered are the successful writes, none of them empty, and a write that fails
      is the last one and ends the whole stream with its error. */
  lemma FailedWriteEndsTheStream(w: World, targets: seq<Target>, max: nat)
    ensures var out := Route(w, EMPTY, targets, max, 0, None);
            && |out.sink.delivered| <= out.sink.writes <= |out.sink.delivered| + 1
            && (forall k :: 0 <= k < |out.sink.delivered| ==> w.write(k).None? && out.sink.delivered[k] != "")
            && (out.sink.writes > |out.sink.delivered| ==>
                  out.err.Some? && w.write(|out.sink.delivered|) == out.err)
  {
    RouteWrites(w, EMPTY, targets, max, 0, None);
  }

  /** A provider is stopped by the first delta after which the context has ended: it has passed on none since, and it
      stops for no other reason than that, a failed write, or a complete line. */
  lemma {:induction false} ProviderStopsExactlyBy(w: World, s: Sink, deltas: seq<string>, end: Option<Err>)
    requires Clean(w, s) && WroteAll(w, s)
    ensures var out := Feed(w, s, deltas, end);
            && out.sink.deltas == s.deltas + out.passed
            && (forall k :: s.deltas < k < out.sink.deltas ==> w.ctx(k).None?)
            && ((out.err == end && out.passed == |deltas|)
                || (out.passed > 0
                    && (WriteFailed(w, out.sink, out.err)
                        || (w.singleLine && '\n' in deltas[out.passed - 1] && out.err == Some(USEFUL_LINE))
                        || (out.err.Some? && w.ctx(out.sink.deltas) == out.err))))
    decreases |deltas|
  {
    if deltas != [] {
      var fed := OnChunk(w, s, deltas[0]);
      ChunkWrites(w, s, deltas[0]);
      ChunkStops(w, s, deltas[0]);
      if fed.err.None? { ProviderStopsExactlyBy(w, fed.sink, deltas[1..], end); }
    }
  }

  lemma ChunkStops(w: World, s: Sink, delta: string)
    requires Clean(w, s) && WroteAll(w, s)
    ensures var out := OnChunk(w, s, delta);
            && out.sink.deltas == s.deltas + 1
            && (out.err.None? ==> Clean(w, out.sink) && w.ctx(out.sink.deltas).None?)
            && (out.err.Some? ==>
                  || WriteFailed(w, out.sink, out.err)
                  || (w.singleLine && '\n' in delta && out.err == Some(USEFUL_LINE))
                  || w.ctx(out.sink.deltas) == out.err)
  {
    var raw := s.raw + delta;
    FindNewlineIsFirst(raw);
    if !w.singleLine || '\n' !in raw { ConcatAppend(s.delivered, delta); }
    if delta == "" { assert raw == s.raw; }
  }

  // ---- what the OpenAI-compatible provider reads

  /** The line neither ends the input nor breaks it. */
  predicate Harmless(line: Line) {
    line.Ignored? || line.Deltas?
  }

  /** All text of the lines. */
  function TextOf(lines: seq<Line>): string {
    if lines == [] then ""
    else (if lines[0].Deltas? then Concat(lines[0].contents) else "") + TextOf(lines[1..])
  }

  lemma {:induction false} ConcatNonEmpty(contents: seq<string>)
    ensures Concat(NonEmpty(contents)) == Concat(contents)
    ensures forall i :: 0 <= i < |NonEmpty(contents)| ==> NonEmpty(contents)[i] != ""
  {
    if contents != [] {
      ConcatNonEmpty(contents[1..]);
      if contents[0] != "" {
        assert NonEmpty(contents) == [contents[0]] + NonEmpty(contents[1..]);
      } else {
        assert NonEmpty(contents) == NonEmpty(contents[1..]);
      }
    }
  }

  lemma {:induction false} ConcatBoth(a: seq<string>, b: seq<string>)
    ensures Concat(a + b) == Concat(a) + Concat(b)
  {
    if a == [] {
      assert a + b == b;
    } else {
      assert (a + b)[1..] == a[1..] + b;
      ConcatBoth(a[1..], b);
      assert a[0] + (Concat(a[1..]) + Concat(b)) == a[0] + Concat(a[1..]) + Concat(b);
    }
  }

  /** The provider streams all the text of the lines up to the first that ends the input or breaks it, in non-empty
      deltas; a `[DONE]` ends it well, malformed data with its error, and the end of the input with the scanner's. */
  lemma {:induction false} ProviderReadsUpToTheEnd(head: seq<Line>, tail: seq<Line>, scanErr: Option<Err>)
    requires forall i :: 0 <= i < |head| ==> Harmless(head[i])
    requires tail == [] || !Harmless(tail[0])
    ensures var t := Behaviour(head + tail, scanErr);
            && t.Streaming? && Concat(t.deltas) == TextOf(head)
            && (forall i :: 0 <= i < |t.deltas| ==> t.deltas[i] != "")
            && t.end == if tail == [] then scanErr else if tail[0].DoneMark? then None else Some(tail[0].err)
  {
    if head == [] {
      assert head + tail == tail;
    } else {
      assert (head + tail)[1..] == head[1..] + tail;
      ProviderReadsUpToTheEnd(head[1..], tail, scanErr);
      if head[0].Deltas? {
        var rest := Behaviour(head[1..] + tail, scanErr);
        ConcatNonEmpty(head[0].contents);
        ConcatBoth(NonEmpty(head[0].contents), rest.deltas);
      }
    }
  }
}
