/** The streaming chain as the loops and callbacks it is made of, and its end-to-end guarantee: the text the
    client ends up with is the sanitized output of one provider, whatever the deltas, the fallbacks and the
    network chunks were. */
module CompletionStream {
  import opened Wrappers
  import opened EventStream
  import opened StreamingChain

  /** The variables that the service's callback captures and the response it writes to. */
  class Session {
    const world: World
    var raw: string
    var delivered: seq<string>
    var deltas: nat
    var writes: nat

    ghost function View(): Sink
      reads this
    {
      Sink(raw, delivered, deltas, writes)
    }

    constructor (w: World)
      ensures world == w && View() == EMPTY
    {
      world, raw, delivered, deltas, writes := w, "", [], 0, 0;
    }

    /** `writeEvent` of a chunk, as the handler's `onChunk`. */
    method Write(chunk: string) returns (err: Option<Err>)
      requires chunk != ""
      modifies this`delivered, this`writes
      ensures Fed(View(), err) == WriteChunk(world, old(View()), chunk)
    {
      err := world.write(writes);
      writes := writes + 1;
      if err.None? { delivered := delivered + [chunk]; }
    }

    /** The callback of `Stream`. */
    method OnChunk(delta: string) returns (err: Option<Err>)
      modifies this
      ensures Fed(View(), err) == StreamingChain.OnChunk(world, old(View()), delta)
    {
      var previousLength := |raw|;
      raw, deltas := raw + delta, deltas + 1;
      var chunk, stop := delta, false;
      if world.singleLine {
        var newline := FindNewline(raw);
        if newline.Some? {
          chunk := delta[..Max(0, newline.value - previousLength)];
          raw := raw[..newline.value];
          stop := true;
        }
      }
      if chunk != "" {
        err := Write(chunk);
        if err.Some? { return; }
      }
      if stop { return Some(USEFUL_LINE); }
      return world.ctx(deltas);
    }
  }

  lemma {:induction false} FeedSplits(w: World, s: Sink, a: seq<string>, b: seq<string>, end: Option<Err>)
    ensures var first := Feed(w, s, a, None);
            Feed(w, s, a + b, end)
            == if first.err.Some? then first
               else var rest := Feed(w, first.sink, b, end); rest.(passed := first.passed + rest.passed)
    decreases |a|
  {
    if a == [] {
      assert a + b == b;
    } else {
      assert (a + b)[1..] == a[1..] + b;
      FeedSplits(w, OnChunk(w, s, a[0]).sink, a[1..], b, end);
    }
  }

  lemma {:induction false} BehaviourStreams(lines: seq<Line>, scanErr: Option<Err>)
    ensures Behaviour(lines, scanErr).Streaming?
  {
    if lines != [] { BehaviourStreams(lines[1..], scanErr); }
  }

  /** The choices of one event: every non-empty delta goes to the callback until it reports an error. */
  method PassDeltas(session: Session, contents: seq<string>) returns (err: Option<Err>, ghost passed: nat)
    modifies session
    ensures Streamed(session.View(), err, passed) == Feed(session.world, old(session.View()), NonEmpty(contents), None)
  {
    ghost var s := session.View();
    passed := 0;
    for i := 0 to |contents|
      invariant Feed(session.world, s, NonEmpty(contents), None)
                == var rest := Feed(session.world, session.View(), NonEmpty(contents[i..]), None);
                   rest.(passed := passed + rest.passed)
    {
      assert contents[i..][0] == contents[i] && contents[i..][1..] == contents[i + 1..];
      if contents[i] != "" {
        assert NonEmpty(contents[i..]) == [contents[i]] + NonEmpty(contents[i + 1..]);
        assert NonEmpty(contents[i..])[1..] == NonEmpty(contents[i + 1..]);
        passed := passed + 1;
        err := session.OnChunk(contents[i]);
        if err.Some? { return; }
      } else {
        assert NonEmpty(contents[i..]) == NonEmpty(contents[i + 1..]);
      }
    }
    return None, passed;
  }

  /** The scan loop of the OpenAI provider's `StreamComplete`: the callback is fed exactly the deltas that the
      behaviour of the input says. */
  method OpenAiStream(session: Session, lines: seq<Line>, scanErr: Option<Err>)
    returns (err: Option<Err>, ghost passed: nat)
    modifies session
    ensures var t := Behaviour(lines, scanErr);
            t.Streaming?
            && Streamed(session.View(), err, passed) == Feed(session.world, old(session.View()), t.deltas, t.end)
  {
    BehaviourStreams(lines, scanErr);
    ghost var s, t := session.View(), Behaviour(lines, scanErr);
    passed := 0;
    for i := 0 to |lines|
      invariant Behaviour(lines[i..], scanErr).Streaming?
      invariant Feed(session.world, s, t.deltas, t.end)
                == var now := Behaviour(lines[i..], scanErr);
                   var rest := Feed(session.world, session.View(), now.deltas, now.end);
                   rest.(passed := passed + rest.passed)
    {
      assert lines[i..][0] == lines[i] && lines[i..][1..] == lines[i + 1..];
      BehaviourStreams(lines[i + 1..], scanErr);
      match lines[i]
      case Ignored =>
      case DoneMark => return None, passed;
      case Malformed(e) => return Some(e), passed;
      case Deltas(contents) =>
        ghost var later := Behaviour(lines[i + 1..], scanErr);
        FeedSplits(session.world, session.View(), NonEmpty(contents), later.deltas, later.end);
        ghost var n;
        err, n := PassDeltas(session, contents);
        passed := passed + n;
        if err.Some? { return; }
    }
    return scanErr, passed;
  }

  /** Any streaming provider, given the behaviour it shows. */
  method StreamDeltas(session: Session, deltas: seq<string>, end: Option<Err>)
    returns (err: Option<Err>, emitted: bool)
    modifies session
    ensures var out := Feed(session.world, old(session.View()), deltas, end);
            session.View() == out.sink && err == out.err && emitted == AnyText(deltas[..out.passed])
  {
    ghost var s := session.View();
    emitted := false;
    for i := 0 to |deltas|
      invariant Feed(session.world, s, deltas, end)
                == var rest := Feed(session.world, session.View(), deltas[i..], end); rest.(passed := i + rest.passed)
      invariant emitted == AnyText(deltas[..i])
    {
      assert deltas[i..][0] == deltas[i] && deltas[i..][1..] == deltas[i + 1..];
      assert deltas[..i + 1] == deltas[..i] + [deltas[i]];
      TextSoFar(deltas, i);
      // The router's wrapper around the callback.
      emitted := emitted || deltas[i] != "";
      err := session.OnChunk(deltas[i]);
      if err.Some? { return; }
    }
    assert deltas[..|deltas|] == deltas;
    return end, emitted;
  }

  lemma TextSoFar(deltas: seq<string>, i: nat)
    requires i < |deltas|
    ensures AnyText(deltas[..i + 1]) == (AnyText(deltas[..i]) || deltas[i] != "")
  {
    if AnyText(deltas[..i]) {
      var k :| 0 <= k < |deltas[..i]| && deltas[..i][k] != "";
      assert deltas[..i + 1][k] != "";
    }
    if deltas[i] != "" { assert deltas[..i + 1][i] != ""; }
    if AnyText(deltas[..i + 1]) {
      var k :| 0 <= k < |deltas[..i + 1]| && deltas[..i + 1][k] != "";
      if k < i { assert deltas[..i][k] != ""; }
    }
  }

  /** The router's `StreamComplete`. */
  method RouteStream(session: Session, targets: seq<Target>, max: nat)
    returns (err: Option<Err>, reached: nat, emitters: set<nat>)
    modifies session
    ensures Routed(session.View(), err, reached, emitters)
            == Route(session.world, old(session.View()), targets, max, 0, None)
  {
    ghost var s := session.View();
    var last: Option<Err> := None;
    emitters := {};
    var i := 0;
    while i < |targets|
      invariant 0 <= i <= |targets|
      invariant Route(session.world, s, targets, max, 0, None)
                == var rest := Route(session.world, session.View(), targets, max, i, last);
                   rest.(emitters := rest.emitters + emitters)
    {
      if i >= max || session.world.dead(i).Some? { break; }
      ghost var turn := TakeTurn(session.world, session.View(), targets[i]);
      ghost var emitter: set<nat> := if turn.emitted then {i} else {};
      match targets[i] {
        case Streaming(deltas, end) =>
          var e, emitted := StreamDeltas(session, deltas, end);
          if emitted { emitters := emitters + {i}; }
          if e.None? { return None, i + 1, emitters; }
          if emitted || e.value.canceled { return e, i + 1, emitters; }
          last := e;
        case Answering(text, e) =>
          if e.None? {
            if text != "" {
              emitters := emitters + {i};
              err := session.OnChunk(text);
              return err, i + 1, emitters;
            }
            return None, i + 1, emitters;
          }
          last := e;
      }
      if !TriesNext(last.value) { return last, i + 1, emitters; }
      i := i + 1;
    }
    if session.world.dead(i).Some? { return session.world.dead(i), i, emitters; }
    return last, i, emitters;
  }

  // ---- the router without streaming

  /** `reached` targets were called; the answer is the text or an error, or neither when no target was called. */
  datatype Answered = Answered(text: Option<string>, err: Option<Err>, reached: nat)

  /** What a target's `Complete` returns. */
  datatype Call = Call(text: string, err: Option<Err>)

  predicate Fails(c: Call) {
    c.err.Some? && !c.err.value.canceled && TriesNext(c.err.value)
  }

  /** The router's `Complete`: it calls at most `max` targets in order, a further one only after every earlier
      one failed with an eligible provider error, and returns the first answer. */
  method RouteComplete(calls: seq<Call>, dead: nat -> Option<Err>, max: nat) returns (out: Answered)
    ensures out.reached <= |calls| && out.reached <= max
    ensures forall k :: 0 <= k < out.reached - 1 ==> Fails(calls[k])
    ensures forall k :: 0 <= k < out.reached ==> dead(k).None?
    ensures out.text.Some? ==> out.reached > 0 && calls[out.reached - 1] == Call(out.text.value, None)
    ensures out.text.Some? ==> out.err.None?
    ensures out.text.None? ==> forall k :: 0 <= k < out.reached ==> calls[k].err.Some?
    ensures out.reached == 0 ==> (|calls| == 0 || max == 0 || dead(0).Some?) && out.err == dead(0)
    ensures out.reached > 0 && out.text.None? && !Fails(calls[out.reached - 1]) ==>
              out.err == calls[out.reached - 1].err
    ensures out.reached > 0 && Fails(calls[out.reached - 1]) ==>
              (out.reached == |calls| || out.reached >= max || dead(out.reached).Some?)
              && out.err == (if dead(out.reached).Some? then dead(out.reached) else calls[out.reached - 1].err)
  {
    var last: Option<Err> := None;
    var i := 0;
    while i < |calls|
      invariant 0 <= i <= |calls| && i <= max
      invariant forall k :: 0 <= k < i ==> Fails(calls[k]) && dead(k).None?
      invariant last == if i > 0 then calls[i - 1].err else None
    {
      if i >= max || dead(i).Some? { break; }
      if calls[i].err.None? { return Answered(Some(calls[i].text), None, i + 1); }
      if calls[i].err.value.canceled { return Answered(None, calls[i].err, i + 1); }
      last := calls[i].err;
      if !TriesNext(last.value) { return Answered(None, last, i + 1); }
      i := i + 1;
    }
    if dead(i).Some? { return Answered(None, dead(i), i); }
    return Answered(None, last, i);
  }

  // ---- the handler

  /** The events the handler writes when `Stream` succeeds. */
  function ChunkEvents(chunks: seq<string>): seq<Event> {
    if chunks == [] then [] else [Chunk(chunks[0])] + ChunkEvents(chunks[1..])
  }

  /** The chunks delivered, and then `done` on success, else `error` unless the request itself has gone. */
  function Served(w: World, targets: seq<Target>, max: nat, sanitize: string -> string,
                  requestId: string, requestGone: bool): seq<Event>
  {
    var out := Route(w, EMPTY, targets, max, 0, None);
    ChunkEvents(out.sink.delivered) +
    (if Succeeded(out.err) then [Done(sanitize(out.sink.raw), requestId)]
     else if requestGone then [] else [Error("PROVIDER_UNAVAILABLE", requestId)])
  }

  /** `Stream` of the service followed by the handler's last event. The chunks have been written through the session
      meanwhile. */
  method ServeStream(w: World, targets: seq<Target>, max: nat, sanitize: string -> string,
                     requestId: string, requestGone: bool)
    returns (events: seq<Event>)
    ensures events == Served(w, targets, max, sanitize, requestId, requestGone)
  {
    var session := new Session(w);
    var err, _, _ := RouteStream(session, targets, max);
    events := ChunkEvents(session.delivered);
    if err.Some? && !err.value.usefulLine {
      if !requestGone { events := events + [Error("PROVIDER_UNAVAILABLE", requestId)]; }
      return;
    }
    events := events + [Done(sanitize(session.raw), requestId)];
  }

  lemma {:induction false} ChunksThenDone(chunks: seq<string>, text: string, id: string, at: Progress)
    requires at.Reading?
    ensures EffectAll(ChunkEvents(chunks) + [Done(text, id)], at) == Replied(Completed(text, Some(id)))
  {
    if chunks == [] {
      assert ChunkEvents(chunks) + [Done(text, id)] == [Done(text, id)];
    } else {
      var es := ChunkEvents(chunks[1..]) + [Done(text, id)];
      assert ChunkEvents(chunks) + [Done(text, id)] == [Chunk(chunks[0])] + es;
      assert ([Chunk(chunks[0])] + es)[1..] == es;
      ChunksThenDone(chunks[1..], text, id, Effect(Chunk(chunks[0]), at.text, at.requestId));
    }
  }

  /** What a request wants of the output of the one target that emitted; empty when none did. */
  function Emitted(w: World, targets: seq<Target>, out: Routed): string {
    if out.emitters == {} || out.reached == 0 || out.reached > |targets| then ""
    else Kept(w, Output(targets[out.reached - 1]))
  }

  /** When the stream succeeds, however the providers cut their output into deltas and the network cut the
      response into chunks, the client's text is the sanitized output of the one target that emitted (its first
      line for a single-line request; empty when none emitted), and the chunks shown on the way add up to it
      before sanitizing. */
  lemma ClientGetsSanitizedOutput(c: Codec, w: World, targets: seq<Target>, max: nat, sanitize: string -> string,
                                  requestId: string, requestGone: bool, chunks: seq<string>,
                                  initialId: Option<string>)
    requires JsonLike(c) && Private(w) && PrivateTargets(targets)
    requires Succeeded(Route(w, EMPTY, targets, max, 0, None).err)
    requires Concat(chunks) == PrintAll(c, Served(w, targets, max, sanitize, requestId, requestGone))
    ensures var out := Route(w, EMPTY, targets, max, 0, None);
            && Concat(out.sink.delivered) == Emitted(w, targets, out)
            && Interpret(c, Concat(chunks), initialId)
               == Completed(sanitize(Emitted(w, targets, out)), Some(requestId))
  {
    var out := Route(w, EMPTY, targets, max, 0, None);
    RouterDelivers(w, EMPTY, targets, max, 0, None);
    RouterStreamsFromOne(w, EMPTY, targets, max, 0, None);
    ParsingUndoesPrinting(c, Served(w, targets, max, sanitize, requestId, requestGone), chunks, initialId);
    ChunksThenDone(out.sink.delivered, sanitize(out.sink.raw), requestId, Reading("", initialId));
  }

  lemma {:induction false} ChunksThenError(chunks: seq<string>, code: string, id: string, at: Progress)
    requires at.Reading?
    ensures EffectAll(ChunkEvents(chunks) + [Error(code, id)], at) == Replied(BackendFailed(at.requestId))
    ensures EffectAll(ChunkEvents(chunks), at).Reading? && EffectAll(ChunkEvents(chunks), at).requestId == at.requestId
  {
    if chunks == [] {
      assert ChunkEvents(chunks) + [Error(code, id)] == [Error(code, id)];
    } else {
      var es := ChunkEvents(chunks[1..]) + [Error(code, id)];
      assert ChunkEvents(chunks) + [Error(code, id)] == [Chunk(chunks[0])] + es;
      assert ([Chunk(chunks[0])] + es)[1..] == es;
      ChunksThenError(chunks[1..], code, id, Effect(Chunk(chunks[0]), at.text, at.requestId));
    }
  }

  /** When the stream fails the client never takes what it has seen so far for a completion: it learns of the failure,
      or, when the server took the request for gone, that the stream ended early. */
  lemma ClientSeesTheFailure(c: Codec, w: World, targets: seq<Target>, max: nat, sanitize: string -> string,
                             requestId: string, requestGone: bool, events: seq<Event>, chunks: seq<string>,
                             initialId: Option<string>)
    requires JsonLike(c) && !Succeeded(Route(w, EMPTY, targets, max, 0, None).err)
    requires events == Served(w, targets, max, sanitize, requestId, requestGone)
    requires Concat(chunks) == PrintAll(c, events)
    ensures Interpret(c, Concat(chunks), initialId)
            == if requestGone then EndedEarly(initialId) else BackendFailed(initialId)
  {
    var out := Route(w, EMPTY, targets, max, 0, None);
    ParsingUndoesPrinting(c, events, chunks, initialId);
    ChunksThenError(out.sink.delivered, "PROVIDER_UNAVAILABLE", requestId, Reading("", initialId));
    assert ChunkEvents(out.sink.delivered) + [] == ChunkEvents(out.sink.delivered);
  }
}
