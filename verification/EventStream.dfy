/** The completion event stream: how the server prints it (api/internal/http/handlers/stream.go:49-75) and how
    the editor's client parses it, piece by piece, as the network delivers it
    (src/api/deinsCompleteClient.ts:77-96). The format is that of section 9.2.6 of the WHATWG HTML Living
    Standard, as far as the two sides use it. */
module EventStream {
  import opened Wrappers

  /** The fields of a JSON object that either side looks at; a field that is absent or not a string is None. */
  datatype Payload = Payload(text: Option<string>, requestId: Option<string>, code: Option<string>)
  datatype Json = Record(fields: Payload) | NotRecord

  /** A JSON library: `encode` writes an object, `decode` reads any text and fails on malformed text. */
  datatype Codec = Codec(encode: Payload -> string, decode: string -> Option<Json>)

  predicate LineTerminator(c: char) {
    c == '\n' || c == '\r' || c == '\U{2028}' || c == '\U{2029}'
  }

  /** `\s` of a JavaScript regular expression. */
  predicate White(c: char) {
    || c == ' ' || '\t' <= c <= '\r' || c == '\U{00A0}' || c == '\U{1680}' || '\U{2000}' <= c <= '\U{200A}'
    || c == '\U{2028}' || c == '\U{2029}' || c == '\U{202F}' || c == '\U{205F}' || c == '\U{3000}' || c == '\U{FEFF}'
  }

  predicate OneLine(s: string) {
    forall i :: 0 <= i < |s| ==> !LineTerminator(s[i])
  }

  /** What section 7 of RFC 8259 and the encoder's escaping give: reading undoes writing, the text starts with
      a brace and holds no line terminator. */
  ghost predicate JsonLike(c: Codec) {
    forall p :: Written(c, p)
  }

  ghost predicate Written(c: Codec, p: Payload) {
    && c.decode(c.encode(p)) == Some(Record(p))
    && |c.encode(p)| > 0 && !White(c.encode(p)[0])
    && OneLine(c.encode(p))
  }

  // ---- the server's side

  datatype Event =
    | Chunk(text: string)
    | Error(code: string, requestId: string)
    | Done(text: string, requestId: string)

  function TypeOf(e: Event): string {
    match e
    case Chunk(_) => "chunk"
    case Error(_, _) => "error"
    case Done(_, _) => "done"
  }

  function PayloadOf(e: Event): Payload {
    match e
    case Chunk(text) => Payload(Some(text), None, None)
    case Error(code, id) => Payload(None, Some(id), Some(code))
    case Done(text, id) => Payload(Some(text), Some(id), None)
  }

  function Body(c: Codec, e: Event): string {
    "event: " + TypeOf(e) + "\ndata: " + c.encode(PayloadOf(e))
  }

  /** `writeEvent` */
  function Print(c: Codec, e: Event): string {
    Body(c, e) + "\n\n"
  }

  function PrintAll(c: Codec, es: seq<Event>): string {
    if es == [] then "" else Print(c, es[0]) + PrintAll(c, es[1..])
  }

  // ---- String.split("\n\n")

  /** Where the first blank line starts. */
  function FindBlank(s: string): (at: Option<nat>)
    ensures at.Some? ==> at.value + 2 <= |s|
  {
    if |s| < 2 then None
    else if s[0] == '\n' && s[1] == '\n' then Some(0)
    else
      match FindBlank(s[1..])
      case None => None
      case Some(i) => Some(i + 1)
  }

  lemma {:induction false} FindBlankIsFirst(s: string)
    ensures FindBlank(s).Some? ==> s[FindBlank(s).value] == s[FindBlank(s).value + 1] == '\n'
    ensures forall k :: 0 <= k < |s| - 1 && (FindBlank(s).Some? ==> k < FindBlank(s).value)
              ==> !(s[k] == s[k + 1] == '\n')
  {
    if |s| >= 2 && !(s[0] == '\n' && s[1] == '\n') {
      FindBlankIsFirst(s[1..]);
      forall k | 0 <= k < |s| - 1 && (FindBlank(s).Some? ==> k < FindBlank(s).value)
        ensures !(s[k] == s[k + 1] == '\n')
      {
        if k > 0 { assert s[1..][k - 1] == s[k] && s[1..][k] == s[k + 1]; }
      }
    }
  }

  lemma FirstBlankIs(s: string, i: nat)
    requires i + 2 <= |s| && s[i] == s[i + 1] == '\n'
    requires forall k :: 0 <= k < i ==> !(s[k] == s[k + 1] == '\n')
    ensures FindBlank(s) == Some(i)
  {
    FindBlankIsFirst(s);
  }

  function Split(s: string): (pieces: seq<string>)
    ensures |pieces| >= 1
    decreases |s|
  {
    match FindBlank(s)
    case None => [s]
    case Some(i) => [s[..i]] + Split(s[i + 2..])
  }

  function Rest(pieces: seq<string>): string
    requires |pieces| >= 1
  {
    pieces[|pieces| - 1]
  }

  function Complete(pieces: seq<string>): seq<string>
    requires |pieces| >= 1
  {
    pieces[..|pieces| - 1]
  }

  lemma ConsPieces(head: string, pieces: seq<string>)
    requires |pieces| >= 1
    ensures Rest([head] + pieces) == Rest(pieces) && Complete([head] + pieces) == [head] + Complete(pieces)
  {
  }

  lemma SplitStep(s: string, i: nat)
    requires FindBlank(s) == Some(i) && i + 2 <= |s|
    ensures Split(s) == [s[..i]] + Split(s[i + 2..])
    ensures Rest(Split(s)) == Rest(Split(s[i + 2..]))
    ensures Complete(Split(s)) == [s[..i]] + Complete(Split(s[i + 2..]))
  {
    ConsPieces(s[..i], Split(s[i + 2..]));
  }

  lemma FirstBlankStays(a: string, b: string, i: nat)
    requires FindBlank(a) == Some(i)
    ensures i + 2 <= |a| && FindBlank(a + b) == Some(i)
    ensures (a + b)[..i] == a[..i] && (a + b)[i + 2..] == a[i + 2..] + b
  {
    FindBlankIsFirst(a);
    FirstBlankIs(a + b, i);
  }

  lemma JoinPieces(head: string, done: seq<string>, rest: seq<string>)
    ensures [head] + (done + rest) == [head] + done + rest
  {
  }

  /** Splitting what has arrived, and later the carried-over rest with what arrives next, is splitting all. */
  lemma {:induction false} SplitAppend(a: string, b: string)
    ensures Split(a + b) == Complete(Split(a)) + Split(Rest(Split(a)) + b)
    decreases |a|
  {
    match FindBlank(a)
    case None =>
    case Some(i) =>
      var tail := a[i + 2..];
      FirstBlankStays(a, b, i);
      SplitStep(a, i);
      SplitStep(a + b, i);
      SplitAppend(tail, b);
      JoinPieces(a[..i], Complete(Split(tail)), Split(Rest(Split(tail)) + b));
  }

  lemma {:induction false} RestHasNoBlank(s: string)
    ensures FindBlank(Rest(Split(s))) == None
    decreases |s|
  {
    FindBlankIsFirst(s);
    match FindBlank(s)
    case None =>
    case Some(i) =>
      RestHasNoBlank(s[i + 2..]);
      assert Rest(Split(s)) == Rest(Split(s[i + 2..]));
  }

  // ---- event.match(/^name:\s*(.+)$/m)?.[1]

  function WhiteRun(s: string): (n: nat)
    ensures n <= |s|
  {
    if s == "" || !White(s[0]) then 0 else 1 + WhiteRun(s[1..])
  }

  function LineLength(s: string): (n: nat)
    ensures n <= |s|
  {
    if s == "" || LineTerminator(s[0]) then 0 else 1 + LineLength(s[1..])
  }

  /** `\s*(.+)$` with `\s*` taking at most `n` characters, longest first: what the group captures. */
  function Captured(s: string, n: nat): Option<string>
    requires n <= |s|
  {
    if LineLength(s[n..]) > 0 then Some(s[n..n + LineLength(s[n..])])
    else if n == 0 then None
    else Captured(s, n - 1)
  }

  predicate LineStart(s: string, p: nat)
    requires p <= |s|
  {
    p == 0 || LineTerminator(s[p - 1])
  }

  function FieldAt(s: string, name: string, p: nat): Option<string>
    requires p <= |s|
  {
    var tag := name + ":";
    if LineStart(s, p) && tag <= s[p..] then
      var rest := s[p + |tag|..];
      Captured(rest, WhiteRun(rest))
    else None
  }

  /** The leftmost match from `p` on. */
  function FieldFrom(s: string, name: string, p: nat): Option<string>
    requires p <= |s|
    decreases |s| - p
  {
    var here := FieldAt(s, name, p);
    if here.Some? || p == |s| then here else FieldFrom(s, name, p + 1)
  }

  function Field(s: string, name: string): Option<string> {
    FieldFrom(s, name, 0)
  }

  // ---- the client's side

  datatype Reply =
    | Completed(text: string, requestId: Option<string>)
    | InvalidEvent(requestId: Option<string>)
    | BackendFailed(requestId: Option<string>)
    | EndedEarly(requestId: Option<string>)

  /** The client between two reads: either it has replied, or it goes on. */
  datatype Progress = Replied(reply: Reply) | Reading(text: string, requestId: Option<string>)

  /** One turn of the inner loop. */
  function Handle(c: Codec, event: string, text: string, requestId: Option<string>): Progress {
    match Field(event, "data")
    case None => Reading(text, requestId)
    case Some(data) =>
      match c.decode(data)
      case None => Replied(InvalidEvent(requestId))
      case Some(NotRecord) => Reading(text, requestId)
      case Some(Record(p)) =>
        var kind := Field(event, "event");
        if kind == Some("chunk") && p.text.Some? then Reading(text + p.text.value, requestId)
        else if kind == Some("error") then Replied(BackendFailed(requestId))
        else if kind == Some("done") then
          Replied(Completed(if p.text.Some? then p.text.value else text,
                            if p.requestId.Some? then p.requestId else requestId))
        else Reading(text, requestId)
  }

  function HandleAll(c: Codec, events: seq<string>, at: Progress): Progress {
    if events == [] || at.Replied? then at
    else HandleAll(c, events[1..], Handle(c, events[0], at.text, at.requestId))
  }

  function Conclude(p: Progress): Reply {
    match p
    case Replied(reply) => reply
    case Reading(_, requestId) => EndedEarly(requestId)
  }

  function Concat(chunks: seq<string>): string {
    if chunks == [] then "" else chunks[0] + Concat(chunks[1..])
  }

  /** What the client makes of a whole stream, read in one piece. */
  function Interpret(c: Codec, stream: string, requestId: Option<string>): Reply {
    Conclude(HandleAll(c, Complete(Split(stream)), Reading("", requestId)))
  }

  lemma {:induction false} HandleAppend(c: Codec, a: seq<string>, b: seq<string>, at: Progress)
    ensures HandleAll(c, a + b, at) == HandleAll(c, b, HandleAll(c, a, at))
  {
    if a == [] {
      assert a + b == b;
    } else if at.Reading? {
      assert (a + b)[1..] == a[1..] + b;
      HandleAppend(c, a[1..], b, Handle(c, a[0], at.text, at.requestId));
    }
  }

  lemma {:induction false} ConcatAppend(chunks: seq<string>, chunk: string)
    ensures Concat(chunks + [chunk]) == Concat(chunks) + chunk
  {
    if chunks == [] {
      assert chunks + [chunk] == [chunk] && [chunk][1..] == [];
    } else {
      ConcatAppend(chunks[1..], chunk);
      assert (chunks + [chunk])[1..] == chunks[1..] + [chunk];
    }
  }

  /** The inner loop over the events that are complete. */
  method HandleEvents(c: Codec, events: seq<string>, text0: string, requestId0: Option<string>) returns (p: Progress)
    ensures p == HandleAll(c, events, Reading(text0, requestId0))
  {
    var text, requestId := text0, requestId0;
    for i := 0 to |events|
      invariant HandleAll(c, events[i..], Reading(text, requestId)) == HandleAll(c, events, Reading(text0, requestId0))
    {
      assert events[i..][1..] == events[i + 1..];
      var step := Handle(c, events[i], text, requestId);
      if step.Replied? { return step; }
      text, requestId := step.text, step.requestId;
    }
    return Reading(text, requestId);
  }

  /** `streamComplete`, reading the chunks of the network one by one. However the stream is cut, the reply is
      the one the whole stream calls for. */
  method StreamComplete(c: Codec, chunks: seq<string>, initialId: Option<string>) returns (reply: Reply)
    ensures reply == Interpret(c, Concat(chunks), initialId)
  {
    var buffer, text, requestId := "", "", initialId;
    ghost var seen: seq<string> := [];
    assert Split("") == [""] && seen + [buffer] == [""];
    for n := 0 to |chunks|
      invariant Split(Concat(chunks[..n])) == seen + [buffer]
      invariant HandleAll(c, seen, Reading("", initialId)) == Reading(text, requestId)
    {
      var pieces := Split(buffer + chunks[n]);
      NextChunk(chunks, n, seen, buffer);
      var step := HandleEvents(c, Complete(pieces), text, requestId);
      HandleAppend(c, seen, Complete(pieces), Reading("", initialId));
      if step.Replied? {
        ReplyIsFinal(c, chunks, n + 1, seen + Complete(pieces), initialId);
        return step.reply;
      }
      seen, buffer, text, requestId := seen + Complete(pieces), Rest(pieces), step.text, step.requestId;
    }
    assert chunks[..|chunks|] == chunks && Complete(seen + [buffer]) == seen;
    return EndedEarly(requestId);
  }

  lemma NextChunk(chunks: seq<string>, n: nat, seen: seq<string>, buffer: string)
    requires n < |chunks| && Split(Concat(chunks[..n])) == seen + [buffer]
    ensures var pieces := Split(buffer + chunks[n]);
            && Split(Concat(chunks[..n + 1])) == seen + Complete(pieces) + [Rest(pieces)]
            && seen + Complete(pieces) == Complete(Split(Concat(chunks[..n + 1])))
  {
    var pieces, soFar := Split(buffer + chunks[n]), Concat(chunks[..n]);
    assert chunks[..n] + [chunks[n]] == chunks[..n + 1];
    ConcatAppend(chunks[..n], chunks[n]);
    SplitAppend(soFar, chunks[n]);
    CompleteAndRest(seen, buffer);
    CompleteAndRest(Complete(pieces), Rest(pieces));
    SplitTogether(seen, pieces);
  }

  lemma CompleteAndRest(pieces: seq<string>, rest: string)
    ensures Complete(pieces + [rest]) == pieces && Rest(pieces + [rest]) == rest
  {
  }

  lemma SplitTogether(seen: seq<string>, pieces: seq<string>)
    requires |pieces| >= 1
    ensures seen + pieces == seen + Complete(pieces) + [Rest(pieces)]
    ensures Complete(seen + pieces) == seen + Complete(pieces)
  {
  }

  lemma ReplyIsFinal(c: Codec, chunks: seq<string>, n: nat, done: seq<string>, initialId: Option<string>)
    requires n <= |chunks| && done <= Complete(Split(Concat(chunks[..n])))
    requires HandleAll(c, done, Reading("", initialId)).Replied?
    ensures Interpret(c, Concat(chunks), initialId) == HandleAll(c, done, Reading("", initialId)).reply
  {
    SplitPrefix(chunks, n);
    var all := Complete(Split(Concat(chunks)));
    assert all == done + all[|done|..];
    HandleAppend(c, done, all[|done|..], Reading("", initialId));
  }

  lemma {:induction false} SplitPrefix(chunks: seq<string>, n: nat)
    requires n <= |chunks|
    ensures Complete(Split(Concat(chunks[..n]))) <= Complete(Split(Concat(chunks)))
    decreases |chunks| - n
  {
    if n == |chunks| {
      assert chunks[..n] == chunks;
    } else {
      ConcatAppend(chunks[..n], chunks[n]);
      assert chunks[..n] + [chunks[n]] == chunks[..n + 1];
      SplitAppend(Concat(chunks[..n]), chunks[n]);
      SplitPrefix(chunks, n + 1);
    }
  }

  // ---- parsing undoes printing

  lemma {:induction false} FieldSkips(s: string, name: string, p: nat, q: nat)
    requires p <= q <= |s|
    requires forall k :: p <= k < q ==> FieldAt(s, name, k).None?
    ensures FieldFrom(s, name, p) == FieldFrom(s, name, q)
    decreases q - p
  {
    if p < q { FieldSkips(s, name, p + 1, q); }
  }

  lemma {:induction false} LineLengthIs(line: string, rest: string)
    requires OneLine(line) && (rest == "" || LineTerminator(rest[0]))
    ensures LineLength(line + rest) == |line|
  {
    if line == "" {
      assert line + rest == rest;
    } else {
      assert (line + rest)[1..] == line[1..] + rest;
      LineLengthIs(line[1..], rest);
    }
  }

  /** `name: value` at the start of a line is found, value and all. */
  lemma FieldIsFound(before: string, name: string, value: string, after: string)
    requires LineStart(before + name + ": " + value + after, |before|)
    requires OneLine(value) && value != "" && !White(value[0])
    requires after == "" || LineTerminator(after[0])
    ensures FieldAt(before + name + ": " + value + after, name, |before|) == Some(value)
  {
    var s, tag := before + name + ": " + value + after, name + ":";
    var rest := s[|before| + |tag|..];
    assert s[|before|..][..|tag|] == tag;
    assert rest == " " + (value + after);
    assert rest[1..] == value + after;
    assert WhiteRun(rest[1..]) == 0 && WhiteRun(rest) == 1;
    LineLengthIs(value, after);
    assert rest[1..1 + |value|] == value;
  }

  lemma TypeField(c: Codec, e: Event)
    ensures Field(Body(c, e), "event") == Some(TypeOf(e))
  {
    var after := "\ndata: " + c.encode(PayloadOf(e));
    assert Body(c, e) == "" + "event" + ": " + TypeOf(e) + after;
    FieldIsFound("", "event", TypeOf(e), after);
  }

  lemma DataAfterHead(head: string, data: string)
    requires OneLine(head) && head != "" && head[0] == 'e'
    requires OneLine(data) && data != "" && !White(data[0])
    ensures Field(head + "\ndata: " + data, "data") == Some(data)
  {
    var s, before := head + "\ndata: " + data, head + "\n";
    assert s == before + "data" + ": " + data + "";
    FieldIsFound(before, "data", data, "");
    assert head <= s;
    forall k | 0 <= k < |before| ensures FieldAt(s, "data", k).None? {
      NoDataBefore(s, head, k);
    }
    FieldSkips(s, "data", 0, |before|);
  }

  lemma DataField(c: Codec, e: Event)
    requires Written(c, PayloadOf(e))
    ensures Field(Body(c, e), "data") == Some(c.encode(PayloadOf(e)))
  {
    DataAfterHead("event: " + TypeOf(e), c.encode(PayloadOf(e)));
  }

  lemma NoDataBefore(s: string, head: string, k: nat)
    requires head <= s && OneLine(head) && head != "" && head[0] == 'e' && k <= |head|
    ensures FieldAt(s, "data", k).None?
  {
    if k == 0 {
      assert s[0..][0] == 'e' && ("data" + ":")[0] == 'd';
    } else {
      assert s[k - 1] == head[k - 1];
    }
  }

  lemma BodyHasNoBlank(c: Codec, e: Event, after: string)
    requires JsonLike(c)
    ensures FindBlank(Print(c, e) + after) == Some(|Body(c, e)|)
    ensures Split(Print(c, e) + after) == [Body(c, e)] + Split(after)
  {
    assert Written(c, PayloadOf(e));
    var s, body, head := Print(c, e) + after, Body(c, e), "event: " + TypeOf(e);
    var data := c.encode(PayloadOf(e));
    assert body == head + "\n" + ("data: " + data);
    forall k | 0 <= k < |body| ensures !(s[k] == s[k + 1] == '\n') {
      assert s[k] == body[k];
      if k < |head| { assert body[k] == head[k]; }
      else if k > |head| { assert body[k] == ("data: " + data)[k - |head| - 1]; }
    }
    FirstBlankIs(s, |body|);
    assert s[..|body|] == body && s[|body| + 2..] == after;
  }

  function Bodies(c: Codec, es: seq<Event>): seq<string> {
    if es == [] then [] else [Body(c, es[0])] + Bodies(c, es[1..])
  }

  /** The client's loop sees exactly the events the server printed, in order. */
  lemma {:induction false} PrintedEventsAreSeen(c: Codec, es: seq<Event>)
    requires JsonLike(c)
    ensures Split(PrintAll(c, es)) == Bodies(c, es) + [""]
  {
    if es != [] {
      BodyHasNoBlank(c, es[0], PrintAll(c, es[1..]));
      PrintedEventsAreSeen(c, es[1..]);
    }
  }

  /** What the client does about an event, in the server's terms. */
  function Effect(e: Event, text: string, requestId: Option<string>): Progress {
    match e
    case Chunk(t) => Reading(text + t, requestId)
    case Error(_, _) => Replied(BackendFailed(requestId))
    case Done(t, id) => Replied(Completed(t, Some(id)))
  }

  function EffectAll(es: seq<Event>, at: Progress): Progress {
    if es == [] || at.Replied? then at else EffectAll(es[1..], Effect(es[0], at.text, at.requestId))
  }

  lemma {:induction false} HandlingIsEffect(c: Codec, es: seq<Event>, at: Progress)
    requires JsonLike(c)
    ensures HandleAll(c, Bodies(c, es), at) == EffectAll(es, at)
  {
    if es != [] && at.Reading? {
      assert Written(c, PayloadOf(es[0]));
      TypeField(c, es[0]);
      DataField(c, es[0]);
      assert Bodies(c, es)[1..] == Bodies(c, es[1..]);
      HandlingIsEffect(c, es[1..], Handle(c, Body(c, es[0]), at.text, at.requestId));
    }
  }

  /** However the server's stream is cut into chunks, the client does what the printed events say. */
  lemma ParsingUndoesPrinting(c: Codec, es: seq<Event>, chunks: seq<string>, requestId: Option<string>)
    requires JsonLike(c) && Concat(chunks) == PrintAll(c, es)
    ensures Interpret(c, Concat(chunks), requestId) == Conclude(EffectAll(es, Reading("", requestId)))
  {
    PrintedEventsAreSeen(c, es);
    assert Complete(Bodies(c, es) + [""]) == Bodies(c, es);
    HandlingIsEffect(c, es, Reading("", requestId));
  }

  // ---- events of another server

  /** What the client reads from a line `name: value`. */
  predicate Readable(value: string) {
    OneLine(value) && value != "" && !White(value[0])
  }

  /** An event of any kind with any data, as the client takes it: data that is no JSON ends the stream as invalid, JSON
      that is no object is passed over, and so is a kind it does not know; text adds up until `done`, whose own text,
      if it has one, wins. */
  lemma AnyEventIsHandled(c: Codec, kind: string, data: string, text: string, id: Option<string>)
    requires Readable(kind) && Readable(data)
    ensures var out := Handle(c, "event: " + kind + "\ndata: " + data, text, id);
            match c.decode(data)
            case None => out == Replied(InvalidEvent(id))
            case Some(NotRecord) => out == Reading(text, id)
            case Some(Record(p)) =>
              && (kind == "chunk" ==> out == Reading(if p.text.Some? then text + p.text.value else text, id))
              && (kind == "error" ==> out == Replied(BackendFailed(id)))
              && (kind == "done" ==>
                    out.Replied? && out.reply.Completed?
                    && out.reply.text == (if p.text.Some? then p.text.value else text)
                    && out.reply.requestId == (if p.requestId.Some? then p.requestId else id))
              && (kind !in {"chunk", "error", "done"} ==> out == Reading(text, id))
  {
    KindField(kind, data);
    DataAfterHead("event: " + kind, data);
  }

  lemma KindField(kind: string, data: string)
    requires Readable(kind)
    ensures Field("event: " + kind + "\ndata: " + data, "event") == Some(kind)
  {
    var after := "\ndata: " + data;
    FieldIsFound("", "event", kind, after);
    assert "" + "event" + ": " + kind + after == "event: " + kind + "\ndata: " + data;
  }

  /** An event without data is passed over. */
  lemma EventWithoutDataIsSkipped(c: Codec, kind: string, text: string, id: Option<string>)
    requires Readable(kind)
    ensures Handle(c, "event: " + kind, text, id) == Reading(text, id)
  {
    var s := "event: " + kind;
    forall k | 0 <= k <= |s| ensures FieldAt(s, "data", k).None? { NoDataBefore(s, s, k); }
    FieldSkips(s, "data", 0, |s|);
  }

  lemma FieldAtStart(rest: string)
    requires Captured(rest, WhiteRun(rest)).Some?
    ensures Field("data:" + rest, "data") == Captured(rest, WhiteRun(rest))
  {
    var s := "data:" + rest;
    assert "data" + ":" == "data:" && s[0..] == s && s[5..] == rest;
    assert FieldAt(s, "data", 0) == Captured(rest, WhiteRun(rest));
  }

  lemma LineOf(c: char, rest: string)
    ensures LineLength([c] + rest) == if LineTerminator(c) then 0 else 1 + LineLength(rest)
    ensures WhiteRun([c] + rest) == if White(c) then 1 + WhiteRun(rest) else 0
  {
    assert ([c] + rest)[1..] == rest;
  }

  /** A field's value ends at the four line terminators of JavaScript (ECMA-262, section 12.3) and at nothing else. */
  lemma FieldEndsExactlyAt(c: char)
    ensures Field("data:x" + [c] + "y", "data")
            == Some(if c as int in {0x0A, 0x0D, 0x2028, 0x2029} then "x" else "x" + [c] + "y")
  {
    var rest := "x" + [c] + "y";
    LineOf('y', "");
    assert ['y'] + "" == "y" && ['x'] + ([c] + "y") == rest;
    LineOf(c, "y");
    LineOf('x', [c] + "y");
    assert rest[0..] == rest && rest[0..1] == "x" && rest[0..3] == rest;
    FieldAtStart(rest);
    assert "data:" + rest == "data:x" + [c] + "y";
  }

  /** What `\s*` skips before the value: the white space and line terminators of JavaScript (sections 12.2 and 12.3). */
  lemma FieldStartsExactlyAfter(c: char)
    ensures Field("data:" + ([c] + "x"), "data")
            == Some(if c as int in {0x09, 0x0A, 0x0B, 0x0C, 0x0D, 0x20, 0xA0, 0x1680, 0x2000, 0x2001, 0x2002, 0x2003,
                                    0x2004, 0x2005, 0x2006, 0x2007, 0x2008, 0x2009, 0x200A, 0x2028, 0x2029, 0x202F,
                                    0x205F, 0x3000, 0xFEFF}
                    then "x" else [c] + "x")
  {
    var rest := [c] + "x";
    LineOf('x', "");
    assert ['x'] + "" == "x";
    LineOf(c, "x");
    assert rest[0..] == rest && rest[1..] == "x" && rest[1..2] == "x" && rest[0..2] == rest;
    FieldAtStart(rest);
  }
}
