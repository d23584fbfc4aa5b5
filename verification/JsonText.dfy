/** A codec that has what the event stream needs of JSON, so that the assumption is one that can be met: three
    optional fields, every character behind a letter that says whether it stands for itself or for one of the four
    line terminators. It is not the JSON grammar. */
module JsonText {
  import opened Wrappers
  import opened EventStream

  /** Each character takes two: a letter, and the character itself unless it would end a line. */
  function Pair(c: char): (r: string)
    ensures |r| == 2 && r[0] != 'e' && OneLine(r)
  {
    if c == '\n' then "n." else if c == '\r' then "r." else if c == '\U{2028}' then "l."
    else if c == '\U{2029}' then "p." else ['c', c]
  }

  function Unpair(tag: char, c: char): char {
    if tag == 'n' then '\n' else if tag == 'r' then '\r' else if tag == 'l' then '\U{2028}'
    else if tag == 'p' then '\U{2029}' else c
  }

  lemma UnpairPair(c: char)
    ensures Unpair(Pair(c)[0], Pair(c)[1]) == c
  {
  }

  /** A field: its pairs and an `e`, or a `z` when absent. */
  function Pairs(s: string): (r: string)
    ensures OneLine(r) && r != "" && r[0] != 'z'
  {
    if s == "" then "e" else Pair(s[0]) + Pairs(s[1..])
  }

  function EncodeField(f: Option<string>): (r: string)
    ensures OneLine(r)
  {
    if f.Some? then Pairs(f.value) else "z"
  }

  datatype Read = Read(value: string, rest: string) | Malformed

  function Unpairs(s: string): Read
    decreases |s|
  {
    if s == "" then Malformed
    else if s[0] == 'e' then Read("", s[1..])
    else if |s| == 1 then Malformed
    else
      var r := Unpairs(s[2..]);
      if r.Read? then Read([Unpair(s[0], s[1])] + r.value, r.rest) else Malformed
  }

  lemma UnpairsStep(c: char, later: string, value: string, rest: string)
    requires Unpairs(later) == Read(value, rest)
    ensures Unpairs(Pair(c) + later) == Read([c] + value, rest)
  {
    var s := Pair(c) + later;
    UnpairPair(c);
    assert s[2..] == later && s[0] == Pair(c)[0] && s[1] == Pair(c)[1];
  }

  lemma {:induction false} UnpairsPairs(s: string, rest: string)
    ensures Unpairs(Pairs(s) + rest) == Read(s, rest)
  {
    if s == "" {
      assert ("e" + rest)[1..] == rest;
    } else {
      UnpairsPairs(s[1..], rest);
      UnpairsStep(s[0], Pairs(s[1..]) + rest, s[1..], rest);
      assert Pairs(s) + rest == Pair(s[0]) + (Pairs(s[1..]) + rest);
      assert s == [s[0]] + s[1..];
    }
  }

  datatype ReadField = ReadField(value: Option<string>, rest: string) | NoField

  function DecodeField(s: string): ReadField {
    if s != "" && s[0] == 'z' then ReadField(None, s[1..])
    else
      var r := Unpairs(s);
      if r.Read? then ReadField(Some(r.value), r.rest) else NoField
  }

  lemma DecodeEncodeField(f: Option<string>, rest: string)
    ensures DecodeField(EncodeField(f) + rest) == ReadField(f, rest)
  {
    if f.Some? {
      UnpairsPairs(f.value, rest);
    } else {
      assert ("z" + rest)[1..] == rest;
    }
  }

  function Encode(p: Payload): string {
    "{" + (EncodeField(p.text) + (EncodeField(p.requestId) + EncodeField(p.code)))
  }

  function DecodeFields(s: string): Option<Json> {
    var text := DecodeField(s);
    if text.NoField? then None
    else
      var id := DecodeField(text.rest);
      if id.NoField? then None
      else
        var code := DecodeField(id.rest);
        if code.NoField? then None else Some(Record(Payload(text.value, id.value, code.value)))
  }

  function Decode(s: string): Option<Json> {
    if s == "" then None else DecodeFields(s[1..])
  }

  lemma DecodeEncode(p: Payload)
    ensures Decode(Encode(p)) == Some(Record(p))
  {
    var t, i, c := EncodeField(p.text), EncodeField(p.requestId), EncodeField(p.code);
    DecodeEncodeField(p.text, i + c);
    DecodeEncodeField(p.requestId, c);
    DecodeEncodeField(p.code, "");
    assert c + "" == c;
    assert Encode(p)[1..] == t + (i + c);
  }

  /** The assumption on JSON can be met. */
  lemma SomeCodecIsJsonLike()
    ensures exists c :: JsonLike(c)
  {
    var c := Codec(Encode, Decode);
    forall p ensures Written(c, p) {
      DecodeEncode(p);
      assert Encode(p)[0] == '{';
    }
    assert JsonLike(c);
  }
}
