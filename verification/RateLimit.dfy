/** The token-bucket limiters: in memory with a 24-hour eviction (api/internal/ratelimit/limiter.go:22-61) and in
    Redis with a five-minute expiry (api/internal/ratelimit/redis.go:19-32). Times are nanoseconds on a clock that
    does not go back; token counts are real numbers. */
module RateLimit {
  import opened Wrappers

  const MINUTE: int := 60_000_000_000
  const DAY: int := 1440 * MINUTE
  const FIVE_MINUTES: int := 5 * MINUTE

  datatype Bucket = Bucket(tokens: real, last: int)

  /** The configured rates (api/internal/config/config.go:374-387). */
  datatype Rate = Rate(perMinute: nat, burst: nat)

  predicate Configured(r: Rate) {
    r.perMinute >= 1 && r.burst >= 1
  }

  datatype Result = Allowed(remaining: int) | Denied(retryAfter: int)

  // ---- one bucket

  function Minimum(a: real, b: real): real {
    if a < b then a else b
  }

  function Refill(elapsed: int, r: Rate): real {
    elapsed as real / MINUTE as real * r.perMinute as real
  }

  /** The tokens available at `now`; a missing bucket is full. */
  function Level(b: Option<Bucket>, now: int, r: Rate): real {
    match b
    case None => r.burst as real
    case Some(b) => Minimum(r.burst as real, b.tokens + Refill(now - b.last, r))
  }

  /** The bucket after a request. */
  function Touched(b: Option<Bucket>, now: int, r: Rate): Bucket {
    var tokens := Level(b, now, r);
    Bucket(if tokens < 1.0 then tokens else tokens - 1.0, now)
  }

  /** The in-memory answer; the conversion to a duration drops the fraction of a nanosecond. */
  function Answer(b: Option<Bucket>, now: int, r: Rate): Result
    requires Configured(r)
  {
    var tokens := Level(b, now, r);
    if tokens < 1.0 then Denied(((1.0 - tokens) / r.perMinute as real * MINUTE as real).Floor)
    else Allowed((tokens - 1.0).Floor)
  }

  // ---- arithmetic of refilling

  lemma RefillAdds(a: int, b: int, r: Rate)
    ensures Refill(a + b, r) == Refill(a, r) + Refill(b, r)
  {
    var x, y, p := a as real / MINUTE as real, b as real / MINUTE as real, r.perMinute as real;
    assert (a + b) as real / MINUTE as real == x + y;
    assert (x + y) * p == x * p + y * p;
  }

  lemma RefillGrows(a: int, r: Rate)
    requires a >= 0
    ensures Refill(a, r) >= 0.0
  {
  }

  /** After `h` nanoseconds or more a bucket is full again, when the burst is refilled in `h`. */
  lemma FullAgain(b: Bucket, now: int, h: int, r: Rate)
    requires b.tokens >= 0.0 && now - b.last >= h && r.burst * MINUTE <= r.perMinute * h
    ensures Level(Some(b), now, r) == Level(None, now, r)
  {
    var d := now - b.last;
    RefillAdds(h, d - h, r);
    RefillGrows(d - h, r);
    RefillOf(h, r);
    assert (r.burst * MINUTE) as real <= (r.perMinute * h) as real;
    assert (r.burst * MINUTE) as real == r.burst as real * MINUTE as real;
  }

  lemma RefillOf(h: int, r: Rate)
    ensures Refill(h, r) * MINUTE as real == (r.perMinute * h) as real
  {
    var x := h as real / MINUTE as real;
    assert x * MINUTE as real == h as real;
    assert (r.perMinute * h) as real == r.perMinute as real * h as real;
    assert x * r.perMinute as real * MINUTE as real == (x * MINUTE as real) * r.perMinute as real;
  }

  lemma TouchedKeepsTokens(b: Option<Bucket>, now: int, r: Rate)
    requires b.Some? ==> b.value.tokens >= 0.0 && b.value.last <= now
    ensures Touched(b, now, r).tokens >= 0.0
  {
    if b.Some? { RefillGrows(now - b.value.last, r); }
  }

  // ---- the retry hint

  /** After a denial, with no other request for the id: a request is admitted from the exact instant at which one
      token is there. */
  lemma AdmittedFrom(b: Option<Bucket>, now: int, wait: int, r: Rate)
    requires Configured(r) && Level(b, now, r) < 1.0 && wait >= 0
    ensures Answer(Some(Touched(b, now, r)), now + wait, r).Allowed?
            <==> wait as real >= (1.0 - Level(b, now, r)) / r.perMinute as real * MINUTE as real
  {
    var level, p := Level(b, now, r), r.perMinute as real;
    assert Touched(b, now, r) == Bucket(level, now);
    RefillReaches(wait as real, 1.0 - level, p, MINUTE as real);
  }

  /** Refilling at `p` per `m` reaches `c` exactly when it has gone on for `c / p * m`. */
  lemma RefillReaches(x: real, c: real, p: real, m: real)
    requires p > 0.0 && m > 0.0
    ensures x / m * p >= c <==> x >= c / p * m
  {
    var need := c / p * m;
    assert need / m == c / p;
    assert c / p * p == c;
    Scale(x / m, c / p, p);
    Scale(x / m, c / p, m);
    assert x / m * m == x;
  }

  lemma Scale(x: real, y: real, p: real)
    requires p > 0.0
    ensures x * p >= y * p <==> x >= y
  {
  }

  /** Refilling for `n` nanoseconds gives exactly what is missing. */
  predicate RefillsIn(n: int, missing: real, r: Rate) {
    n as real * r.perMinute as real == missing * MINUTE as real
  }

  /** The nanoseconds of refilling that `missing` tokens take are a whole number: the rate divides them. */
  ghost predicate TakesWholeNanoseconds(missing: real, r: Rate) {
    exists n: int :: RefillsIn(n, missing, r)
  }

  lemma WholeExactlyWhenFloor(missing: real, r: Rate)
    requires Configured(r)
    ensures var x := missing / r.perMinute as real * MINUTE as real;
            TakesWholeNanoseconds(missing, r) <==> x.Floor as real == x
  {
    var p, m := r.perMinute as real, MINUTE as real;
    var x := missing / p * m;
    assert x * p == missing * m by { assert missing / p * p == missing; }
    if n: int :| RefillsIn(n, missing, r) {
      Scale(n as real, x, p);
      Scale(x, n as real, p);
    }
    if x.Floor as real == x { assert RefillsIn(x.Floor, missing, r); }
  }

  /** The in-memory hint is sharp to one nanosecond: denied before it, admitted one nanosecond after it, and at the
      hint itself admitted if and only if what is missing refills in a whole number of nanoseconds. */
  lemma HintIsSharp(b: Option<Bucket>, now: int, wait: int, r: Rate)
    requires Configured(r) && Answer(b, now, r).Denied? && wait >= 0
    ensures var hint, next := Answer(b, now, r).retryAfter, Answer(Some(Touched(b, now, r)), now + wait, r);
            && (wait < hint ==> next.Denied?)
            && (wait > hint ==> next.Allowed?)
            && (wait == hint ==> (next.Allowed? <==> TakesWholeNanoseconds(1.0 - Level(b, now, r), r)))
  {
    AdmittedFrom(b, now, wait, r);
    WholeExactlyWhenFloor(1.0 - Level(b, now, r), r);
  }

  function Ceil(x: real): int {
    -((-x).Floor)
  }

  /** The Redis script's answer: it rounds the hint up. */
  function ScriptAnswer(b: Option<Bucket>, now: int, r: Rate): Result
    requires Configured(r)
  {
    var tokens := Level(b, now, r);
    if tokens >= 1.0 then Allowed((tokens - 1.0).Floor)
    else Denied(Ceil((1.0 - tokens) / r.perMinute as real * MINUTE as real))
  }

  /** Waiting exactly the Redis hint suffices, and anything less does not. */
  lemma ScriptHintSuffices(b: Option<Bucket>, now: int, wait: int, r: Rate)
    requires Configured(r) && ScriptAnswer(b, now, r).Denied? && wait >= 0
    ensures ScriptAnswer(Some(Touched(b, now, r)), now + wait, r).Allowed?
            <==> wait >= ScriptAnswer(b, now, r).retryAfter
  {
    AdmittedFrom(b, now, wait, r);
  }

  // ---- histories

  datatype Call = Call(id: string, at: int)

  ghost predicate Ordered(calls: seq<Call>) {
    forall i, j :: 0 <= i < j < |calls| ==> calls[i].at <= calls[j].at
  }

  function Evicted(buckets: map<string, Bucket>, now: int): map<string, Bucket> {
    map k | k in buckets && now - buckets[k].last <= DAY :: buckets[k]
  }

  function Lookup(buckets: map<string, Bucket>, id: string): Option<Bucket> {
    if id in buckets then Some(buckets[id]) else None
  }

  function AfterAllow(buckets: map<string, Bucket>, c: Call, r: Rate): map<string, Bucket> {
    var kept := Evicted(buckets, c.at);
    kept[c.id := Touched(Lookup(kept, c.id), c.at, r)]
  }

  /** The limiter's buckets after a history. */
  function After(calls: seq<Call>, r: Rate): map<string, Bucket> {
    if calls == [] then map[] else AfterAllow(After(calls[..|calls| - 1], r), calls[|calls| - 1], r)
  }

  /** The limiter's answer to the last call. */
  function LastAnswer(calls: seq<Call>, r: Rate): Result
    requires calls != [] && Configured(r)
  {
    var c := calls[|calls| - 1];
    Answer(Lookup(Evicted(After(calls[..|calls| - 1], r), c.at), c.id), c.at, r)
  }

  /** The bucket of one id when nothing is ever evicted. */
  function Kept(calls: seq<Call>, id: string, r: Rate): Option<Bucket> {
    if calls == [] then None
    else
      var c, before := calls[|calls| - 1], Kept(calls[..|calls| - 1], id, r);
      if c.id == id then Some(Touched(before, c.at, r)) else before
  }

  /** The answer to the last call when nothing is ever evicted. */
  function UnevictedAnswer(calls: seq<Call>, r: Rate): Result
    requires calls != [] && Configured(r)
  {
    var c := calls[|calls| - 1];
    Answer(Kept(calls[..|calls| - 1], c.id, r), c.at, r)
  }

  lemma {:induction false} KeptBucket(calls: seq<Call>, id: string, r: Rate)
    requires Ordered(calls)
    ensures var b := Kept(calls, id, r);
            b.Some? ==> b.value.tokens >= 0.0 && calls != [] && b.value.last <= calls[|calls| - 1].at
  {
    if calls != [] {
      KeptBucket(calls[..|calls| - 1], id, r);
      var c := calls[|calls| - 1];
      if c.id == id { TouchedKeepsTokens(Kept(calls[..|calls| - 1], id, r), c.at, r); }
    }
  }

  function LastTime(calls: seq<Call>, otherwise: int): int {
    if calls == [] then otherwise else calls[|calls| - 1].at
  }

  /** A bucket is in the limiter with the tokens it would have without eviction, or it has been unused for more
      than a day. */
  lemma {:induction false} EvictedOnlyWhenOld(calls: seq<Call>, id: string, r: Rate)
    requires Ordered(calls) && r.burst <= 1440 * r.perMinute
    ensures var b := Kept(calls, id, r);
            Lookup(After(calls, r), id) == b
            || (Lookup(After(calls, r), id) == None && b.Some? && calls[|calls| - 1].at - b.value.last > DAY)
  {
    if calls != [] {
      var before, c := calls[..|calls| - 1], calls[|calls| - 1];
      EvictedOnlyWhenOld(before, id, r);
      KeptBucket(before, id, r);
      if c.id == id {
        SameLevel(After(before, r), Kept(before, id, r), id, LastTime(before, c.at), c.at, r);
      }
    }
  }

  lemma DayFills(b: Bucket, now: int, r: Rate)
    requires b.tokens >= 0.0 && now - b.last >= DAY && r.burst <= 1440 * r.perMinute
    ensures Level(Some(b), now, r) == Level(None, now, r)
  {
    assert r.burst * MINUTE <= r.perMinute * DAY;
    FullAgain(b, now, DAY, r);
  }

  /** What the limiter sees of a bucket `b` at the next call is as full as if nothing had ever been evicted. */
  lemma SameLevel(buckets: map<string, Bucket>, b: Option<Bucket>, id: string, last: int, now: int, r: Rate)
    requires r.burst <= 1440 * r.perMinute && last <= now && (b.Some? ==> b.value.tokens >= 0.0)
    requires Lookup(buckets, id) == b || (Lookup(buckets, id) == None && b.Some? && last - b.value.last > DAY)
    ensures Level(Lookup(Evicted(buckets, now), id), now, r) == Level(b, now, r)
  {
    if b.Some? && now - b.value.last > DAY {
      DayFills(b.value, now, r);
      assert Lookup(Evicted(buckets, now), id) == None;
    } else {
      assert Lookup(Evicted(buckets, now), id) == b;
    }
  }

  /** The eviction never changes an answer, when a day refills the burst. */
  lemma EvictionIsUnobservable(calls: seq<Call>, r: Rate)
    requires calls != [] && Ordered(calls) && Configured(r) && r.burst <= 1440 * r.perMinute
    ensures LastAnswer(calls, r) == UnevictedAnswer(calls, r)
  {
    var before, c := calls[..|calls| - 1], calls[|calls| - 1];
    EvictedOnlyWhenOld(before, c.id, r);
    KeptBucket(before, c.id, r);
    SameLevel(After(before, r), Kept(before, c.id, r), c.id, LastTime(before, c.at), c.at, r);
  }

  // ---- how many requests a window admits

  /** The calls of `id` since `from` that the limiter allowed. */
  function AdmittedSince(calls: seq<Call>, id: string, from: int, r: Rate): nat
    requires Configured(r)
  {
    if calls == [] then 0
    else
      var c := calls[|calls| - 1];
      AdmittedSince(calls[..|calls| - 1], id, from, r)
      + if c.id == id && c.at >= from && LastAnswer(calls, r).Allowed? then 1 else 0
  }

  lemma {:induction false} NoneSince(calls: seq<Call>, id: string, from: int, r: Rate)
    requires Configured(r) && forall k :: 0 <= k < |calls| ==> calls[k].at < from || calls[k].id != id
    ensures AdmittedSince(calls, id, from, r) == 0
  {
    if calls != [] { NoneSince(calls[..|calls| - 1], id, from, r); }
  }

  /** What has been admitted since `from`, and the tokens left, never exceed the burst and the refill since. */
  lemma {:induction false} Conserved(calls: seq<Call>, id: string, from: int, r: Rate)
    requires Ordered(calls) && Configured(r) && r.burst <= 1440 * r.perMinute
    ensures var b := Kept(calls, id, r);
            if b.Some? && b.value.last >= from then
              AdmittedSince(calls, id, from, r) as real + b.value.tokens
              <= r.burst as real + Refill(b.value.last - from, r)
            else AdmittedSince(calls, id, from, r) == 0
  {
    if calls != [] {
      var before, c := calls[..|calls| - 1], calls[|calls| - 1];
      Conserved(before, id, from, r);
      if c.id == id && c.at >= from {
        EvictionIsUnobservable(calls, r);
        KeptBucket(before, id, r);
        var b := Kept(before, id, r);
        RefillGrows(c.at - from, r);
        if b.Some? && b.value.last >= from {
          RefillAdds(b.value.last - from, c.at - b.value.last, r);
        }
      } else if c.id == id {
        KeptBucket(before, id, r);
      }
    }
  }

  /** For any history on a clock that does not go back, and any window of `length` that the history ends in: an id
      is admitted at most burst + perMinute * length/minute times in the window (a minute is 60_000_000_000 ns). */
  lemma WindowBound(calls: seq<Call>, id: string, from: int, length: nat, r: Rate)
    requires Ordered(calls) && Configured(r) && r.burst <= 1440 * r.perMinute
    requires calls != [] ==> calls[|calls| - 1].at <= from + length
    ensures AdmittedSince(calls, id, from, r) * 60_000_000_000 <= r.burst * 60_000_000_000 + r.perMinute * length
  {
    AdmittedWithinRefill(calls, id, from, length, r);
    RefillOf(length, r);
    var admitted := AdmittedSince(calls, id, from, r);
    Scale(r.burst as real + Refill(length, r), admitted as real, MINUTE as real);
    assert (admitted * MINUTE) as real == admitted as real * MINUTE as real;
    assert (r.burst * MINUTE) as real == r.burst as real * MINUTE as real;
    assert (r.burst as real + Refill(length, r)) * MINUTE as real
        == r.burst as real * MINUTE as real + Refill(length, r) * MINUTE as real;
  }

  lemma AdmittedWithinRefill(calls: seq<Call>, id: string, from: int, length: nat, r: Rate)
    requires Ordered(calls) && Configured(r) && r.burst <= 1440 * r.perMinute
    requires calls != [] ==> calls[|calls| - 1].at <= from + length
    ensures AdmittedSince(calls, id, from, r) as real <= r.burst as real + Refill(length, r)
  {
    Conserved(calls, id, from, r);
    KeptBucket(calls, id, r);
    RefillGrows(length, r);
    var b := Kept(calls, id, r);
    if b.Some? && b.value.last >= from {
      RefillAdds(b.value.last - from, from + length - b.value.last, r);
      RefillGrows(from + length - b.value.last, r);
    }
  }

  // ---- what the remaining count promises

  /** A bucket after `k` more requests at the same instant. */
  function Again(b: Option<Bucket>, now: int, k: nat, r: Rate): Option<Bucket> {
    if k == 0 then b else Some(Touched(Again(b, now, k - 1, r), now, r))
  }

  lemma LevelOnce(b: Option<Bucket>, now: int, r: Rate)
    ensures var x := Level(b, now, r);
            Level(Some(Touched(b, now, r)), now, r) == if x < 1.0 then x else x - 1.0
  {
    assert Refill(0, r) == 0.0;
    assert Level(b, now, r) <= r.burst as real;
  }

  /** What is left of `x` tokens after `k` requests. */
  function LeftOf(x: real, k: nat): real {
    if k as real <= x then x - k as real else x - x.Floor as real
  }

  lemma LeftOfNext(x: real, k: nat)
    requires x >= 0.0 && k > 0
    ensures LeftOf(x, k) == if LeftOf(x, k - 1) < 1.0 then LeftOf(x, k - 1) else LeftOf(x, k - 1) - 1.0
  {
    if (k - 1) as real <= x < k as real { assert x.Floor == k - 1; }
  }

  lemma {:induction false} LevelAgain(b: Option<Bucket>, now: int, k: nat, r: Rate)
    requires Level(b, now, r) >= 0.0
    ensures Level(Again(b, now, k, r), now, r) == LeftOf(Level(b, now, r), k)
  {
    if k > 0 {
      LevelAgain(b, now, k - 1, r);
      LevelOnce(Again(b, now, k - 1, r), now, r);
      LeftOfNext(Level(b, now, r), k);
    }
  }

  /** After an admitted request, exactly as many more are admitted at the same instant as its answer says remain. */
  lemma RemainingIsHonest(b: Option<Bucket>, now: int, k: nat, r: Rate)
    requires Configured(r) && Answer(b, now, r).Allowed?
    ensures Answer(Again(b, now, k, r), now, r).Allowed? <==> k <= Answer(b, now, r).remaining
    ensures b.None? ==> Answer(b, now, r) == Allowed(r.burst - 1)
  {
    LevelAgain(b, now, k, r);
  }

  /** The Redis script gives the same answers, and hints at most one nanosecond longer. */
  lemma ScriptAgrees(b: Option<Bucket>, now: int, r: Rate)
    requires Configured(r)
    ensures var m, s := Answer(b, now, r), ScriptAnswer(b, now, r);
            if m.Allowed? then s == m else s.Denied? && m.retryAfter <= s.retryAfter <= m.retryAfter + 1
  {
  }

  // ---- a hint that falls short

  lemma SevenAMinute()
    ensures var r, b := Rate(7, 1), Some(Bucket(0.0, 0));
            && Answer(b, 0, r) == Denied(8571428571) && Touched(b, 0, r) == b.value
            && Answer(b, 8571428571, r).Denied?
  {
    var r, b := Rate(7, 1), Some(Bucket(0.0, 0));
    assert Refill(0, r) == 0.0 && Level(b, 0, r) == 0.0;
    var x := 1.0 / 7.0 * 60_000_000_000.0;
    assert 8571428571.0 < x < 8571428572.0;
    AdmittedFrom(b, 0, 8571428571, r);
  }

  lemma KeptNext(past: seq<Call>, c: Call, r: Rate)
    ensures Kept(past + [c], c.id, r) == Some(Touched(Kept(past, c.id, r), c.at, r))
  {
    assert (past + [c])[..|past|] == past;
  }

  lemma DrainedBySecond(id: string)
    ensures var drained := Some(Bucket(0.0, 0));
            && Kept([Call(id, 0)], id, Rate(7, 1)) == drained
            && Kept([Call(id, 0), Call(id, 0)], id, Rate(7, 1)) == drained
  {
    var r, c := Rate(7, 1), Call(id, 0);
    SevenAMinute();
    assert [] + [c] == [c] && [c] + [c] == [c, c];
    KeptNext([], c, r);
    KeptNext([c], c, r);
  }

  /** At seven requests a minute with a burst of one: the second of two requests is denied with a hint, and a request
      made exactly when the hint has passed is denied as well. */
  lemma HintFallsShort(id: string)
    ensures LastAnswer([Call(id, 0), Call(id, 0)], Rate(7, 1)) == Denied(8571428571)
    ensures LastAnswer([Call(id, 0), Call(id, 0), Call(id, 8571428571)], Rate(7, 1)).Denied?
  {
    SevenAMinute();
    DrainedBySecond(id);
    SecondAndThird(id, Rate(7, 1), 8571428571);
  }

  lemma SecondAndThird(id: string, r: Rate, later: int)
    requires Configured(r) && r.burst <= 1440 * r.perMinute && later >= 0
    ensures var c, d := Call(id, 0), Call(id, later);
            && LastAnswer([c, c], r) == Answer(Kept([c], id, r), 0, r)
            && LastAnswer([c, c, d], r) == Answer(Kept([c, c], id, r), later, r)
  {
    var c, d := Call(id, 0), Call(id, later);
    assert [c] + [c] == [c, c] && [c, c] + [d] == [c, c, d];
    NextUnevicted([c], c, r);
    NextUnevicted([c, c], d, r);
  }

  // ---- when eviction would show

  /** `n` calls of one id at time 0. */
  function Drain(n: nat): (calls: seq<Call>)
    ensures |calls| == n && forall k :: 0 <= k < n ==> calls[k] == Call("a", 0)
  {
    if n == 0 then [] else Drain(n - 1) + [Call("a", 0)]
  }

  /** A bucket after `k` requests at time 0. */
  function Left(k: nat, r: Rate): Option<Bucket> {
    if k == 0 then None else Some(Bucket((r.burst - k) as real, 0))
  }

  lemma DrainStep(k: nat, r: Rate)
    requires k < r.burst
    ensures Left(k + 1, r) == Some(Touched(Left(k, r), 0, r))
  {
    assert Refill(0, r) == 0.0;
  }

  function Only(id: string, b: Option<Bucket>): map<string, Bucket> {
    if b.Some? then map[id := b.value] else map[]
  }

  lemma AfterNext(past: seq<Call>, c: Call, r: Rate)
    ensures After(past + [c], r) == AfterAllow(After(past, r), c, r)
  {
    var calls := past + [c];
    assert calls[..|calls| - 1] == past && calls[|calls| - 1] == c;
  }

  lemma DrainOnce(k: nat, id: string, r: Rate)
    requires k < r.burst
    ensures AfterAllow(Only(id, Left(k, r)), Call(id, 0), r) == Only(id, Left(k + 1, r))
  {
    var buckets := Only(id, Left(k, r));
    DrainStep(k, r);
    assert Evicted(buckets, 0) == buckets && Lookup(buckets, id) == Left(k, r);
  }

  lemma DrainNext(past: seq<Call>, k: nat, id: string, r: Rate)
    requires k < r.burst && After(past, r) == Only(id, Left(k, r)) && Kept(past, id, r) == Left(k, r)
    ensures After(past + [Call(id, 0)], r) == Only(id, Left(k + 1, r))
    ensures Kept(past + [Call(id, 0)], id, r) == Left(k + 1, r)
  {
    AfterNext(past, Call(id, 0), r);
    KeptNext(past, Call(id, 0), r);
    DrainOnce(k, id, r);
    DrainStep(k, r);
  }

  lemma {:induction false} Drained(calls: seq<Call>, id: string, r: Rate)
    requires |calls| <= r.burst && forall k :: 0 <= k < |calls| ==> calls[k] == Call(id, 0)
    ensures After(calls, r) == Only(id, Left(|calls|, r)) && Kept(calls, id, r) == Left(|calls|, r)
  {
    if calls != [] {
      var past := calls[..|calls| - 1];
      Drained(past, id, r);
      DrainNext(past, |past|, id, r);
      assert calls == past + [Call(id, 0)];
    }
  }

  /** Within the configured rates, the eviction is unobservable exactly when a day refills the burst: otherwise
      draining a bucket and coming back a day and a nanosecond later tells the difference. */
  lemma EvictionUnobservableExactlyWhen(r: Rate)
    requires Configured(r) && r.perMinute <= 10000
    ensures r.burst <= 1440 * r.perMinute <==>
            forall calls: seq<Call> :: calls != [] && Ordered(calls) ==>
              LastAnswer(calls, r) == UnevictedAnswer(calls, r)
  {
    if r.burst <= 1440 * r.perMinute {
      forall calls: seq<Call> | calls != [] && Ordered(calls)
        ensures LastAnswer(calls, r) == UnevictedAnswer(calls, r)
      {
        EvictionIsUnobservable(calls, r);
      }
    } else {
      var calls := Drain(r.burst) + [Call("a", DAY + 1)];
      assert calls[..|calls| - 1] == Drain(r.burst);
      Drained(Drain(r.burst), "a", r);
      RefillOf(DAY + 1, r);
      assert Ordered(calls);
      assert Evicted(After(Drain(r.burst), r), DAY + 1) == map[];
      DayAndOne(r);
      assert LastAnswer(calls, r) == Allowed(r.burst - 1);
    }
  }

  lemma DayAndOne(r: Rate)
    requires Configured(r) && r.perMinute <= 10000 && r.burst > 1440 * r.perMinute
    ensures Refill(DAY + 1, r) < r.burst as real
    ensures Answer(Some(Bucket(0.0, 0)), DAY + 1, r) != Allowed(r.burst - 1)
  {
    RefillOf(DAY + 1, r);
    assert r.perMinute * (DAY + 1) == 1440 * r.perMinute * MINUTE + r.perMinute;
    var x := Refill(DAY + 1, r);
    assert x * MINUTE as real < (1440 * r.perMinute + 1) as real * MINUTE as real;
    assert x < (1440 * r.perMinute + 1) as real;
  }

  lemma NextOrdered(past: seq<Call>, c: Call)
    requires Ordered(past) && (past != [] ==> past[|past| - 1].at <= c.at)
    ensures Ordered(past + [c])
  {
  }

  /** One more call, answered from the buckets that the calls before it left. */
  lemma NextCall(past: seq<Call>, c: Call, r: Rate)
    requires Configured(r)
    ensures After(past + [c], r) == AfterAllow(After(past, r), c, r)
    ensures LastAnswer(past + [c], r) == Answer(Lookup(Evicted(After(past, r), c.at), c.id), c.at, r)
  {
    AfterNext(past, c, r);
    var calls := past + [c];
    assert calls[..|calls| - 1] == past && calls[|calls| - 1] == c;
  }

  lemma NextUnevicted(past: seq<Call>, c: Call, r: Rate)
    requires Configured(r) && Ordered(past + [c]) && r.burst <= 1440 * r.perMinute
    ensures LastAnswer(past + [c], r) == Answer(Kept(past, c.id, r), c.at, r)
  {
    assert (past + [c])[..|past|] == past;
    EvictionIsUnobservable(past + [c], r);
  }

  /** The in-memory limiter. */
  class InMemory {
    var buckets: map<string, Bucket>
    const rate: Rate
    // The clock.
    var now: int
    // The calls so far.
    ghost var calls: seq<Call>

    ghost predicate Valid()
      reads this
    {
      Configured(rate) && Ordered(calls) && (calls != [] ==> calls[|calls| - 1].at <= now)
      && buckets == After(calls, rate)
    }

    constructor (rate: Rate, now: int)
      requires Configured(rate)
      ensures Valid() && calls == [] && this.rate == rate && this.now == now
    {
      buckets, this.rate, this.now, calls := map[], rate, now, [];
    }

    /** The loop that deletes buckets unused for more than a day. */
    method DeleteStale()
      modifies this`buckets
      ensures buckets == Evicted(old(buckets), now)
    {
      var keys := buckets.Keys;
      while keys != {}
        invariant keys <= old(buckets).Keys
        invariant buckets == map k | k in old(buckets) && (k in keys || now - old(buckets)[k].last <= DAY) ::
                               old(buckets)[k]
        decreases |keys|
      {
        var key :| key in keys;
        if now - buckets[key].last > DAY { buckets := buckets - {key}; }
        keys := keys - {key};
      }
    }

    /** The tokens of a bucket, refilled; all of the burst when there is none. */
    method Refilled(id: string) returns (tokens: real)
      ensures tokens == Level(Lookup(buckets, id), now, rate)
    {
      tokens := rate.burst as real;
      if id in buckets {
        var elapsed := (now - buckets[id].last) as real / MINUTE as real;
        tokens := Minimum(tokens, buckets[id].tokens + elapsed * rate.perMinute as real);
      }
    }

    /** `Allow`: the answer that the calls so far determine; with a rate whose burst a day refills, the answer of a
        bucket that has never been evicted. */
    method Allow(id: string) returns (out: Result)
      requires Valid()
      modifies this`buckets, this`calls
      ensures Valid() && calls == old(calls) + [Call(id, now)]
      ensures out == LastAnswer(calls, rate)
      ensures rate.burst <= 1440 * rate.perMinute ==> out == Answer(Kept(old(calls), id, rate), now, rate)
    {
      NextOrdered(calls, Call(id, now));
      NextCall(calls, Call(id, now), rate);
      if rate.burst <= 1440 * rate.perMinute { NextUnevicted(calls, Call(id, now), rate); }
      calls := calls + [Call(id, now)];
      out := Take(id);
    }

    /** The loop, the refill and the write-back. */
    method Take(id: string) returns (out: Result)
      requires Configured(rate)
      modifies this`buckets
      ensures buckets == AfterAllow(old(buckets), Call(id, now), rate)
      ensures out == Answer(Lookup(Evicted(old(buckets), now), id), now, rate)
    {
      DeleteStale();
      var tokens := Refilled(id);
      if tokens < 1.0 {
        buckets := buckets[id := Bucket(tokens, now)];
        return Denied(((1.0 - tokens) / rate.perMinute as real * MINUTE as real).Floor);
      }
      tokens := tokens - 1.0;
      buckets := buckets[id := Bucket(tokens, now)];
      return Allowed(tokens.Floor);
    }
  }

  // ---- Redis

  lemma RefillNothing(r: Rate)
    ensures Refill(0, r) == 0.0
  {
  }

  /** A call of the script; `expired` says that Redis had dropped the key by then. */
  datatype ScriptCall = ScriptCall(id: string, at: int, expired: bool)

  /** The key's fields as the script finds them. */
  function Found(calls: seq<ScriptCall>, r: Rate): Option<Bucket>
    requires calls != []
    decreases |calls|, 0
  {
    var c := calls[|calls| - 1];
    if c.expired then None else Stored(calls[..|calls| - 1], c.id, r)
  }

  function Stored(calls: seq<ScriptCall>, id: string, r: Rate): Option<Bucket>
    decreases |calls|, 1
  {
    if calls == [] then None
    else if calls[|calls| - 1].id == id then Some(Touched(Found(calls, r), calls[|calls| - 1].at, r))
    else Stored(calls[..|calls| - 1], id, r)
  }

  /** The key of one id were it never dropped. */
  function Undropped(calls: seq<ScriptCall>, id: string, r: Rate): Option<Bucket> {
    if calls == [] then None
    else
      var c, before := calls[|calls| - 1], Undropped(calls[..|calls| - 1], id, r);
      if c.id == id then Some(Touched(before, c.at, r)) else before
  }

  /** The clock does not go back, and a key is dropped no sooner than five minutes after its last call. */
  ghost predicate Timely(calls: seq<ScriptCall>) {
    && (forall i, j :: 0 <= i < j < |calls| ==> calls[i].at <= calls[j].at)
    && (forall i, j :: 0 <= i < j < |calls| && calls[i].id == calls[j].id && calls[j].expired ==>
          calls[j].at - calls[i].at >= FIVE_MINUTES)
  }

  lemma {:induction false} StoredIsUndropped(calls: seq<ScriptCall>, id: string, r: Rate)
    requires Timely(calls) && r.burst <= 5 * r.perMinute
    ensures Stored(calls, id, r) == Undropped(calls, id, r)
    ensures var b := Undropped(calls, id, r);
            b.Some? ==> b.value.tokens >= 0.0
                        && exists k :: 0 <= k < |calls| && calls[k].id == id && calls[k].at == b.value.last
  {
    if calls != [] {
      var before, c := calls[..|calls| - 1], calls[|calls| - 1];
      StoredIsUndropped(before, id, r);
      var b := Undropped(before, id, r);
      if b.Some? {
        var k :| 0 <= k < |before| && before[k].id == id && before[k].at == b.value.last;
        assert calls[k] == before[k];
        if c.id == id && c.expired {
          FullAfterExpiry(b.value, c.at, r);
        }
      }
      if c.id == id {
        TouchedKeepsTokens(b, c.at, r);
        assert calls[|calls| - 1].at == c.at;
      }
    }
  }

  lemma FullAfterExpiry(b: Bucket, now: int, r: Rate)
    requires b.tokens >= 0.0 && now - b.last >= FIVE_MINUTES && r.burst <= 5 * r.perMinute
    ensures Level(Some(b), now, r) == Level(None, now, r)
  {
    assert r.burst * MINUTE <= r.perMinute * FIVE_MINUTES;
    FullAgain(b, now, FIVE_MINUTES, r);
  }

  /** The five-minute expiry is unobservable whenever five minutes refill the burst. */
  lemma ExpiryIsUnobservable(calls: seq<ScriptCall>, r: Rate)
    requires calls != [] && Timely(calls) && Configured(r) && r.burst <= 5 * r.perMinute
    ensures var c := calls[|calls| - 1];
            ScriptAnswer(Found(calls, r), c.at, r) == ScriptAnswer(Undropped(calls[..|calls| - 1], c.id, r), c.at, r)
  {
    var before, c := calls[..|calls| - 1], calls[|calls| - 1];
    StoredIsUndropped(before, c.id, r);
    var b := Undropped(before, c.id, r);
    if b.Some? && c.expired {
      var k :| 0 <= k < |before| && before[k].id == c.id && before[k].at == b.value.last;
      assert calls[k] == before[k];
      FullAfterExpiry(b.value, c.at, r);
    }
  }

  // ---- when the expiry would show

  /** `n` calls of one id at time 0, before any deadline. */
  function ScriptDrain(n: nat): (calls: seq<ScriptCall>)
    ensures |calls| == n && forall k :: 0 <= k < n ==> calls[k] == ScriptCall("a", 0, false)
  {
    if n == 0 then [] else ScriptDrain(n - 1) + [ScriptCall("a", 0, false)]
  }

  lemma ScriptDrainNext(past: seq<ScriptCall>, k: nat, id: string, r: Rate)
    requires k < r.burst && Stored(past, id, r) == Undropped(past, id, r) == Left(k, r)
    ensures var calls := past + [ScriptCall(id, 0, false)];
            Stored(calls, id, r) == Undropped(calls, id, r) == Left(k + 1, r)
  {
    var calls := past + [ScriptCall(id, 0, false)];
    assert calls[..|calls| - 1] == past;
    assert Found(calls, r) == Stored(past, id, r);
    DrainStep(k, r);
  }

  lemma {:induction false} ScriptDrained(calls: seq<ScriptCall>, id: string, r: Rate)
    requires |calls| <= r.burst && forall k :: 0 <= k < |calls| ==> calls[k] == ScriptCall(id, 0, false)
    ensures Stored(calls, id, r) == Undropped(calls, id, r) == Left(|calls|, r)
  {
    if calls != [] {
      var past := calls[..|calls| - 1];
      ScriptDrained(past, id, r);
      ScriptDrainNext(past, |past|, id, r);
      assert calls == past + [ScriptCall(id, 0, false)];
    }
  }

  /** The answer to the last call, and what it would be had no key ever been dropped. */
  function ScriptLast(calls: seq<ScriptCall>, r: Rate): Result
    requires calls != [] && Configured(r)
  {
    ScriptAnswer(Found(calls, r), calls[|calls| - 1].at, r)
  }

  function UndroppedLast(calls: seq<ScriptCall>, r: Rate): Result
    requires calls != [] && Configured(r)
  {
    var c := calls[|calls| - 1];
    ScriptAnswer(Undropped(calls[..|calls| - 1], c.id, r), c.at, r)
  }

  lemma FiveMinutesAreNotEnough(r: Rate)
    requires Configured(r) && r.burst > 5 * r.perMinute
    ensures ScriptAnswer(Some(Bucket(0.0, 0)), FIVE_MINUTES, r) != Allowed(r.burst - 1)
  {
    RefillOf(FIVE_MINUTES, r);
    var x := Refill(FIVE_MINUTES, r);
    assert x == (5 * r.perMinute) as real;
  }

  /** The five-minute expiry is unobservable if and only if five minutes refill the burst: otherwise draining a bucket
      and coming back when its key has been dropped tells the difference. */
  lemma ExpiryUnobservableExactlyWhen(r: Rate)
    requires Configured(r)
    ensures r.burst <= 5 * r.perMinute <==>
            forall calls: seq<ScriptCall> :: calls != [] && Timely(calls) ==>
              ScriptLast(calls, r) == UndroppedLast(calls, r)
  {
    if r.burst <= 5 * r.perMinute {
      forall calls: seq<ScriptCall> | calls != [] && Timely(calls)
        ensures ScriptLast(calls, r) == UndroppedLast(calls, r)
      {
        ExpiryIsUnobservable(calls, r);
      }
    } else {
      var calls := ScriptDrain(r.burst) + [ScriptCall("a", FIVE_MINUTES, true)];
      assert calls[..|calls| - 1] == ScriptDrain(r.burst);
      ScriptDrained(ScriptDrain(r.burst), "a", r);
      FiveMinutesAreNotEnough(r);
      assert Timely(calls);
      assert ScriptLast(calls, r) == Allowed(r.burst - 1);
      assert ScriptLast(calls, r) != UndroppedLast(calls, r);
    }
  }

  // ---- the script as it runs

  /** The keys are what the calls have left. */
  ghost predicate Holds(rows: map<string, Bucket>, calls: seq<ScriptCall>, r: Rate) {
    forall id {:trigger Stored(calls, id, r)} :: Lookup(rows, id) == Stored(calls, id, r)
  }

  /** One more call of the script, on the keys that the calls before it left. */
  lemma NextScriptCall(rows: map<string, Bucket>, past: seq<ScriptCall>, c: ScriptCall, r: Rate)
    requires Configured(r) && Holds(rows, past, r)
    ensures var found := if c.expired then None else Lookup(rows, c.id);
            && ScriptLast(past + [c], r) == ScriptAnswer(found, c.at, r)
            && Holds(rows[c.id := Touched(found, c.at, r)], past + [c], r)
  {
    assert (past + [c])[..|past|] == past;
    assert Lookup(rows, c.id) == Stored(past, c.id, r);
    forall id ensures Stored(past + [c], id, r)
        == if id == c.id then Some(Touched(Found(past + [c], r), c.at, r)) else Stored(past, id, r)
    {
    }
  }

  lemma NextUndropped(past: seq<ScriptCall>, c: ScriptCall, r: Rate)
    requires Configured(r) && Timely(past + [c]) && r.burst <= 5 * r.perMinute
    ensures ScriptLast(past + [c], r) == ScriptAnswer(Undropped(past, c.id, r), c.at, r)
  {
    assert (past + [c])[..|past|] == past;
    ExpiryIsUnobservable(past + [c], r);
  }

  /** No call is later than `now`, and each has set its key's deadline five minutes ahead or further. */
  ghost predicate Deadlined(calls: seq<ScriptCall>, deadlines: map<string, int>, now: int) {
    forall k :: 0 <= k < |calls| ==>
      calls[k].at <= now && calls[k].id in deadlines && calls[k].at + FIVE_MINUTES <= deadlines[calls[k].id]
  }

  lemma NextTimely(past: seq<ScriptCall>, c: ScriptCall, deadlines: map<string, int>)
    requires Timely(past) && Deadlined(past, deadlines, c.at)
    requires c.expired ==> c.id in deadlines && deadlines[c.id] <= c.at
    ensures Timely(past + [c]) && Deadlined(past + [c], deadlines[c.id := c.at + FIVE_MINUTES], c.at)
  {
  }

  /** The keys and deadlines are what the calls have left, and the calls came in time. */
  ghost predicate Sound(calls: seq<ScriptCall>, rows: map<string, Bucket>, deadlines: map<string, int>, now: int,
                        r: Rate) {
    && Configured(r) && Timely(calls) && rows.Keys == deadlines.Keys
    && Deadlined(calls, deadlines, now) && Holds(rows, calls, r)
  }

  lemma NextSound(calls: seq<ScriptCall>, rows: map<string, Bucket>, deadlines: map<string, int>, c: ScriptCall,
                  r: Rate, bucket: Bucket)
    requires Sound(calls, rows, deadlines, c.at, r) && (c.expired ==> c.id in rows && deadlines[c.id] <= c.at)
    requires bucket == Touched(if c.expired then None else Lookup(rows, c.id), c.at, r)
    ensures Sound(calls + [c], rows[c.id := bucket], deadlines[c.id := c.at + FIVE_MINUTES], c.at, r)
    ensures ScriptLast(calls + [c], r) == ScriptAnswer(if c.expired then None else Lookup(rows, c.id), c.at, r)
    ensures r.burst <= 5 * r.perMinute ==>
              ScriptLast(calls + [c], r) == ScriptAnswer(Undropped(calls, c.id, r), c.at, r)
  {
    NextTimely(calls, c, deadlines);
    NextScriptCall(rows, calls, c, r);
    if r.burst <= 5 * r.perMinute { NextUndropped(calls, c, r); }
  }

  /** The limiter's keys in Redis. Each call of the script is atomic; a key whose deadline has passed may be gone. */
  class Redis {
    var rows: map<string, Bucket>
    var deadlines: map<string, int>
    const rate: Rate
    // The clock.
    var now: int
    // The calls so far.
    ghost var calls: seq<ScriptCall>

    ghost predicate Valid()
      reads this
    {
      Sound(calls, rows, deadlines, now, rate)
    }

    constructor (rate: Rate, now: int)
      requires Configured(rate)
      ensures Valid() && calls == [] && this.rate == rate && this.now == now
    {
      rows, deadlines, this.rate, this.now, calls := map[], map[], rate, now, [];
    }

    /** `Allow`: the answer that the calls so far determine; with a rate whose burst five minutes refill, the answer
        of a key that has never been dropped. */
    method Allow(id: string, expired: bool) returns (out: Result)
      requires Valid() && (expired ==> id in rows && deadlines[id] <= now)
      modifies this`rows, this`deadlines, this`calls
      ensures Valid() && calls == old(calls) + [ScriptCall(id, now, expired)]
      ensures out == ScriptLast(calls, rate)
      ensures rate.burst <= 5 * rate.perMinute ==> out == ScriptAnswer(Undropped(old(calls), id, rate), now, rate)
    {
      ghost var c := ScriptCall(id, now, expired);
      ghost var bucket := Touched(if expired then None else Lookup(rows, id), now, rate);
      NextSound(calls, rows, deadlines, c, rate, bucket);
      calls := calls + [c];
      out := RunScript(id, expired);
    }

    /** The script: the refill is per nanosecond there, and `t` is reassigned. */
    method RunScript(id: string, expired: bool) returns (out: Result)
      requires Configured(rate) && (expired ==> id in rows)
      modifies this`rows, this`deadlines
      ensures var found := if expired then None else Lookup(old(rows), id);
              rows == old(rows)[id := Touched(found, now, rate)] && out == ScriptAnswer(found, now, rate)
      ensures deadlines == old(deadlines)[id := now + FIVE_MINUTES]
    {
      if expired { rows := rows - {id}; }
      var t, l := rate.burst as real, now;
      if id in rows { t, l := rows[id].tokens, rows[id].last; }
      RefillNothing(rate);
      t := Minimum(rate.burst as real, t + (now - l) as real / MINUTE as real * rate.perMinute as real);
      assert t == Level(Lookup(rows, id), now, rate);
      var ok := t >= 1.0;
      out := if ok then Allowed((t - 1.0).Floor) else Denied(Ceil((1.0 - t) / rate.perMinute as real * MINUTE as real));
      if ok { t := t - 1.0; }
      rows := rows[id := Bucket(t, now)];
      deadlines := deadlines[id := now + FIVE_MINUTES];
    }
  }
}
