/** The daily usage tracker with its eviction loop (api/internal/usage/tracker.go:16-54), against the plain table
    of sums per UTC day and id that it stands for. Times are nanoseconds on a clock that does not go back. */
module DailyUsage {
  const DAY: int := 86_400_000_000_000

  /** The UTC day that an instant falls in. */
  function DayOf(at: int): int {
    at / DAY
  }

  /** Day `d` is the 24 hours from midnight to midnight, in nanoseconds since the first one. */
  lemma DayIsFromMidnight(at: int, d: int)
    ensures DayOf(at) == d <==> d * 86_400_000_000_000 <= at < (d + 1) * 86_400_000_000_000
  {
  }

  datatype Entry = Entry(day: int, count: int, last: int)
  datatype Result = Result(allowed: bool, count: int)
  datatype Call = Call(id: string, amount: int, at: int)

  function Evicted(entries: map<string, Entry>, now: int): map<string, Entry> {
    map k | k in entries && now - entries[k].last <= DAY :: entries[k]
  }

  /** What the tracker has counted for `id` on the day of `now`. */
  function CountToday(entries: map<string, Entry>, id: string, now: int): int {
    if id in entries && entries[id].day == DayOf(now) then entries[id].count else 0
  }

  function Answer(entries: map<string, Entry>, c: Call, daily: int): Result {
    var used := CountToday(Evicted(entries, c.at), c.id, c.at);
    if used + c.amount > daily then Result(false, used) else Result(true, used + c.amount)
  }

  /** A denial leaves the entry as it was; only the eviction has happened. */
  function AfterCall(entries: map<string, Entry>, c: Call, daily: int): map<string, Entry> {
    var kept, out := Evicted(entries, c.at), Answer(entries, c, daily);
    if out.allowed then kept[c.id := Entry(DayOf(c.at), out.count, c.at)] else kept
  }

  // ---- histories

  ghost predicate Ordered(calls: seq<Call>) {
    forall i, j :: 0 <= i < j < |calls| ==> calls[i].at <= calls[j].at
  }

  function After(calls: seq<Call>, daily: int): map<string, Entry> {
    if calls == [] then map[] else AfterCall(After(calls[..|calls| - 1], daily), calls[|calls| - 1], daily)
  }

  function LastAnswer(calls: seq<Call>, daily: int): Result
    requires calls != []
  {
    Answer(After(calls[..|calls| - 1], daily), calls[|calls| - 1], daily)
  }

  /** The plain table: the sum of the amounts allowed to `id` on `day`. */
  function AllowedSum(calls: seq<Call>, id: string, day: int, daily: int): int {
    if calls == [] then 0
    else
      var c, before := calls[|calls| - 1], calls[..|calls| - 1];
      AllowedSum(before, id, day, daily)
      + if c.id == id && DayOf(c.at) == day && AllowedSum(before, id, day, daily) + c.amount <= daily then c.amount
        else 0
  }

  lemma {:induction false} NothingBefore(calls: seq<Call>, id: string, day: int, daily: int)
    requires forall k :: 0 <= k < |calls| && calls[k].id == id ==> DayOf(calls[k].at) != day
    ensures AllowedSum(calls, id, day, daily) == 0
  {
    if calls != [] { NothingBefore(calls[..|calls| - 1], id, day, daily); }
  }

  /** Evicting what has not been used for more than 24 hours never drops a count of the current day. */
  lemma EvictionSparesToday(entries: map<string, Entry>, id: string, now: int)
    requires id in entries ==> entries[id].day == DayOf(entries[id].last) && entries[id].last <= now
    ensures CountToday(Evicted(entries, now), id, now) == CountToday(entries, id, now)
  {
  }

  /** The tracker's entry of an id is of the last day on which something was allowed to it. */
  lemma {:induction false} EntryIsSum(calls: seq<Call>, id: string, daily: int, now: int)
    requires Ordered(calls) && (calls != [] ==> calls[|calls| - 1].at <= now)
    ensures var entries := After(calls, daily);
            && (id in entries ==> entries[id].day == DayOf(entries[id].last) && entries[id].last <= now)
            && CountToday(entries, id, now) == AllowedSum(calls, id, DayOf(now), daily)
  {
    if calls != [] {
      var before, c := calls[..|calls| - 1], calls[|calls| - 1];
      EntryIsSum(before, id, daily, c.at);
      EntryIsSum(before, id, daily, now);
      EvictionSparesToday(After(before, daily), id, c.at);
    }
  }

  /** The tracker answers exactly like the plain table: a request is allowed if and only if the day's allowed sum
      and the amount fit, and the count it reports is that sum after the request. */
  lemma TrackerIsTable(calls: seq<Call>, daily: int)
    requires calls != [] && Ordered(calls)
    ensures var c, before := calls[|calls| - 1], calls[..|calls| - 1];
            var sum := AllowedSum(before, c.id, DayOf(c.at), daily);
            && (LastAnswer(calls, daily).allowed <==> sum + c.amount <= daily)
            && LastAnswer(calls, daily).count == AllowedSum(calls, c.id, DayOf(c.at), daily)
  {
    var c, before := calls[|calls| - 1], calls[..|calls| - 1];
    EntryIsSum(before, c.id, daily, c.at);
    EvictionSparesToday(After(before, daily), c.id, c.at);
  }

  /** What the tracker's own answers have allowed to `id` at instants in `[from, to)`. */
  function AllowedWithin(calls: seq<Call>, id: string, from: int, to: int, daily: int): int {
    if calls == [] then 0
    else
      var c := calls[|calls| - 1];
      AllowedWithin(calls[..|calls| - 1], id, from, to, daily)
      + if c.id == id && from <= c.at < to && LastAnswer(calls, daily).allowed then c.amount else 0
  }

  lemma {:induction false} TrackerAllowsTheSum(calls: seq<Call>, id: string, day: int, daily: int)
    requires Ordered(calls)
    ensures AllowedWithin(calls, id, day * 86_400_000_000_000, (day + 1) * 86_400_000_000_000, daily)
            == AllowedSum(calls, id, day, daily)
  {
    if calls != [] {
      var c := calls[|calls| - 1];
      TrackerAllowsTheSum(calls[..|calls| - 1], id, day, daily);
      TrackerIsTable(calls, daily);
      DayIsFromMidnight(c.at, day);
    }
  }

  lemma {:induction false} SumWithinLimit(calls: seq<Call>, id: string, day: int, daily: nat)
    ensures AllowedSum(calls, id, day, daily) <= daily
  {
    if calls != [] { SumWithinLimit(calls[..|calls| - 1], id, day, daily); }
  }

  /** On a clock that does not go back, the tracker's answers never allow an id more than the daily limit between one
      midnight (UTC) and the next. */
  lemma NeverOverLimit(calls: seq<Call>, id: string, day: int, daily: nat)
    requires Ordered(calls)
    ensures AllowedWithin(calls, id, day * 86_400_000_000_000, (day + 1) * 86_400_000_000_000, daily) <= daily
  {
    TrackerAllowsTheSum(calls, id, day, daily);
    SumWithinLimit(calls, id, day, daily);
  }

  /** ... and they deny a request only for that: it is allowed if and only if its amount fits what they have allowed the
      id since the last midnight. The count they report is that sum after the request. */
  lemma AllowedExactlyWhenItFits(calls: seq<Call>, day: int, daily: int)
    requires calls != [] && Ordered(calls)
    requires day * 86_400_000_000_000 <= calls[|calls| - 1].at < (day + 1) * 86_400_000_000_000
    ensures var c, from, to := calls[|calls| - 1], day * 86_400_000_000_000, (day + 1) * 86_400_000_000_000;
            && (LastAnswer(calls, daily).allowed
                <==> AllowedWithin(calls[..|calls| - 1], c.id, from, to, daily) + c.amount <= daily)
            && LastAnswer(calls, daily).count == AllowedWithin(calls, c.id, from, to, daily)
  {
    var c := calls[|calls| - 1];
    DayIsFromMidnight(c.at, day);
    TrackerIsTable(calls, daily);
    TrackerAllowsTheSum(calls[..|calls| - 1], c.id, day, daily);
    TrackerAllowsTheSum(calls, c.id, day, daily);
  }

  // ---- the tracker

  /** One more call, answered from the entries that the calls before it left. */
  lemma NextCall(past: seq<Call>, c: Call, daily: int)
    requires Ordered(past) && (past != [] ==> past[|past| - 1].at <= c.at)
    ensures Ordered(past + [c])
    ensures After(past + [c], daily) == AfterCall(After(past, daily), c, daily)
    ensures var out := Answer(After(past, daily), c, daily);
            && out == LastAnswer(past + [c], daily)
            && (out.allowed <==> AllowedSum(past, c.id, DayOf(c.at), daily) + c.amount <= daily)
            && out.count == AllowedSum(past + [c], c.id, DayOf(c.at), daily)
  {
    assert (past + [c])[..|past|] == past;
    TrackerIsTable(past + [c], daily);
  }

  class InMemory {
    var entries: map<string, Entry>
    const daily: int
    // The clock.
    var now: int
    // The calls so far.
    ghost var calls: seq<Call>

    ghost predicate Valid()
      reads this
    {
      Ordered(calls) && (calls != [] ==> calls[|calls| - 1].at <= now) && entries == After(calls, daily)
    }

    constructor (daily: int, now: int)
      ensures Valid() && calls == [] && this.daily == daily && this.now == now
    {
      entries, this.daily, this.now, calls := map[], daily, now, [];
    }

    method DeleteStale()
      modifies this`entries
      ensures entries == Evicted(old(entries), now)
    {
      var keys := entries.Keys;
      while keys != {}
        invariant keys <= old(entries).Keys
        invariant entries == map k | k in old(entries) && (k in keys || now - old(entries)[k].last <= DAY) ::
                               old(entries)[k]
        decreases |keys|
      {
        var key :| key in keys;
        if now - entries[key].last > DAY { entries := entries - {key}; }
        keys := keys - {key};
      }
    }

    /** `CheckAndConsume`: allowed exactly when the amount fits what the calls so far have been allowed today. */
    method CheckAndConsume(id: string, amount: int) returns (out: Result)
      requires Valid()
      modifies this`entries, this`calls
      ensures Valid() && calls == old(calls) + [Call(id, amount, now)]
      ensures out == LastAnswer(calls, daily)
      ensures out.allowed <==> AllowedSum(old(calls), id, DayOf(now), daily) + amount <= daily
      ensures out.count == AllowedSum(calls, id, DayOf(now), daily)
    {
      NextCall(calls, Call(id, amount, now), daily);
      calls := calls + [Call(id, amount, now)];
      out := Consume(id, amount);
    }

    /** The loop, the check and the write-back. */
    method Consume(id: string, amount: int) returns (out: Result)
      modifies this`entries
      ensures entries == AfterCall(old(entries), Call(id, amount, now), daily)
      ensures out == Answer(old(entries), Call(id, amount, now), daily)
    {
      DeleteStale();
      var day := DayOf(now);
      var e := if id in entries && entries[id].day == day then entries[id] else Entry(day, 0, now);
      e := e.(last := now);
      if e.count + amount > daily { return Result(false, e.count); }
      e := e.(count := e.count + amount);
      entries := entries[id := e];
      return Result(true, e.count);
    }
  }
}
