/** The insertion-ordered `Map` that `RequestManager` uses as a least-recently-used
    cache (src/completion/requestManager.ts:108-110). A JavaScript `Map` iterates in
    insertion order, overwriting keeps a key's place and deleting frees it, so a map
    is a sequence of slots with distinct keys, oldest first. */
module LruCache {
  import opened Wrappers
  import opened Requests

  datatype Slot = Slot(key: Key, value: Entry, expiresAt: int)

  // ---- the three Map primitives the cache is built from

  function Lookup(c: seq<Slot>, k: Key): Option<Slot> {
    if c == [] then None
    else if c[0].key == k then Some(c[0])
    else Lookup(c[1..], k)
  }

  function MapDelete(c: seq<Slot>, k: Key): seq<Slot> {
    if c == [] then []
    else if c[0].key == k then MapDelete(c[1..], k)
    else [c[0]] + MapDelete(c[1..], k)
  }

  function MapSet(c: seq<Slot>, s: Slot): seq<Slot> {
    if c == [] then [s]
    else if c[0].key == s.key then [s] + c[1..]
    else [c[0]] + MapSet(c[1..], s)
  }

  // ---- the cache operations

  /** Delete, then insert: the slot becomes the most recent one. */
  function Put(c: seq<Slot>, s: Slot): seq<Slot> {
    MapDelete(c, s.key) + [s]
  }

  /** What remains of `c` once the eviction loop has stopped. */
  function Evict(c: seq<Slot>, max: nat): seq<Slot> {
    if |c| <= max then c else c[|c| - max..]
  }

  function Hit(c: seq<Slot>, k: Key, now: int): Option<Slot> {
    match Lookup(c, k)
    case None => None
    case Some(s) => if s.expiresAt < now then None else Some(s)
  }

  /** The cache after a read: a hit moves to the end, an expired slot is dropped. */
  function AfterRead(c: seq<Slot>, k: Key, now: int): seq<Slot> {
    match Hit(c, k, now)
    case None => MapDelete(c, k)
    case Some(s) => Put(c, s)
  }

  // ---- histories

  datatype Op =
    | Store(slot: Slot, max: nat)
    | Read(key: Key, now: int)
    | Clear

  function Apply(c: seq<Slot>, op: Op): seq<Slot> {
    match op
    case Store(s, max) => Evict(Put(c, s), max)
    case Read(k, now) => AfterRead(c, k, now)
    case Clear => []
  }

  /** The cache after a history of operations, from empty. */
  function After(ops: seq<Op>): seq<Slot> {
    if ops == [] then [] else Apply(After(ops[..|ops| - 1]), ops[|ops| - 1])
  }

  /** The same history against a store that never evicts. */
  function Unbounded(ops: seq<Op>): seq<Slot> {
    if ops == [] then []
    else
      var c := Unbounded(ops[..|ops| - 1]);
      match ops[|ops| - 1]
      case Store(s, _) => Put(c, s)
      case Read(k, now) => AfterRead(c, k, now)
      case Clear => []
  }

  predicate Touches(c: seq<Slot>, op: Op, k: Key) {
    match op
    case Store(s, _) => s.key == k
    case Read(key, now) => key == k && Hit(c, key, now).Some?
    case Clear => false
  }

  /** One more than the position of the last operation that stored or hit `k`; 0 when there is none. */
  function LastTouch(ops: seq<Op>, k: Key): nat {
    if ops == [] then 0
    else if Touches(After(ops[..|ops| - 1]), ops[|ops| - 1], k) then |ops|
    else LastTouch(ops[..|ops| - 1], k)
  }

  /** The slot most recently stored under `k` since the last `Clear`. */
  function LastStored(ops: seq<Op>, k: Key): Option<Slot> {
    if ops == [] then None
    else
      match ops[|ops| - 1]
      case Store(s, _) => if s.key == k then Some(s) else LastStored(ops[..|ops| - 1], k)
      case Read(_, _) => LastStored(ops[..|ops| - 1], k)
      case Clear => None
  }

  /** The slots of `c` stand in the order in which `ops` last touched their keys. */
  ghost predicate ByRecency(c: seq<Slot>, ops: seq<Op>) {
    forall i, j :: 0 <= i < j < |c| ==> LastTouch(ops, c[i].key) < LastTouch(ops, c[j].key)
  }

  ghost predicate Distinct(c: seq<Slot>) {
    forall i, j :: 0 <= i < j < |c| ==> c[i].key != c[j].key
  }

  ghost predicate HasKey(c: seq<Slot>, k: Key) {
    exists i :: 0 <= i < |c| && c[i].key == k
  }

  // ---- the primitives keep order and contents

  lemma {:induction false} DeleteMembers(c: seq<Slot>, k: Key)
    ensures |MapDelete(c, k)| <= |c|
    ensures forall s :: s in MapDelete(c, k) <==> s in c && s.key != k
    ensures Distinct(c) ==> |c| <= |MapDelete(c, k)| + 1
    ensures (forall s :: s in c ==> s.key != k) ==> MapDelete(c, k) == c
  {
    if c != [] {
      DeleteMembers(c[1..], k);
      assert c == [c[0]] + c[1..];
      if c[0].key == k && Distinct(c) {
        assert forall s :: s in c[1..] ==> s.key != k;
      }
    }
  }

  lemma DeletedWasLater(c: seq<Slot>, k: Key, j: nat) returns (i: nat)
    requires c != [] && j < |MapDelete(c[1..], k)|
    ensures 0 < i < |c| && c[i] == MapDelete(c[1..], k)[j] && c[i].key != k
  {
    DeleteMembers(c[1..], k);
    var d := MapDelete(c[1..], k);
    assert d[j] in d;
    i :| 0 <= i < |c[1..]| && c[1..][i] == d[j];
    i := i + 1;
  }

  lemma {:induction false} DeleteByRecency(c: seq<Slot>, k: Key, ops: seq<Op>)
    requires ByRecency(c, ops)
    ensures ByRecency(MapDelete(c, k), ops)
  {
    if c != [] {
      DeleteByRecency(c[1..], k, ops);
      var d := MapDelete(c[1..], k);
      forall j | 0 <= j < |d| ensures LastTouch(ops, c[0].key) < LastTouch(ops, d[j].key) {
        var i := DeletedWasLater(c, k, j);
      }
    }
  }

  lemma {:induction false} LookupMember(c: seq<Slot>, k: Key)
    ensures Lookup(c, k).Some? ==> Lookup(c, k).value in c && Lookup(c, k).value.key == k
    ensures Lookup(c, k).None? ==> forall s :: s in c ==> s.key != k
  {
    if c != [] && c[0].key != k {
      LookupMember(c[1..], k);
      assert c == [c[0]] + c[1..];
    }
  }

  lemma LookupUnique(c: seq<Slot>, s: Slot)
    requires Distinct(c) && s in c
    ensures Lookup(c, s.key) == Some(s)
  {
    LookupMember(c, s.key);
    match Lookup(c, s.key)
    case None =>
    case Some(t) =>
      var i :| 0 <= i < |c| && c[i] == s;
      var j :| 0 <= j < |c| && c[j] == t;
      assert i == j;
  }

  /** `cache.delete(k); cache.set(k, e)` is `Put`. */
  lemma {:induction false} DeleteThenSetIsPut(c: seq<Slot>, s: Slot)
    ensures MapSet(MapDelete(c, s.key), s) == Put(c, s)
  {
    if c != [] {
      DeleteThenSetIsPut(c[1..], s);
      if c[0].key != s.key {
        var d := MapDelete(c[1..], s.key);
        assert ([c[0]] + d)[1..] == d;
        assert [c[0]] + (d + [s]) == [c[0]] + d + [s];
      }
    }
  }

  lemma PutMembers(c: seq<Slot>, s: Slot)
    ensures forall t :: t in Put(c, s) <==> t == s || (t in c && t.key != s.key)
  {
    DeleteMembers(c, s.key);
  }

  lemma EvictMembers(c: seq<Slot>, max: nat)
    ensures forall t :: t in Evict(c, max) ==> t in c
    ensures |Evict(c, max)| == if |c| <= max then |c| else max
  {
  }

  /** A read only removes slots, and only expired ones of the key it reads. */
  lemma ReadMembers(c: seq<Slot>, k: Key, now: int)
    requires Distinct(c)
    ensures forall t :: t in AfterRead(c, k, now) <==> t in c && (t.key != k || t.expiresAt >= now)
  {
    LookupMember(c, k);
    DeleteMembers(c, k);
    if Lookup(c, k).Some? {
      var s := Lookup(c, k).value;
      PutMembers(c, s);
      forall t | t in c && t.key == k ensures t == s {
        LookupUnique(c, t);
      }
    }
  }

  // ---- invariants of every history

  lemma {:induction false} LastTouchBound(ops: seq<Op>, k: Key)
    ensures LastTouch(ops, k) <= |ops|
  {
    if ops != [] {
      LastTouchBound(ops[..|ops| - 1], k);
    }
  }

  /** In every history the slots stand in the order in which their keys were last touched. */
  lemma {:induction false} OrderedByRecency(ops: seq<Op>)
    ensures ByRecency(After(ops), ops)
    ensures Distinct(After(ops))
  {
    if ops != [] {
      var before, op := ops[..|ops| - 1], ops[|ops| - 1];
      var c := After(before);
      OrderedByRecency(before);
      StepKeepsOrder(ops);
      var c' := After(ops);
      forall i, j | 0 <= i < j < |c'| ensures c'[i].key != c'[j].key {
        assert LastTouch(ops, c'[i].key) < LastTouch(ops, c'[j].key);
      }
    }
  }

  lemma {:induction false} TouchedLast(ops: seq<Op>, k: Key)
    requires ops != [] && Touches(After(ops[..|ops| - 1]), ops[|ops| - 1], k)
    ensures forall j :: j != k ==> LastTouch(ops, j) == LastTouch(ops[..|ops| - 1], j) < LastTouch(ops, k)
  {
    forall j | j != k
      ensures LastTouch(ops, j) == LastTouch(ops[..|ops| - 1], j) < LastTouch(ops, k)
    {
      LastTouchBound(ops[..|ops| - 1], j);
    }
  }

  /** A touch moves its key behind every other. */
  lemma PutByRecency(ops: seq<Op>, s: Slot)
    requires ops != [] && Touches(After(ops[..|ops| - 1]), ops[|ops| - 1], s.key)
    requires ByRecency(After(ops[..|ops| - 1]), ops[..|ops| - 1])
    ensures ByRecency(Put(After(ops[..|ops| - 1]), s), ops)
  {
    var before := ops[..|ops| - 1];
    var c := After(before);
    var d := MapDelete(c, s.key);
    DeleteByRecency(c, s.key, before);
    DeleteMembers(c, s.key);
    TouchedLast(ops, s.key);
    forall i | 0 <= i < |d|
      ensures LastTouch(ops, d[i].key) == LastTouch(before, d[i].key) < LastTouch(ops, s.key)
    {
      assert d[i] in d;
    }
  }

  lemma ReadKeepsOrder(ops: seq<Op>, k: Key, now: int)
    requires ops != [] && ops[|ops| - 1] == Read(k, now)
    requires ByRecency(After(ops[..|ops| - 1]), ops[..|ops| - 1])
    ensures ByRecency(AfterRead(After(ops[..|ops| - 1]), k, now), ops)
  {
    var before := ops[..|ops| - 1];
    var c := After(before);
    LookupMember(c, k);
    if Hit(c, k, now).Some? {
      PutByRecency(ops, Hit(c, k, now).value);
    } else {
      DeleteByRecency(c, k, before);
      assert forall j :: LastTouch(ops, j) == LastTouch(before, j);
    }
  }

  lemma StepKeepsOrder(ops: seq<Op>)
    requires ops != []
    requires ByRecency(After(ops[..|ops| - 1]), ops[..|ops| - 1])
    ensures ByRecency(After(ops), ops)
  {
    match ops[|ops| - 1]
    case Store(s, max) =>
      PutByRecency(ops, s);
      EvictKeepsOrder(Put(After(ops[..|ops| - 1]), s), max, ops);
    case Read(k, now) => ReadKeepsOrder(ops, k, now);
    case Clear =>
  }

  lemma EvictKeepsOrder(c: seq<Slot>, max: nat, ops: seq<Op>)
    requires ByRecency(c, ops)
    ensures ByRecency(Evict(c, max), ops)
  {
  }

  ghost predicate Lost(ops: seq<Op>, s: Slot, max: nat, k: Key) {
    HasKey(After(ops), k) && k != s.key && !HasKey(Apply(After(ops), Store(s, max)), k)
  }

  /** After a store the cache holds at most the configured number of slots, the new one among them. */
  lemma StoreIsBounded(c: seq<Slot>, s: Slot, max: nat)
    requires Distinct(c)
    ensures |Apply(c, Store(s, max))| <= max
    ensures max >= 1 ==> Lookup(Apply(c, Store(s, max)), s.key) == Some(s)
  {
    var p, c' := Put(c, s), Apply(c, Store(s, max));
    PutDistinct(c, s);
    if max >= 1 {
      assert c'[|c'| - 1] == p[|p| - 1] == s;
      LookupUnique(c', s);
    }
  }

  lemma LostIsInFront(ops: seq<Op>, s: Slot, max: nat, k: Key) returns (i: nat)
    requires Lost(ops, s, max, k)
    ensures max < |Put(After(ops), s)|
    ensures i < |MapDelete(After(ops), s.key)| && i < |Put(After(ops), s)| - max
    ensures MapDelete(After(ops), s.key)[i].key == k
  {
    var c := After(ops);
    var d := MapDelete(c, s.key);
    DeleteMembers(c, s.key);
    var m :| 0 <= m < |c| && c[m].key == k;
    assert c[m] in d;
    i :| 0 <= i < |d| && d[i] == c[m];
    assert Put(c, s)[i] == d[i];
    EvictedIsInFront(Put(c, s), max, i);
  }

  /** A slot whose key an eviction loses stood in the part cut off. */
  lemma EvictedIsInFront(p: seq<Slot>, max: nat, i: nat)
    requires i < |p| && !HasKey(Evict(p, max), p[i].key)
    ensures max < |p| && i < |p| - max
  {
    var c' := Evict(p, max);
    var gone := |p| - |c'|;
    if i >= gone { assert c'[i - gone] == p[i]; }
  }

  lemma KeptIsBehind(ops: seq<Op>, s: Slot, max: nat, k: Key) returns (j: nat)
    requires max < |Put(After(ops), s)|
    requires HasKey(Apply(After(ops), Store(s, max)), k) && k != s.key
    ensures |Put(After(ops), s)| - max <= j < |MapDelete(After(ops), s.key)|
    ensures MapDelete(After(ops), s.key)[j].key == k
  {
    var p, c' := Put(After(ops), s), Apply(After(ops), Store(s, max));
    var m :| 0 <= m < |c'| && c'[m].key == k;
    j := m + (|p| - max);
    assert c'[m] == p[j];
  }

  /** Every key a store evicts was touched before every key that stays. */
  lemma StoreEvictsLeastRecent(ops: seq<Op>, s: Slot, max: nat, lost: Key, kept: Key)
    requires Lost(ops, s, max, lost)
    requires HasKey(Apply(After(ops), Store(s, max)), kept) && kept != s.key
    ensures LastTouch(ops, lost) < LastTouch(ops, kept)
  {
    OrderedByRecency(ops);
    DeleteByRecency(After(ops), s.key, ops);
    var i := LostIsInFront(ops, s, max, lost);
    var j := KeptIsBehind(ops, s, max, kept);
  }

  /** A store into a cache that respects the bound evicts at most one key. */
  lemma StoreEvictsAtMostOne(ops: seq<Op>, s: Slot, max: nat, a: Key, b: Key)
    requires |After(ops)| <= max
    requires Lost(ops, s, max, a) && Lost(ops, s, max, b)
    ensures a == b
  {
    DeleteMembers(After(ops), s.key);
    var i := LostIsInFront(ops, s, max, a);
    var j := LostIsInFront(ops, s, max, b);
  }

  /** Every store of the history has a bound of at most `max`. */
  ghost predicate BoundedBy(ops: seq<Op>, max: nat) {
    forall i :: 0 <= i < |ops| && ops[i].Store? ==> ops[i].max <= max
  }

  /** Whatever is stored and read, the cache never holds more than the largest bound used. */
  lemma {:induction false} AlwaysBounded(ops: seq<Op>, max: nat)
    requires BoundedBy(ops, max)
    ensures |After(ops)| <= max
  {
    if ops != [] {
      var before, op := ops[..|ops| - 1], ops[|ops| - 1];
      AlwaysBounded(before, max);
      OrderedByRecency(before);
      match op
      case Store(s, m) => StoreIsBounded(After(before), s, m);
      case Read(k, now) => ReadIsNoLonger(After(before), k, now);
      case Clear =>
    }
  }

  lemma ReadIsNoLonger(c: seq<Slot>, k: Key, now: int)
    ensures |AfterRead(c, k, now)| <= |c|
  {
    DeleteMembers(c, k);
    LookupMember(c, k);
    if Hit(c, k, now).Some? { DeletedIsShorter(c, k); }
  }

  lemma {:induction false} DeletedIsShorter(c: seq<Slot>, k: Key)
    requires exists i :: 0 <= i < |c| && c[i].key == k
    ensures |MapDelete(c, k)| < |c|
  {
    var i :| 0 <= i < |c| && c[i].key == k;
    if c[0].key == k {
      DeleteMembers(c[1..], k);
    } else {
      assert c[1..][i - 1] == c[i];
      DeletedIsShorter(c[1..], k);
    }
  }

  /** Under one bound for all stores, every store of any history evicts at most one key. */
  lemma OneBoundEvictsAtMostOne(ops: seq<Op>, s: Slot, max: nat, a: Key, b: Key)
    requires BoundedBy(ops, max) && Lost(ops, s, max, a) && Lost(ops, s, max, b)
    ensures a == b
  {
    AlwaysBounded(ops, max);
    StoreEvictsAtMostOne(ops, s, max, a, b);
  }

  /** Every slot in the cache is the one most recently stored under its key. */
  lemma {:induction false} HoldsLastStored(ops: seq<Op>)
    ensures forall s :: s in After(ops) ==> LastStored(ops, s.key) == Some(s)
  {
    if ops != [] {
      var before, op := ops[..|ops| - 1], ops[|ops| - 1];
      HoldsLastStored(before);
      OrderedByRecency(before);
      match op
      case Store(s, max) =>
        PutMembers(After(before), s);
        EvictMembers(Put(After(before), s), max);
        assert After(ops) == Evict(Put(After(before), s), max);
      case Read(k, now) => ReadMembers(After(before), k, now);
      case Clear =>
    }
  }

  /** A hit returns the value last stored under that key, unexpired, and the store that never evicts would
      return the same. */
  lemma HitIsLastStored(ops: seq<Op>, k: Key, now: int)
    requires Hit(After(ops), k, now).Some?
    ensures var s := Hit(After(ops), k, now).value;
            LastStored(ops, k) == Some(s) && s.expiresAt >= now && Hit(Unbounded(ops), k, now) == Some(s)
  {
    LookupMember(After(ops), k);
    HoldsLastStored(ops);
    WithinUnbounded(ops);
    LookupUnique(Unbounded(ops), Hit(After(ops), k, now).value);
  }

  lemma {:induction false} WithinUnbounded(ops: seq<Op>)
    ensures Distinct(Unbounded(ops))
    ensures forall s :: s in After(ops) ==> s in Unbounded(ops)
  {
    if ops != [] {
      var before, op := ops[..|ops| - 1], ops[|ops| - 1];
      WithinUnbounded(before);
      OrderedByRecency(before);
      var c, u := After(before), Unbounded(before);
      match op
      case Store(s, max) =>
        PutMembers(c, s);
        PutMembers(u, s);
        EvictMembers(Put(c, s), max);
        PutDistinct(u, s);
        assert After(ops) == Evict(Put(c, s), max) && Unbounded(ops) == Put(u, s);
      case Read(k, now) =>
        ReadMembers(c, k, now);
        ReadMembers(u, k, now);
        LookupMember(u, k);
        DeleteDistinct(u, k);
        if Hit(u, k, now).Some? { PutDistinct(u, Hit(u, k, now).value); }
      case Clear =>
    }
  }

  lemma {:induction false} DeleteDistinct(c: seq<Slot>, k: Key)
    requires Distinct(c)
    ensures Distinct(MapDelete(c, k))
  {
    if c != [] {
      DeleteDistinct(c[1..], k);
      var d := MapDelete(c[1..], k);
      forall j | 0 <= j < |d| ensures c[0].key != d[j].key {
        var i := DeletedWasLater(c, k, j);
      }
    }
  }

  lemma PutDistinct(c: seq<Slot>, s: Slot)
    requires Distinct(c)
    ensures Distinct(Put(c, s))
  {
    DeleteDistinct(c, s.key);
    DeleteMembers(c, s.key);
    var d := MapDelete(c, s.key);
    forall j | 0 <= j < |d| ensures d[j].key != s.key {
      assert d[j] in d;
      assert MapDelete(c, s.key) == d;
    }
  }

  /** The never-evicting store stays within the bound at every store. */
  ghost predicate Fits(ops: seq<Op>) {
    forall n :: 0 < n <= |ops| && ops[n - 1].Store? ==> |Unbounded(ops[..n])| <= ops[n - 1].max
  }

  /** When the bound is never exceeded the cache is the unbounded store, slot for slot. */
  lemma {:induction false} FittingCacheIsUnbounded(ops: seq<Op>)
    requires Fits(ops)
    ensures After(ops) == Unbounded(ops)
  {
    if ops != [] {
      var before := ops[..|ops| - 1];
      forall n | 0 < n <= |before| && before[n - 1].Store?
        ensures |Unbounded(before[..n])| <= before[n - 1].max
      {
        assert before[..n] == ops[..n];
      }
      FittingCacheIsUnbounded(before);
      assert ops[..|ops|] == ops;
    }
  }

  /** Step `n` of the history evicted `k`, and nothing stored `k` after it. */
  ghost predicate EvictedAt(ops: seq<Op>, n: nat, k: Key) {
    && n < |ops| && ops[n].Store?
    && (Lost(ops[..n], ops[n].slot, ops[n].max, k) || (ops[n].slot.key == k && ops[n].max == 0))
    && forall m :: n < m < |ops| && ops[m].Store? ==> ops[m].slot.key != k
  }

  /** The cache misses what the unbounded store still holds only when an eviction took it. */
  lemma {:induction false} MissIsAnEviction(ops: seq<Op>, k: Key)
    requires HasKey(Unbounded(ops), k) && !HasKey(After(ops), k)
    ensures exists n: nat :: EvictedAt(ops, n, k)
  {
    if ops != [] {
      var before, op, last := ops[..|ops| - 1], ops[|ops| - 1], |ops| - 1;
      assert before + [op] == ops;
      var c, u := After(before), Unbounded(before);
      WithinUnbounded(before);
      OrderedByRecency(before);
      match op {
        case Store(s, max) =>
          PutMembers(u, s);
          PutDistinct(c, s);
          if s.key == k {
            StoreIsBounded(c, s, max);
            LookupMember(After(ops), k);
            assert EvictedAt(ops, last, k);
          } else {
            KeyInPut(u, s, k);
            if HasKey(c, k) {
              assert EvictedAt(ops, last, k);
            } else {
              MissIsAnEviction(before, k);
              EvictedBefore(before, op, k);
            }
          }
        case Read(r, now) =>
          ReadMembers(c, r, now);
          ReadMembers(u, r, now);
          KeyAfterRead(c, u, r, now, k);
          MissIsAnEviction(before, k);
          EvictedBefore(before, op, k);
        case Clear =>
      }
    }
  }

  lemma KeyInPut(u: seq<Slot>, s: Slot, k: Key)
    requires HasKey(Put(u, s), k) && k != s.key
    ensures HasKey(u, k)
  {
    PutMembers(u, s);
    var i :| 0 <= i < |Put(u, s)| && Put(u, s)[i].key == k;
    assert Put(u, s)[i] in u;
  }

  lemma KeyAfterRead(c: seq<Slot>, u: seq<Slot>, r: Key, now: int, k: Key)
    requires Distinct(c) && Distinct(u) && forall s :: s in c ==> s in u
    requires HasKey(AfterRead(u, r, now), k) && !HasKey(AfterRead(c, r, now), k)
    ensures HasKey(u, k) && !HasKey(c, k)
  {
    ReadMembers(c, r, now);
    ReadMembers(u, r, now);
    var a := AfterRead(u, r, now);
    var i :| 0 <= i < |a| && a[i].key == k;
    assert a[i] in u;
    LookupUnique(u, a[i]);
    forall s | s in c && s.key == k ensures s in AfterRead(c, r, now) {
      LookupUnique(u, s);
    }
  }

  lemma EvictedBefore(before: seq<Op>, op: Op, k: Key)
    requires op.Store? ==> op.slot.key != k
    requires exists n: nat :: EvictedAt(before, n, k)
    ensures exists n: nat :: EvictedAt(before + [op], n, k)
  {
    var n: nat :| EvictedAt(before, n, k);
    assert before[..n] == (before + [op])[..n];
    assert EvictedAt(before + [op], n, k);
  }
}
