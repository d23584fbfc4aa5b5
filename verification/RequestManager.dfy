/** `RequestManager` as the class it is (src/completion/requestManager.ts:11-112): its maps, counter and
    statistics are updated in place. Each method is one atomic step, proved against the step functions of
    `ManagerState`, about which the invariants are proved. */
module RequestManager {
  import opened Wrappers
  import opened Requests
  import opened LruCache
  import opened ManagerState

  class RequestManager {
    var active: map<string, nat>
    var cache: seq<Slot>
    var quick: map<BaseKey, Slot>
    var negative: map<Key, int>
    var id: nat
    var stats: Stats
    // The `Active` objects and the listeners, which the closures of the source hold on to.
    var runs: map<nat, Run>
    var consumers: map<nat, Consumer>
    // `Date.now()`
    var now: int
    // Observers.
    ghost var lateHits: nat
    ghost var answers: seq<Answer>
    ghost var delivered: seq<Delivery>

    ghost function View(): State
      reads this
    {
      State(active, runs, consumers, cache, quick, negative, id, stats, now, lateHits, answers, delivered)
    }

    constructor (clock: int)
      ensures View() == Initial(clock)
    {
      active, cache, quick, negative, id, stats := map[], [], map[], map[], 0, NO_STATS;
      runs, consumers, now := map[], map[], clock;
      lateHits, answers, delivered := 0, [], [];
    }

    // ---- caches

    method Get(key: Key) returns (r: Option<CompletionResult>)
      modifies this`cache
      ensures cache == AfterRead(old(cache), key, now)
      ensures r == match Hit(old(cache), key, now)
                   case Some(slot) => Some(AsCached(slot.value.value))
                   case None => None
    {
      var entry := Lookup(cache, key);
      if entry.None? || entry.value.expiresAt < now {
        cache := MapDelete(cache, key);
        return None;
      }
      LookupMember(cache, key);
      DeleteThenSetIsPut(cache, entry.value);
      cache := MapDelete(cache, key);
      cache := MapSet(cache, entry.value);
      return Some(AsCached(entry.value.value.value));
    }

    method GetQuick(key: BaseKey) returns (r: Option<CompletionResult>)
      modifies this`quick
      ensures quick == AfterQuickRead(old(quick), key, now)
      ensures r == match QuickHit(old(quick), key, now)
                   case Some(slot) => Some(AsCached(slot.value.value))
                   case None => None
    {
      if key !in quick || quick[key].expiresAt < now {
        quick := quick - {key};
        return None;
      }
      return Some(AsCached(quick[key].value.value));
    }

    /** The loop at the end of `set`; `keys().next()` is the first key in insertion order. */
    method EvictOverflow(max: nat)
      modifies this`cache
      ensures cache == Evict(old(cache), max)
    {
      ghost var full := cache;
      while |cache| > max
        invariant |cache| <= |full| && cache == full[|full| - |cache|..]
        invariant |full| <= max ==> cache == full
        invariant |full| > max ==> |cache| >= max
      {
        cache := cache[1..];
      }
    }

    method Set(key: Key, value: CompletionResult, doc: string, q: Request, settings: Settings)
      modifies this`cache, this`quick
      ensures View() == StoreResult(old(View()), key, value, doc, q, settings)
    {
      var entry := EntryOf(doc, q, value);
      var slot := Slot(key, entry, now + settings.cacheTtlMs);
      StoreSlot(slot, settings.cacheMaxEntries);
      quick := quick[BaseKeyOf(q) := Slot(key, entry, Min(slot.expiresAt, now + 2000))];
    }

    method StoreSlot(slot: Slot, max: nat)
      modifies this`cache
      ensures cache == Evict(Put(old(cache), slot), max)
    {
      DeleteThenSetIsPut(cache, slot);
      cache := MapDelete(cache, slot.key);
      cache := MapSet(cache, slot);
      EvictOverflow(max);
    }

    method RefineFromCache(doc: string, q: Request) returns (r: Option<CompletionResult>)
      ensures r == Refine(cache, doc, q, now)
    {
      var i := |cache|;
      assert cache[..i] == cache;
      while i > 0
        invariant 0 <= i <= |cache|
        invariant Refine(cache, doc, q, now) == Refine(cache[..i], doc, q, now)
      {
        i := i - 1;
        var slot := cache[i];
        assert cache[..i + 1][..i] == cache[..i];
        if slot.expiresAt < now || slot.value.documentKey != doc || slot.value.suffix != q.suffix
           || slot.value.fingerprint != q.fingerprint || !StartsWith(q.prefix, slot.value.prefix) {
          continue;
        }
        var typed := Typed(slot.value.prefix, q.prefix);
        if typed != "" && StartsWith(slot.value.value.text, typed) {
          return Some(CompletionResult(slot.value.value.text[|typed|..], None, Cache));
        }
      }
      return None;
    }

    method ClearCache()
      modifies this`cache, this`quick, this`negative
      ensures View() == OnClearCache(old(View()))
    {
      cache, quick, negative := [], map[], map[];
    }

    // ---- cancellation

    method ClearAbortTimer(r: nat)
      requires r in runs
      modifies this`runs
      ensures runs == old(runs)[r := old(runs)[r].(timer := None)]
    {
      runs := runs[r := runs[r].(timer := None)];
    }

    method AbortNow(r: nat)
      requires r in runs
      modifies this`runs
      ensures runs == old(runs)[r := Aborted(old(runs)[r])]
    {
      ClearAbortTimer(r);
      runs := runs[r := runs[r].(aborted := true)];
    }

    /** The listener `abort` of consumer `number`. */
    method OnAbortSignal(r: nat, number: nat)
      requires r in runs
      modifies this`runs
      ensures runs == if old(runs)[r].consumer != number then old(runs)
                      else old(runs)[r := Abandoned(old(runs)[r], now)]
    {
      if runs[r].consumer != number { return; }
      if !runs[r].backendStarted { AbortNow(r); return; }
      ClearAbortTimer(r);
      runs := runs[r := runs[r].(timer := Some(now + 60))];
    }

    method BindCancellation(r: nat, q: Request, sourceAborted: bool, number: nat, continuation: bool)
      requires r in runs && runs[r].consumer == number
      modifies this`runs, this`consumers
      ensures consumers == old(consumers)[stats.requested :=
                Consumer(r, number, q, continuation, !sourceAborted, sourceAborted, false)]
      ensures runs == if sourceAborted then old(runs)[r := Abandoned(old(runs)[r], now)] else old(runs)
    {
      consumers := consumers[stats.requested :=
        Consumer(r, number, q, continuation, !sourceAborted, sourceAborted, false)];
      if sourceAborted { OnAbortSignal(r, number); }
    }

    method SourceAborted(call: nat)
      requires Enabled(View(), Step.SourceAborted(call))
      modifies this`runs, this`consumers
      ensures View() == OnSourceAborted(old(View()), call)
    {
      var c := consumers[call];
      consumers := consumers[call := c.(listening := false, cancelled := true)];
      OnAbortSignal(c.run, c.number);
    }

    method GraceTimerFired(r: nat)
      requires Enabled(View(), Step.GraceTimerFired(r))
      modifies this`runs
      ensures View() == Abort(old(View()), r)
    {
      AbortNow(r);
    }

    method Cancel(doc: string)
      requires Enabled(View(), Step.Cancel(doc))
      modifies this`runs
      ensures View() == Next(old(View()), Step.Cancel(doc))
    {
      if doc in active { AbortNow(active[doc]); }
    }

    method CancelAll()
      requires forall d :: d in active ==> active[d] in runs
      modifies this`runs
      ensures View() == OnCancelAll(old(View()))
    {
      var docs := active.Keys;
      ghost var done: set<nat> := {};
      while docs != {}
        invariant docs <= active.Keys && runs.Keys == old(runs.Keys)
        invariant done == set d | d in active && d !in docs :: active[d]
        invariant runs == AbortAll(old(runs), done)
        decreases |docs|
      {
        var d :| d in docs;
        AbortNow(active[d]);
        docs, done := docs - {d}, done + {active[d]};
      }
      assert done == active.Values;
    }

    method Dispose()
      requires forall d :: d in active ==> active[d] in runs
      modifies this`runs, this`active, this`cache, this`quick, this`negative
      ensures View() == OnDispose(old(View()))
    {
      CancelAll();
      active := map[];
      ClearCache();
    }

    // ---- complete

    method NextConsumer(r: nat) returns (number: nat)
      requires r in runs
      modifies this`runs
      ensures number == old(runs)[r].consumer + 1
      ensures runs == old(runs)[r := old(runs)[r].(consumer := number, latest := stats.requested, timer := None)]
    {
      number := runs[r].consumer + 1;
      runs := runs[r := runs[r].(consumer := number, latest := stats.requested)];
      ClearAbortTimer(r);
    }

    method Reuse(r: nat, q: Request, sourceAborted: bool, continuation: bool)
      requires r in runs
      modifies this`stats, this`runs, this`consumers
      ensures View() == ManagerState.Reuse(old(View()), r, q, sourceAborted, continuation)
    {
      stats := stats.(deduplicated := stats.deduplicated + 1);
      var number := NextConsumer(r);
      BindCancellation(r, q, sourceAborted, number, continuation);
      assert View().runs == ManagerState.Reuse(old(View()), r, q, sourceAborted, continuation).runs;
    }

    lemma StartIs(s: State, doc: string, q: Request, sourceAborted: bool)
      ensures var r := s.lastId + 1;
              var run := Run(doc, KeyOf(q), KeyOf(q), q, false, false, 0, None, s.stats.requested, Debouncing);
              Start(s, doc, q, sourceAborted)
              == s.(lastId := r, active := s.active[doc := r],
                    runs := s.runs[r := if sourceAborted then Abandoned(run, s.now) else run],
                    consumers := s.consumers[s.stats.requested :=
                      Consumer(r, 0, q, false, !sourceAborted, sourceAborted, false)])
    {
      var r := s.lastId + 1;
      var run := Run(doc, KeyOf(q), KeyOf(q), q, false, false, 0, None, s.stats.requested, Debouncing);
      assert s.runs[r := run][r := Joined(run, 0, s.stats.requested, sourceAborted, s.now)]
          == s.runs[r := Joined(run, 0, s.stats.requested, sourceAborted, s.now)];
    }

    method StartRun(doc: string, key: Key, q: Request, sourceAborted: bool)
      requires key == KeyOf(q)
      modifies this`id, this`active, this`runs, this`consumers
      ensures View() == Start(old(View()), doc, q, sourceAborted)
    {
      StartIs(View(), doc, q, sourceAborted);
      id := id + 1;
      runs := runs[id := Run(doc, key, key, q, false, false, 0, None, stats.requested, Debouncing)];
      BindCancellation(id, q, sourceAborted, 0, false);
      active := active[doc := id];
      assert View().runs == Start(old(View()), doc, q, sourceAborted).runs;
    }

    method JoinOrStart(doc: string, q: Request, sourceAborted: bool)
      requires doc in active ==> active[doc] in runs
      modifies this`stats, this`id, this`active, this`runs, this`consumers
      ensures View() == ManagerState.JoinOrStart(old(View()), doc, q, sourceAborted)
    {
      var key := KeyOf(q);
      if doc in active {
        var current := active[doc];
        if runs[current].startKey == key {
          Reuse(current, q, sourceAborted, false);
          return;
        }
        if runs[current].backendStarted && CompatibleContinuation(runs[current].request, q) {
          Reuse(current, q, sourceAborted, true);
          return;
        }
        AbortNow(current);
      }
      StartRun(doc, key, q, sourceAborted);
    }

    /** The cached result, whichever of the caches the request may use. */
    method FromCaches(doc: string, q: Request) returns (out: Option<Shortcut>)
      modifies this`cache, this`quick
      ensures cache == if q.hasTask then old(cache) else AfterRead(old(cache), KeyOf(q), now)
      ensures quick == if q.hasTask then AfterQuickRead(old(quick), BaseKeyOf(q), now) else old(quick)
      ensures out.Some? ==> out == WithoutRun(old(View()), doc, q) && !out.value.origin.FromNegative?
      ensures out.None? ==> WithoutRun(old(View()), doc, q)
                            == if !q.hasTask && KeyOf(q) in negative && negative[KeyOf(q)] > now
                               then Some(Shortcut(FromNegative, None)) else None
    {
      if q.hasTask {
        var hit := GetQuick(BaseKeyOf(q));
        return if hit.Some? then Some(Shortcut(FromQuick, hit)) else None;
      }
      var cached := Get(KeyOf(q));
      if cached.Some? { return Some(Shortcut(FromCache, cached)); }
      var refined := RefineFromCache(doc, q);
      return if refined.Some? then Some(Shortcut(FromRefine, refined)) else None;
    }

    method AnswerAtOnce(doc: string, q: Request, out: Shortcut)
      modifies this`stats, this`delivered
      ensures var s := old(View());
              View() == Deliver(s.(stats := CountShortcut(s.stats, out.origin)), doc, q, out.origin, out.value)
    {
      if out.origin.FromNegative? {
        stats := stats.(negativeCacheHits := stats.negativeCacheHits + 1);
      } else {
        stats := stats.(cacheHits := stats.cacheHits + 1);
      }
      delivered := delivered + [Delivery(doc, q, out.origin, out.value)];
    }

    /** `complete`: the result when it is known at once, otherwise the call is now a consumer of a run. */
    method Complete(doc: string, q: Request, sourceAborted: bool) returns (out: Option<Shortcut>)
      requires Enabled(View(), Step.Complete(doc, q, sourceAborted))
      modifies this
      ensures View() == OnComplete(old(View()), doc, q, sourceAborted)
      ensures out == WithoutRun(old(View()), doc, q)
    {
      ghost var s := View();
      out := FromCaches(doc, q);
      stats := stats.(requested := stats.requested + 1);
      assert View() == Requested(s, q);
      var key := KeyOf(q);
      if out.None? && !q.hasTask && key in negative && negative[key] > now {
        out := Some(Shortcut(FromNegative, None));
      }
      if out.Some? {
        AnswerAtOnce(doc, q, out.value);
        return;
      }
      JoinOrStart(doc, q, sourceAborted);
    }

    /** The promise of an attached call settles. */
    method Settle(call: nat) returns (value: Option<CompletionResult>)
      requires Enabled(View(), Step.Settle(call))
      modifies this`consumers, this`delivered
      ensures View() == OnSettle(old(View()), call)
      ensures value == SettledValue(old(View()), old(consumers)[call])
    {
      var c := consumers[call];
      value := runs[c.run].phase.value;
      if c.continuation { value := RefineActive(runs[c.run].request, c.request, value); }
      consumers := consumers[call := c.(listening := false, settled := true)];
      delivered := delivered + [Delivery(runs[c.run].doc, c.request, FromRun(c.continuation), value)];
    }

    // ---- run

    /** `return value` and the `finally` block. */
    method FinishRun(r: nat, value: Option<CompletionResult>)
      requires r in runs
      modifies this`stats, this`runs, this`active
      ensures View() == Finish(old(View()), r, value)
    {
      var run := runs[r];
      if run.aborted { stats := stats.(cancelled := stats.cancelled + 1); }
      runs := runs[r := run.(phase := Finished(value, run.aborted))];
      if run.doc in active && active[run.doc] == r {
        ClearAbortTimer(r);
        active := active - {run.doc};
      }
    }

    method CallEngine(r: nat)
      requires r in runs
      modifies this`stats, this`runs
      ensures View() == StartBackend(old(View()), r)
    {
      runs := runs[r := runs[r].(backendStarted := true)];
      stats := stats.(backendRequests := stats.backendRequests + 1);
      runs := runs[r := runs[r].(phase := AwaitingEngine)];
    }

    method DebounceElapsed(r: nat)
      requires Enabled(View(), Step.DebounceElapsed(r))
      modifies this`stats, this`runs, this`active
      ensures View() == OnDebounceElapsed(old(View()), r)
    {
      if runs[r].aborted {
        FinishRun(r, None);
      } else if runs[r].request.hasTask {
        runs := runs[r := runs[r].(phase := AwaitingContext)];
      } else {
        CallEngine(r);
      }
    }

    /** The request with its context, and its key: line 81 changes the local `key`, not `active.key`. */
    method Recompute(r: nat, repository: Option<string>) returns (key: Key)
      requires r in runs
      modifies this`runs
      ensures runs == old(runs)[r := WithContext(old(runs)[r], repository)] && key == runs[r].key
    {
      var request := runs[r].request;
      if !runs[r].aborted && repository.Some? {
        request := request.(fingerprint := repository.value);
      }
      key := KeyOf(request);
      runs := runs[r := runs[r].(request := request, key := key)];
    }

    method LateHit(r: nat, value: CompletionResult)
      requires r in runs
      modifies this`stats, this`runs, this`active, this`lateHits
      ensures var s := old(View());
              View() == Finish(s.(stats := s.stats.(cacheHits := s.stats.cacheHits + 1), lateHits := s.lateHits + 1),
                               r, Some(value))
    {
      stats := stats.(cacheHits := stats.cacheHits + 1);
      lateHits := lateHits + 1;
      FinishRun(r, Some(value));
    }

    method ContextSettled(r: nat, repository: Option<string>)
      requires Enabled(View(), Step.ContextSettled(r, repository))
      modifies this`stats, this`runs, this`active, this`cache, this`lateHits
      ensures View() == OnContextSettled(old(View()), r, repository)
    {
      ghost var s := View();
      var key := Recompute(r, repository);
      var cached := Get(key);
      assert View() == s.(runs := runs, cache := AfterRead(s.cache, key, s.now));
      if cached.Some? {
        LateHit(r, cached.value);
      } else {
        CallEngine(r);
      }
    }

    method EngineReturned(r: nat, outcome: Outcome, settings: Settings)
      requires Enabled(View(), Step.EngineReturned(r, outcome, settings))
      modifies this
      ensures View() == OnEngineReturned(old(View()), r, outcome, settings)
    {
      if outcome.Threw? {
        FinishRun(r, None);
        return;
      }
      var run, result := runs[r], outcome.value;
      if result.Some? { answers := answers + [Answer(run.doc, run.request, result.value)]; }
      if run.aborted || run.doc !in active || active[run.doc] != r {
        FinishRun(r, None);
        return;
      }
      RecordResult(r, result, settings);
      FinishRun(r, result);
    }

    method RecordResult(r: nat, result: Option<CompletionResult>, settings: Settings)
      requires r in runs
      modifies this`cache, this`quick, this`negative, this`stats
      ensures View() == Record(old(View()), r, result, settings)
    {
      var run := runs[r];
      if result.Some? && settings.cacheEnabled { Set(run.key, result.value, run.doc, run.request, settings); }
      if result.None? { negative := negative[run.key := now + 2000]; }
      if result.Some? { stats := stats.(succeeded := stats.succeeded + 1); }
    }
  }
}
