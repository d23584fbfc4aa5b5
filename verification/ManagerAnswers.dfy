/** What callers of the request manager get (src/completion/requestManager.ts:21-40, 52-111): which requests share a
    run and which supersede it, what an undisturbed run returns, to whom, and for how long its answer is reused. */
module ManagerAnswers {
  import opened Wrappers
  import opened Requests
  import opened LruCache
  import opened ManagerState
  import opened ManagerInvariants
  import opened ManagerProtocol

  // ---- sharing a run

  /** Call `call` has joined the document's run, which goes on as it was; only a signal that has fired
      already aborts the run, at once before its backend has started and 60 ms later after. */
  ghost predicate JoinedRun(s: State, call: nat, doc: string, q: Request, sourceAborted: bool, continuation: bool,
                            s': State)
    requires doc in s.active && s.active[doc] in s.runs
  {
    var r := s.active[doc];
    var run := s.runs[r];
    && s'.active == s.active && s'.lastId == s.lastId
    && s'.stats == s.stats.(requested := call, deduplicated := s.stats.deduplicated + 1)
    && s'.delivered == s.delivered && s'.lateHits == s.lateHits
    && s'.consumers
       == s.consumers[call := Consumer(r, run.consumer + 1, q, continuation, !sourceAborted, sourceAborted, false)]
    && r in s'.runs && s'.runs[r].phase == run.phase && s'.runs[r].request == run.request
    && s'.runs[r].latest == call
    && s'.runs[r].aborted == (run.aborted || (sourceAborted && !run.backendStarted))
    && s'.runs[r].timer == if sourceAborted && run.backendStarted then Some(s.now + 60) else None
  }

  /** Call `call` has a new run of its own, and the document's run so far is aborted. */
  ghost predicate StartedRun(s: State, call: nat, doc: string, q: Request, sourceAborted: bool, s': State)
    requires doc in s.active ==> s.active[doc] in s.runs
  {
    var r := s.lastId + 1;
    && s'.active == s.active[doc := r] && s'.lastId == r && s'.stats == s.stats.(requested := call)
    && s'.delivered == s.delivered && s'.lateHits == s.lateHits
    && s'.consumers == s.consumers[call := Consumer(r, 0, q, false, !sourceAborted, sourceAborted, false)]
    && r in s'.runs && s'.runs[r].phase.Debouncing? && s'.runs[r].doc == doc && s'.runs[r].request == q
    && s'.runs[r].aborted == sourceAborted && s'.runs[r].timer.None?
    && (doc in s.active ==> s.active[doc] in s'.runs && s'.runs[s.active[doc]].aborted)
  }

  /** A request that no cache answers joins the document's run exactly when the run was started for the same key, or
      its backend has started and the request continues the run's; any other request starts a run and aborts the
      one before. */
  lemma RequestJoinsExactlyWhen(s: State, doc: string, q: Request, sourceAborted: bool)
    requires Inv(s) && WithoutRun(s, doc, q).None?
    ensures doc in s.active ==> s.active[doc] in s.runs
    ensures var s', call := OnComplete(s, doc, q, sourceAborted), s.stats.requested + 1;
            if doc in s.active && s.runs[s.active[doc]].startKey == KeyOf(q) then
              JoinedRun(s, call, doc, q, sourceAborted, false, s')
            else if doc in s.active && s.runs[s.active[doc]].backendStarted
                    && CompatibleContinuation(s.runs[s.active[doc]].request, q) then
              JoinedRun(s, call, doc, q, sourceAborted, true, s')
            else StartedRun(s, call, doc, q, sourceAborted, s')
  {
    if doc in s.active {
      assert ActiveFits(s, doc);
      assert RunFits(s, s.active[doc]);
    }
    var t := Requested(s, q);
    SameRuns(s, doc, q);
    Shares(t, doc, q, sourceAborted);
    SharesAlike(s, t, doc, q, sourceAborted, JoinOrStart(t, doc, q, sourceAborted));
  }

  /** Whose calls and runs are the same, shares alike. */
  lemma SharesAlike(s: State, t: State, doc: string, q: Request, sourceAborted: bool, s': State)
    requires t.stats == s.stats.(requested := t.stats.requested) && t.runs == s.runs && t.active == s.active
    requires t.lastId == s.lastId && t.consumers == s.consumers && t.delivered == s.delivered
    requires t.lateHits == s.lateHits && t.now == s.now && (doc in s.active ==> s.active[doc] in s.runs)
    ensures var call := t.stats.requested;
            && (doc in s.active ==> forall goesOn ::
                  JoinedRun(t, call, doc, q, sourceAborted, goesOn, s')
                  <==> JoinedRun(s, call, doc, q, sourceAborted, goesOn, s'))
            && (StartedRun(t, call, doc, q, sourceAborted, s') <==> StartedRun(s, call, doc, q, sourceAborted, s'))
  {
  }

  /** The part of `complete` after the caches have missed. */
  lemma Shares(s: State, doc: string, q: Request, sourceAborted: bool)
    requires doc in s.active ==> s.active[doc] in s.runs && RunOk(s.runs[s.active[doc]]) && s.active[doc] <= s.lastId
    ensures var s', call := JoinOrStart(s, doc, q, sourceAborted), s.stats.requested;
            if doc in s.active && s.runs[s.active[doc]].startKey == KeyOf(q) then
              JoinedRun(s, call, doc, q, sourceAborted, false, s')
            else if doc in s.active && s.runs[s.active[doc]].backendStarted
                    && CompatibleContinuation(s.runs[s.active[doc]].request, q) then
              JoinedRun(s, call, doc, q, sourceAborted, true, s')
            else StartedRun(s, call, doc, q, sourceAborted, s')
  {
    if doc in s.active {
      var r := s.active[doc];
      if s.runs[r].startKey == KeyOf(q) { ReuseJoins(s, doc, q, sourceAborted, false); }
      else if s.runs[r].backendStarted && CompatibleContinuation(s.runs[r].request, q) {
        ReuseJoins(s, doc, q, sourceAborted, true);
      } else {
        SupersedeStarts(s, doc, q, sourceAborted);
      }
    } else {
      StartStarts(s, doc, q, sourceAborted);
    }
  }

  lemma SupersedeStarts(s: State, doc: string, q: Request, sourceAborted: bool)
    requires doc in s.active && s.active[doc] in s.runs && s.active[doc] <= s.lastId
    ensures StartedRun(s, s.stats.requested, doc, q, sourceAborted,
                       Start(Abort(s, s.active[doc]), doc, q, sourceAborted))
  {
    StartStarts(Abort(s, s.active[doc]), doc, q, sourceAborted);
  }

  /** Counting the request and reading a cache for it changes no run. */
  lemma SameRuns(s: State, doc: string, q: Request)
    requires WithoutRun(s, doc, q).None? && (doc in s.active ==> s.active[doc] in s.runs)
    ensures var t := Requested(s, q);
            && t.stats == s.stats.(requested := s.stats.requested + 1) && t.runs == s.runs && t.active == s.active
            && t.lastId == s.lastId && t.consumers == s.consumers && t.delivered == s.delivered
            && t.lateHits == s.lateHits && t.now == s.now
    ensures forall sourceAborted ::
              OnComplete(s, doc, q, sourceAborted) == JoinOrStart(Requested(s, q), doc, q, sourceAborted)
  {
  }

  lemma ReuseJoins(s: State, doc: string, q: Request, sourceAborted: bool, continuation: bool)
    requires doc in s.active && s.active[doc] in s.runs && RunOk(s.runs[s.active[doc]])
    ensures JoinedRun(s, s.stats.requested, doc, q, sourceAborted, continuation,
                      Reuse(s, s.active[doc], q, sourceAborted, continuation))
  {
  }

  lemma StartStarts(s: State, doc: string, q: Request, sourceAborted: bool)
    requires doc in s.active ==> s.active[doc] in s.runs && s.runs[s.active[doc]].aborted && s.active[doc] <= s.lastId
    ensures StartedRun(s, s.stats.requested, doc, q, sourceAborted, Start(s, doc, q, sourceAborted))
  {
  }

  /** After `dispose` every request starts anew: no cache answers it and it joins no run. */
  lemma DisposedStartsAnew(s: State, doc: string, q: Request, sourceAborted: bool)
    requires Inv(s)
    ensures var d := OnDispose(s);
            && WithoutRun(d, doc, q).None? && doc !in d.active
            && StartedRun(d, d.stats.requested + 1, doc, q, sourceAborted, OnComplete(d, doc, q, sourceAborted))
  {
    DisposeInv(s);
    RequestJoinsExactlyWhen(OnDispose(s), doc, q, sourceAborted);
  }

  // ---- what a run returns

  /** The request that the engine is asked: with the repository context, if it came in time. */
  function WithRepository(q: Request, repository: Option<string>): Request {
    if q.hasTask && repository.Some? then q.(fingerprint := repository.value) else q
  }

  /** Run `r` is live and at the engine, which it has asked `q`; the documents, calls and clock are as before. */
  ghost predicate AtEngine(s: State, r: nat, q: Request, s': State)
    requires r in s.runs
  {
    && s'.active == s.active && s'.now == s.now && s'.consumers == s.consumers
    && s'.stats.backendRequests == s.stats.backendRequests + 1
    && r in s'.runs && Live(s'.runs[r]) && s'.runs[r].phase.AwaitingEngine?
    && s'.runs[r].doc == s.runs[r].doc && s'.runs[r].request == q
  }

  /** A live run that waits for its context takes it up: it goes to the engine with it exactly when the cache has no
      answer for the request as it then is, and returns that answer otherwise. */
  lemma ContextIsTakenUp(s: State, r: nat, repository: Option<string>)
    requires Inv(s) && r in s.runs && Live(s.runs[r]) && s.runs[r].phase.AwaitingContext?
    requires s.runs[r].request.hasTask
    ensures var s', q := OnContextSettled(s, r, repository), WithRepository(s.runs[r].request, repository);
            match Hit(s.cache, KeyOf(q), s.now)
            case None => AtEngine(s, r, q, s')
            case Some(slot) =>
              && s'.stats.backendRequests == s.stats.backendRequests
              && s'.runs[r].phase == Finished(Some(AsCached(slot.value.value)), false)
  {
  }

  lemma DebounceGoesOn(s: State, r: nat)
    requires Inv(s) && r in s.runs && Live(s.runs[r]) && s.runs[r].phase.Debouncing?
    ensures var s' := OnDebounceElapsed(s, r);
            if s.runs[r].request.hasTask then s' == s.(runs := s.runs[r := s.runs[r].(phase := AwaitingContext)])
            else AtEngine(s, r, s.runs[r].request, s')
  {
  }

  function BeforeEngine(q: Request, r: nat, repository: Option<string>): seq<Step> {
    if q.hasTask then [DebounceElapsed(r), ContextSettled(r, repository)] else [DebounceElapsed(r)]
  }

  /** A live run goes to the engine with its request and the context that came in time, unless the cache has an answer
      by then. */
  lemma UndisturbedRunAsksTheEngine(s: State, r: nat, repository: Option<string>)
    requires Inv(s) && r in s.runs && Live(s.runs[r]) && s.runs[r].phase.Debouncing?
    requires s.runs[r].request.hasTask ==>
               Hit(s.cache, KeyOf(WithRepository(s.runs[r].request, repository)), s.now).None?
    ensures var q := s.runs[r].request;
            var steps := BeforeEngine(q, r, repository);
            Legal(s, steps) && AtEngine(s, r, WithRepository(q, repository), Execute(s, steps))
  {
    var q, s1 := s.runs[r].request, OnDebounceElapsed(s, r);
    DebounceGoesOn(s, r);
    if q.hasTask {
      NextInv(s, DebounceElapsed(r));
      ContextIsTakenUp(s1, r, repository);
      Prepend(s1, ContextSettled(r, repository), []);
      Prepend(s, DebounceElapsed(r), [ContextSettled(r, repository)]);
    } else {
      Prepend(s, DebounceElapsed(r), []);
    }
  }

  /** What the engine answers a live run is what the run returns, and the document is free again. */
  lemma LiveRunReturnsTheAnswer(s: State, r: nat, outcome: Outcome, settings: Settings)
    requires Inv(s) && r in s.runs && Live(s.runs[r]) && s.runs[r].phase.AwaitingEngine?
    ensures var s' := OnEngineReturned(s, r, outcome, settings);
            && s'.runs[r].phase == Finished(if outcome.Returned? then outcome.value else None, false)
            && s'.active == s.active - {s.runs[r].doc}
            && (outcome.Threw? || !settings.cacheEnabled ==> s'.cache == s.cache && s'.quick == s.quick)
            && (outcome.Threw? || outcome.value.Some? ==> s'.negative == s.negative)
  {
    assert RunFits(s, r);
  }

  // ---- for how long an answer is reused

  /** A completion that a live run got is what the quick cache answers a request with the same text around the cursor,
      whose context is still being gathered: for two seconds, and no longer than the cache's time to live. */
  lemma QuickAnswersExactlyFor(s: State, r: nat, v: CompletionResult, settings: Settings, elapsed: nat,
                               doc: string, q: Request)
    requires Inv(s) && r in s.runs && Live(s.runs[r]) && s.runs[r].phase.AwaitingEngine? && settings.cacheEnabled
    requires q.hasTask && BaseKeyOf(q) == BaseKeyOf(s.runs[r].request)
    ensures var s' := Next(Next(s, EngineReturned(r, Returned(Some(v)), settings)), Tick(elapsed));
            WithoutRun(s', doc, q)
            == if elapsed <= settings.cacheTtlMs && elapsed <= 2000
               then Some(Shortcut(FromQuick, Some(v.(source := Cache)))) else None
  {
    assert RunFits(s, r);
  }

  /** The cache answers the same request with it exactly as long as the time to live. */
  lemma CacheAnswersExactlyFor(s: State, r: nat, v: CompletionResult, settings: Settings, elapsed: nat,
                               doc: string, q: Request)
    requires Inv(s) && r in s.runs && Live(s.runs[r]) && s.runs[r].phase.AwaitingEngine?
    requires settings.cacheEnabled && settings.cacheMaxEntries >= 1
    requires !q.hasTask && KeyOf(q) == KeyOf(s.runs[r].request)
    ensures var s' := Next(Next(s, EngineReturned(r, Returned(Some(v)), settings)), Tick(elapsed));
            WithoutRun(s', doc, q) == Some(Shortcut(FromCache, Some(v.(source := Cache))))
            <==> elapsed <= settings.cacheTtlMs
  {
    assert RunFits(s, r);
    var s' := OnEngineReturned(s, r, Returned(Some(v)), settings);
    var slot := Slot(KeyOf(q), EntryOf(s.runs[r].doc, s.runs[r].request, v), s.now + settings.cacheTtlMs);
    assert s'.cache == Evict(Put(s.cache, slot), settings.cacheMaxEntries);
    StoredIsFound(s.cache, slot, settings.cacheMaxEntries);
  }

  lemma StoredIsFound(c: seq<Slot>, slot: Slot, max: nat)
    requires max >= 1
    ensures var c' := Evict(Put(c, slot), max);
            c' != [] && c'[|c'| - 1] == slot && Lookup(c', slot.key) == Some(slot)
  {
    var c' := Evict(Put(c, slot), max);
    PutMembers(c, slot);
    EvictMembers(Put(c, slot), max);
    LookupMember(c', slot.key);
    assert c'[|c'| - 1] == slot;
  }

  /** A request from the same document that has typed on into the completion is answered with what is left of it, as
      long as the time to live, unless its own key has an answer. */
  lemma TypingOnIsAnswered(s: State, r: nat, v: CompletionResult, settings: Settings, elapsed: nat, q: Request,
                           typed: string, rest: string)
    requires Inv(s) && r in s.runs && Live(s.runs[r]) && s.runs[r].phase.AwaitingEngine?
    requires settings.cacheEnabled && settings.cacheMaxEntries >= 1 && elapsed <= settings.cacheTtlMs
    requires var base := s.runs[r].request;
             && !q.hasTask && q.prefix == base.prefix + typed
             && q.suffix == base.suffix && q.fingerprint == base.fingerprint
    requires typed != "" && v.text == typed + rest
    requires var s' := Next(Next(s, EngineReturned(r, Returned(Some(v)), settings)), Tick(elapsed));
             Hit(s'.cache, KeyOf(q), s'.now).None?
    ensures var s' := Next(Next(s, EngineReturned(r, Returned(Some(v)), settings)), Tick(elapsed));
            WithoutRun(s', s.runs[r].doc, q)
            == Some(Shortcut(FromRefine, Some(CompletionResult(rest, None, Cache))))
  {
    assert RunFits(s, r);
    var s' := Next(Next(s, EngineReturned(r, Returned(Some(v)), settings)), Tick(elapsed));
    var slot := Slot(s.runs[r].key, EntryOf(s.runs[r].doc, s.runs[r].request, v), s.now + settings.cacheTtlMs);
    assert s'.cache == Evict(Put(s.cache, slot), settings.cacheMaxEntries);
    StoredIsFound(s.cache, slot, settings.cacheMaxEntries);
    LastOffers(s', slot, s.runs[r].doc, q, typed, rest);
  }

  lemma LastOffers(s: State, slot: Slot, doc: string, q: Request, typed: string, rest: string)
    requires !q.hasTask && Hit(s.cache, KeyOf(q), s.now).None?
    requires s.cache != [] && s.cache[|s.cache| - 1] == slot && Lookup(s.cache, slot.key) == Some(slot)
    requires slot.expiresAt >= s.now && slot.value.documentKey == doc
    requires slot.value.suffix == q.suffix && slot.value.fingerprint == q.fingerprint
    requires typed != "" && q.prefix == slot.value.prefix + typed && slot.value.value.text == typed + rest
    ensures WithoutRun(s, doc, q) == Some(Shortcut(FromRefine, Some(CompletionResult(rest, None, Cache))))
  {
    LastStaysLast(s.cache, KeyOf(q));
    assert Typed(slot.value.prefix, q.prefix) == typed;
  }

  lemma {:induction false} LastStaysLast(c: seq<Slot>, k: Key)
    requires c != [] && c[|c| - 1].key != k
    ensures MapDelete(c, k) != [] && MapDelete(c, k)[|MapDelete(c, k)| - 1] == c[|c| - 1]
  {
    if |c| > 1 { LastStaysLast(c[1..], k); }
  }

  /** That the engine had nothing is remembered for two seconds, unless a cache answers. */
  lemma NothingIsRememberedExactlyFor(s: State, r: nat, settings: Settings, elapsed: nat, doc: string, q: Request)
    requires Inv(s) && r in s.runs && Live(s.runs[r]) && s.runs[r].phase.AwaitingEngine?
    requires !q.hasTask && KeyOf(q) == KeyOf(s.runs[r].request)
    requires WithoutRun(s.(now := s.now + elapsed, negative := map[]), doc, q).None?
    ensures var s' := Next(Next(s, EngineReturned(r, Returned(None), settings)), Tick(elapsed));
            WithoutRun(s', doc, q) == if elapsed < 2000 then Some(Shortcut(FromNegative, None)) else None
  {
    assert RunFits(s, r);
  }

  // ---- which requests are answered without a run

  /** The slot offers `text` to a request that has typed some more of what it holds. */
  ghost predicate Offers(slot: Slot, doc: string, q: Request, now: int, text: string) {
    && slot.expiresAt >= now && slot.value.documentKey == doc
    && slot.value.suffix == q.suffix && slot.value.fingerprint == q.fingerprint
    && exists typed :: typed != "" && q.prefix == slot.value.prefix + typed && slot.value.value.text == typed + text
  }

  lemma OffersExactlyWhen(slot: Slot, doc: string, q: Request, now: int, text: string)
    ensures Offers(slot, doc, q, now, text) <==> Refines(slot, doc, q, now) && Refined(slot, q).text == text
  {
    var typed := Typed(slot.value.prefix, q.prefix);
    if Refines(slot, doc, q, now) {
      assert q.prefix == slot.value.prefix + typed;
      assert slot.value.value.text == typed + Refined(slot, q).text;
    }
    if Offers(slot, doc, q, now, text) {
      var t :| t != "" && q.prefix == slot.value.prefix + t && slot.value.value.text == t + text;
      assert typed == t;
    }
  }

  /** `refine` answers with what the most recent slot offers, among those that offer anything. */
  lemma {:induction false} RefineIsNewestOffer(c: seq<Slot>, doc: string, q: Request, now: int) returns (i: int)
    ensures match Refine(c, doc, q, now)
            case None => forall k :: 0 <= k < |c| ==> OffersNothing(c[k], doc, q, now)
            case Some(out) =>
              out == CompletionResult(out.text, None, Cache)
              && 0 <= i < |c| && NewestOffer(c, i, doc, q, now, out.text)
  {
    i := |c| - 1;
    if c != [] {
      OffersSomethingExactlyWhen(c[i], doc, q, now);
      if Refines(c[i], doc, q, now) {
        OffersExactlyWhen(c[i], doc, q, now, Refined(c[i], q).text);
      } else {
        var before := c[..i];
        i := RefineIsNewestOffer(before, doc, q, now);
        assert c == before + [c[|before|]];
      }
    }
  }

  /** What slot `i` offers, when no later one offers anything. */
  ghost predicate NewestOffer(c: seq<Slot>, i: nat, doc: string, q: Request, now: int, text: string)
    requires i < |c|
  {
    Offers(c[i], doc, q, now, text) && forall j :: i < j < |c| ==> OffersNothing(c[j], doc, q, now)
  }

  ghost predicate OffersNothing(slot: Slot, doc: string, q: Request, now: int) {
    forall text :: !Offers(slot, doc, q, now, text)
  }

  lemma OffersSomethingExactlyWhen(slot: Slot, doc: string, q: Request, now: int)
    ensures OffersNothing(slot, doc, q, now) <==> !Refines(slot, doc, q, now)
  {
    if Refines(slot, doc, q, now) { OffersExactlyWhen(slot, doc, q, now, Refined(slot, q).text); }
    forall text | Offers(slot, doc, q, now, text) ensures Refines(slot, doc, q, now) {
      OffersExactlyWhen(slot, doc, q, now, text);
    }
  }

  ghost predicate Fresh(slot: Slot, k: Key, now: int) {
    slot.key == k && slot.expiresAt >= now
  }

  /** A request whose context is still being gathered is answered at once exactly by an unexpired quick entry; any other
      one by an unexpired entry of its key, else by an entry that offers a continuation, else by a remembered
      failure. */
  lemma AnsweredAtOnceExactlyWhen(s: State, doc: string, q: Request)
    requires Distinct(s.cache)
    ensures var out, key := WithoutRun(s, doc, q), KeyOf(q);
            var held := exists slot :: slot in s.cache && Fresh(slot, key, s.now);
            var offered := exists slot :: slot in s.cache && !OffersNothing(slot, doc, q, s.now);
            var failed := key in s.negative && s.negative[key] > s.now;
            && (out.Some? && out.value.origin.FromQuick?
                <==> q.hasTask && key.base in s.quick && s.quick[key.base].expiresAt >= s.now)
            && (out.Some? && out.value.origin.FromCache? <==> !q.hasTask && held)
            && (out.Some? && out.value.origin.FromRefine? <==> !q.hasTask && !held && offered)
            && (out.Some? && out.value.origin.FromNegative? <==> !q.hasTask && !held && !offered && failed)
            && (out.Some? ==> !out.value.origin.FromRun?)
  {
    var key := KeyOf(q);
    LookupMember(s.cache, key);
    if slot :| slot in s.cache && Fresh(slot, key, s.now) { LookupUnique(s.cache, slot); }
    var c := AfterRead(s.cache, key, s.now);
    ReadMembers(s.cache, key, s.now);
    var _ := RefineIsNewestOffer(c, doc, q, s.now);
    forall slot | slot in s.cache && !OffersNothing(slot, doc, q, s.now) ensures slot in c { }
  }
}
