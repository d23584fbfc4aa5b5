/** The request manager uses its cache only through stores, reads and clears, so everything proved about
    cache histories holds of every run of the manager (src/completion/requestManager.ts:24, 42, 82, 92, 108-110). */
module ManagerCache {
  import opened Wrappers
  import opened Requests
  import opened LruCache
  import opened ManagerState
  import opened ManagerInvariants
  import opened ManagerProtocol

  /** What a step does to the cache. */
  function CacheOps(s: State, step: Step): seq<Op>
    requires Enabled(s, step)
  {
    match step
    case Complete(_, q, _) => if q.hasTask then [] else [Read(KeyOf(q), s.now)]
    case ContextSettled(r, repository) => [Read(WithContext(s.runs[r], repository).key, s.now)]
    case EngineReturned(r, outcome, settings) =>
      if outcome.Returned? && outcome.value.Some? && settings.cacheEnabled && !s.runs[r].aborted && IsCurrent(s, r) then
        var run := s.runs[r];
        [Store(Slot(run.key, EntryOf(run.doc, run.request, outcome.value.value), s.now + settings.cacheTtlMs),
               settings.cacheMaxEntries)]
      else []
    case ClearCache => [Clear]
    case Dispose => [Clear]
    case _ => []
  }

  function History(s: State, steps: seq<Step>): seq<Op>
    requires Legal(s, steps)
    decreases |steps|
  {
    if steps == [] then [] else CacheOps(s, steps[0]) + History(Next(s, steps[0]), steps[1..])
  }

  ghost predicate Applies(c: seq<Slot>, ops: seq<Op>, c': seq<Slot>) {
    |ops| <= 1 && c' == if ops == [] then c else Apply(c, ops[0])
  }

  lemma CompleteAppliesOps(s: State, doc: string, q: Request, sourceAborted: bool)
    requires Inv(s) && (doc in s.active ==> s.active[doc] in s.runs)
    ensures Applies(s.cache, if q.hasTask then [] else [Read(KeyOf(q), s.now)],
                    OnComplete(s, doc, q, sourceAborted).cache)
  {
    if doc in s.active { assert ActiveFits(s, doc) && RunFits(s, s.active[doc]); }
    JoinOrStartEffect(Requested(s, q), doc, q, sourceAborted);
  }

  lemma ContextAppliesOps(s: State, r: nat, repository: Option<string>)
    requires r in s.runs
    ensures Applies(s.cache, [Read(WithContext(s.runs[r], repository).key, s.now)],
                    OnContextSettled(s, r, repository).cache)
  {
  }

  lemma EngineAppliesOps(s: State, r: nat, outcome: Outcome, settings: Settings)
    requires Enabled(s, EngineReturned(r, outcome, settings))
    ensures Applies(s.cache, CacheOps(s, EngineReturned(r, outcome, settings)),
                    OnEngineReturned(s, r, outcome, settings).cache)
  {
  }

  lemma StepAppliesOps(s: State, step: Step)
    requires Inv(s) && Enabled(s, step)
    ensures Applies(s.cache, CacheOps(s, step), Next(s, step).cache)
  {
    match step
    case Complete(doc, q, sourceAborted) => CompleteAppliesOps(s, doc, q, sourceAborted);
    case ContextSettled(r, repository) => ContextAppliesOps(s, r, repository);
    case EngineReturned(r, outcome, settings) => EngineAppliesOps(s, r, outcome, settings);
    case DebounceElapsed(r) => assert OnDebounceElapsed(s, r).cache == s.cache;
    case _ => OtherStepsApplyOps(s, step);
  }

  lemma OtherStepsApplyOps(s: State, step: Step)
    requires Enabled(s, step)
    requires !step.Complete? && !step.ContextSettled? && !step.EngineReturned? && !step.DebounceElapsed?
    ensures Applies(s.cache, CacheOps(s, step), Next(s, step).cache)
  {
  }

  lemma AfterAppend(past: seq<Op>, ops: seq<Op>)
    requires |ops| <= 1
    ensures Applies(After(past), ops, After(past + ops))
  {
    if ops == [] {
      assert past + ops == past;
    } else {
      assert (past + ops)[..|past + ops| - 1] == past;
    }
  }

  /** The first step of a run, its effect on the cache and the rest of the run. */
  lemma FirstStep(s: State, steps: seq<Step>) returns (s': State, ops: seq<Op>)
    requires Inv(s) && Legal(s, steps) && steps != []
    ensures Inv(s') && Legal(s', steps[1..]) && Applies(s.cache, ops, s'.cache)
    ensures Execute(s, steps) == Execute(s', steps[1..]) && History(s, steps) == ops + History(s', steps[1..])
  {
    s', ops := Next(s, steps[0]), CacheOps(s, steps[0]);
    StepAppliesOps(s, steps[0]);
    NextInv(s, steps[0]);
  }

  lemma {:induction false} CacheFollows(s: State, steps: seq<Step>, past: seq<Op>)
    requires Inv(s) && Legal(s, steps) && s.cache == After(past)
    ensures Execute(s, steps).cache == After(past + History(s, steps))
    decreases |steps|, 0
  {
    if steps == [] {
      assert past + [] == past;
    } else {
      var s', ops := FirstStep(s, steps);
      AfterAppend(past, ops);
      RestFollows(s', steps[1..], past, ops);
    }
  }

  lemma Regrouped(a: seq<Op>, b: seq<Op>, c: seq<Op>)
    ensures a + b + c == a + (b + c)
  {
  }

  lemma {:induction false} RestFollows(s: State, steps: seq<Step>, past: seq<Op>, ops: seq<Op>)
    requires Inv(s) && Legal(s, steps) && s.cache == After(past + ops)
    ensures Execute(s, steps).cache == After(past + (ops + History(s, steps)))
    decreases |steps|, 1
  {
    CacheFollows(s, steps, past + ops);
    Regrouped(past, ops, History(s, steps));
  }

  /** After every run of the manager the cache is the outcome of the run's history of stores, reads and clears:
      its slots are ordered by last touch, and a hit is the value last stored under the key. */
  lemma CacheIsItsHistory(now: int, steps: seq<Step>)
    requires Legal(Initial(now), steps)
    ensures var s, ops := Execute(Initial(now), steps), History(Initial(now), steps);
            && s.cache == After(ops) && ByRecency(s.cache, ops) && Distinct(s.cache)
            && forall k {:trigger LastStored(ops, k)} ::
                 Hit(s.cache, k, s.now).Some? ==> LastStored(ops, k) == Hit(s.cache, k, s.now)
  {
    InitialInv(now);
    var s, ops := Execute(Initial(now), steps), History(Initial(now), steps);
    CacheFollows(Initial(now), steps, []);
    assert [] + ops == ops;
    OrderedByRecency(ops);
    forall k | Hit(s.cache, k, s.now).Some? ensures LastStored(ops, k) == Hit(s.cache, k, s.now) {
      HitIsLastStored(ops, k, s.now);
    }
  }

  /** No engine return of the run finds a configured bound above `max`. */
  ghost predicate ConfiguredBound(steps: seq<Step>, max: nat) {
    forall i :: 0 <= i < |steps| && steps[i].EngineReturned? ==> steps[i].settings.cacheMaxEntries <= max
  }

  lemma {:induction false} HistoryBounded(s: State, steps: seq<Step>, max: nat)
    requires Legal(s, steps) && ConfiguredBound(steps, max)
    ensures BoundedBy(History(s, steps), max)
    decreases |steps|
  {
    if steps != [] { HistoryBounded(Next(s, steps[0]), steps[1..], max); }
  }

  /** In every run the manager's cache stays within the largest bound configured. */
  lemma CacheStaysBounded(now: int, steps: seq<Step>, max: nat)
    requires Legal(Initial(now), steps) && ConfiguredBound(steps, max)
    ensures |Execute(Initial(now), steps).cache| <= max
  {
    CacheIsItsHistory(now, steps);
    HistoryBounded(Initial(now), steps, max);
    AlwaysBounded(History(Initial(now), steps), max);
  }
}
