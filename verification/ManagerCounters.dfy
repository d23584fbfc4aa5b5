/** The request manager's statistics balance: every counter is the number of runs or requests it claims to
    count, in every reachable state (src/completion/requestManager.ts:17, 21-40, 48-50, 71-104). */
module ManagerCounters {
  import opened Wrappers
  import opened Requests
  import opened LruCache
  import opened ManagerState
  import opened ManagerInvariants

  datatype Kind = LateHit | BackendStarted | Succeeded | CountedCancelled

  predicate Is(run: Run, kind: Kind) {
    match kind
    case LateHit => !run.backendStarted && run.phase.Finished? && run.phase.value.Some?
    case BackendStarted => run.backendStarted
    case Succeeded => run.backendStarted && run.phase.Finished? && run.phase.value.Some?
    case CountedCancelled => run.phase.Finished? && run.phase.cancelled
  }

  function Bit(b: bool): nat {
    if b then 1 else 0
  }

  /** How many of the runs 1..n are of a kind. */
  function Count(runs: map<nat, Run>, n: nat, kind: Kind): nat {
    if n == 0 then 0
    else Count(runs, n - 1, kind) + Bit(n in runs && Is(runs[n], kind))
  }

  ghost predicate Counted(stats: Stats, lateHits: nat, runs: map<nat, Run>, n: nat) {
    && lateHits == Count(runs, n, LateHit)
    && stats.backendRequests == Count(runs, n, BackendStarted)
    && stats.succeeded == Count(runs, n, Succeeded)
    && stats.cancelled == Count(runs, n, CountedCancelled)
  }

  /** No run is both succeeded and cancelled. */
  ghost predicate Honest(run: Run) {
    !(Is(run, Succeeded) && Is(run, CountedCancelled))
  }

  ghost predicate AllHonest(runs: map<nat, Run>) {
    forall r :: r in runs ==> Honest(runs[r])
  }

  /** Every request is answered from a cache, joins a run or starts one; a late hit is one cache hit more. */
  ghost predicate Balanced(s: State) {
    && s.stats.requested + s.lateHits
       == s.stats.cacheHits + s.stats.negativeCacheHits + s.stats.deduplicated + s.lastId
    && Counted(s.stats, s.lateHits, s.runs, s.lastId)
    && AllHonest(s.runs)
  }

  // ---- counting under a change of runs

  ghost predicate SameProgress(runs: map<nat, Run>, runs': map<nat, Run>, n: nat) {
    forall r :: 1 <= r <= n ==>
      (r in runs <==> r in runs')
      && (r in runs ==> runs'[r].phase == runs[r].phase && runs'[r].backendStarted == runs[r].backendStarted)
  }

  lemma {:induction false} SameProgressSameCount(runs: map<nat, Run>, runs': map<nat, Run>, n: nat, kind: Kind)
    requires SameProgress(runs, runs', n)
    ensures Count(runs', n, kind) == Count(runs, n, kind)
  {
    if n > 0 { SameProgressSameCount(runs, runs', n - 1, kind); }
  }

  lemma {:induction false} OneRunCount(runs: map<nat, Run>, r: nat, run: Run, n: nat, kind: Kind)
    requires 1 <= r && r in runs
    ensures Count(runs[r := run], n, kind) + Bit(r <= n && Is(runs[r], kind))
            == Count(runs, n, kind) + Bit(r <= n && Is(run, kind))
  {
    if n > 0 { OneRunCount(runs, r, run, n - 1, kind); }
  }

  lemma SameCounts(runs: map<nat, Run>, runs': map<nat, Run>, n: nat)
    requires SameProgress(runs, runs', n)
    ensures forall kind :: Count(runs', n, kind) == Count(runs, n, kind)
  {
    forall kind ensures Count(runs', n, kind) == Count(runs, n, kind) {
      SameProgressSameCount(runs, runs', n, kind);
    }
  }

  lemma OneRunCounts(runs: map<nat, Run>, r: nat, run: Run, n: nat)
    requires 1 <= r <= n && r in runs
    ensures forall kind ::
              Count(runs[r := run], n, kind) + Bit(Is(runs[r], kind)) == Count(runs, n, kind) + Bit(Is(run, kind))
  {
    forall kind ensures
      Count(runs[r := run], n, kind) + Bit(Is(runs[r], kind)) == Count(runs, n, kind) + Bit(Is(run, kind))
    {
      OneRunCount(runs, r, run, n, kind);
    }
  }

  /** Steps that neither finish a run nor start its backend. */
  lemma QuietProgressBalanced(s: State, s': State)
    requires Inv(s) && Balanced(s) && s'.runs.Keys == s.runs.Keys && s'.lastId == s.lastId
    requires SameProgress(s.runs, s'.runs, s.lastId)
    requires s'.lateHits == s.lateHits && s'.stats.cancelled == s.stats.cancelled
    requires s'.stats.succeeded == s.stats.succeeded && s'.stats.backendRequests == s.stats.backendRequests
    requires s'.stats.requested + s'.lateHits
             == s'.stats.cacheHits + s'.stats.negativeCacheHits + s'.stats.deduplicated + s'.lastId
    ensures Balanced(s')
  {
    SameCounts(s.runs, s'.runs, s.lastId);
  }

  lemma FinishCounts(s: State, r: nat, value: Option<CompletionResult>)
    requires Inv(s) && r in s.runs && !s.runs[r].phase.Finished?
    requires value.Some? ==> !s.runs[r].backendStarted || !s.runs[r].aborted
    requires AllHonest(s.runs)
    requires var won := if value.Some? then 1 else 0;
             && s.lateHits == Count(s.runs, s.lastId, LateHit) + (if s.runs[r].backendStarted then 0 else won)
             && s.stats.backendRequests == Count(s.runs, s.lastId, BackendStarted)
             && s.stats.succeeded == Count(s.runs, s.lastId, Succeeded) + (if s.runs[r].backendStarted then won else 0)
             && s.stats.cancelled == Count(s.runs, s.lastId, CountedCancelled)
    requires s.stats.requested + s.lateHits
             == s.stats.cacheHits + s.stats.negativeCacheHits + s.stats.deduplicated + s.lastId
    ensures Balanced(Finish(s, r, value))
  {
    var s' := Finish(s, r, value);
    OneRunCounts(s.runs, r, s'.runs[r], s.lastId);
  }

  lemma StartBackendBalanced(s: State, r: nat)
    requires Inv(s) && Balanced(s) && r in s.runs && !s.runs[r].backendStarted && !s.runs[r].phase.Finished?
    ensures Balanced(StartBackend(s, r))
  {
    var s' := StartBackend(s, r);
    OneRunCounts(s.runs, r, s'.runs[r], s.lastId);
  }

  lemma DebounceBalanced(s: State, r: nat)
    requires Inv(s) && Balanced(s) && r in s.runs && s.runs[r].phase.Debouncing?
    ensures Balanced(OnDebounceElapsed(s, r))
  {
    assert RunFits(s, r);
    var s' := OnDebounceElapsed(s, r);
    if s.runs[r].aborted {
      FinishCounts(s, r, None);
    } else if s.runs[r].request.hasTask {
      OneRunCounts(s.runs, r, s'.runs[r], s.lastId);
    } else {
      StartBackendBalanced(s, r);
    }
  }

  lemma ContextBalanced(s: State, r: nat, repository: Option<string>)
    requires Inv(s) && Balanced(s) && r in s.runs && s.runs[r].phase.AwaitingContext?
    ensures Balanced(OnContextSettled(s, r, repository))
  {
    var run := WithContext(s.runs[r], repository);
    var t := s.(runs := s.runs[r := run], cache := AfterRead(s.cache, run.key, s.now));
    assert RunFits(s, r);
    OneRunChanges(s, t, r);
    QuietProgressBalanced(s, t);
    match Hit(s.cache, run.key, s.now)
    case Some(slot) =>
      var u := t.(stats := t.stats.(cacheHits := t.stats.cacheHits + 1), lateHits := t.lateHits + 1);
      SameProtocolState(t, u);
      FinishCounts(u, r, Some(AsCached(slot.value.value)));
    case None => StartBackendBalanced(t, r);
  }

  lemma EngineBalanced(s: State, r: nat, outcome: Outcome, settings: Settings)
    requires Inv(s) && Balanced(s) && r in s.runs && s.runs[r].phase.AwaitingEngine?
    ensures Balanced(OnEngineReturned(s, r, outcome, settings))
  {
    assert RunFits(s, r);
    match outcome
    case Threw => FinishCounts(s, r, None);
    case Returned(value) =>
      var run := s.runs[r];
      var t := if value.Some? then s.(answers := s.answers + [Answer(run.doc, run.request, value.value)]) else s;
      SameProtocolState(s, t);
      if run.aborted || !IsCurrent(s, r) {
        FinishCounts(t, r, None);
      } else {
        var u := Record(t, r, value, settings);
        SameProtocolState(t, u);
        FinishCounts(u, r, value);
      }
  }

  lemma StartBalanced(s: State, doc: string, q: Request, sourceAborted: bool)
    requires Inv(s) && s.stats.requested + s.lateHits
                       == s.stats.cacheHits + s.stats.negativeCacheHits + s.stats.deduplicated + s.lastId + 1
    requires Counted(s.stats, s.lateHits, s.runs, s.lastId)
    requires AllHonest(s.runs)
    ensures Balanced(Start(s, doc, q, sourceAborted))
  {
    var s' := Start(s, doc, q, sourceAborted);
    SameCounts(s.runs, s'.runs, s.lastId);
  }

  lemma CompleteBalanced(s: State, doc: string, q: Request, sourceAborted: bool)
    requires Inv(s) && Balanced(s) && (doc in s.active ==> s.active[doc] in s.runs)
    ensures Balanced(OnComplete(s, doc, q, sourceAborted))
  {
    var t, s' := Requested(s, q), OnComplete(s, doc, q, sourceAborted);
    SameProtocolState(s, t);
    match WithoutRun(s, doc, q)
    case Some(out) =>
      ShortcutCounts(s, doc, q, sourceAborted);
      QuietProgressBalanced(s, s');
    case None =>
      assert s' == JoinOrStart(t, doc, q, sourceAborted);
      if doc in s.active {
        JoinOrSupersedeBalanced(t, doc, q, sourceAborted);
      } else {
        StartBalanced(t, doc, q, sourceAborted);
      }
  }

  /** A request answered without a run counts as one cache hit of either kind. */
  lemma ShortcutCounts(s: State, doc: string, q: Request, sourceAborted: bool)
    requires WithoutRun(s, doc, q).Some? && (doc in s.active ==> s.active[doc] in s.runs)
    ensures var s' := OnComplete(s, doc, q, sourceAborted);
            && s'.runs == s.runs && s'.lastId == s.lastId && s'.lateHits == s.lateHits
            && s'.stats.requested == s.stats.requested + 1
            && s'.stats.cacheHits + s'.stats.negativeCacheHits == s.stats.cacheHits + s.stats.negativeCacheHits + 1
            && s'.stats == s.stats.(requested := s'.stats.requested, cacheHits := s'.stats.cacheHits,
                                    negativeCacheHits := s'.stats.negativeCacheHits)
  {
  }

  lemma ReuseBalanced(s: State, r: nat, q: Request, sourceAborted: bool, continuation: bool)
    requires r in s.runs
    requires s.stats.requested + s.lateHits
             == s.stats.cacheHits + s.stats.negativeCacheHits + s.stats.deduplicated + s.lastId + 1
    requires Counted(s.stats, s.lateHits, s.runs, s.lastId) && AllHonest(s.runs)
    ensures Balanced(Reuse(s, r, q, sourceAborted, continuation))
  {
    var s' := Reuse(s, r, q, sourceAborted, continuation);
    SameCounts(s.runs, s'.runs, s.lastId);
  }

  lemma JoinOrSupersedeBalanced(s: State, doc: string, q: Request, sourceAborted: bool)
    requires Inv(s) && doc in s.active && s.active[doc] in s.runs
    requires s.stats.requested + s.lateHits
             == s.stats.cacheHits + s.stats.negativeCacheHits + s.stats.deduplicated + s.lastId + 1
    requires Counted(s.stats, s.lateHits, s.runs, s.lastId) && AllHonest(s.runs)
    ensures Balanced(JoinOrStart(s, doc, q, sourceAborted))
  {
    var r := s.active[doc];
    if Joins(s.runs[r], q) {
      ReuseBalanced(s, r, q, sourceAborted, s.runs[r].startKey != KeyOf(q));
    } else {
      var u := Abort(s, r);
      AbortInv(s, r);
      SameCounts(s.runs, u.runs, s.lastId);
      StartBalanced(u, doc, q, sourceAborted);
    }
  }

  lemma NextBalanced(s: State, step: Step)
    requires Inv(s) && Balanced(s) && Enabled(s, step)
    ensures Balanced(Next(s, step))
  {
    match step
    case Complete(doc, q, sourceAborted) => CompleteBalanced(s, doc, q, sourceAborted);
    case DebounceElapsed(r) => DebounceBalanced(s, r);
    case ContextSettled(r, repository) => ContextBalanced(s, r, repository);
    case EngineReturned(r, outcome, settings) => EngineBalanced(s, r, outcome, settings);
    case _ => QuietStepBalanced(s, step);
  }

  lemma QuietStepBalanced(s: State, step: Step)
    requires Inv(s) && Balanced(s) && Enabled(s, step)
    requires !step.Complete? && !step.DebounceElapsed? && !step.ContextSettled? && !step.EngineReturned?
    ensures Balanced(Next(s, step))
  {
    var s' := Next(s, step);
    assert s'.stats == s.stats && s'.lateHits == s.lateHits && s'.lastId == s.lastId;
    assert s'.runs.Keys == s.runs.Keys;
    QuietProgressBalanced(s, s');
  }

  lemma {:induction false} RunsKeepBalance(s: State, steps: seq<Step>)
    requires Inv(s) && Balanced(s) && Legal(s, steps)
    ensures Balanced(Execute(s, steps))
    decreases |steps|
  {
    if steps != [] {
      NextInv(s, steps[0]);
      NextBalanced(s, steps[0]);
      RunsKeepBalance(Next(s, steps[0]), steps[1..]);
    }
  }

  lemma {:induction false} KindsExclude(runs: map<nat, Run>, n: nat)
    requires AllHonest(runs)
    ensures Count(runs, n, LateHit) + Count(runs, n, BackendStarted) <= n
    ensures Count(runs, n, Succeeded) <= Count(runs, n, BackendStarted)
    ensures Count(runs, n, Succeeded) + Count(runs, n, CountedCancelled) <= n
  {
    if n > 0 { KindsExclude(runs, n - 1); }
  }

  /** After every run of the manager the statistics balance. */
  lemma CountersBalance(now: int, steps: seq<Step>)
    requires Legal(Initial(now), steps)
    ensures var s := Execute(Initial(now), steps);
            && s.stats.requested + s.lateHits
               == s.stats.cacheHits + s.stats.negativeCacheHits + s.stats.deduplicated + s.lastId
            && s.lateHits + s.stats.backendRequests <= s.lastId
            && s.stats.succeeded <= s.stats.backendRequests
            && s.stats.succeeded + s.stats.cancelled <= s.lastId
            && s.stats.succeeded == Count(s.runs, s.lastId, Succeeded)
            && s.stats.cancelled == Count(s.runs, s.lastId, CountedCancelled)
  {
    InitialInv(now);
    RunsKeepInv(Initial(now), steps);
    RunsKeepBalance(Initial(now), steps);
    var s := Execute(Initial(now), steps);
    KindsExclude(s.runs, s.lastId);
  }
}
