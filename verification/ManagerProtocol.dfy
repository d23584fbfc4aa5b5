/** Safety of the request manager's protocol, step by step and over whole runs: one live run per document,
    who may write the caches, who may abort a run, and what `dispose` leaves behind. */
module ManagerProtocol {
  import opened Wrappers
  import opened Requests
  import opened LruCache
  import opened ManagerState
  import opened ManagerInvariants

  // ---- one live run per document

  /** In every reachable state a document has at most one live run; `active` holds it and no run of that
      document is newer. */
  lemma OneLiveRunPerDocument(now: int, steps: seq<Step>, r: nat)
    requires Legal(Initial(now), steps)
    requires r in Execute(Initial(now), steps).runs && Live(Execute(Initial(now), steps).runs[r])
    ensures var s := Execute(Initial(now), steps);
            && IsCurrent(s, r)
            && forall k :: k in s.runs && s.runs[k].doc == s.runs[r].doc ==>
                 k <= r && (Live(s.runs[k]) ==> k == r)
  {
    InitialInv(now);
    RunsKeepInv(Initial(now), steps);
    var s := Execute(Initial(now), steps);
    assert RunFits(s, r);
    forall k | k in s.runs && s.runs[k].doc == s.runs[r].doc
      ensures k <= r && (Live(s.runs[k]) ==> k == r)
    {
      assert RunFits(s, k);
    }
  }

  // ---- who writes the caches

  ghost predicate Inserts(s: State, s': State) {
    || (exists slot :: slot in s'.cache && slot !in s.cache)
    || (exists k :: k in s'.quick && (k !in s.quick || s.quick[k] != s'.quick[k]))
    || (exists k :: k in s'.negative && (k !in s.negative || s.negative[k] != s'.negative[k]))
  }

  /** A read adds nothing to the cache. */
  lemma ReadInsertsNothing(c: seq<Slot>, k: Key, now: int)
    ensures forall slot :: slot in AfterRead(c, k, now) ==> slot in c
  {
    LookupMember(c, k);
    DeleteMembers(c, k);
    if Hit(c, k, now).Some? { PutMembers(c, Hit(c, k, now).value); }
  }

  /** What a joining or starting request changes among the runs, and that it leaves the caches alone. */
  lemma JoinOrStartEffect(s: State, doc: string, q: Request, sourceAborted: bool)
    requires doc in s.active ==> s.active[doc] in s.runs && s.active[doc] <= s.lastId
    ensures var s' := JoinOrStart(s, doc, q, sourceAborted);
            && s'.cache == s.cache && s'.quick == s.quick && s'.negative == s.negative
            && (forall k :: k in s.runs && k <= s.lastId && (doc in s.active ==> k != s.active[doc]) ==>
                  k in s'.runs && s'.runs[k] == s.runs[k])
            && if doc in s.active && Joins(s.runs[s.active[doc]], q) then
                 var r := s.active[doc];
                 && s'.active == s.active && s'.lastId == s.lastId && r in s'.runs
                 && s'.runs[r] == Joined(s.runs[r], s.runs[r].consumer + 1, s.stats.requested, sourceAborted, s.now)
               else
                 && s'.active == s.active[doc := s.lastId + 1] && s'.lastId == s.lastId + 1
                 && (doc in s.active ==>
                       s.active[doc] in s'.runs && s'.runs[s.active[doc]] == Aborted(s.runs[s.active[doc]]))
  {
    if doc in s.active {
      var r := s.active[doc];
      if Joins(s.runs[r], q) {
        ReuseEffect(s, r, q, sourceAborted, s.runs[r].startKey != KeyOf(q));
      } else {
        var t := Abort(s, r);
        assert t.runs[r] == Aborted(s.runs[r]);
        assert JoinOrStart(s, doc, q, sourceAborted) == Start(t, doc, q, sourceAborted);
        StartEffect(t, doc, q, sourceAborted);
      }
    } else {
      StartEffect(s, doc, q, sourceAborted);
    }
  }

  lemma ReuseEffect(s: State, r: nat, q: Request, sourceAborted: bool, continuation: bool)
    requires r in s.runs
    ensures var s' := Reuse(s, r, q, sourceAborted, continuation);
            && s'.cache == s.cache && s'.quick == s.quick && s'.negative == s.negative
            && s'.active == s.active && s'.lastId == s.lastId
            && s'.runs
               == s.runs[r := Joined(s.runs[r], s.runs[r].consumer + 1, s.stats.requested, sourceAborted, s.now)]
  {
  }

  lemma StartEffect(s: State, doc: string, q: Request, sourceAborted: bool)
    ensures var s' := Start(s, doc, q, sourceAborted);
            && s'.cache == s.cache && s'.quick == s.quick && s'.negative == s.negative
            && s'.active == s.active[doc := s.lastId + 1] && s'.lastId == s.lastId + 1
            && (forall k :: k in s.runs && k <= s.lastId ==> k in s'.runs && s'.runs[k] == s.runs[k])
  {
  }

  /** What a request changes among the runs: nothing when it is answered without one; otherwise it joins the run
      that `active` holds for the document, or aborts it and starts a newer one. */
  ghost predicate CompleteEffect(s: State, doc: string, q: Request, sourceAborted: bool, s': State)
    requires doc in s.active ==> s.active[doc] in s.runs
  {
    && (forall k :: k in s.runs && k <= s.lastId && (doc in s.active ==> k != s.active[doc]) ==>
          k in s'.runs && s'.runs[k] == s.runs[k])
    && if WithoutRun(s, doc, q).Some? then s'.runs == s.runs && s'.active == s.active && s'.lastId == s.lastId
       else if doc in s.active && Joins(s.runs[s.active[doc]], q) then JoinedActive(s, doc, sourceAborted, s')
       else StartedNewer(s, doc, s')
  }

  ghost predicate JoinedActive(s: State, doc: string, sourceAborted: bool, s': State)
    requires doc in s.active && s.active[doc] in s.runs
  {
    var r := s.active[doc];
    && s'.active == s.active && s'.lastId == s.lastId && r in s'.runs
    && s'.runs[r] == Joined(s.runs[r], s.runs[r].consumer + 1, s.stats.requested + 1, sourceAborted, s.now)
  }

  ghost predicate StartedNewer(s: State, doc: string, s': State)
    requires doc in s.active ==> s.active[doc] in s.runs
  {
    && s'.active == s.active[doc := s.lastId + 1] && s'.lastId == s.lastId + 1
    && (doc in s.active ==> s.active[doc] in s'.runs && s'.runs[s.active[doc]] == Aborted(s.runs[s.active[doc]]))
  }

  lemma CompleteChanges(s: State, doc: string, q: Request, sourceAborted: bool)
    requires doc in s.active ==> s.active[doc] in s.runs && s.active[doc] <= s.lastId
    ensures CompleteEffect(s, doc, q, sourceAborted, OnComplete(s, doc, q, sourceAborted))
  {
    if WithoutRun(s, doc, q).None? {
      var t := Requested(s, q);
      assert t.runs == s.runs && t.active == s.active && t.lastId == s.lastId && t.now == s.now;
      JoinOrStartEffect(t, doc, q, sourceAborted);
      assert OnComplete(s, doc, q, sourceAborted) == JoinOrStart(t, doc, q, sourceAborted);
    } else {
      assert OnComplete(s, doc, q, sourceAborted).runs == s.runs;
    }
  }

  lemma CompleteInsertsNothing(s: State, doc: string, q: Request, sourceAborted: bool)
    requires doc in s.active ==> s.active[doc] in s.runs && s.active[doc] <= s.lastId
    ensures !Inserts(s, OnComplete(s, doc, q, sourceAborted))
  {
    RequestInsertsNothing(s, q);
    CompleteKeepsCaches(s, doc, q, sourceAborted);
    SameCaches(s, Requested(s, q), OnComplete(s, doc, q, sourceAborted));
  }

  lemma RequestInsertsNothing(s: State, q: Request)
    ensures !Inserts(s, Requested(s, q))
  {
    ReadInsertsNothing(s.cache, KeyOf(q), s.now);
  }

  lemma CompleteKeepsCaches(s: State, doc: string, q: Request, sourceAborted: bool)
    requires doc in s.active ==> s.active[doc] in s.runs && s.active[doc] <= s.lastId
    ensures var t, s' := Requested(s, q), OnComplete(s, doc, q, sourceAborted);
            s'.cache == t.cache && s'.quick == t.quick && s'.negative == t.negative
  {
    if WithoutRun(s, doc, q).None? { JoinOrStartEffect(Requested(s, q), doc, q, sourceAborted); }
  }

  lemma SameCaches(s: State, t: State, s': State)
    requires !Inserts(s, t) && s'.cache == t.cache && s'.quick == t.quick && s'.negative == t.negative
    ensures !Inserts(s, s')
  {
  }

  lemma ContextInsertsNothing(s: State, r: nat, repository: Option<string>)
    requires r in s.runs
    ensures !Inserts(s, OnContextSettled(s, r, repository))
  {
    ReadInsertsNothing(s.cache, WithContext(s.runs[r], repository).key, s.now);
  }

  lemma IdleEngineInsertsNothing(s: State, r: nat, outcome: Outcome, settings: Settings)
    requires r in s.runs && (outcome.Threw? || s.runs[r].aborted || !IsCurrent(s, r))
    ensures !Inserts(s, OnEngineReturned(s, r, outcome, settings))
  {
  }

  lemma DebounceInsertsNothing(s: State, r: nat)
    requires r in s.runs
    ensures !Inserts(s, OnDebounceElapsed(s, r))
  {
  }

  lemma OtherStepsInsertNothing(s: State, step: Step)
    requires Enabled(s, step)
    requires !step.Complete? && !step.DebounceElapsed? && !step.ContextSettled? && !step.EngineReturned?
    ensures !Inserts(s, Next(s, step))
  {
    var s' := Next(s, step);
    assert s'.cache == s.cache || s'.cache == [];
    assert s'.quick == s.quick || s'.quick == map[];
    assert s'.negative == s.negative || s'.negative == map[];
  }

  /** Only the live run of a document, which is its newest one, inserts into the caches. */
  lemma OnlyNewestRunInserts(s: State, step: Step)
    requires Inv(s) && Enabled(s, step) && Inserts(s, Next(s, step))
    ensures step.EngineReturned? && step.outcome.Returned? && Live(s.runs[step.run]) && IsCurrent(s, step.run)
    ensures forall k :: k in s.runs && s.runs[k].doc == s.runs[step.run].doc ==> k <= step.run
  {
    match step
    case Complete(doc, q, sourceAborted) =>
      if doc in s.active { assert ActiveFits(s, doc); }
      CompleteInsertsNothing(s, doc, q, sourceAborted);
    case ContextSettled(r, repository) => ContextInsertsNothing(s, r, repository);
    case DebounceElapsed(r) => DebounceInsertsNothing(s, r);
    case EngineReturned(r, outcome, settings) => EngineInserts(s, r, outcome, settings);
    case _ => OtherStepsInsertNothing(s, step);
  }

  lemma EngineInserts(s: State, r: nat, outcome: Outcome, settings: Settings)
    requires Inv(s) && r in s.runs && s.runs[r].phase.AwaitingEngine?
    requires Inserts(s, OnEngineReturned(s, r, outcome, settings))
    ensures outcome.Returned? && Live(s.runs[r]) && IsCurrent(s, r)
    ensures forall k :: k in s.runs && s.runs[k].doc == s.runs[r].doc ==> k <= r
  {
    if outcome.Threw? || s.runs[r].aborted || !IsCurrent(s, r) {
      IdleEngineInsertsNothing(s, r, outcome, settings);
    }
    forall k | k in s.runs && s.runs[k].doc == s.runs[r].doc ensures k <= r {
      assert RunFits(s, k);
    }
  }

  // ---- who removes a run from `active`

  /** Resuming run `r` leaves `active` alone, or finishes `r` and removes it where it was the current run; it
      aborts no run and starts no timer. */
  ghost predicate ReleasesAtMost(s: State, r: nat, s': State)
    requires r in s.runs
  {
    && r in s'.runs
    && s'.runs == s.runs[r := s'.runs[r]]
    && s'.runs[r].aborted == s.runs[r].aborted
    && (s'.runs[r].timer == s.runs[r].timer || s'.runs[r].timer.None?)
    && (s'.active == s.active
        || (IsCurrent(s, r) && s'.active == s.active - {s.runs[r].doc} && s'.runs[r].phase.Finished?))
  }

  lemma FinishReleases(s: State, r: nat, value: Option<CompletionResult>)
    requires r in s.runs
    ensures ReleasesAtMost(s, r, Finish(s, r, value))
  {
  }

  lemma StartBackendReleases(s: State, r: nat)
    requires r in s.runs
    ensures ReleasesAtMost(s, r, StartBackend(s, r))
  {
  }

  lemma DebounceReleases(s: State, r: nat)
    requires r in s.runs
    ensures ReleasesAtMost(s, r, OnDebounceElapsed(s, r))
  {
    if s.runs[r].aborted { FinishReleases(s, r, None); }
    else if s.runs[r].request.hasTask { assert OnDebounceElapsed(s, r).active == s.active; }
    else { StartBackendReleases(s, r); }
  }

  lemma ContextReleases(s: State, r: nat, repository: Option<string>)
    requires r in s.runs
    ensures ReleasesAtMost(s, r, OnContextSettled(s, r, repository))
  {
    var run := WithContext(s.runs[r], repository);
    var t := s.(runs := s.runs[r := run], cache := AfterRead(s.cache, run.key, s.now));
    match Hit(s.cache, run.key, s.now)
    case Some(slot) =>
      var u := t.(stats := t.stats.(cacheHits := t.stats.cacheHits + 1), lateHits := t.lateHits + 1);
      FinishReleases(u, r, Some(AsCached(slot.value.value)));
    case None => StartBackendReleases(t, r);
  }

  lemma EngineReleases(s: State, r: nat, outcome: Outcome, settings: Settings)
    requires r in s.runs
    ensures ReleasesAtMost(s, r, OnEngineReturned(s, r, outcome, settings))
  {
    match outcome
    case Threw => FinishReleases(s, r, None);
    case Returned(value) =>
      var run := s.runs[r];
      var t := if value.Some? then s.(answers := s.answers + [Answer(run.doc, run.request, value.value)]) else s;
      if run.aborted || !IsCurrent(s, r) {
        FinishReleases(t, r, None);
      } else {
        FinishReleases(Record(t, r, value, settings), r, value);
      }
  }

  /** `active` loses its run of a document only when that very run finishes, when a new request for the
      document replaces it by a newer run and aborts it, or by `dispose`. */
  ghost predicate Releases(s: State, step: Step, doc: string, s': State)
    requires doc in s.active
  {
    var r := s.active[doc];
    && r in s'.runs
    && match step
       case Complete(d, _, _) => d == doc && doc in s'.active && s'.active[doc] > r && s'.runs[r].aborted
       case DebounceElapsed(k) => k == r && doc !in s'.active && s'.runs[r].phase.Finished?
       case ContextSettled(k, _) => k == r && doc !in s'.active && s'.runs[r].phase.Finished?
       case EngineReturned(k, _, _) => k == r && doc !in s'.active && s'.runs[r].phase.Finished?
       case Dispose => true
       case _ => false
  }

  lemma ActiveRunLeavesOnlyBy(s: State, step: Step, doc: string)
    requires Inv(s) && Enabled(s, step) && doc in s.active
    requires doc !in Next(s, step).active || Next(s, step).active[doc] != s.active[doc]
    ensures Releases(s, step, doc, Next(s, step))
  {
    assert ActiveFits(s, doc);
    match step
    case Complete(d, q, sourceAborted) =>
      if d in s.active { assert ActiveFits(s, d); }
      CompleteChanges(s, d, q, sourceAborted);
      CompleteReleases(s, d, q, sourceAborted, doc, Next(s, step));
    case DebounceElapsed(r) => DebounceReleases(s, r);
    case ContextSettled(r, repository) => ContextReleases(s, r, repository);
    case EngineReturned(r, outcome, settings) => EngineReleases(s, r, outcome, settings);
    case _ => OthersRelease(s, step, doc);
  }

  lemma CompleteReleases(s: State, d: string, q: Request, sourceAborted: bool, doc: string, s': State)
    requires doc in s.active && s.active[doc] in s.runs && s.active[doc] <= s.lastId
    requires (d in s.active ==> s.active[d] in s.runs) && CompleteEffect(s, d, q, sourceAborted, s')
    requires doc !in s'.active || s'.active[doc] != s.active[doc]
    ensures Releases(s, Complete(d, q, sourceAborted), doc, s')
  {
  }

  lemma OthersRelease(s: State, step: Step, doc: string)
    requires Inv(s) && Enabled(s, step) && doc in s.active
    requires !step.Complete? && !step.DebounceElapsed? && !step.ContextSettled? && !step.EngineReturned?
    ensures (doc in Next(s, step).active && Next(s, step).active[doc] == s.active[doc])
            || Releases(s, step, doc, Next(s, step))
  {
    assert ActiveFits(s, doc);
    if !step.Dispose? { assert Next(s, step).active == s.active; }
  }

  // ---- dispose

  /** Nothing is cached and no run is live. */
  ghost predicate Quiet(s: State) {
    && Inv(s)
    && s.cache == [] && s.quick == map[] && s.negative == map[]
    && NoneLive(s.runs)
  }

  ghost predicate NoneLive(runs: map<nat, Run>) {
    forall r :: r in runs ==> !Live(runs[r])
  }

  lemma DisposeIsQuiet(s: State)
    requires Inv(s)
    ensures Quiet(OnDispose(s))
  {
    DisposeInv(s);
    var s' := OnDispose(s);
    forall r | r in s'.runs ensures !Live(s'.runs[r]) { assert RunFits(s', r); }
  }

  /** A run that is not live never comes to life again, and only `complete` makes new runs. */
  lemma NoRunRevives(s: State, step: Step)
    requires Inv(s) && Enabled(s, step) && !step.Complete?
    ensures Next(s, step).runs.Keys == s.runs.Keys
    ensures forall r :: r in s.runs && !Live(s.runs[r]) ==> !Live(Next(s, step).runs[r])
  {
    match step
    case DebounceElapsed(r) => DebounceReleases(s, r);
    case ContextSettled(r, repository) => ContextReleases(s, r, repository);
    case EngineReturned(r, outcome, settings) => EngineReleases(s, r, outcome, settings);
    case _ => OthersReviveNone(s, step);
  }

  lemma OthersReviveNone(s: State, step: Step)
    requires Enabled(s, step)
    requires !step.Complete? && !step.DebounceElapsed? && !step.ContextSettled? && !step.EngineReturned?
    ensures Next(s, step).runs.Keys == s.runs.Keys
    ensures forall r :: r in s.runs && !Live(s.runs[r]) ==> !Live(Next(s, step).runs[r])
  {
  }

  lemma HasMember(c: seq<Slot>)
    requires c != []
    ensures exists slot :: slot in c
  {
    assert c[0] in c;
  }

  lemma NothingInserted(s: State, s': State)
    requires !Inserts(s, s') && s.cache == [] && s.quick == map[] && s.negative == map[]
    ensures s'.cache == [] && s'.quick == map[] && s'.negative == map[]
  {
    if s'.cache != [] { HasMember(s'.cache); }
  }

  lemma QuietStep(s: State, step: Step)
    requires Quiet(s) && Enabled(s, step) && !step.Complete?
    ensures Quiet(Next(s, step))
  {
    NextInv(s, step);
    NoRunRevives(s, step);
    if Inserts(s, Next(s, step)) {
      OnlyNewestRunInserts(s, step);
    }
    NothingInserted(s, Next(s, step));
  }

  /** After `dispose`, whatever the runs still in flight do, the caches stay empty until the next request. */
  lemma {:induction false} DisposedStaysEmpty(s: State, steps: seq<Step>)
    requires Quiet(s) && Legal(s, steps)
    requires forall i :: 0 <= i < |steps| ==> !steps[i].Complete?
    ensures Quiet(Execute(s, steps))
    decreases |steps|
  {
    if steps != [] {
      QuietStep(s, steps[0]);
      DisposedStaysEmpty(Next(s, steps[0]), steps[1..]);
    }
  }

  /** In every run of the manager that disposes of it and then makes no request, the caches are empty and no
      run is live at the end. */
  lemma NothingAfterDispose(now: int, before: seq<Step>, after: seq<Step>)
    requires Legal(Initial(now), before) && Legal(OnDispose(Execute(Initial(now), before)), after)
    requires forall i :: 0 <= i < |after| ==> !after[i].Complete?
    ensures Quiet(Execute(OnDispose(Execute(Initial(now), before)), after))
  {
    InitialInv(now);
    RunsKeepInv(Initial(now), before);
    DisposeIsQuiet(Execute(Initial(now), before));
    DisposedStaysEmpty(OnDispose(Execute(Initial(now), before)), after);
  }

  // ---- who aborts a run

  ghost predicate MayAbort(s: State, step: Step, r: nat)
    requires r in s.runs
  {
    var run := s.runs[r];
    match step
    case Complete(doc, q, sourceAborted) =>
      // superseded, or joined before the backend started by a call whose signal had already fired
      doc == run.doc && IsCurrent(s, r) && WithoutRun(s, doc, q).None?
      && (Joins(run, q) ==> sourceAborted && !run.backendStarted)
    case SourceAborted(call) => call == run.latest && !run.backendStarted
    case GraceTimerFired(k) =>
      k == r && run.backendStarted && run.latest in s.consumers && s.consumers[run.latest].cancelled
    case Cancel(doc) => doc == run.doc && IsCurrent(s, r)
    case CancelAll => IsCurrent(s, r)
    case Dispose => IsCurrent(s, r)
    case _ => false
  }

  /** A run is aborted exactly when it is superseded, cancelled, or abandoned by its latest consumer. */
  lemma AbortedExactlyBy(s: State, step: Step, r: nat)
    requires Inv(s) && Enabled(s, step) && r in s.runs && !s.runs[r].aborted
    ensures r in Next(s, step).runs
    ensures Next(s, step).runs[r].aborted <==> MayAbort(s, step, r)
  {
    assert RunFits(s, r);
    match step
    case Complete(doc, q, sourceAborted) =>
      if doc in s.active { assert ActiveFits(s, doc); }
      CompleteChanges(s, doc, q, sourceAborted);
      CompleteAborts(s, doc, q, sourceAborted, r, Next(s, step));
    case DebounceElapsed(k) => DebounceReleases(s, k);
    case ContextSettled(k, repository) => ContextReleases(s, k, repository);
    case EngineReturned(k, outcome, settings) => EngineReleases(s, k, outcome, settings);
    case _ => OtherAborts(s, step, r);
  }

  lemma OtherAborts(s: State, step: Step, r: nat)
    requires Inv(s) && Enabled(s, step) && r in s.runs && !s.runs[r].aborted
    requires !step.Complete? && !step.DebounceElapsed? && !step.ContextSettled? && !step.EngineReturned?
    ensures r in Next(s, step).runs && (Next(s, step).runs[r].aborted <==> MayAbort(s, step, r))
  {
    assert RunFits(s, r);
    match step
    case SourceAborted(call) => assert ConsumerFits(s, call);
    case CancelAll => ActiveValueIsCurrent(s, r);
    case Dispose => ActiveValueIsCurrent(s, r);
    case Cancel(doc) => if doc in s.active { assert ActiveFits(s, doc); }
    case _ =>
  }

  lemma ActiveValueIsCurrent(s: State, r: nat)
    requires Inv(s) && r in s.runs
    ensures r in s.active.Values <==> IsCurrent(s, r)
  {
    if r in s.active.Values {
      var d :| d in s.active && s.active[d] == r;
      assert ActiveFits(s, d);
    }
  }

  lemma CompleteAborts(s: State, doc: string, q: Request, sourceAborted: bool, r: nat, s': State)
    requires r in s.runs && r <= s.lastId && !s.runs[r].aborted
    requires doc in s.active ==> s.active[doc] in s.runs && s.runs[s.active[doc]].doc == doc
    requires CompleteEffect(s, doc, q, sourceAborted, s')
    ensures r in s'.runs && (s'.runs[r].aborted <==> MayAbort(s, Complete(doc, q, sourceAborted), r))
  {
  }

  ghost predicate MayStartTimer(s: State, step: Step, r: nat)
    requires r in s.runs
  {
    s.runs[r].backendStarted
    && match step
       case Complete(doc, q, sourceAborted) =>
         sourceAborted && doc == s.runs[r].doc && IsCurrent(s, r) && WithoutRun(s, doc, q).None? && Joins(s.runs[r], q)
       case SourceAborted(call) => call == s.runs[r].latest
       case _ => false
  }

  /** A grace timer starts exactly when the latest consumer goes away after the backend has started, and runs for
      60 ms. */
  lemma TimerStartsExactlyBy(s: State, step: Step, r: nat)
    requires Inv(s) && Enabled(s, step) && r in s.runs && s.runs[r].timer.None?
    ensures r in Next(s, step).runs
    ensures Next(s, step).runs[r].timer == if MayStartTimer(s, step, r) then Some(s.now + 60) else None
  {
    assert RunFits(s, r);
    match step
    case Complete(doc, q, sourceAborted) =>
      if doc in s.active { assert ActiveFits(s, doc); }
      CompleteChanges(s, doc, q, sourceAborted);
      CompleteStartsTimer(s, doc, q, sourceAborted, r, Next(s, step));
    case DebounceElapsed(k) => DebounceReleases(s, k);
    case ContextSettled(k, repository) => ContextReleases(s, k, repository);
    case EngineReturned(k, outcome, settings) => EngineReleases(s, k, outcome, settings);
    case SourceAborted(call) => assert ConsumerFits(s, call);
    case _ => NoTimerStarts(s, step, r);
  }

  lemma CompleteStartsTimer(s: State, doc: string, q: Request, sourceAborted: bool, r: nat, s': State)
    requires r in s.runs && r <= s.lastId && s.runs[r].timer.None?
    requires doc in s.active ==> s.active[doc] in s.runs && s.runs[s.active[doc]].doc == doc
    requires CompleteEffect(s, doc, q, sourceAborted, s')
    ensures r in s'.runs
    ensures s'.runs[r].timer
            == if MayStartTimer(s, Complete(doc, q, sourceAborted), r) then Some(s.now + 60) else None
  {
  }

  lemma NoTimerStarts(s: State, step: Step, r: nat)
    requires Enabled(s, step) && r in s.runs && s.runs[r].timer.None?
    requires step.GraceTimerFired? || step.Settle? || step.Cancel? || step.CancelAll? || step.ClearCache?
             || step.Dispose? || step.Tick?
    ensures r in Next(s, step).runs && Next(s, step).runs[r].timer.None?
  {
  }

  /** In every reachable state, a pending grace timer means that the run's backend has started and that its latest
      consumer has gone; the timer has at most 60 ms to go. */
  lemma PendingTimerMeansLatestGone(now: int, steps: seq<Step>, r: nat)
    requires Legal(Initial(now), steps) && r in Execute(Initial(now), steps).runs
    ensures var s := Execute(Initial(now), steps);
            var run := s.runs[r];
            run.timer.Some? ==>
              run.backendStarted && run.timer.value <= s.now + 60
              && run.latest in s.consumers && s.consumers[run.latest].run == r && s.consumers[run.latest].cancelled
  {
    InitialInv(now);
    RunsKeepInv(Initial(now), steps);
    assert RunFits(Execute(Initial(now), steps), r);
  }

  /** A request that joins a run before its grace timer fires, with a signal that has not, stops the timer and
      becomes the latest consumer; the run is neither aborted nor replaced. */
  lemma JoiningClearsTimer(s: State, doc: string, q: Request)
    requires Inv(s) && doc in s.active && s.active[doc] in s.runs
    requires WithoutRun(s, doc, q).None? && Joins(s.runs[s.active[doc]], q)
    ensures var r, s' := s.active[doc], OnComplete(s, doc, q, false);
            && r in s'.runs && s'.runs[r].timer.None? && s'.runs[r].latest == s'.stats.requested
            && s'.runs[r].aborted == s.runs[r].aborted && doc in s'.active && s'.active[doc] == r
            && s'.lastId == s.lastId
  {
  }

  // ---- cancelled runs that go on

  /** A run aborted while it waits for repository context still goes to the engine, or still returns a late
      cache hit: exactly the cache decides which. */
  lemma AbortedRunStillProceeds(s: State, r: nat, repository: Option<string>)
    requires r in s.runs && s.runs[r].phase.AwaitingContext? && s.runs[r].aborted
    ensures var s' := OnContextSettled(s, r, repository);
            var hit := Hit(s.cache, KeyOf(s.runs[r].request), s.now);
            && (s'.runs[r].phase.AwaitingEngine? <==> hit.None?)
            && (hit.None? ==> s'.stats.backendRequests == s.stats.backendRequests + 1)
            && (hit.Some? ==> s'.runs[r].phase == Finished(Some(AsCached(hit.value.value.value)), true))
  {
  }

  /** No other step takes an aborted run to the engine: it gets there exactly by its context settling while the cache
      holds no answer for its key. One aborted while debouncing never does. */
  lemma AbortedRunReachesEngineExactlyWhen(s: State, step: Step, r: nat)
    requires Inv(s) && Enabled(s, step) && r in s.runs && s.runs[r].aborted && !s.runs[r].phase.AwaitingEngine?
    ensures r in Next(s, step).runs
    ensures Next(s, step).runs[r].phase.AwaitingEngine?
            <==> step.ContextSettled? && step.run == r && Hit(s.cache, KeyOf(s.runs[r].request), s.now).None?
  {
    match step
    case Complete(doc, q, sourceAborted) =>
      if doc in s.active { assert ActiveFits(s, doc); }
      CompleteChanges(s, doc, q, sourceAborted);
    case ContextSettled(k, repository) =>
      ContextReleases(s, k, repository);
      if k == r { AbortedRunStillProceeds(s, r, repository); }
    case DebounceElapsed(k) => DebounceReleases(s, k);
    case EngineReturned(k, outcome, settings) => EngineReleases(s, k, outcome, settings);
    case _ => OthersKeepPhase(s, step, r);
  }

  lemma OthersKeepPhase(s: State, step: Step, r: nat)
    requires Enabled(s, step) && r in s.runs
    requires !step.Complete? && !step.DebounceElapsed? && !step.ContextSettled? && !step.EngineReturned?
    ensures r in Next(s, step).runs && Next(s, step).runs[r].phase == s.runs[r].phase
  {
  }

  /** What becomes of a run aborted while debouncing: it returns null and asks no backend. */
  lemma AbortedWhileDebouncingEnds(s: State, r: nat)
    requires r in s.runs && s.runs[r].phase.Debouncing? && s.runs[r].aborted
    ensures OnDebounceElapsed(s, r).runs[r].phase == Finished(None, true)
    ensures OnDebounceElapsed(s, r).stats.backendRequests == s.stats.backendRequests
  {
  }

  /** ... but whatever the engine then says, the aborted run stores nothing and delivers nothing. */
  lemma AbortedRunStoresNothing(s: State, r: nat, outcome: Outcome, settings: Settings)
    requires r in s.runs && s.runs[r].aborted
    ensures var s' := OnEngineReturned(s, r, outcome, settings);
            && s'.cache == s.cache && s'.quick == s.quick && s'.negative == s.negative
            && s'.runs[r].phase == Finished(None, true) && s'.stats.succeeded == s.stats.succeeded
  {
  }

  /** So "a cancelled run never reaches the engine" fails: for every document and every request that waits for its
      repository context, here is a run of the manager in which it does. */
  lemma CancelledRunReachesEngine(doc: string, q: Request)
    requires q.hasTask
    ensures exists steps, r ::
              && Legal(Initial(0), steps)
              && r in Execute(Initial(0), steps).runs
              && Execute(Initial(0), steps).runs[r].aborted
              && Execute(Initial(0), steps).runs[r].phase.AwaitingEngine?
  {
    FirstRequest(doc, q);
    var s1 := Next(Initial(0), Complete(doc, q, false));
    var s2 := Next(s1, DebounceElapsed(1));
    assert s2.runs[1].phase.AwaitingContext? && s2.active[doc] == 1 && s2.cache == [];
    var steps := CancelThenSettle(s2, doc, 1);
    Prepend(s1, DebounceElapsed(1), steps);
    Prepend(Initial(0), Complete(doc, q, false), [DebounceElapsed(1)] + steps);
  }

  /** A run that waits for its context while the cache is empty: cancelled and then settled, it is at the engine. */
  lemma CancelThenSettle(s: State, doc: string, r: nat) returns (steps: seq<Step>)
    requires doc in s.active && s.active[doc] == r && r in s.runs && s.cache == []
    requires s.runs[r].phase.AwaitingContext?
    ensures Legal(s, steps) && r in Execute(s, steps).runs
    ensures Execute(s, steps).runs[r].aborted && Execute(s, steps).runs[r].phase.AwaitingEngine?
  {
    var s' := Next(s, Cancel(doc));
    assert s' == Abort(s, r);
    AbortedRunStillProceeds(s', r, None);
    Prepend(s', ContextSettled(r, None), []);
    steps := [ContextSettled(r, None)] + [];
    Prepend(s, Cancel(doc), steps);
    steps := [Cancel(doc)] + steps;
  }

  lemma FirstRequest(doc: string, q: Request)
    requires q.hasTask
    ensures var s1 := Start(Requested(Initial(0), q), doc, q, false);
            && Next(Initial(0), Complete(doc, q, false)) == s1 && s1.cache == [] && s1.active == map[doc := 1]
            && 1 in s1.runs && s1.runs[1].phase.Debouncing? && !s1.runs[1].aborted && s1.runs[1].request == q
            && s1.runs[1].doc == doc
  {
  }

  lemma Prepend(s: State, step: Step, steps: seq<Step>)
    requires Enabled(s, step) && Legal(Next(s, step), steps)
    ensures Legal(s, [step] + steps) && Execute(s, [step] + steps) == Execute(Next(s, step), steps)
  {
    assert ([step] + steps)[1..] == steps;
  }
}
