/** What holds in every state `RequestManager` can reach, under any interleaving of its steps: which run is
    live, who may abort it, and what a pending grace timer means. */
module ManagerInvariants {
  import opened Wrappers
  import opened Requests
  import opened LruCache
  import opened ManagerState

  predicate Live(run: Run) {
    !run.phase.Finished? && !run.aborted
  }

  ghost predicate RunOk(run: Run) {
    && run.key == KeyOf(run.request)
    && run.startKey.base == run.key.base
    && (run.phase.Debouncing? || run.phase.AwaitingContext? ==> !run.backendStarted)
    && (run.phase.AwaitingEngine? ==> run.backendStarted)
    && (run.timer.Some? ==> run.backendStarted)
  }

  /** A live run is the one `active` holds for its document, and no run is newer than that one. */
  ghost predicate OneLive(active: map<string, nat>, r: nat, run: Run) {
    && (Live(run) ==> run.doc in active && active[run.doc] == r)
    && (run.doc in active ==> r <= active[run.doc])
  }

  /** `c` is the consumer that attached to run `r` last. A grace timer is pending only when that consumer has
      gone, for at most 60 ms more; and once it has gone a live run's timer is pending. */
  ghost predicate TimerOk(r: nat, run: Run, c: Consumer, now: int) {
    && c.run == r
    && c.number == run.consumer
    && (run.timer.Some? ==> c.cancelled && run.timer.value <= now + 60)
    && (Live(run) && c.cancelled ==> run.timer.Some?)
  }

  ghost predicate RunFits(s: State, r: nat)
    requires r in s.runs
  {
    var run := s.runs[r];
    && RunOk(run)
    && OneLive(s.active, r, run)
    && run.latest in s.consumers
    && TimerOk(r, run, s.consumers[run.latest], s.now)
  }

  ghost predicate ConsumerFits(s: State, call: nat)
    requires call in s.consumers
  {
    var c := s.consumers[call];
    && 1 <= call <= s.stats.requested
    && c.run in s.runs
    && c.number <= s.runs[c.run].consumer
    && (c.number == s.runs[c.run].consumer ==> call == s.runs[c.run].latest)
    && !(c.listening && c.cancelled)
  }

  ghost predicate ActiveFits(s: State, d: string)
    requires d in s.active
  {
    s.active[d] in s.runs && s.runs[s.active[d]].doc == d && !s.runs[s.active[d]].phase.Finished?
  }

  ghost predicate Inv(s: State) {
    && (forall r :: r in s.runs <==> 1 <= r <= s.lastId)
    && (forall r {:trigger RunFits(s, r)} :: r in s.runs ==> RunFits(s, r))
    && (forall c {:trigger ConsumerFits(s, c)} :: c in s.consumers ==> ConsumerFits(s, c))
    && (forall d {:trigger ActiveFits(s, d)} :: d in s.active ==> ActiveFits(s, d))
  }

  lemma InitialInv(now: int)
    ensures Inv(Initial(now))
  {
  }

  /** No step is ever disabled by a dangling entry of `active`. */
  lemma CompleteAndCancelAlwaysEnabled(s: State, doc: string, q: Request, sourceAborted: bool)
    requires Inv(s)
    ensures Enabled(s, Complete(doc, q, sourceAborted)) && Enabled(s, Cancel(doc))
  {
    if doc in s.active { assert ActiveFits(s, doc); }
  }

  // ---- one change at a time

  /** Fields the invariant does not look at may change freely, and the clock and call counter may advance. */
  lemma SameProtocolState(s: State, s': State)
    requires Inv(s)
    requires s'.runs == s.runs && s'.consumers == s.consumers && s'.active == s.active && s'.lastId == s.lastId
    requires s'.now >= s.now && s'.stats.requested >= s.stats.requested
    ensures Inv(s')
  {
    forall r | r in s'.runs ensures RunFits(s', r) { assert RunFits(s, r); }
    forall c | c in s'.consumers ensures ConsumerFits(s', c) { assert ConsumerFits(s, c); }
    forall d | d in s'.active ensures ActiveFits(s', d) { assert ActiveFits(s, d); }
  }

  /** A run fits as before when it, `active`, the consumers and the clock are as before. */
  lemma RunStillFits(s: State, s': State, r: nat)
    requires r in s.runs && r in s'.runs && RunFits(s, r) && s'.runs[r] == s.runs[r]
    requires s'.active == s.active && s'.consumers == s.consumers && s'.now == s.now
    ensures RunFits(s', r)
  {
  }

  /** A consumer fits as before when the runs keep their consumer numbers and none is lost. */
  lemma ConsumerStillFits(s: State, s': State, call: nat, r: nat)
    requires call in s.consumers && ConsumerFits(s, call) && s'.consumers == s.consumers
    requires r in s.runs && r in s'.runs && s'.runs == s.runs[r := s'.runs[r]]
    requires s'.runs[r].consumer == s.runs[r].consumer && s'.runs[r].latest == s.runs[r].latest
    requires s'.stats.requested == s.stats.requested
    ensures ConsumerFits(s', call)
  {
  }

  /** An active entry fits as before when its run keeps its document and does not finish. */
  lemma ActiveStillFits(s: State, s': State, d: string, r: nat)
    requires d in s.active && ActiveFits(s, d) && s'.active == s.active
    requires r in s.runs && r in s'.runs && s'.runs == s.runs[r := s'.runs[r]]
    requires s'.runs[r].doc == s.runs[r].doc && (s'.runs[r].phase.Finished? ==> !IsCurrent(s, r))
    ensures ActiveFits(s', d)
  {
  }

  /** One run changes; it keeps its document and consumer and finishes only when `active` no longer holds it. */
  lemma OneRunChanges(s: State, s': State, r: nat)
    requires Inv(s) && r in s.runs && r in s'.runs && s'.runs == s.runs[r := s'.runs[r]]
    requires s'.consumers == s.consumers && s'.active == s.active && s'.lastId == s.lastId
    requires s'.now == s.now && s'.stats.requested == s.stats.requested
    requires s'.runs[r].doc == s.runs[r].doc && s'.runs[r].consumer == s.runs[r].consumer
    requires s'.runs[r].latest == s.runs[r].latest
    requires RunFits(s', r)
    requires s'.runs[r].phase.Finished? ==> !IsCurrent(s, r)
    ensures Inv(s')
  {
    forall q | q in s'.runs ensures RunFits(s', q) { if q != r { RunStillFits(s, s', q); } }
    forall c | c in s'.consumers ensures ConsumerFits(s', c) { ConsumerStillFits(s, s', c, r); }
    forall d | d in s'.active ensures ActiveFits(s', d) { ActiveStillFits(s, s', d, r); }
  }

  lemma AbortInv(s: State, r: nat)
    requires Inv(s) && r in s.runs
    ensures Inv(Abort(s, r))
  {
    assert RunFits(s, r);
    if IsCurrent(s, r) { assert ActiveFits(s, s.runs[r].doc); }
    OneRunChanges(s, Abort(s, r), r);
  }

  lemma StartBackendInv(s: State, r: nat)
    requires Inv(s) && r in s.runs && (s.runs[r].phase.Debouncing? || s.runs[r].phase.AwaitingContext?)
    ensures Inv(StartBackend(s, r))
  {
    assert RunFits(s, r);
    OneRunChanges(s, StartBackend(s, r), r);
  }

  lemma FinishKeepsRun(s: State, r: nat, value: Option<CompletionResult>, q: nat)
    requires r in s.runs && q in s.runs && RunFits(s, q)
    ensures RunFits(Finish(s, r, value), q)
  {
    var s', doc := Finish(s, r, value), s.runs[r].doc;
    if IsCurrent(s, r) { assert s'.active == s.active - {doc}; }
    if q != r { assert s'.runs[q] == s.runs[q]; }
  }

  lemma FinishKeepsActive(s: State, r: nat, value: Option<CompletionResult>, d: string)
    requires r in s.runs && d in Finish(s, r, value).active && d in s.active && ActiveFits(s, d)
    ensures ActiveFits(Finish(s, r, value), d)
  {
  }

  lemma FinishKeepsConsumer(s: State, r: nat, value: Option<CompletionResult>, call: nat)
    requires r in s.runs && call in s.consumers && ConsumerFits(s, call)
    ensures ConsumerFits(Finish(s, r, value), call)
  {
  }

  lemma FinishInv(s: State, r: nat, value: Option<CompletionResult>)
    requires Inv(s) && r in s.runs && !s.runs[r].phase.Finished?
    ensures Inv(Finish(s, r, value))
  {
    var s' := Finish(s, r, value);
    forall q | q in s'.runs ensures RunFits(s', q) {
      assert RunFits(s, q);
      FinishKeepsRun(s, r, value, q);
    }
    forall c | c in s'.consumers ensures ConsumerFits(s', c) {
      assert ConsumerFits(s, c);
      FinishKeepsConsumer(s, r, value, c);
    }
    forall d | d in s'.active ensures ActiveFits(s', d) {
      assert d in s.active && ActiveFits(s, d);
      FinishKeepsActive(s, r, value, d);
    }
  }

  lemma AbortAllInv(s: State)
    requires Inv(s)
    ensures Inv(OnCancelAll(s))
  {
    var s' := OnCancelAll(s);
    forall r | r in s'.runs ensures RunFits(s', r) { assert RunFits(s, r); }
    forall c | c in s'.consumers ensures ConsumerFits(s', c) { assert ConsumerFits(s, c); }
    forall d | d in s'.active ensures ActiveFits(s', d) { assert ActiveFits(s, d); }
  }

  lemma DisposeInv(s: State)
    requires Inv(s)
    ensures Inv(OnDispose(s))
  {
    AbortAllInv(s);
    var t, s' := OnCancelAll(s), OnDispose(s);
    forall r | r in s'.runs ensures RunFits(s', r) {
      assert RunFits(s, r) && RunFits(t, r);
      assert Live(s.runs[r]) ==> r in s.active.Values;
    }
    forall c | c in s'.consumers ensures ConsumerFits(s', c) { assert ConsumerFits(t, c); }
  }

  /** The listener of a consumer that is no longer the latest changes nothing but its own flags. */
  lemma StaleSourceAbortedInv(s: State, call: nat)
    requires Inv(s) && call in s.consumers && s.consumers[call].run in s.runs
    requires s.consumers[call].number != s.runs[s.consumers[call].run].consumer
    ensures Inv(OnSourceAborted(s, call))
  {
    var s' := OnSourceAborted(s, call);
    assert ConsumerFits(s, call);
    forall r | r in s'.runs ensures RunFits(s', r) { assert RunFits(s, r); }
    forall k | k in s'.consumers ensures ConsumerFits(s', k) { assert ConsumerFits(s, k); }
    forall d | d in s'.active ensures ActiveFits(s', d) { assert ActiveFits(s, d); }
  }

  lemma LatestSourceAbortedRun(s: State, call: nat, r: nat)
    requires call in s.consumers && ConsumerFits(s, call) && r in s.runs && RunFits(s, r)
    requires s.consumers[call].number == s.runs[s.consumers[call].run].consumer
    ensures RunFits(OnSourceAborted(s, call), r)
  {
  }

  lemma SourceAbortedConsumer(s: State, call: nat, k: nat)
    requires call in s.consumers && s.consumers[call].run in s.runs && k in s.consumers && ConsumerFits(s, k)
    ensures ConsumerFits(OnSourceAborted(s, call), k)
  {
  }

  lemma SourceAbortedActive(s: State, call: nat, d: string)
    requires call in s.consumers && s.consumers[call].run in s.runs && d in s.active && ActiveFits(s, d)
    ensures ActiveFits(OnSourceAborted(s, call), d)
  {
  }

  lemma LatestSourceAbortedInv(s: State, call: nat)
    requires Inv(s) && call in s.consumers && s.consumers[call].run in s.runs
    requires s.consumers[call].number == s.runs[s.consumers[call].run].consumer
    ensures Inv(OnSourceAborted(s, call))
  {
    var c, s' := s.consumers[call], OnSourceAborted(s, call);
    assert ConsumerFits(s, call) && RunFits(s, c.run);
    assert s'.runs == s.runs[c.run := s'.runs[c.run]];
    forall r | r in s'.runs ensures RunFits(s', r) {
      assert RunFits(s, r);
      LatestSourceAbortedRun(s, call, r);
    }
    forall k | k in s'.consumers ensures ConsumerFits(s', k) {
      assert ConsumerFits(s, k);
      SourceAbortedConsumer(s, call, k);
    }
    forall d | d in s'.active ensures ActiveFits(s', d) {
      assert ActiveFits(s, d);
      SourceAbortedActive(s, call, d);
    }
  }

  lemma SourceAbortedInv(s: State, call: nat)
    requires Inv(s) && call in s.consumers && s.consumers[call].run in s.runs
    ensures Inv(OnSourceAborted(s, call))
  {
    if s.consumers[call].number == s.runs[s.consumers[call].run].consumer {
      LatestSourceAbortedInv(s, call);
    } else {
      StaleSourceAbortedInv(s, call);
    }
  }

  /** The call being made has no consumer yet. */
  ghost predicate FreshCall(s: State) {
    1 <= s.stats.requested && s.stats.requested !in s.consumers
  }

  /** Attaching with a signal that has already fired is attaching and having it fire at once. */
  lemma AttachAborted(s: State, r: nat, number: nat, q: Request, continuation: bool)
    requires r in s.runs
    ensures var t := Attach(s, r, number, q, false, continuation);
            && s.stats.requested in t.consumers && t.consumers[s.stats.requested].run == r
            && Attach(s, r, number, q, true, continuation) == OnSourceAborted(t, s.stats.requested)
  {
    var t := Attach(s, r, number, q, false, continuation);
    var c := Consumer(r, number, q, continuation, false, true, false);
    assert t.consumers[s.stats.requested := c] == s.consumers[s.stats.requested := c];
  }

  /** All is as the invariant says, but for run `r`, whose consumers so far have numbers below `number`. */
  ghost predicate OthersFit(s: State, r: nat, number: nat) {
    && (forall k :: k in s.runs <==> 1 <= k <= s.lastId)
    && (forall k {:trigger RunFits(s, k)} :: k in s.runs && k != r ==> RunFits(s, k))
    && (forall c {:trigger ConsumerFits(s, c)} :: c in s.consumers ==>
          ConsumerFits(s, c) && (s.consumers[c].run == r ==> s.consumers[c].number < number))
    && (forall d {:trigger ActiveFits(s, d)} :: d in s.active ==> ActiveFits(s, d))
  }

  lemma QuietAttachInv(s: State, r: nat, number: nat, q: Request, continuation: bool)
    requires OthersFit(s, r, number)
    requires r in s.runs && RunOk(s.runs[r]) && OneLive(s.active, r, s.runs[r])
    requires FreshCall(s)
    ensures Inv(Attach(s, r, number, q, false, continuation))
  {
    var s' := Attach(s, r, number, q, false, continuation);
    forall k | k in s'.runs ensures RunFits(s', k) {
      if k != r { assert RunFits(s, k); }
    }
    forall c | c in s'.consumers ensures ConsumerFits(s', c) {
      if c != s.stats.requested { assert ConsumerFits(s, c); }
    }
    forall d | d in s'.active ensures ActiveFits(s', d) { assert ActiveFits(s, d); }
  }

  lemma AttachInv(s: State, r: nat, number: nat, q: Request, sourceAborted: bool, continuation: bool)
    requires r in s.runs && Inv(Attach(s, r, number, q, false, continuation))
    ensures Inv(Attach(s, r, number, q, sourceAborted, continuation))
  {
    if sourceAborted {
      AttachAborted(s, r, number, q, continuation);
      SourceAbortedInv(Attach(s, r, number, q, false, continuation), s.stats.requested);
    }
  }

  lemma RunIsLast(s: State, r: nat)
    requires Inv(s) && r in s.runs
    ensures OthersFit(s, r, s.runs[r].consumer + 1)
  {
    forall c | c in s.consumers
      ensures ConsumerFits(s, c) && (s.consumers[c].run == r ==> s.consumers[c].number < s.runs[r].consumer + 1)
    {
      assert ConsumerFits(s, c);
    }
  }

  lemma ReuseInv(s: State, doc: string, q: Request, sourceAborted: bool, continuation: bool)
    requires Inv(s) && doc in s.active && s.active[doc] in s.runs && FreshCall(s)
    ensures Inv(Reuse(s, s.active[doc], q, sourceAborted, continuation))
  {
    var r := s.active[doc];
    var t := s.(stats := s.stats.(deduplicated := s.stats.deduplicated + 1));
    assert RunFits(s, r);
    SameProtocolState(s, t);
    RunIsLast(t, r);
    QuietAttachInv(t, r, s.runs[r].consumer + 1, q, continuation);
    AttachInv(t, r, s.runs[r].consumer + 1, q, sourceAborted, continuation);
  }

  /** The new run on its own, before its first consumer is bound. */
  function WithNewRun(s: State, doc: string, q: Request): State {
    var r := s.lastId + 1;
    s.(lastId := r, active := s.active[doc := r],
       runs := s.runs[r := Run(doc, KeyOf(q), KeyOf(q), q, false, false, 0, None, s.stats.requested, Debouncing)])
  }

  lemma NewRunFits(s: State, doc: string, q: Request)
    requires Inv(s) && (doc in s.active ==> s.active[doc] in s.runs && s.runs[s.active[doc]].aborted)
    ensures OthersFit(WithNewRun(s, doc, q), s.lastId + 1, 0)
  {
    var t := WithNewRun(s, doc, q);
    forall k | k in t.runs && k != t.lastId ensures RunFits(t, k) { assert RunFits(s, k); }
    forall c | c in t.consumers ensures ConsumerFits(t, c) && t.consumers[c].run != t.lastId {
      assert ConsumerFits(s, c);
    }
    forall d | d in t.active ensures ActiveFits(t, d) { if d != doc { assert ActiveFits(s, d); } }
  }

  /** A new run may start when the document has no live run. */
  lemma StartInv(s: State, doc: string, q: Request, sourceAborted: bool)
    requires Inv(s) && FreshCall(s)
    requires doc in s.active ==> s.active[doc] in s.runs && s.runs[s.active[doc]].aborted
    ensures Inv(Start(s, doc, q, sourceAborted))
  {
    var t := WithNewRun(s, doc, q);
    NewRunAttached(s, doc, q);
    AttachInv(t, t.lastId, 0, q, sourceAborted, false);
  }

  lemma NewRunAttached(s: State, doc: string, q: Request)
    requires Inv(s) && FreshCall(s)
    requires doc in s.active ==> s.active[doc] in s.runs && s.runs[s.active[doc]].aborted
    ensures Inv(Attach(WithNewRun(s, doc, q), s.lastId + 1, 0, q, false, false))
  {
    var t, r := WithNewRun(s, doc, q), s.lastId + 1;
    NewRunFits(s, doc, q);
    assert FreshCall(t) && RunOk(t.runs[r]) && OneLive(t.active, r, t.runs[r]);
    QuietAttachInv(t, r, 0, q, false);
  }

  lemma JoinOrStartInv(s: State, doc: string, q: Request, sourceAborted: bool)
    requires Inv(s) && FreshCall(s)
    requires doc in s.active ==> s.active[doc] in s.runs
    ensures Inv(JoinOrStart(s, doc, q, sourceAborted))
  {
    if doc in s.active {
      var r := s.active[doc];
      if Joins(s.runs[r], q) {
        ReuseInv(s, doc, q, sourceAborted, s.runs[r].startKey != KeyOf(q));
      } else {
        var t := Abort(s, r);
        AbortInv(s, r);
        StartInv(t, doc, q, sourceAborted);
      }
    } else {
      StartInv(s, doc, q, sourceAborted);
    }
  }

  lemma CompleteInv(s: State, doc: string, q: Request, sourceAborted: bool)
    requires Inv(s)
    requires doc in s.active ==> s.active[doc] in s.runs
    ensures Inv(OnComplete(s, doc, q, sourceAborted))
  {
    var t := Requested(s, q);
    SameProtocolState(s, t);
    match WithoutRun(s, doc, q)
    case Some(out) => SameProtocolState(t, OnComplete(s, doc, q, sourceAborted));
    case None =>
      assert t.stats.requested in s.consumers ==> ConsumerFits(s, t.stats.requested);
      JoinOrStartInv(t, doc, q, sourceAborted);
  }

  lemma ContextSettledInv(s: State, r: nat, repository: Option<string>)
    requires Inv(s) && r in s.runs && s.runs[r].phase.AwaitingContext?
    ensures Inv(OnContextSettled(s, r, repository))
  {
    var run := WithContext(s.runs[r], repository);
    var hit := Hit(s.cache, run.key, s.now);
    var t := s.(runs := s.runs[r := run], cache := AfterRead(s.cache, run.key, s.now));
    assert RunFits(s, r);
    OneRunChanges(s, t, r);
    if hit.Some? {
      var u := t.(stats := t.stats.(cacheHits := t.stats.cacheHits + 1), lateHits := t.lateHits + 1);
      SameProtocolState(t, u);
      FinishInv(u, r, Some(AsCached(hit.value.value.value)));
    } else {
      StartBackendInv(t, r);
    }
  }

  lemma EngineReturnedInv(s: State, r: nat, outcome: Outcome, settings: Settings)
    requires Inv(s) && r in s.runs && s.runs[r].phase.AwaitingEngine?
    ensures Inv(OnEngineReturned(s, r, outcome, settings))
  {
    match outcome
    case Threw => FinishInv(s, r, None);
    case Returned(value) =>
      var run := s.runs[r];
      var t := if value.Some? then s.(answers := s.answers + [Answer(run.doc, run.request, value.value)]) else s;
      SameProtocolState(s, t);
      if run.aborted || !IsCurrent(s, r) {
        FinishInv(t, r, None);
      } else {
        var u := Record(t, r, value, settings);
        SameProtocolState(t, u);
        FinishInv(u, r, value);
      }
  }

  lemma DebounceElapsedInv(s: State, r: nat)
    requires Inv(s) && r in s.runs && s.runs[r].phase.Debouncing?
    ensures Inv(OnDebounceElapsed(s, r))
  {
    assert RunFits(s, r);
    if s.runs[r].aborted { FinishInv(s, r, None); }
    else if s.runs[r].request.hasTask { OneRunChanges(s, OnDebounceElapsed(s, r), r); }
    else { StartBackendInv(s, r); }
  }

  /** Every step keeps the invariant. */
  lemma NextInv(s: State, step: Step)
    requires Inv(s) && Enabled(s, step)
    ensures Inv(Next(s, step))
  {
    match step
    case Complete(doc, q, sourceAborted) => CompleteInv(s, doc, q, sourceAborted);
    case DebounceElapsed(r) => DebounceElapsedInv(s, r);
    case ContextSettled(r, repository) => ContextSettledInv(s, r, repository);
    case EngineReturned(r, outcome, settings) => EngineReturnedInv(s, r, outcome, settings);
    case SourceAborted(call) => SourceAbortedInv(s, call);
    case GraceTimerFired(r) => AbortInv(s, r);
    case Settle(call) => SettleInv(s, call);
    case Cancel(doc) => if doc in s.active { AbortInv(s, s.active[doc]); }
    case CancelAll => AbortAllInv(s);
    case ClearCache => SameProtocolState(s, OnClearCache(s));
    case Dispose => DisposeInv(s);
    case Tick(elapsed) => SameProtocolState(s, Next(s, step));
  }

  lemma SettleInv(s: State, call: nat)
    requires Inv(s) && Enabled(s, Settle(call))
    ensures Inv(OnSettle(s, call))
  {
    var s' := OnSettle(s, call);
    assert ConsumerFits(s, call);
    forall r | r in s'.runs ensures RunFits(s', r) { assert RunFits(s, r); }
    forall k | k in s'.consumers ensures ConsumerFits(s', k) { assert ConsumerFits(s, k); }
    forall d | d in s'.active ensures ActiveFits(s', d) { assert ActiveFits(s, d); }
  }

  /** The invariant holds after every run of the manager. */
  lemma {:induction false} RunsKeepInv(s: State, steps: seq<Step>)
    requires Inv(s) && Legal(s, steps)
    ensures Inv(Execute(s, steps))
    decreases |steps|
  {
    if steps != [] {
      NextInv(s, steps[0]);
      RunsKeepInv(Next(s, steps[0]), steps[1..]);
    }
  }
}
