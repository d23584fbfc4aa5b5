/** Each call of `complete` is answered at most once, in one way, and the statistics say how often each way was taken
    (src/completion/requestManager.ts:21-40, 52-59): over all runs of the manager. */
module ManagerCalls {
  import opened Wrappers
  import opened Requests
  import opened LruCache
  import opened ManagerState
  import opened ManagerInvariants
  import opened ManagerProtocol
  import opened ManagerProvenance
  import opened ManagerAnswers

  datatype Way = CacheHit | KnownFailure | RunEnded

  function WayOf(origin: Origin): Way {
    match origin
    case FromNegative => KnownFailure
    case FromRun(_) => RunEnded
    case _ => CacheHit
  }

  /** How many calls were answered in a way. */
  function Answered(delivered: seq<Delivery>, way: Way): nat {
    if delivered == [] then 0
    else
      var n := |delivered| - 1;
      Answered(delivered[..n], way) + if WayOf(delivered[n].origin) == way then 1 else 0
  }

  lemma AnsweredNext(delivered: seq<Delivery>, d: Delivery, way: Way)
    ensures Answered(delivered + [d], way) == Answered(delivered, way) + if WayOf(d.origin) == way then 1 else 0
  {
    assert (delivered + [d])[..|delivered|] == delivered;
  }

  function SettledCalls(s: State): set<nat> {
    set call | call in s.consumers && s.consumers[call].settled
  }

  ghost predicate Accounted(s: State) {
    && s.stats.cacheHits == s.lateHits + Answered(s.delivered, CacheHit)
    && s.stats.negativeCacheHits == Answered(s.delivered, KnownFailure)
    && |s.consumers.Keys| == s.stats.deduplicated + s.lastId
    && |SettledCalls(s)| == Answered(s.delivered, RunEnded)
  }

  /** What a call gets from a run that asked for `base` and returned `value`: that, or for a continuation what is left
      of it after the characters typed since, when it starts with them. */
  ghost predicate GetsFrom(base: Request, value: Option<CompletionResult>, c: Consumer, out: Option<CompletionResult>) {
    if !c.continuation then out == value
    else
      exists typed :: c.request.prefix == base.prefix + typed &&
        match value
        case None => out.None?
        case Some(v) =>
          && (out.Some? <==> exists rest :: v.text == typed + rest)
          && (out.Some? ==> v == out.value.(text := typed + out.value.text))
  }

  /** A settled call was answered with what its run, which has ended, returned. */
  ghost predicate GotItsAnswer(s: State, call: nat)
    requires call in s.consumers
  {
    var c := s.consumers[call];
    c.settled ==>
      && c.run in s.runs && s.runs[c.run].phase.Finished?
      && exists out :: GetsFrom(s.runs[c.run].request, s.runs[c.run].phase.value, c, out)
                       && Delivery(s.runs[c.run].doc, c.request, FromRun(c.continuation), out) in s.delivered
  }

  ghost predicate AllGotTheirs(s: State) {
    forall call {:trigger GotItsAnswer(s, call)} :: call in s.consumers ==> GotItsAnswer(s, call)
  }

  lemma SettledGets(s: State, c: Consumer)
    requires c.run in s.runs && s.runs[c.run].phase.Finished? && ConsumerMatches(s.runs[c.run], c)
    ensures GetsFrom(s.runs[c.run].request, s.runs[c.run].phase.value, c, SettledValue(s, c))
  {
    if c.continuation {
      var base, value := s.runs[c.run].request, s.runs[c.run].phase.value;
      var typed := Typed(base.prefix, c.request.prefix);
      assert c.request.prefix == base.prefix + typed;
      if value.Some? {
        RefineActiveAddsUp(base, c.request, value.value);
      }
    }
  }

  // ---- the steps

  ghost predicate EndedStay(runs: map<nat, Run>, runs': map<nat, Run>) {
    forall r :: r in runs && runs[r].phase.Finished? ==>
      r in runs' && runs'[r].phase == runs[r].phase && runs'[r].request == runs[r].request
      && runs'[r].doc == runs[r].doc
  }

  ghost predicate AttachmentsStay(consumers: map<nat, Consumer>, consumers': map<nat, Consumer>) {
    forall call :: call in consumers ==> call in consumers' && SameAttachment(consumers[call], consumers'[call])
  }

  /** Ended runs, attachments and deliveries stay. */
  ghost predicate Progress(s: State, s': State) {
    s.delivered <= s'.delivered && EndedStay(s.runs, s'.runs) && AttachmentsStay(s.consumers, s'.consumers)
  }

  lemma StillGot(s: State, s': State, call: nat)
    requires Progress(s, s') && call in s.consumers && GotItsAnswer(s, call)
    requires s'.consumers[call].settled ==> s.consumers[call].settled
    ensures GotItsAnswer(s', call)
  {
    if s'.consumers[call].settled {
      var c, c' := s.consumers[call], s'.consumers[call];
      var out :| GetsFrom(s.runs[c.run].request, s.runs[c.run].phase.value, c, out)
                 && Delivery(s.runs[c.run].doc, c.request, FromRun(c.continuation), out) in s.delivered;
      assert GetsFrom(s'.runs[c.run].request, s'.runs[c.run].phase.value, c', out);
    }
  }

  /** Nothing but its promise settling settles a call. */
  ghost predicate SettlesNone(consumers: map<nat, Consumer>, consumers': map<nat, Consumer>) {
    && AttachmentsStay(consumers, consumers')
    && (forall call :: call in consumers ==> consumers'[call].settled == consumers[call].settled)
    && (forall call :: call in consumers' && call !in consumers ==> !consumers'[call].settled)
  }

  lemma CompleteSettlesNone(s: State, doc: string, q: Request, sourceAborted: bool)
    requires Inv(s) && (doc in s.active ==> s.active[doc] in s.runs)
    ensures SettlesNone(s.consumers, OnComplete(s, doc, q, sourceAborted).consumers)
    ensures s.delivered <= OnComplete(s, doc, q, sourceAborted).delivered
  {
    if WithoutRun(s, doc, q).None? {
      RunCounts(s, doc, q, sourceAborted);
    } else {
      AnsweredWithoutRun(s, doc, q, sourceAborted);
    }
  }

  /** A request that joins or starts a run makes one call, and counts as one or the other. */
  lemma RunCounts(s: State, doc: string, q: Request, sourceAborted: bool)
    requires Inv(s) && WithoutRun(s, doc, q).None? && (doc in s.active ==> s.active[doc] in s.runs)
    ensures var s', call := OnComplete(s, doc, q, sourceAborted), s.stats.requested + 1;
            && call !in s.consumers && s'.consumers.Keys == s.consumers.Keys + {call}
            && SettlesNone(s.consumers, s'.consumers) && s'.delivered == s.delivered
            && s'.lateHits == s.lateHits && s'.stats.cacheHits == s.stats.cacheHits
            && s'.stats.negativeCacheHits == s.stats.negativeCacheHits
            && s'.stats.deduplicated + s'.lastId == s.stats.deduplicated + s.lastId + 1
  {
    var call := s.stats.requested + 1;
    assert call in s.consumers ==> ConsumerFits(s, call);
    RequestJoinsExactlyWhen(s, doc, q, sourceAborted);
    EitherWay(s, call, doc, q, sourceAborted, OnComplete(s, doc, q, sourceAborted));
  }

  lemma EitherWay(s: State, call: nat, doc: string, q: Request, sourceAborted: bool, s': State)
    requires call !in s.consumers && (doc in s.active ==> s.active[doc] in s.runs)
    requires (doc in s.active && JoinedRun(s, call, doc, q, sourceAborted, false, s'))
             || (doc in s.active && JoinedRun(s, call, doc, q, sourceAborted, true, s'))
             || StartedRun(s, call, doc, q, sourceAborted, s')
    ensures call in s'.consumers && s'.consumers.Keys == s.consumers.Keys + {call}
    ensures SettlesNone(s.consumers, s'.consumers)
    ensures s'.delivered == s.delivered && s'.lateHits == s.lateHits && s'.stats.cacheHits == s.stats.cacheHits
    ensures s'.stats.negativeCacheHits == s.stats.negativeCacheHits
    ensures s'.stats.deduplicated + s'.lastId == s.stats.deduplicated + s.lastId + 1
  {
    NewCall(s.consumers, call, s'.consumers[call]);
  }

  lemma NewCall(consumers: map<nat, Consumer>, call: nat, c: Consumer)
    requires call !in consumers && !c.settled
    ensures SettlesNone(consumers, consumers[call := c])
  {
  }

  lemma AnsweredWithoutRun(s: State, doc: string, q: Request, sourceAborted: bool)
    requires WithoutRun(s, doc, q).Some? && (doc in s.active ==> s.active[doc] in s.runs)
    ensures var s', out := OnComplete(s, doc, q, sourceAborted), WithoutRun(s, doc, q).value;
            && s'.consumers == s.consumers && s'.lastId == s.lastId && s'.lateHits == s.lateHits
            && s'.delivered == s.delivered + [Delivery(doc, q, out.origin, out.value)] && !out.origin.FromRun?
            && s'.stats == CountShortcut(s.stats.(requested := s.stats.requested + 1), out.origin)
  {
  }

  lemma CompleteProgress(s: State, doc: string, q: Request, sourceAborted: bool)
    requires Inv(s) && (doc in s.active ==> s.active[doc] in s.runs)
    ensures Progress(s, OnComplete(s, doc, q, sourceAborted))
  {
    if doc in s.active { assert ActiveFits(s, doc); }
    CompleteChanges(s, doc, q, sourceAborted);
    CompleteSettlesNone(s, doc, q, sourceAborted);
  }

  lemma ContextProgress(s: State, r: nat, repository: Option<string>)
    requires r in s.runs && !s.runs[r].phase.Finished?
    ensures var s' := OnContextSettled(s, r, repository);
            && Progress(s, s') && SettlesNone(s.consumers, s'.consumers)
            && s'.delivered == s.delivered && s'.consumers == s.consumers && s'.lastId == s.lastId
            && s'.stats.cacheHits - s'.lateHits == s.stats.cacheHits - s.lateHits
            && s'.stats.negativeCacheHits == s.stats.negativeCacheHits
            && s'.stats.deduplicated == s.stats.deduplicated
  {
    var s' := OnContextSettled(s, r, repository);
    ContextReleases(s, r, repository);
    assert s'.consumers == s.consumers && s'.delivered == s.delivered;
    OneRunProgress(s, r, s');
  }

  lemma EngineProgress(s: State, r: nat, outcome: Outcome, settings: Settings)
    requires r in s.runs && !s.runs[r].phase.Finished?
    ensures var s' := OnEngineReturned(s, r, outcome, settings);
            Progress(s, s') && SettlesNone(s.consumers, s'.consumers) && KeepsCalls(s, s')
  {
    var s' := OnEngineReturned(s, r, outcome, settings);
    EngineReleases(s, r, outcome, settings);
    EngineKeepsCalls(s, r, outcome, settings);
    OneRunProgress(s, r, s');
  }

  lemma EngineKeepsCalls(s: State, r: nat, outcome: Outcome, settings: Settings)
    requires r in s.runs
    ensures var s' := OnEngineReturned(s, r, outcome, settings);
            && s'.delivered == s.delivered && s'.consumers == s.consumers && s'.lateHits == s.lateHits
            && s'.lastId == s.lastId && s'.stats.cacheHits == s.stats.cacheHits
            && s'.stats.negativeCacheHits == s.stats.negativeCacheHits
            && s'.stats.deduplicated == s.stats.deduplicated
  {
    if outcome.Returned? {
      var run, value := s.runs[r], outcome.value;
      var t := if value.Some? then s.(answers := s.answers + [Answer(run.doc, run.request, value.value)]) else s;
      RecordKeepsCalls(t, r, value, settings);
      FinishKeepsCalls(t, r, None);
      FinishKeepsCalls(Record(t, r, value, settings), r, value);
    } else {
      FinishKeepsCalls(s, r, None);
    }
  }

  lemma FinishKeepsCalls(s: State, r: nat, value: Option<CompletionResult>)
    requires r in s.runs
    ensures var s' := Finish(s, r, value);
            && s'.delivered == s.delivered && s'.consumers == s.consumers && s'.lateHits == s.lateHits
            && s'.lastId == s.lastId && s'.stats == s.stats.(cancelled := s'.stats.cancelled)
  {
  }

  lemma RecordKeepsCalls(s: State, r: nat, value: Option<CompletionResult>, settings: Settings)
    requires r in s.runs
    ensures var s' := Record(s, r, value, settings);
            && s'.delivered == s.delivered && s'.consumers == s.consumers && s'.lateHits == s.lateHits
            && s'.lastId == s.lastId && s'.stats == s.stats.(succeeded := s'.stats.succeeded)
  {
  }

  lemma OneRunProgress(s: State, r: nat, s': State)
    requires r in s.runs && r in s'.runs && !s.runs[r].phase.Finished? && s'.runs == s.runs[r := s'.runs[r]]
    requires s'.consumers == s.consumers && s'.delivered == s.delivered
    ensures Progress(s, s') && SettlesNone(s.consumers, s'.consumers)
  {
  }

  lemma DebounceProgress(s: State, r: nat)
    requires r in s.runs && !s.runs[r].phase.Finished?
    ensures var s' := OnDebounceElapsed(s, r);
            Progress(s, s') && SettlesNone(s.consumers, s'.consumers) && KeepsCalls(s, s')
  {
    var s' := OnDebounceElapsed(s, r);
    DebounceReleases(s, r);
    assert s'.consumers == s.consumers && s'.delivered == s.delivered;
    OneRunProgress(s, r, s');
  }

  /** What the accounts see of a step that neither makes nor settles a call nor hits the cache. */
  ghost predicate KeepsCalls(s: State, s': State) {
    && s'.delivered == s.delivered && s'.consumers.Keys == s.consumers.Keys && s'.lateHits == s.lateHits
    && s'.lastId == s.lastId && s'.stats.cacheHits == s.stats.cacheHits
    && s'.stats.negativeCacheHits == s.stats.negativeCacheHits && s'.stats.deduplicated == s.stats.deduplicated
  }

  lemma OtherProgress(s: State, step: Step)
    requires Enabled(s, step) && !step.Settle?
    requires !step.Complete? && !step.DebounceElapsed? && !step.ContextSettled? && !step.EngineReturned?
    ensures var s' := Next(s, step);
            Progress(s, s') && SettlesNone(s.consumers, s'.consumers) && KeepsCalls(s, s')
  {
    match step
    case SourceAborted(call) => SourceProgress(s, call);
    case GraceTimerFired(r) => AbortProgress(s, r);
    case Cancel(doc) => if doc in s.active { AbortProgress(s, s.active[doc]); }
    case CancelAll => AbortAllProgress(s.runs, s.active.Values);
    case Dispose => AbortAllProgress(s.runs, s.active.Values);
    case _ =>
  }

  lemma AbortProgress(s: State, r: nat)
    requires r in s.runs
    ensures EndedStay(s.runs, Abort(s, r).runs)
  {
  }

  lemma AbortAllProgress(runs: map<nat, Run>, which: set<nat>)
    ensures EndedStay(runs, AbortAll(runs, which))
  {
  }

  lemma SourceProgress(s: State, call: nat)
    requires call in s.consumers && s.consumers[call].run in s.runs
    ensures var s' := OnSourceAborted(s, call);
            Progress(s, s') && SettlesNone(s.consumers, s'.consumers) && KeepsCalls(s, s')
  {
    var s', c := OnSourceAborted(s, call), s.consumers[call];
    FlagsOnly(s.consumers, call, c.(listening := false, cancelled := true));
    OnAbortKeepsEnded(s, c.run, c.number);
    assert s'.runs == OnAbort(s, c.run, c.number).runs;
  }

  lemma FlagsOnly(consumers: map<nat, Consumer>, call: nat, c: Consumer)
    requires call in consumers && SameAttachment(consumers[call], c) && c.settled == consumers[call].settled
    ensures SettlesNone(consumers, consumers[call := c])
  {
  }

  lemma OnAbortKeepsEnded(s: State, r: nat, number: nat)
    requires r in s.runs
    ensures EndedStay(s.runs, OnAbort(s, r, number).runs)
  {
  }

  lemma SettleProgress(s: State, call: nat)
    requires Enabled(s, Settle(call))
    ensures Progress(s, OnSettle(s, call))
  {
  }

  lemma NextGot(s: State, step: Step)
    requires Inv(s) && Prov(s) && AllGotTheirs(s) && Enabled(s, step)
    ensures AllGotTheirs(Next(s, step))
  {
    var s' := Next(s, step);
    match step
    case Complete(doc, q, sourceAborted) =>
      CompleteProgress(s, doc, q, sourceAborted);
      CompleteSettlesNone(s, doc, q, sourceAborted);
      NoneNewlySettled(s, s');
    case DebounceElapsed(r) => DebounceProgress(s, r); NoneNewlySettled(s, s');
    case ContextSettled(r, repository) => ContextProgress(s, r, repository); NoneNewlySettled(s, s');
    case EngineReturned(r, outcome, settings) => EngineProgress(s, r, outcome, settings); NoneNewlySettled(s, s');
    case Settle(call) => SettleGot(s, call);
    case _ => OtherProgress(s, step); NoneNewlySettled(s, s');
  }

  lemma NoneNewlySettled(s: State, s': State)
    requires AllGotTheirs(s) && Progress(s, s') && SettlesNone(s.consumers, s'.consumers)
    ensures AllGotTheirs(s')
  {
    forall call | call in s'.consumers ensures GotItsAnswer(s', call) {
      if call in s.consumers {
        assert GotItsAnswer(s, call);
        StillGot(s, s', call);
      }
    }
  }

  lemma SettleGot(s: State, call: nat)
    requires Prov(s) && AllGotTheirs(s) && Enabled(s, Settle(call))
    ensures AllGotTheirs(OnSettle(s, call))
  {
    var s' := OnSettle(s, call);
    SettleProgress(s, call);
    forall k | k in s'.consumers ensures GotItsAnswer(s', k) {
      assert GotItsAnswer(s, k);
      if k == call {
        assert Matches(s, call);
        SettledGets(s, s.consumers[call]);
        JustSettled(s, call);
      } else {
        StillGot(s, s', k);
      }
    }
  }

  lemma JustSettled(s: State, call: nat)
    requires Enabled(s, Settle(call))
    requires var c := s.consumers[call];
             GetsFrom(s.runs[c.run].request, s.runs[c.run].phase.value, c, SettledValue(s, c))
    ensures GotItsAnswer(OnSettle(s, call), call)
  {
    var s', c := OnSettle(s, call), s.consumers[call];
    var d := Delivery(s.runs[c.run].doc, c.request, FromRun(c.continuation), SettledValue(s, c));
    assert s'.delivered[|s.delivered|] == d;
    assert GetsFrom(s'.runs[c.run].request, s'.runs[c.run].phase.value, s'.consumers[call], SettledValue(s, c));
  }

  // ---- accounting

  lemma SameSettled(s: State, s': State)
    requires SettlesNone(s.consumers, s'.consumers)
    ensures SettledCalls(s') == SettledCalls(s)
  {
  }

  lemma CompleteAccounted(s: State, doc: string, q: Request, sourceAborted: bool)
    requires Inv(s) && Accounted(s) && (doc in s.active ==> s.active[doc] in s.runs)
    ensures Accounted(OnComplete(s, doc, q, sourceAborted))
  {
    var s', call := OnComplete(s, doc, q, sourceAborted), s.stats.requested + 1;
    CompleteSettlesNone(s, doc, q, sourceAborted);
    SameSettled(s, s');
    match WithoutRun(s, doc, q)
    case Some(out) =>
      AnsweredWithoutRun(s, doc, q, sourceAborted);
      ShortcutAccounted(s, Delivery(doc, q, out.origin, out.value), s');
    case None =>
      RunCounts(s, doc, q, sourceAborted);
      CallAccounted(s, call, s');
  }

  lemma ShortcutAccounted(s: State, d: Delivery, s': State)
    requires Accounted(s) && s'.consumers == s.consumers && s'.lastId == s.lastId && s'.lateHits == s.lateHits
    requires s'.delivered == s.delivered + [d] && !d.origin.FromRun?
    requires s'.stats == CountShortcut(s.stats.(requested := s.stats.requested + 1), d.origin)
    ensures Accounted(s')
  {
    AnsweredNext(s.delivered, d, CacheHit);
    AnsweredNext(s.delivered, d, KnownFailure);
    AnsweredNext(s.delivered, d, RunEnded);
  }

  lemma CallAccounted(s: State, call: nat, s': State)
    requires Accounted(s) && SettledCalls(s') == SettledCalls(s)
    requires call !in s.consumers && s'.consumers.Keys == s.consumers.Keys + {call}
    requires s'.delivered == s.delivered && s'.lateHits == s.lateHits && s'.stats.cacheHits == s.stats.cacheHits
    requires s'.stats.negativeCacheHits == s.stats.negativeCacheHits
    requires s'.stats.deduplicated + s'.lastId == s.stats.deduplicated + s.lastId + 1
    ensures Accounted(s')
  {
  }

  lemma SettleAccounted(s: State, call: nat)
    requires Accounted(s) && Enabled(s, Settle(call))
    ensures Accounted(OnSettle(s, call))
  {
    var s', c := OnSettle(s, call), s.consumers[call];
    OneMoreSettled(s, call, c.(listening := false, settled := true), s');
    OneMoreAnswer(s, Delivery(s.runs[c.run].doc, c.request, FromRun(c.continuation), SettledValue(s, c)), s');
  }

  lemma OneMoreSettled(s: State, call: nat, c: Consumer, s': State)
    requires call in s.consumers && !s.consumers[call].settled && c.settled && s'.consumers == s.consumers[call := c]
    ensures |SettledCalls(s')| == |SettledCalls(s)| + 1 && s'.consumers.Keys == s.consumers.Keys
  {
    assert SettledCalls(s') == SettledCalls(s) + {call};
  }

  lemma OneMoreAnswer(s: State, d: Delivery, s': State)
    requires Accounted(s) && d.origin.FromRun? && s'.delivered == s.delivered + [d]
    requires |SettledCalls(s')| == |SettledCalls(s)| + 1 && s'.consumers.Keys == s.consumers.Keys
    requires s'.stats == s.stats && s'.lateHits == s.lateHits && s'.lastId == s.lastId
    ensures Accounted(s')
  {
    AnsweredNext(s.delivered, d, CacheHit);
    AnsweredNext(s.delivered, d, KnownFailure);
    AnsweredNext(s.delivered, d, RunEnded);
  }

  lemma StillAccounted(s: State, s': State)
    requires Accounted(s) && SettlesNone(s.consumers, s'.consumers)
    requires s'.delivered == s.delivered && s'.consumers.Keys == s.consumers.Keys && s'.lastId == s.lastId
    requires s'.stats.cacheHits - s'.lateHits == s.stats.cacheHits - s.lateHits
    requires s'.stats.negativeCacheHits == s.stats.negativeCacheHits && s'.stats.deduplicated == s.stats.deduplicated
    ensures Accounted(s')
  {
    SameSettled(s, s');
  }

  lemma NextAccounted(s: State, step: Step)
    requires Inv(s) && Accounted(s) && Enabled(s, step)
    ensures Accounted(Next(s, step))
  {
    if step.Complete? { CompleteAccounted(s, step.doc, step.request, step.sourceAborted); }
    else if step.Settle? { SettleAccounted(s, step.call); }
    else { OthersAccounted(s, step); }
  }

  lemma OthersAccounted(s: State, step: Step)
    requires Accounted(s) && Enabled(s, step) && !step.Complete? && !step.Settle?
    ensures Accounted(Next(s, step))
  {
    match step
    case DebounceElapsed(r) => DebounceProgress(s, r); StillAccounted(s, OnDebounceElapsed(s, r));
    case ContextSettled(r, repository) =>
      ContextProgress(s, r, repository);
      StillAccounted(s, OnContextSettled(s, r, repository));
    case EngineReturned(r, outcome, settings) =>
      EngineProgress(s, r, outcome, settings);
      StillAccounted(s, OnEngineReturned(s, r, outcome, settings));
    case _ => QuietAccounted(s, step);
  }

  lemma QuietAccounted(s: State, step: Step)
    requires Accounted(s) && Enabled(s, step) && !step.Settle?
    requires !step.Complete? && !step.DebounceElapsed? && !step.ContextSettled? && !step.EngineReturned?
    ensures Accounted(Next(s, step))
  {
    OtherProgress(s, step);
    StillAccounted(s, Next(s, step));
  }

  lemma {:induction false} RunsKeepAccounts(s: State, steps: seq<Step>)
    requires Inv(s) && Prov(s) && Accounted(s) && AllGotTheirs(s) && Legal(s, steps)
    ensures Accounted(Execute(s, steps)) && AllGotTheirs(Execute(s, steps))
    decreases |steps|
  {
    if steps != [] {
      NextInv(s, steps[0]);
      NextProv(s, steps[0]);
      NextAccounted(s, steps[0]);
      NextGot(s, steps[0]);
      RunsKeepAccounts(Next(s, steps[0]), steps[1..]);
    }
  }

  /** In every run of the manager: each settled call was answered with what its run returned, a continuation with what
      is left of it after the characters typed since. */
  lemma SettledCallsGotTheRunsAnswer(now: int, steps: seq<Step>, call: nat)
    requires Legal(Initial(now), steps)
    requires call in Execute(Initial(now), steps).consumers && Execute(Initial(now), steps).consumers[call].settled
    ensures var s := Execute(Initial(now), steps);
            var c := s.consumers[call];
            && c.run in s.runs && s.runs[c.run].phase.Finished?
            && exists out :: GetsFrom(s.runs[c.run].request, s.runs[c.run].phase.value, c, out)
                             && Delivery(s.runs[c.run].doc, c.request, FromRun(c.continuation), out) in s.delivered
  {
    InitialInv(now);
    RunsKeepAccounts(Initial(now), steps);
    assert GotItsAnswer(Execute(Initial(now), steps), call);
  }

  /** ... and every counter of requests is the number of answers, or of calls, that it claims to count: no call is
      answered twice. */
  lemma EachWayIsCounted(now: int, steps: seq<Step>)
    requires Legal(Initial(now), steps)
    ensures var s := Execute(Initial(now), steps);
            && s.stats.cacheHits == s.lateHits + Answered(s.delivered, CacheHit)
            && s.stats.negativeCacheHits == Answered(s.delivered, KnownFailure)
            && |s.consumers.Keys| == s.stats.deduplicated + s.lastId
            && |SettledCalls(s)| == Answered(s.delivered, RunEnded)
  {
    InitialInv(now);
    RunsKeepAccounts(Initial(now), steps);
  }
}
