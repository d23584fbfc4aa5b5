/** Every completion the request manager hands out comes from an answer the engine really gave: the text is
    that answer without the characters typed since, and the answer was given for a matching request
    (src/completion/requestManager.ts:21-40, 71-111, 121-131). */
module ManagerProvenance {
  import opened Wrappers
  import opened Requests
  import opened LruCache
  import opened ManagerState
  import opened ManagerInvariants
  import opened ManagerProtocol

  /** How an answer justifies a delivered text, by the way it was delivered. */
  ghost predicate Justifies(a: Answer, d: Delivery) {
    d.value.Some? &&
    var b, q, text := a.request, d.request, d.value.value.text;
    match d.origin
    case FromCache => KeyOf(b) == KeyOf(q) && text == a.result.text
    case FromQuick => BaseKeyOf(b) == BaseKeyOf(q) && text == a.result.text
    case FromRefine =>
      && a.doc == d.doc && b.suffix == q.suffix && b.fingerprint == q.fingerprint
      && StartsWith(q.prefix, b.prefix) && Typed(b.prefix, q.prefix) != ""
      && Typed(b.prefix, q.prefix) + text == a.result.text
    case FromNegative => false
    case FromRun(continuation) =>
      if continuation then
        && a.doc == d.doc && CompatibleContinuation(b, q)
        && Typed(b.prefix, q.prefix) + text == a.result.text
      else BaseKeyOf(b) == BaseKeyOf(q) && text == a.result.text
  }

  ghost predicate Stored(a: Answer, slot: Slot) {
    slot.key == KeyOf(a.request) && slot.value == EntryOf(a.doc, a.request, a.result)
  }

  ghost predicate SlotFits(answers: seq<Answer>, slot: Slot) {
    exists a :: a in answers && Stored(a, slot)
  }

  ghost predicate QuickFits(answers: seq<Answer>, k: BaseKey, slot: Slot) {
    SlotFits(answers, slot) && k == slot.key.base
  }

  /** The value a finished run returns: the engine's own answer to it, or a late hit under its key. */
  ghost predicate RunFrom(a: Answer, run: Run)
    requires run.phase.Finished? && run.phase.value.Some?
  {
    Yields(a, run, run.phase.value.value)
  }

  ghost predicate Yields(a: Answer, run: Run, value: CompletionResult) {
    && value.text == a.result.text
    && KeyOf(a.request) == run.key
    && (run.backendStarted ==> a.request == run.request && a.doc == run.doc)
  }

  ghost predicate RunValueFits(answers: seq<Answer>, run: Run) {
    run.phase.Finished? && run.phase.value.Some? ==> exists a :: a in answers && RunFrom(a, run)
  }

  ghost predicate ConsumerMatches(run: Run, c: Consumer) {
    if c.continuation then run.backendStarted && CompatibleContinuation(run.request, c.request)
    else BaseKeyOf(c.request) == run.key.base
  }

  ghost predicate DeliveryFits(answers: seq<Answer>, d: Delivery) {
    d.value.Some? ==> exists a :: a in answers && Justifies(a, d)
  }

  ghost predicate Prov(s: State) {
    && (forall slot {:trigger SlotFits(s.answers, slot)} :: slot in s.cache ==> SlotFits(s.answers, slot))
    && (forall k {:trigger QuickFits(s.answers, k, s.quick[k])} :: k in s.quick ==> QuickFits(s.answers, k, s.quick[k]))
    && (forall r {:trigger RunValueFits(s.answers, s.runs[r])} :: r in s.runs ==> RunValueFits(s.answers, s.runs[r]))
    && (forall c {:trigger Matches(s, c)} :: c in s.consumers ==> Matches(s, c))
    && (forall d {:trigger DeliveryFits(s.answers, d)} :: d in s.delivered ==> DeliveryFits(s.answers, d))
  }

  ghost predicate Matches(s: State, call: nat)
    requires call in s.consumers
  {
    s.consumers[call].run in s.runs && ConsumerMatches(s.runs[s.consumers[call].run], s.consumers[call])
  }

  // ---- more answers justify more

  lemma MoreAnswers(answers: seq<Answer>, more: seq<Answer>)
    requires answers <= more
    ensures forall slot :: SlotFits(answers, slot) ==> SlotFits(more, slot)
    ensures forall run :: RunValueFits(answers, run) ==> RunValueFits(more, run)
    ensures forall d :: DeliveryFits(answers, d) ==> DeliveryFits(more, d)
  {
    assert forall a :: a in answers ==> a in more;
  }

  /** Steps that touch neither what is stored nor what was delivered: caches may lose slots, answers may be
      added, and runs keep what the proof needs of them. */
  lemma ProvKept(s: State, s': State)
    requires Prov(s)
    requires forall slot :: slot in s'.cache ==> slot in s.cache
    requires forall k :: k in s'.quick ==> k in s.quick && s'.quick[k] == s.quick[k]
    requires s.answers <= s'.answers && s'.delivered == s.delivered
    requires forall r :: r in s.runs ==> r in s'.runs && Keeps(s.runs[r], s'.runs[r])
    requires forall r :: r in s'.runs ==>
               (r in s.runs && s'.runs[r].phase == s.runs[r].phase) || !s'.runs[r].phase.Finished?
    requires forall c :: c in s'.consumers ==>
               (c in s.consumers && SameAttachment(s.consumers[c], s'.consumers[c])) || Matches(s', c)
    ensures Prov(s')
  {
    MoreAnswers(s.answers, s'.answers);
    forall slot | slot in s'.cache ensures SlotFits(s'.answers, slot) { assert SlotFits(s.answers, slot); }
    forall k | k in s'.quick ensures QuickFits(s'.answers, k, s'.quick[k]) {
      assert QuickFits(s.answers, k, s.quick[k]);
    }
    forall r | r in s'.runs ensures RunValueFits(s'.answers, s'.runs[r]) {
      if s'.runs[r].phase.Finished? { assert RunValueFits(s.answers, s.runs[r]); }
    }
    forall c | c in s'.consumers ensures Matches(s', c) { if c in s.consumers { assert Matches(s, c); } }
    forall d | d in s'.delivered ensures DeliveryFits(s'.answers, d) { assert DeliveryFits(s.answers, d); }
  }

  /** A run keeps its document, the base of its key and, once the backend has started, its request. */
  ghost predicate Keeps(run: Run, run': Run) {
    && run'.doc == run.doc
    && run'.key.base == run.key.base
    && (run.backendStarted ==> run'.backendStarted && run'.request == run.request)
    && (run.phase.Finished? ==> run'.phase == run.phase && run'.key == run.key && run'.request == run.request
                                && run'.backendStarted == run.backendStarted)
  }

  ghost predicate SameAttachment(c: Consumer, c': Consumer) {
    c'.run == c.run && c'.continuation == c.continuation && c'.request == c.request
  }

  // ---- the steps

  lemma DeliverProv(s: State, doc: string, q: Request, origin: Origin, value: Option<CompletionResult>)
    requires Prov(s) && DeliveryFits(s.answers, Delivery(doc, q, origin, value))
    ensures Prov(Deliver(s, doc, q, origin, value))
  {
    var s' := Deliver(s, doc, q, origin, value);
    forall slot | slot in s'.cache ensures SlotFits(s'.answers, slot) { assert SlotFits(s.answers, slot); }
    forall k | k in s'.quick ensures QuickFits(s'.answers, k, s'.quick[k]) {
      assert QuickFits(s.answers, k, s.quick[k]);
    }
    forall r | r in s'.runs ensures RunValueFits(s'.answers, s'.runs[r]) {
      assert RunValueFits(s.answers, s.runs[r]);
    }
    forall c | c in s'.consumers ensures Matches(s', c) { assert Matches(s, c); }
    forall d | d in s'.delivered ensures DeliveryFits(s'.answers, d) {
      if d in s.delivered { assert DeliveryFits(s.answers, d); }
    }
  }

  lemma {:induction false} RefineProv(s: State, c: seq<Slot>, doc: string, q: Request)
    requires Prov(s) && forall slot :: slot in c ==> slot in s.cache
    ensures var out := Refine(c, doc, q, s.now);
            out.Some? ==> DeliveryFits(s.answers, Delivery(doc, q, FromRefine, out))
  {
    if c != [] {
      var slot := c[|c| - 1];
      if Refines(slot, doc, q, s.now) {
        assert SlotFits(s.answers, slot);
        var a :| a in s.answers && Stored(a, slot);
        var typed := Typed(a.request.prefix, q.prefix);
        assert typed + a.result.text[|typed|..] == a.result.text;
        assert Justifies(a, Delivery(doc, q, FromRefine, Some(Refined(slot, q))));
      } else {
        RefineProv(s, c[..|c| - 1], doc, q);
      }
    }
  }

  lemma WithoutRunProv(s: State, doc: string, q: Request)
    requires Prov(s) && WithoutRun(s, doc, q).Some?
    ensures var out := WithoutRun(s, doc, q).value;
            DeliveryFits(s.answers, Delivery(doc, q, out.origin, out.value))
  {
    var out := WithoutRun(s, doc, q).value;
    match out.origin
    case FromQuick =>
      var k := BaseKeyOf(q);
      assert QuickFits(s.answers, k, s.quick[k]);
      var a :| a in s.answers && Stored(a, s.quick[k]);
      assert Justifies(a, Delivery(doc, q, FromQuick, out.value));
    case FromCache =>
      var slot := Lookup(s.cache, KeyOf(q)).value;
      LookupMember(s.cache, KeyOf(q));
      assert SlotFits(s.answers, slot);
      var a :| a in s.answers && Stored(a, slot);
      assert Justifies(a, Delivery(doc, q, FromCache, out.value));
    case FromRefine =>
      ReadInsertsNothing(s.cache, KeyOf(q), s.now);
      RefineProv(s, AfterRead(s.cache, KeyOf(q), s.now), doc, q);
    case _ =>
  }

  lemma ReuseProv(s: State, doc: string, q: Request, sourceAborted: bool)
    requires Inv(s) && Prov(s) && doc in s.active && s.active[doc] in s.runs && Joins(s.runs[s.active[doc]], q)
    ensures Prov(Reuse(s, s.active[doc], q, sourceAborted, s.runs[s.active[doc]].startKey != KeyOf(q)))
  {
    var r := s.active[doc];
    var s' := Reuse(s, r, q, sourceAborted, s.runs[r].startKey != KeyOf(q));
    assert RunFits(s, r);
    assert s'.runs == s.runs[r := Joined(s.runs[r], s.runs[r].consumer + 1, s.stats.requested, sourceAborted, s.now)];
    assert Matches(s', s.stats.requested);
    ProvKept(s, s');
  }

  lemma StartProv(s: State, doc: string, q: Request, sourceAborted: bool)
    requires Inv(s) && Prov(s)
    ensures Prov(Start(s, doc, q, sourceAborted))
  {
    var s' := Start(s, doc, q, sourceAborted);
    assert Matches(s', s.stats.requested);
    assert forall r :: r in s.runs ==> r != s'.lastId && s'.runs[r] == s.runs[r];
    ProvKept(s, s');
  }

  /** One run changes, and consumers only in their flags. */
  lemma OneRunKeepsProv(s: State, s': State, r: nat)
    requires Prov(s) && r in s.runs && r in s'.runs && s'.runs == s.runs[r := s'.runs[r]]
    requires Keeps(s.runs[r], s'.runs[r])
    requires s'.runs[r].phase == s.runs[r].phase || !s'.runs[r].phase.Finished?
    requires s'.cache == s.cache && s'.quick == s.quick && s'.answers == s.answers && s'.delivered == s.delivered
    requires forall c :: c in s'.consumers ==> c in s.consumers && SameAttachment(s.consumers[c], s'.consumers[c])
    ensures Prov(s')
  {
    ProvKept(s, s');
  }

  lemma AbortProv(s: State, r: nat)
    requires Prov(s) && r in s.runs
    ensures Prov(Abort(s, r))
  {
    OneRunKeepsProv(s, Abort(s, r), r);
  }

  lemma JoinOrStartProv(s: State, doc: string, q: Request, sourceAborted: bool)
    requires Inv(s) && Prov(s) && (doc in s.active ==> s.active[doc] in s.runs)
    ensures Prov(JoinOrStart(s, doc, q, sourceAborted))
  {
    if doc in s.active {
      var r := s.active[doc];
      if Joins(s.runs[r], q) {
        ReuseProv(s, doc, q, sourceAborted);
      } else {
        AbortProv(s, r);
        AbortInv(s, r);
        StartProv(Abort(s, r), doc, q, sourceAborted);
      }
    } else {
      StartProv(s, doc, q, sourceAborted);
    }
  }

  lemma CompleteProv(s: State, doc: string, q: Request, sourceAborted: bool)
    requires Inv(s) && Prov(s) && (doc in s.active ==> s.active[doc] in s.runs)
    ensures Prov(OnComplete(s, doc, q, sourceAborted))
  {
    var t := Requested(s, q);
    ReadInsertsNothing(s.cache, KeyOf(q), s.now);
    ProvKept(s, t);
    SameProtocolState(s, t);
    match WithoutRun(s, doc, q)
    case Some(out) =>
      var u := t.(stats := CountShortcut(t.stats, out.origin));
      ProvKept(t, u);
      WithoutRunProv(s, doc, q);
      DeliverProv(u, doc, q, out.origin, out.value);
    case None =>
      JoinOrStartProv(t, doc, q, sourceAborted);
  }

  lemma FinishProv(s: State, r: nat, value: Option<CompletionResult>)
    requires Prov(s) && r in s.runs && !s.runs[r].phase.Finished?
    requires value.Some? ==> exists a :: a in s.answers && Yields(a, s.runs[r], value.value)
    ensures Prov(Finish(s, r, value))
  {
    var s' := Finish(s, r, value);
    forall slot | slot in s'.cache ensures SlotFits(s'.answers, slot) { assert SlotFits(s.answers, slot); }
    forall k | k in s'.quick ensures QuickFits(s'.answers, k, s'.quick[k]) {
      assert QuickFits(s.answers, k, s.quick[k]);
    }
    forall k | k in s'.runs ensures RunValueFits(s'.answers, s'.runs[k]) {
      if k != r { assert RunValueFits(s.answers, s.runs[k]); }
      else if value.Some? {
        var a :| a in s.answers && Yields(a, s.runs[r], value.value);
        assert RunFrom(a, s'.runs[r]);
      }
    }
    forall c | c in s'.consumers ensures Matches(s', c) { assert Matches(s, c); }
    forall d | d in s'.delivered ensures DeliveryFits(s'.answers, d) { assert DeliveryFits(s.answers, d); }
  }

  lemma StartBackendProv(s: State, r: nat)
    requires Prov(s) && r in s.runs && !s.runs[r].backendStarted && !s.runs[r].phase.Finished?
    ensures Prov(StartBackend(s, r))
  {
    OneRunKeepsProv(s, StartBackend(s, r), r);
  }

  lemma ContextReadProv(s: State, r: nat, run: Run)
    requires Prov(s) && r in s.runs && s.runs[r].phase.AwaitingContext? && Keeps(s.runs[r], run)
    requires run.phase == s.runs[r].phase
    ensures Prov(s.(runs := s.runs[r := run], cache := AfterRead(s.cache, run.key, s.now)))
  {
    ReadInsertsNothing(s.cache, run.key, s.now);
    ProvKept(s, s.(runs := s.runs[r := run], cache := AfterRead(s.cache, run.key, s.now)));
  }

  lemma ContextProv(s: State, r: nat, repository: Option<string>)
    requires Inv(s) && Prov(s) && r in s.runs && s.runs[r].phase.AwaitingContext?
    ensures Prov(OnContextSettled(s, r, repository))
  {
    var run := WithContext(s.runs[r], repository);
    var t := s.(runs := s.runs[r := run], cache := AfterRead(s.cache, run.key, s.now));
    assert RunFits(s, r);
    ContextReadProv(s, r, run);
    match Hit(s.cache, run.key, s.now)
    case Some(slot) =>
      LookupMember(s.cache, run.key);
      assert SlotFits(s.answers, slot);
      LateHitProv(t, r, slot);
    case None => StartBackendProv(t, r);
  }

  lemma LateHitProv(s: State, r: nat, slot: Slot)
    requires Prov(s) && r in s.runs && s.runs[r].phase.AwaitingContext? && !s.runs[r].backendStarted
    requires SlotFits(s.answers, slot) && slot.key == s.runs[r].key
    ensures var u := s.(stats := s.stats.(cacheHits := s.stats.cacheHits + 1), lateHits := s.lateHits + 1);
            Prov(Finish(u, r, Some(AsCached(slot.value.value))))
  {
    var u := s.(stats := s.stats.(cacheHits := s.stats.cacheHits + 1), lateHits := s.lateHits + 1);
    ProvKept(s, u);
    LateHitYields(s.answers, slot, s.runs[r]);
    FinishProv(u, r, Some(AsCached(slot.value.value)));
  }

  lemma LateHitYields(answers: seq<Answer>, slot: Slot, run: Run)
    requires SlotFits(answers, slot) && slot.key == run.key && !run.backendStarted
    ensures exists a :: a in answers && Yields(a, run, AsCached(slot.value.value))
  {
    var a :| a in answers && Stored(a, slot);
    assert Yields(a, run, AsCached(slot.value.value));
  }

  lemma RecordProv(s: State, r: nat, value: Option<CompletionResult>, settings: Settings)
    requires Inv(s) && Prov(s) && r in s.runs
    requires value.Some? ==> Answer(s.runs[r].doc, s.runs[r].request, value.value) in s.answers
    ensures Prov(Record(s, r, value, settings))
  {
    var s', run := Record(s, r, value, settings), s.runs[r];
    assert RunFits(s, r);
    if value.Some? {
      var a := Answer(run.doc, run.request, value.value);
      var slot := Slot(run.key, EntryOf(run.doc, run.request, value.value), s.now + settings.cacheTtlMs);
      assert Stored(a, slot);
      PutMembers(s.cache, slot);
      EvictMembers(Put(s.cache, slot), settings.cacheMaxEntries);
      forall x | x in s'.cache ensures SlotFits(s'.answers, x) {
        if x != slot { assert x in s.cache && SlotFits(s.answers, x); }
      }
      forall k | k in s'.quick ensures QuickFits(s'.answers, k, s'.quick[k]) {
        if s'.quick[k].value == slot.value && s'.quick[k].key == slot.key && k == slot.key.base {
          assert Stored(a, s'.quick[k]);
        } else {
          assert QuickFits(s.answers, k, s.quick[k]);
        }
      }
    } else {
      forall x | x in s'.cache ensures SlotFits(s'.answers, x) { assert SlotFits(s.answers, x); }
      forall k | k in s'.quick ensures QuickFits(s'.answers, k, s'.quick[k]) {
        assert QuickFits(s.answers, k, s.quick[k]);
      }
    }
    forall k | k in s'.runs ensures RunValueFits(s'.answers, s'.runs[k]) { assert RunValueFits(s.answers, s.runs[k]); }
    forall c | c in s'.consumers ensures Matches(s', c) { assert Matches(s, c); }
    forall d | d in s'.delivered ensures DeliveryFits(s'.answers, d) { assert DeliveryFits(s.answers, d); }
  }

  lemma EngineProv(s: State, r: nat, outcome: Outcome, settings: Settings)
    requires Inv(s) && Prov(s) && r in s.runs && s.runs[r].phase.AwaitingEngine?
    ensures Prov(OnEngineReturned(s, r, outcome, settings))
  {
    match outcome
    case Threw => FinishProv(s, r, None);
    case Returned(value) =>
      var run := s.runs[r];
      assert RunFits(s, r);
      var t := if value.Some? then s.(answers := s.answers + [Answer(run.doc, run.request, value.value)]) else s;
      ProvKept(s, t);
      SameProtocolState(s, t);
      if run.aborted || !IsCurrent(s, r) {
        FinishProv(t, r, None);
      } else {
        var u := Record(t, r, value, settings);
        RecordProv(t, r, value, settings);
        assert u.runs == t.runs && u.answers == t.answers;
        if value.Some? {
          var a := Answer(run.doc, run.request, value.value);
          assert t.answers[|t.answers| - 1] == a && Yields(a, u.runs[r], value.value);
        }
        FinishProv(u, r, value);
      }
  }

  lemma SettleProv(s: State, call: nat)
    requires Inv(s) && Prov(s) && Enabled(s, Settle(call))
    ensures Prov(OnSettle(s, call))
  {
    var c := s.consumers[call];
    var run, value := s.runs[c.run], SettledValue(s, c);
    var t := s.(consumers := s.consumers[call := c.(listening := false, settled := true)]);
    ProvKept(s, t);
    assert Matches(s, call) && RunValueFits(s.answers, run);
    SettledFits(s, c);
    DeliverProv(t, run.doc, c.request, FromRun(c.continuation), value);
  }

  lemma SettledFits(s: State, c: Consumer)
    requires c.run in s.runs && s.runs[c.run].phase.Finished?
    requires ConsumerMatches(s.runs[c.run], c) && RunValueFits(s.answers, s.runs[c.run])
    ensures DeliveryFits(s.answers, Delivery(s.runs[c.run].doc, c.request, FromRun(c.continuation), SettledValue(s, c)))
  {
    var run, value := s.runs[c.run], SettledValue(s, c);
    if value.Some? {
      var a :| a in s.answers && RunFrom(a, run);
      if c.continuation {
        var typed := Typed(run.request.prefix, c.request.prefix);
        assert typed + run.phase.value.value.text[|typed|..] == a.result.text;
      }
      assert Justifies(a, Delivery(run.doc, c.request, FromRun(c.continuation), value));
    }
  }

  lemma DebounceProv(s: State, r: nat)
    requires Inv(s) && Prov(s) && r in s.runs && s.runs[r].phase.Debouncing?
    ensures Prov(OnDebounceElapsed(s, r))
  {
    assert RunFits(s, r);
    if s.runs[r].aborted { FinishProv(s, r, None); }
    else if s.runs[r].request.hasTask { ProvKept(s, OnDebounceElapsed(s, r)); }
    else { StartBackendProv(s, r); }
  }

  lemma NextProv(s: State, step: Step)
    requires Inv(s) && Prov(s) && Enabled(s, step)
    ensures Prov(Next(s, step))
  {
    match step
    case Complete(doc, q, sourceAborted) => CompleteProv(s, doc, q, sourceAborted);
    case DebounceElapsed(r) => DebounceProv(s, r);
    case ContextSettled(r, repository) => ContextProv(s, r, repository);
    case EngineReturned(r, outcome, settings) => EngineProv(s, r, outcome, settings);
    case Settle(call) => SettleProv(s, call);
    case _ => QuietProv(s, step);
  }

  lemma SourceAbortedProv(s: State, call: nat)
    requires Prov(s) && Enabled(s, SourceAborted(call))
    ensures Prov(OnSourceAborted(s, call))
  {
    var s', r := OnSourceAborted(s, call), s.consumers[call].run;
    assert s'.runs == s.runs[r := s'.runs[r]];
    OneRunKeepsProv(s, s', r);
  }

  lemma CancelAllProv(s: State)
    requires Prov(s)
    ensures Prov(OnCancelAll(s))
  {
    ProvKept(s, OnCancelAll(s));
  }

  lemma ClearCacheProv(s: State)
    requires Prov(s)
    ensures Prov(OnClearCache(s))
  {
    ProvKept(s, OnClearCache(s));
  }

  lemma DisposeProv(s: State)
    requires Prov(s)
    ensures Prov(OnDispose(s))
  {
    CancelAllProv(s);
    var t := OnCancelAll(s).(active := map[]);
    ProvKept(OnCancelAll(s), t);
    ClearCacheProv(t);
  }

  lemma QuietProv(s: State, step: Step)
    requires Prov(s) && Enabled(s, step)
    requires step.SourceAborted? || step.GraceTimerFired? || step.Cancel? || step.CancelAll? || step.ClearCache?
             || step.Dispose? || step.Tick?
    ensures Prov(Next(s, step))
  {
    match step
    case SourceAborted(call) => SourceAbortedProv(s, call);
    case GraceTimerFired(r) => AbortProv(s, r);
    case Cancel(doc) => if doc in s.active { AbortProv(s, s.active[doc]); }
    case CancelAll => CancelAllProv(s);
    case ClearCache => ClearCacheProv(s);
    case Dispose => DisposeProv(s);
    case Tick(elapsed) => ProvKept(s, s.(now := s.now + elapsed));
    case _ =>
  }

  lemma {:induction false} RunsKeepProv(s: State, steps: seq<Step>)
    requires Inv(s) && Prov(s) && Legal(s, steps)
    ensures Prov(Execute(s, steps))
    decreases |steps|
  {
    if steps != [] {
      NextInv(s, steps[0]);
      NextProv(s, steps[0]);
      RunsKeepProv(Next(s, steps[0]), steps[1..]);
    }
  }

  /** In every run of the manager, each text it delivers is justified by an answer of the engine. */
  lemma EveryDeliveryIsJustified(now: int, steps: seq<Step>, d: Delivery)
    requires Legal(Initial(now), steps)
    requires d in Execute(Initial(now), steps).delivered && d.value.Some?
    ensures exists a :: a in Execute(Initial(now), steps).answers && Justifies(a, d)
  {
    InitialInv(now);
    RunsKeepProv(Initial(now), steps);
    assert DeliveryFits(Execute(Initial(now), steps).answers, d);
  }

  /** What a justification means for the user: the delivered text completes what was typed since the answered
      request to the answered text, and the answered request is the same or one that typing extended. */
  lemma JustifiedTextAddsUp(a: Answer, d: Delivery)
    requires Justifies(a, d)
    ensures exists typed ::
              && typed + d.value.value.text == a.result.text
              && ((typed == "" && BaseKeyOf(a.request) == BaseKeyOf(d.request))
                  || (typed != "" && a.doc == d.doc && a.request.suffix == d.request.suffix
                      && d.request.prefix == a.request.prefix + typed))
  {
    var typed := if d.origin.FromRefine? || (d.origin.FromRun? && d.origin.continuation)
                 then Typed(a.request.prefix, d.request.prefix) else "";
    assert "" + d.value.value.text == d.value.value.text;
    assert typed + d.value.value.text == a.result.text;
    if typed != "" { assert d.request.prefix == a.request.prefix + typed; }
  }
}
