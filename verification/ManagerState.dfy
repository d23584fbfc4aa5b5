/** The state of `RequestManager` (src/completion/requestManager.ts:11-112) and the meaning of each of its
    steps. A step is the code the event loop runs between two awaits, so steps are atomic and any
    interleaving of them is a run of the manager. */
module ManagerState {
  import opened Wrappers
  import opened Requests
  import opened LruCache

  /** Where the asynchronous `run` of an `Active` record is suspended. `cancelled` records whether the
      `finally` block counted the run as cancelled. */
  datatype Phase =
    | Debouncing
    | AwaitingContext
    | AwaitingEngine
    | Finished(value: Option<CompletionResult>, cancelled: bool)

  /** An `Active` record together with the locals of its `run`. `startKey` is `active.key`; `key` is the
      local that `run` recomputes; `latest` is the call that attached last. */
  datatype Run = Run(
    doc: string, startKey: Key, key: Key, request: Request,
    aborted: bool, backendStarted: bool, consumer: nat, timer: Option<int>,
    latest: nat, phase: Phase)

  /** A call of `complete` attached to a run: the closure made by `bindCancellation` and the promise it
      returned. */
  datatype Consumer = Consumer(
    run: nat, number: nat, request: Request, continuation: bool,
    listening: bool, cancelled: bool, settled: bool)

  datatype Stats = Stats(
    requested: nat, backendRequests: nat, cacheHits: nat, negativeCacheHits: nat,
    deduplicated: nat, cancelled: nat, succeeded: nat)

  datatype Settings = Settings(cacheEnabled: bool, cacheTtlMs: nat, cacheMaxEntries: nat)

  datatype Outcome = Threw | Returned(value: Option<CompletionResult>)

  /** A completion the engine really produced, for the request as it stood then. */
  datatype Answer = Answer(doc: string, request: Request, result: CompletionResult)

  datatype Origin = FromCache | FromRefine | FromQuick | FromNegative | FromRun(continuation: bool)
  datatype Delivery = Delivery(doc: string, request: Request, origin: Origin, value: Option<CompletionResult>)

  /** `answers`, `delivered` and `lateHits` observe the run; the rest is the manager's own state. Runs are
      numbered from 1 and consumers by the call of `complete` that made them. */
  datatype State = State(
    active: map<string, nat>, runs: map<nat, Run>, consumers: map<nat, Consumer>,
    cache: seq<Slot>, quick: map<BaseKey, Slot>, negative: map<Key, int>,
    lastId: nat, stats: Stats, now: int,
    lateHits: nat, answers: seq<Answer>, delivered: seq<Delivery>)

  datatype Step =
    | Complete(doc: string, request: Request, sourceAborted: bool)
    | DebounceElapsed(run: nat)
    | ContextSettled(run: nat, repository: Option<string>)
    | EngineReturned(run: nat, outcome: Outcome, settings: Settings)
    | SourceAborted(call: nat)
    | GraceTimerFired(run: nat)
    | Settle(call: nat)
    | Cancel(doc: string)
    | CancelAll
    | ClearCache
    | Dispose
    | Tick(elapsed: nat)

  const NO_STATS := Stats(0, 0, 0, 0, 0, 0, 0)

  /** A new manager; `now` is what the clock shows. */
  function Initial(now: int): State {
    State(map[], map[], map[], [], map[], map[], 0, NO_STATS, now, 0, [], [])
  }

  // ---- cache reads and writes

  function AsCached(r: CompletionResult): CompletionResult {
    r.(source := Cache)
  }

  function QuickHit(quick: map<BaseKey, Slot>, k: BaseKey, now: int): Option<Slot> {
    if k in quick && quick[k].expiresAt >= now then Some(quick[k]) else None
  }

  function AfterQuickRead(quick: map<BaseKey, Slot>, k: BaseKey, now: int): map<BaseKey, Slot> {
    if QuickHit(quick, k, now).Some? then quick else quick - {k}
  }

  /** Whether `refine` may answer `q` from this slot. */
  predicate Refines(s: Slot, doc: string, q: Request, now: int) {
    && s.expiresAt >= now
    && s.value.documentKey == doc
    && s.value.suffix == q.suffix
    && s.value.fingerprint == q.fingerprint
    && StartsWith(q.prefix, s.value.prefix)
    && Typed(s.value.prefix, q.prefix) != ""
    && StartsWith(s.value.value.text, Typed(s.value.prefix, q.prefix))
  }

  function Refined(s: Slot, q: Request): CompletionResult
    requires |Typed(s.value.prefix, q.prefix)| <= |s.value.value.text|
  {
    CompletionResult(s.value.value.text[|Typed(s.value.prefix, q.prefix)|..], None, Cache)
  }

  /** `refine`: the most recent slot of `c` that fits wins. */
  function Refine(c: seq<Slot>, doc: string, q: Request, now: int): Option<CompletionResult> {
    if c == [] then None
    else
      var s := c[|c| - 1];
      if Refines(s, doc, q, now) then Some(Refined(s, q)) else Refine(c[..|c| - 1], doc, q, now)
  }

  function EntryOf(doc: string, q: Request, r: CompletionResult): Entry {
    Entry(r, doc, q.prefix, q.suffix, q.fingerprint)
  }

  function Min(a: int, b: int): int {
    if a < b then a else b
  }

  function StoreResult(s: State, key: Key, r: CompletionResult, doc: string, q: Request, settings: Settings): State {
    var entry, expiry := EntryOf(doc, q, r), s.now + settings.cacheTtlMs;
    s.(cache := Evict(Put(s.cache, Slot(key, entry, expiry)), settings.cacheMaxEntries),
       quick := s.quick[BaseKeyOf(q) := Slot(key, entry, Min(expiry, s.now + 2000))])
  }

  // ---- cancellation

  function Aborted(run: Run): Run {
    run.(aborted := true, timer := None)
  }

  function Abort(s: State, r: nat): State
    requires r in s.runs
  {
    s.(runs := s.runs[r := Aborted(s.runs[r])])
  }

  /** A run whose latest consumer has gone: aborted at once before the backend starts, 60 ms later after. */
  function Abandoned(run: Run, now: int): Run {
    if !run.backendStarted then Aborted(run) else run.(timer := Some(now + 60))
  }

  /** The body of the `abort` listener of consumer number `number`. */
  function OnAbort(s: State, r: nat, number: nat): State
    requires r in s.runs
  {
    if s.runs[r].consumer != number then s
    else s.(runs := s.runs[r := Abandoned(s.runs[r], s.now)])
  }

  function AbortAll(runs: map<nat, Run>, which: set<nat>): map<nat, Run> {
    map r | r in runs :: if r in which then Aborted(runs[r]) else runs[r]
  }

  // ---- the asynchronous run

  predicate IsCurrent(s: State, r: nat)
    requires r in s.runs
  {
    s.runs[r].doc in s.active && s.active[s.runs[r].doc] == r
  }

  /** `return value` followed by the `finally` block. */
  function Finish(s: State, r: nat, value: Option<CompletionResult>): State
    requires r in s.runs
  {
    var run, current := s.runs[r], IsCurrent(s, r);
    s.(runs := s.runs[r := run.(phase := Finished(value, run.aborted), timer := if current then None else run.timer)],
       active := if current then s.active - {run.doc} else s.active,
       stats := s.stats.(cancelled := s.stats.cancelled + if run.aborted then 1 else 0))
  }

  function StartBackend(s: State, r: nat): State
    requires r in s.runs
  {
    s.(runs := s.runs[r := s.runs[r].(backendStarted := true, phase := AwaitingEngine)],
       stats := s.stats.(backendRequests := s.stats.backendRequests + 1))
  }

  function OnDebounceElapsed(s: State, r: nat): State
    requires r in s.runs
  {
    var run := s.runs[r];
    if run.aborted then Finish(s, r, None)
    else if run.request.hasTask then s.(runs := s.runs[r := run.(phase := AwaitingContext)])
    else StartBackend(s, r)
  }

  /** The run once the context is in and its key recomputed; an aborted run keeps its request. */
  function WithContext(run: Run, repository: Option<string>): Run {
    var q := if !run.aborted && repository.Some? then run.request.(fingerprint := repository.value) else run.request;
    run.(request := q, key := KeyOf(q))
  }

  function OnContextSettled(s: State, r: nat, repository: Option<string>): State
    requires r in s.runs
  {
    var run := WithContext(s.runs[r], repository);
    var hit := Hit(s.cache, run.key, s.now);
    var s1 := s.(runs := s.runs[r := run], cache := AfterRead(s.cache, run.key, s.now));
    match hit
    case Some(slot) =>
      Finish(s1.(stats := s1.stats.(cacheHits := s1.stats.cacheHits + 1), lateHits := s1.lateHits + 1),
             r, Some(AsCached(slot.value.value)))
    case None => StartBackend(s1, r)
  }

  /** The caches after the current run got `value` from the engine. */
  function Record(s: State, r: nat, value: Option<CompletionResult>, settings: Settings): State
    requires r in s.runs
  {
    var run := s.runs[r];
    match value
    case Some(v) =>
      var s1 := if settings.cacheEnabled then StoreResult(s, run.key, v, run.doc, run.request, settings) else s;
      s1.(stats := s1.stats.(succeeded := s1.stats.succeeded + 1))
    case None => s.(negative := s.negative[run.key := s.now + 2000])
  }

  function OnEngineReturned(s: State, r: nat, outcome: Outcome, settings: Settings): State
    requires r in s.runs
  {
    match outcome
    case Threw => Finish(s, r, None)
    case Returned(value) =>
      var run := s.runs[r];
      var s1 := if value.Some? then s.(answers := s.answers + [Answer(run.doc, run.request, value.value)]) else s;
      if run.aborted || !IsCurrent(s, r) then Finish(s1, r, None)
      else Finish(Record(s1, r, value, settings), r, value)
  }

  // ---- complete

  function Deliver(s: State, doc: string, q: Request, origin: Origin, value: Option<CompletionResult>): State {
    s.(delivered := s.delivered + [Delivery(doc, q, origin, value)])
  }

  /** A run that call `call` has just joined as consumer `number`. */
  function Joined(run: Run, number: nat, call: nat, sourceAborted: bool, now: int): Run {
    var joined := run.(consumer := number, timer := None, latest := call);
    if sourceAborted then Abandoned(joined, now) else joined
  }

  /** Attach call number `requested` to run `r` as its consumer `number`. */
  function Attach(s: State, r: nat, number: nat, q: Request, sourceAborted: bool, continuation: bool): State
    requires r in s.runs
  {
    s.(consumers := s.consumers[s.stats.requested :=
         Consumer(r, number, q, continuation, !sourceAborted, sourceAborted, false)],
       runs := s.runs[r := Joined(s.runs[r], number, s.stats.requested, sourceAborted, s.now)])
  }

  function Reuse(s: State, r: nat, q: Request, sourceAborted: bool, continuation: bool): State
    requires r in s.runs
  {
    Attach(s.(stats := s.stats.(deduplicated := s.stats.deduplicated + 1)),
           r, s.runs[r].consumer + 1, q, sourceAborted, continuation)
  }

  function Start(s: State, doc: string, q: Request, sourceAborted: bool): State {
    var r := s.lastId + 1;
    var run := Run(doc, KeyOf(q), KeyOf(q), q, false, false, 0, None, s.stats.requested, Debouncing);
    Attach(s.(lastId := r, runs := s.runs[r := run], active := s.active[doc := r]), r, 0, q, sourceAborted, false)
  }

  /** Whether `complete` joins the run that `active` holds instead of superseding it. */
  predicate Joins(run: Run, q: Request) {
    run.startKey == KeyOf(q) || (run.backendStarted && CompatibleContinuation(run.request, q))
  }

  /** The part of `complete` after the caches have missed. */
  function JoinOrStart(s: State, doc: string, q: Request, sourceAborted: bool): State
    requires doc in s.active ==> s.active[doc] in s.runs
  {
    if doc in s.active then
      var r := s.active[doc];
      if Joins(s.runs[r], q) then Reuse(s, r, q, sourceAborted, s.runs[r].startKey != KeyOf(q))
      else Start(Abort(s, r), doc, q, sourceAborted)
    else Start(s, doc, q, sourceAborted)
  }

  /** One more request, and the cache it consults read. */
  function Requested(s: State, q: Request): State {
    var s0 := s.(stats := s.stats.(requested := s.stats.requested + 1));
    if q.hasTask then s0.(quick := AfterQuickRead(s.quick, BaseKeyOf(q), s.now))
    else s0.(cache := AfterRead(s.cache, KeyOf(q), s.now))
  }

  datatype Shortcut = Shortcut(origin: Origin, value: Option<CompletionResult>)

  /** The answer `complete` gives without a run, if any. */
  function WithoutRun(s: State, doc: string, q: Request): Option<Shortcut> {
    var key := KeyOf(q);
    if q.hasTask then
      match QuickHit(s.quick, key.base, s.now)
      case Some(slot) => Some(Shortcut(FromQuick, Some(AsCached(slot.value.value))))
      case None => None
    else
      match Hit(s.cache, key, s.now)
      case Some(slot) => Some(Shortcut(FromCache, Some(AsCached(slot.value.value))))
      case None =>
        match Refine(AfterRead(s.cache, key, s.now), doc, q, s.now)
        case Some(refined) => Some(Shortcut(FromRefine, Some(refined)))
        case None =>
          if key in s.negative && s.negative[key] > s.now then Some(Shortcut(FromNegative, None)) else None
  }

  function CountShortcut(stats: Stats, origin: Origin): Stats {
    if origin.FromNegative? then stats.(negativeCacheHits := stats.negativeCacheHits + 1)
    else stats.(cacheHits := stats.cacheHits + 1)
  }

  function OnComplete(s: State, doc: string, q: Request, sourceAborted: bool): State
    requires doc in s.active ==> s.active[doc] in s.runs
  {
    var t := Requested(s, q);
    match WithoutRun(s, doc, q)
    case Some(out) => Deliver(t.(stats := CountShortcut(t.stats, out.origin)), doc, q, out.origin, out.value)
    case None => JoinOrStart(t, doc, q, sourceAborted)
  }

  // ---- the other steps

  function OnSourceAborted(s: State, call: nat): State
    requires call in s.consumers && s.consumers[call].run in s.runs
  {
    var c := s.consumers[call];
    OnAbort(s.(consumers := s.consumers[call := c.(listening := false, cancelled := true)]), c.run, c.number)
  }

  function SettledValue(s: State, c: Consumer): Option<CompletionResult>
    requires c.run in s.runs && s.runs[c.run].phase.Finished?
  {
    var run := s.runs[c.run];
    if c.continuation then RefineActive(run.request, c.request, run.phase.value) else run.phase.value
  }

  function OnSettle(s: State, call: nat): State
    requires call in s.consumers && s.consumers[call].run in s.runs && s.runs[s.consumers[call].run].phase.Finished?
  {
    var c := s.consumers[call];
    Deliver(s.(consumers := s.consumers[call := c.(listening := false, settled := true)]),
            s.runs[c.run].doc, c.request, FromRun(c.continuation), SettledValue(s, c))
  }

  function OnCancelAll(s: State): State {
    s.(runs := AbortAll(s.runs, s.active.Values))
  }

  function OnClearCache(s: State): State {
    s.(cache := [], quick := map[], negative := map[])
  }

  function OnDispose(s: State): State {
    OnClearCache(OnCancelAll(s).(active := map[]))
  }

  // ---- runs of the manager

  predicate Enabled(s: State, step: Step) {
    match step
    case Complete(doc, _, _) => doc in s.active ==> s.active[doc] in s.runs
    case DebounceElapsed(r) => r in s.runs && s.runs[r].phase.Debouncing?
    case ContextSettled(r, _) => r in s.runs && s.runs[r].phase.AwaitingContext?
    case EngineReturned(r, _, _) => r in s.runs && s.runs[r].phase.AwaitingEngine?
    case SourceAborted(call) => call in s.consumers && s.consumers[call].run in s.runs && s.consumers[call].listening
    case GraceTimerFired(r) => r in s.runs && s.runs[r].timer.Some? && s.runs[r].timer.value <= s.now
    case Settle(call) =>
      call in s.consumers && s.consumers[call].run in s.runs && !s.consumers[call].settled
      && s.runs[s.consumers[call].run].phase.Finished?
    case Cancel(doc) => doc in s.active ==> s.active[doc] in s.runs
    case _ => true
  }

  function Next(s: State, step: Step): State
    requires Enabled(s, step)
  {
    match step
    case Complete(doc, q, sourceAborted) => OnComplete(s, doc, q, sourceAborted)
    case DebounceElapsed(r) => OnDebounceElapsed(s, r)
    case ContextSettled(r, repository) => OnContextSettled(s, r, repository)
    case EngineReturned(r, outcome, settings) => OnEngineReturned(s, r, outcome, settings)
    case SourceAborted(call) => OnSourceAborted(s, call)
    case GraceTimerFired(r) => Abort(s, r)
    case Settle(call) => OnSettle(s, call)
    case Cancel(doc) => if doc in s.active then Abort(s, s.active[doc]) else s
    case CancelAll => OnCancelAll(s)
    case ClearCache => OnClearCache(s)
    case Dispose => OnDispose(s)
    case Tick(elapsed) => s.(now := s.now + elapsed)
  }

  /** `steps` can be taken one after the other from the state `s`. */
  predicate Legal(s: State, steps: seq<Step>)
    decreases |steps|
  {
    steps == [] || (Enabled(s, steps[0]) && Legal(Next(s, steps[0]), steps[1..]))
  }

  function Execute(s: State, steps: seq<Step>): State
    requires Legal(s, steps)
    decreases |steps|
  {
    if steps == [] then s else Execute(Next(s, steps[0]), steps[1..])
  }
}
