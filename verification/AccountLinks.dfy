/** Linking an installation to an account (api/internal/account/service.go:155-172, repository.go:262-300) while
    completions are charged (api/internal/http/middleware/installation.go:16-58, monthly.go:9-35). Each SQL
    statement or transaction and each tracker call is one atomic step; link calls and completions interleave
    between steps, and any of them may crash. */
module AccountLinks {
  import opened Wrappers
  import opened MonthlyUsage

  // ---- the installations table

  datatype Row = Row(owner: Option<string>, active: bool, usageLinked: bool)

  datatype LinkError = NoSuchInstallation | InstallationRevoked | InstallationOwned

  /** The link transaction's verdict on the row it has locked. */
  function LinkVerdict(rows: map<string, Row>, id: string, user: string): Option<LinkError> {
    if id !in rows then Some(NoSuchInstallation)
    else if !rows[id].active then Some(InstallationRevoked)
    else if rows[id].owner.Some? && rows[id].owner.value != user then Some(InstallationOwned)
    else None
  }

  class Repository {
    var rows: map<string, Row>

    method LinkInstallation(id: string, user: string) returns (err: Option<LinkError>)
      modifies this
      ensures err == LinkVerdict(old(rows), id, user)
      ensures rows == if err.None? then old(rows)[id := old(rows)[id].(owner := Some(user))] else old(rows)
    {
      if id !in rows { return Some(NoSuchInstallation); }
      var i := rows[id];
      if !i.active { return Some(InstallationRevoked); }
      if i.owner.Some? && i.owner.value != user { return Some(InstallationOwned); }
      rows := rows[id := i.(owner := Some(user))];
      return None;
    }

    /** Whether this very call was the one to mark the row. */
    method MarkInstallationUsageLinked(id: string) returns (linked: bool)
      modifies this
      ensures linked == (id in old(rows) && !old(rows)[id].usageLinked)
      ensures rows == if linked then old(rows)[id := old(rows)[id].(usageLinked := true)] else old(rows)
    {
      if id !in rows || rows[id].usageLinked { return false; }
      rows := rows[id := rows[id].(usageLinked := true)];
      return true;
    }

    method RevokeInstallation(id: string, user: string) returns (found: bool)
      modifies this
      ensures found == (id in old(rows) && old(rows)[id].owner == Some(user) && old(rows)[id].active)
      ensures rows == if found then old(rows)[id := old(rows)[id].(active := false)] else old(rows)
    {
      if id !in rows || rows[id].owner != Some(user) || !rows[id].active { return false; }
      rows := rows[id := rows[id].(active := false)];
      return true;
    }

    /** The administrator's revocation asks for no owner. */
    method AdminRevokeInstallation(id: string) returns (found: bool)
      modifies this
      ensures found == (id in old(rows) && old(rows)[id].active)
      ensures rows == if found then old(rows)[id := old(rows)[id].(active := false)] else old(rows)
    {
      if id !in rows || !rows[id].active { return false; }
      rows := rows[id := rows[id].(active := false)];
      return true;
    }
  }

  // ---- requests as threads

  datatype Thread =
    | LinkRow(user: string, id: string)
    | LinkMark(user: string, id: string)
    | LinkMerge(user: string, id: string)
    | ReadInstallation(id: string, limit: int)
    | Charge(subject: Subject, limit: int)
    | Ended
    | Crashed

  /** What has happened to the counters, in order. */
  datatype Event =
    | Charged(month: nat, subject: Subject, amount: int)
    | Merged(month: nat, id: string, user: string, amount: int)

  /** `ledger` observes the tracker. */
  datatype World = World(rows: map<string, Row>, usage: Usage, month: nat, threads: seq<Thread>, ledger: seq<Event>)

  /** Which subject a completion is charged to (monthly.go:18-22). */
  function SubjectOf(id: string, row: Row): Subject {
    match row.owner
    case Some(user) => User(user)
    case None => Installation(id)
  }

  /** The next step of thread `i`. */
  function Advance(w: World, i: nat): World
    requires i < |w.threads|
  {
    match w.threads[i]
    case LinkRow(user, id) =>
      if LinkVerdict(w.rows, id, user).Some? then w.(threads := w.threads[i := Ended])
      else w.(rows := w.rows[id := w.rows[id].(owner := Some(user))], threads := w.threads[i := LinkMark(user, id)])
    case LinkMark(user, id) =>
      if id in w.rows && !w.rows[id].usageLinked then
        w.(rows := w.rows[id := w.rows[id].(usageLinked := true)], threads := w.threads[i := LinkMerge(user, id)])
      else w.(threads := w.threads[i := Ended])
    case LinkMerge(user, id) =>
      var source, target := Key(w.month, Installation(id)), Key(w.month, User(user));
      w.(usage := Merge(w.usage, source, target),
         ledger := if Migration(source, target) in w.usage.migrations then w.ledger
                   else w.ledger + [Merged(w.month, id, user, Count(w.usage, source))],
         threads := w.threads[i := Ended])
    case ReadInstallation(id, limit) =>
      // A key seen for the first time is inserted, active and without an owner.
      var row := if id in w.rows then w.rows[id] else Row(None, true, false);
      w.(rows := w.rows[id := row],
         threads := w.threads[i := if row.active then Charge(SubjectOf(id, row), limit) else Ended])
    case Charge(subject, limit) =>
      var k := Key(w.month, subject);
      w.(usage := Consume(w.usage, k, limit, 1),
         ledger := if Fits(w.usage, k, limit, 1) then w.ledger + [Charged(w.month, subject, 1)] else w.ledger,
         threads := w.threads[i := Ended])
    case Ended => w
    case Crashed => w
  }

  datatype Step =
    | Arrive(thread: Thread)
    | Run(index: nat)
    | Crash(index: nat)
    | Revoke(id: string)
    | NextMonth

  predicate Enabled(w: World, step: Step) {
    match step
    case Arrive(thread) => thread.LinkRow? || thread.ReadInstallation?
    case Run(i) => i < |w.threads|
    case Crash(i) => i < |w.threads|
    // By the owner or by an administrator.
    case Revoke(id) => id in w.rows && w.rows[id].active
    case NextMonth => true
  }

  function Next(w: World, step: Step): World
    requires Enabled(w, step)
  {
    match step
    case Arrive(thread) => w.(threads := w.threads + [thread])
    case Run(i) => Advance(w, i)
    case Crash(i) => w.(threads := w.threads[i := Crashed])
    case Revoke(id) => w.(rows := w.rows[id := w.rows[id].(active := false)])
    case NextMonth => w.(month := w.month + 1)
  }

  function Initial(month: nat): World {
    World(map[], Usage(map[], {}), month, [], [])
  }

  predicate Legal(w: World, steps: seq<Step>)
    decreases |steps|
  {
    steps == [] || (Enabled(w, steps[0]) && Legal(Next(w, steps[0]), steps[1..]))
  }

  function Execute(w: World, steps: seq<Step>): World
    requires Legal(w, steps)
    decreases |steps|
  {
    if steps == [] then w else Execute(Next(w, steps[0]), steps[1..])
  }

  /** `Service.LinkInstallation` as the source writes it: the three steps of a link thread, one after another. */
  method LinkInstallation(repo: Repository, monthly: MonthlyInMemory, user: string, id: string)
    returns (err: Option<LinkError>)
    modifies repo, monthly
    ensures monthly.month == old(monthly.month)
    ensures err == LinkVerdict(old(repo.rows), id, user)
    ensures var w := World(old(repo.rows), old(monthly.View()), monthly.month, [LinkRow(user, id)], []);
            var w' := Advance(Advance(Advance(w, 0), 0), 0);
            repo.rows == w'.rows && monthly.View() == w'.usage
  {
    err := repo.LinkInstallation(id, user);
    if err.Some? { return; }
    var linked := repo.MarkInstallationUsageLinked(id);
    if linked { monthly.MergeInstallationIntoUser(Installation(id), User(user)); }
  }

  // ---- the ledger

  function ChargedTo(l: seq<Event>, month: nat, s: Subject): int {
    if l == [] then 0
    else
      var e := l[|l| - 1];
      ChargedTo(l[..|l| - 1], month, s)
      + if e.Charged? && e.month == month && e.subject == s then e.amount else 0
  }

  function MergedInto(l: seq<Event>, month: nat, user: string): int {
    if l == [] then 0
    else
      var e := l[|l| - 1];
      MergedInto(l[..|l| - 1], month, user)
      + if e.Merged? && e.month == month && e.user == user then e.amount else 0
  }

  predicate IsMerged(l: seq<Event>, id: string) {
    exists k :: 0 <= k < |l| && l[k].Merged? && l[k].id == id
  }

  /** Merges are of different installations, and each took over what had been charged to it that month. */
  ghost predicate MergesOk(l: seq<Event>) {
    && (forall j, k :: 0 <= j < k < |l| && l[j].Merged? && l[k].Merged? ==> l[j].id != l[k].id)
    && (forall k {:trigger TookOver(l, k)} :: 0 <= k < |l| ==> TookOver(l, k))
  }

  predicate TookOver(l: seq<Event>, k: nat)
    requires k < |l|
  {
    l[k].Merged? ==> l[k].amount == ChargedTo(l[..k], l[k].month, Installation(l[k].id))
  }

  // ---- the invariant

  predicate Linking(thread: Thread, id: string) {
    (thread.LinkMark? || thread.LinkMerge?) && thread.id == id
  }

  /** A link thread past its first step works for the owner; one about to merge is alone in having marked the
      row, and the row has not been merged. */
  ghost predicate ThreadOk(w: World, i: nat)
    requires i < |w.threads|
  {
    var thread := w.threads[i];
    && (thread.LinkMark? || thread.LinkMerge? ==> thread.id in w.rows && w.rows[thread.id].owner == Some(thread.user))
    && (thread.LinkMerge? ==> w.rows[thread.id].usageLinked && !IsMerged(w.ledger, thread.id) && Alone(w, i))
  }

  predicate Alone(w: World, i: nat)
    requires i < |w.threads| && w.threads[i].LinkMerge?
  {
    forall j :: 0 <= j < |w.threads| && j != i && w.threads[j].LinkMerge? ==> w.threads[j].id != w.threads[i].id
  }

  ghost predicate LedgerRows(w: World) {
    && (forall k :: 0 <= k < |w.ledger| && w.ledger[k].Merged? ==>
          w.ledger[k].id in w.rows && w.rows[w.ledger[k].id].usageLinked
          && w.rows[w.ledger[k].id].owner == Some(w.ledger[k].user))
    && (forall id :: id in w.rows && w.rows[id].usageLinked ==> w.rows[id].owner.Some?)
    && (forall m :: m in w.usage.migrations ==>
          m.source.subject.Installation? && IsMerged(w.ledger, m.source.subject.id))
  }

  ghost predicate CountersOk(w: World) {
    && (forall month: nat, user {:trigger UserCounterOk(w, month, user)} :: UserCounterOk(w, month, user))
    && (forall month: nat, id {:trigger OwnCounterOk(w, month, id)} :: OwnCounterOk(w, month, id))
  }

  predicate UserCounterOk(w: World, month: nat, user: string) {
    Count(w.usage, Key(month, User(user))) == ChargedTo(w.ledger, month, User(user)) + MergedInto(w.ledger, month, user)
  }

  predicate OwnCounterOk(w: World, month: nat, id: string) {
    Count(w.usage, Key(month, Installation(id))) == ChargedTo(w.ledger, month, Installation(id))
  }

  ghost predicate Inv(w: World) {
    && (forall i {:trigger ThreadOk(w, i)} :: 0 <= i < |w.threads| ==> ThreadOk(w, i))
    && LedgerRows(w) && CountersOk(w) && MergesOk(w.ledger)
  }

  lemma AppendedSums(l: seq<Event>, e: Event)
    ensures (l + [e])[..|l|] == l
    ensures forall month, s {:trigger ChargedTo(l + [e], month, s)} :: ChargedTo(l + [e], month, s)
              == ChargedTo(l, month, s) + if e.Charged? && e.month == month && e.subject == s then e.amount else 0
    ensures forall month, u {:trigger MergedInto(l + [e], month, u)} :: MergedInto(l + [e], month, u)
              == MergedInto(l, month, u) + if e.Merged? && e.month == month && e.user == u then e.amount else 0
    ensures forall id :: IsMerged(l + [e], id) <==> IsMerged(l, id) || (e.Merged? && e.id == id)
  {
    var l' := l + [e];
    assert l'[..|l'| - 1] == l && l'[|l'| - 1] == e;
    forall id ensures IsMerged(l', id) <==> IsMerged(l, id) || (e.Merged? && e.id == id) {
      if IsMerged(l, id) {
        var k :| 0 <= k < |l| && l[k].Merged? && l[k].id == id;
        assert l'[k] == l[k];
      }
      if e.Merged? && e.id == id { assert l'[|l|] == e; }
    }
  }

  lemma AppendKeepsMergesOk(l: seq<Event>, e: Event)
    requires MergesOk(l)
    requires e.Merged? ==> !IsMerged(l, e.id) && e.amount == ChargedTo(l, e.month, Installation(e.id))
    ensures MergesOk(l + [e])
  {
    var l' := l + [e];
    forall k | 0 <= k < |l'| ensures TookOver(l', k) {
      assert l'[..k] == l[..k];
      if k < |l| { assert TookOver(l, k); } else { assert l[..|l|] == l; }
    }
  }

  lemma MergeStep(w: World, i: nat)
    requires Inv(w) && i < |w.threads| && w.threads[i].LinkMerge?
    ensures Inv(Advance(w, i))
    ensures Advance(w, i).ledger
            == w.ledger + [Merged(w.month, w.threads[i].id, w.threads[i].user,
                                  ChargedTo(w.ledger, w.month, Installation(w.threads[i].id)))]
  {
    var w', user, id := Advance(w, i), w.threads[i].user, w.threads[i].id;
    assert ThreadOk(w, i);
    var source, target := Key(w.month, Installation(id)), Key(w.month, User(user));
    assert Migration(source, target) !in w.usage.migrations;
    var e := Merged(w.month, id, user, Count(w.usage, source));
    assert OwnCounterOk(w, w.month, id);
    AppendedSums(w.ledger, e);
    AppendKeepsMergesOk(w.ledger, e);
    forall month: nat, u ensures UserCounterOk(w', month, u) { assert UserCounterOk(w, month, u); }
    forall month: nat, s ensures OwnCounterOk(w', month, s) { assert OwnCounterOk(w, month, s); }
    forall j | 0 <= j < |w'.threads| ensures ThreadOk(w', j) { if j != i { assert ThreadOk(w, j); } }
  }

  lemma ChargeStep(w: World, i: nat)
    requires Inv(w) && i < |w.threads| && w.threads[i].Charge?
    ensures Inv(Advance(w, i))
  {
    var w' := Advance(w, i);
    var e := Charged(w.month, w.threads[i].subject, 1);
    AppendedSums(w.ledger, e);
    AppendKeepsMergesOk(w.ledger, e);
    forall month: nat, u ensures UserCounterOk(w', month, u) { assert UserCounterOk(w, month, u); }
    forall month: nat, s ensures OwnCounterOk(w', month, s) { assert OwnCounterOk(w, month, s); }
    forall j | 0 <= j < |w'.threads| ensures ThreadOk(w', j) { if j != i { assert ThreadOk(w, j); } }
  }

  lemma SameCounters(w: World, w': World)
    requires CountersOk(w) && w'.usage == w.usage && w'.ledger == w.ledger
    ensures CountersOk(w')
  {
    forall month: nat, u ensures UserCounterOk(w', month, u) { assert UserCounterOk(w, month, u); }
    forall month: nat, s ensures OwnCounterOk(w', month, s) { assert OwnCounterOk(w, month, s); }
  }

  /** A step on the installations table leaves every thread as it should be. */
  lemma RowStepThread(w: World, i: nat, j: nat)
    requires i < |w.threads| && !w.threads[i].Charge? && !w.threads[i].LinkMerge? && j < |w.threads|
    requires ThreadOk(w, i) && ThreadOk(w, j)
    requires forall k :: 0 <= k < |w.threads| && w.threads[k].LinkMerge? ==>
               w.threads[k].id in w.rows && w.rows[w.threads[k].id].usageLinked
    requires forall k :: 0 <= k < |w.ledger| && w.ledger[k].Merged? ==>
               w.ledger[k].id in w.rows && w.rows[w.ledger[k].id].usageLinked
    ensures ThreadOk(Advance(w, i), j)
  {
    assert Advance(w, i).ledger == w.ledger;
  }

  lemma RowStepRows(w: World, i: nat)
    requires i < |w.threads| && !w.threads[i].Charge? && !w.threads[i].LinkMerge?
    requires ThreadOk(w, i) && LedgerRows(w)
    ensures LedgerRows(Advance(w, i))
  {
    var w' := Advance(w, i);
    assert w'.ledger == w.ledger && w'.usage == w.usage;
  }

  lemma RowStep(w: World, i: nat)
    requires Inv(w) && i < |w.threads| && !w.threads[i].Charge? && !w.threads[i].LinkMerge?
    ensures Inv(Advance(w, i))
  {
    var w' := Advance(w, i);
    assert ThreadOk(w, i);
    SameCounters(w, w');
    RowStepRows(w, i);
    forall k | 0 <= k < |w.threads| && w.threads[k].LinkMerge?
      ensures w.threads[k].id in w.rows && w.rows[w.threads[k].id].usageLinked
    {
      assert ThreadOk(w, k);
    }
    forall j | 0 <= j < |w'.threads| ensures ThreadOk(w', j) {
      assert ThreadOk(w, j);
      RowStepThread(w, i, j);
    }
  }

  lemma NextInv(w: World, step: Step)
    requires Inv(w) && Enabled(w, step)
    ensures Inv(Next(w, step))
  {
    var w' := Next(w, step);
    match step
    case Run(i) =>
      if w.threads[i].LinkMerge? { MergeStep(w, i); }
      else if w.threads[i].Charge? { ChargeStep(w, i); }
      else { RowStep(w, i); }
    case _ =>
      SameCounters(w, w');
      forall j | 0 <= j < |w'.threads| ensures ThreadOk(w', j) {
        if j < |w.threads| { assert ThreadOk(w, j); }
      }
  }

  lemma {:induction false} RunsKeepInv(w: World, steps: seq<Step>)
    requires Inv(w) && Legal(w, steps)
    ensures Inv(Execute(w, steps))
    decreases |steps|
  {
    if steps != [] {
      NextInv(w, steps[0]);
      RunsKeepInv(Next(w, steps[0]), steps[1..]);
    }
  }

  // ---- ownership and merging

  /** An owner, once set, is never changed by any step, and a merged mark is never taken back. */
  lemma OwnerStaysPut(w: World, step: Step, id: string)
    requires Enabled(w, step) && id in w.rows
    ensures id in Next(w, step).rows
    ensures w.rows[id].owner.Some? ==> Next(w, step).rows[id].owner == w.rows[id].owner
    ensures w.rows[id].usageLinked ==> Next(w, step).rows[id].usageLinked
    ensures !w.rows[id].active ==> !Next(w, step).rows[id].active && Next(w, step).rows[id].owner == w.rows[id].owner
  {
  }

  lemma {:induction false} OwnerForever(w: World, steps: seq<Step>, id: string)
    requires Legal(w, steps) && id in w.rows && w.rows[id].owner.Some?
    ensures id in Execute(w, steps).rows && Execute(w, steps).rows[id].owner == w.rows[id].owner
    decreases |steps|
  {
    if steps != [] {
      OwnerStaysPut(w, steps[0], id);
      OwnerForever(Next(w, steps[0]), steps[1..], id);
    }
  }

  lemma {:induction false} InactiveForever(w: World, steps: seq<Step>, id: string)
    requires Legal(w, steps) && id in w.rows && !w.rows[id].active
    ensures id in Execute(w, steps).rows && !Execute(w, steps).rows[id].active
    ensures Execute(w, steps).rows[id].owner == w.rows[id].owner
    decreases |steps|
  {
    if steps != [] {
      OwnerStaysPut(w, steps[0], id);
      InactiveForever(Next(w, steps[0]), steps[1..], id);
    }
  }

  /** A revoked installation is out for good: whatever follows, it has the owner it had, no link takes it over, and its
      completions are turned away before they are charged. */
  lemma RevokedForGood(w: World, id: string, steps: seq<Step>, user: string, limit: int)
    requires Enabled(w, Revoke(id)) && Legal(Next(w, Revoke(id)), steps)
    ensures var w' := Execute(Next(w, Revoke(id)), steps);
            && id in w'.rows && w'.rows[id].owner == w.rows[id].owner
            && LinkVerdict(w'.rows, id, user) == Some(InstallationRevoked)
            && forall i :: 0 <= i < |w'.threads| && w'.threads[i] == ReadInstallation(id, limit) ==>
                 Advance(w', i) == w'.(threads := w'.threads[i := Ended])
  {
    InactiveForever(Next(w, Revoke(id)), steps, id);
    var w' := Execute(Next(w, Revoke(id)), steps);
    assert w'.rows[id := w'.rows[id]] == w'.rows;
  }

  /** Over all interleavings and crashes: an installation's usage is merged at most once, into its owner, and the
      merge takes over exactly what the installation had been charged that month until then. */
  lemma MergedAtMostOnceIntoOwner(month: nat, steps: seq<Step>, j: nat, k: nat)
    requires Legal(Initial(month), steps)
    requires var l := Execute(Initial(month), steps).ledger;
             j < |l| && k < |l| && l[j].Merged? && l[k].Merged?
    ensures var w := Execute(Initial(month), steps);
            && (w.ledger[j].id == w.ledger[k].id ==> j == k)
            && w.ledger[j].id in w.rows && w.rows[w.ledger[j].id].owner == Some(w.ledger[j].user)
            && w.ledger[j].amount == ChargedTo(w.ledger[..j], w.ledger[j].month, Installation(w.ledger[j].id))
  {
    RunsKeepInv(Initial(month), steps);
    assert TookOver(Execute(Initial(month), steps).ledger, j);
  }

  /** ... and a user's monthly counter is the user's own charges plus what each merge took over. */
  lemma CounterIsChargesPlusMerges(start: nat, steps: seq<Step>, month: nat, user: string)
    requires Legal(Initial(start), steps)
    ensures var w := Execute(Initial(start), steps);
            Count(w.usage, Key(month, User(user)))
            == ChargedTo(w.ledger, month, User(user)) + MergedInto(w.ledger, month, user)
  {
    RunsKeepInv(Initial(start), steps);
    assert UserCounterOk(Execute(Initial(start), steps), month, user);
  }
}
