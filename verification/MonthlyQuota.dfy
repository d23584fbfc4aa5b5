/** What the monthly quota is for (api/internal/usage/monthly.go:26-53, api/internal/http/middleware/monthly.go:18-31):
    a bound on the counters, over all interleavings of completions and links. */
module MonthlyQuota {
  import opened Wrappers
  import opened MonthlyUsage
  import opened AccountLinks
  import opened LinkLosses

  /** Along the run, the subject is only ever charged under a limit of at most `limit`. */
  predicate ChargedWithin(w: World, steps: seq<Step>, s: Subject, limit: int)
    requires Legal(w, steps)
    decreases |steps|
  {
    steps == [] || (StepWithin(w, steps[0], s, limit) && ChargedWithin(Next(w, steps[0]), steps[1..], s, limit))
  }

  predicate StepWithin(w: World, step: Step, s: Subject, limit: int)
    requires Enabled(w, step)
  {
    step.Run? && w.threads[step.index].Charge? && w.threads[step.index].subject == s ==>
      w.threads[step.index].limit <= limit
  }

  /** What merges have added to the subject's counter of the month. */
  function Inherited(l: seq<Event>, month: nat, s: Subject): int {
    if s.User? then MergedInto(l, month, s.id) else 0
  }

  lemma {:induction false} ChargesAreNotNegative(l: seq<Event>, month: nat, s: Subject)
    requires forall k :: 0 <= k < |l| && l[k].Charged? ==> l[k].amount == 1
    ensures ChargedTo(l, month, s) >= 0
  {
    if l != [] { ChargesAreNotNegative(l[..|l| - 1], month, s); }
  }

  lemma {:induction false} MergesAreNotNegative(l: seq<Event>, month: nat, user: string)
    requires MergesOk(l) && forall k :: 0 <= k < |l| && l[k].Charged? ==> l[k].amount == 1
    ensures MergedInto(l, month, user) >= 0
  {
    if l != [] {
      var p, e := l[..|l| - 1], l[|l| - 1];
      assert TookOver(l, |p|);
      MergesOkPrefix(l);
      MergesAreNotNegative(p, month, user);
      if e.Merged? { ChargesAreNotNegative(p, e.month, Installation(e.id)); }
    }
  }

  ghost predicate WithinQuota(w: World, month: nat, s: Subject, limit: int) {
    Count(w.usage, Key(month, s)) <= limit + Inherited(w.ledger, month, s)
  }

  lemma ChargeWithinQuota(w: World, i: nat, month: nat, s: Subject, limit: int)
    requires Inv(w) && Journal(w) && WithinQuota(w, month, s, limit) && i < |w.threads| && w.threads[i].Charge?
    requires StepWithin(w, Run(i), s, limit)
    ensures WithinQuota(Advance(w, i), month, s, limit)
  {
    AppendedSums(w.ledger, Charged(w.month, w.threads[i].subject, 1));
    if s.User? { MergesAreNotNegative(w.ledger, month, s.id); }
  }

  lemma MergeWithinQuota(w: World, i: nat, month: nat, s: Subject, limit: int)
    requires Inv(w) && WithinQuota(w, month, s, limit) && i < |w.threads| && w.threads[i].LinkMerge?
    ensures WithinQuota(Advance(w, i), month, s, limit)
  {
    var id, user := w.threads[i].id, w.threads[i].user;
    MergeStep(w, i);
    AppendedSums(w.ledger, Merged(w.month, id, user, ChargedTo(w.ledger, w.month, Installation(id))));
    assert OwnCounterOk(w, w.month, id);
  }

  lemma NextWithinQuota(w: World, step: Step, month: nat, s: Subject, limit: int)
    requires Inv(w) && Journal(w) && WithinQuota(w, month, s, limit)
    requires Enabled(w, step) && StepWithin(w, step, s, limit)
    ensures WithinQuota(Next(w, step), month, s, limit)
  {
    if step.Run? && w.threads[step.index].Charge? { ChargeWithinQuota(w, step.index, month, s, limit); }
    else if step.Run? && w.threads[step.index].LinkMerge? { MergeWithinQuota(w, step.index, month, s, limit); }
    else { assert Next(w, step).usage == w.usage && Next(w, step).ledger == w.ledger; }
  }

  lemma {:induction false} RunsStayWithinQuota(w: World, steps: seq<Step>, month: nat, s: Subject, limit: int)
    requires Inv(w) && Journal(w) && WithinQuota(w, month, s, limit)
    requires Legal(w, steps) && ChargedWithin(w, steps, s, limit)
    ensures WithinQuota(Execute(w, steps), month, s, limit)
    decreases |steps|
  {
    if steps != [] {
      NextWithinQuota(w, steps[0], month, s, limit);
      NextInv(w, steps[0]);
      NextJournal(w, steps[0]);
      RunsStayWithinQuota(Next(w, steps[0]), steps[1..], month, s, limit);
    }
  }

  /** In every run in which a subject is charged under limits of at most `limit`, its counter of any month is at most
      that limit; a user's may exceed it by what merges have added, and by no more. */
  lemma CountersStayWithinQuota(start: nat, steps: seq<Step>, month: nat, s: Subject, limit: nat)
    requires Legal(Initial(start), steps) && ChargedWithin(Initial(start), steps, s, limit)
    ensures var w := Execute(Initial(start), steps);
            && (s.Installation? ==> Count(w.usage, Key(month, s)) <= limit)
            && (s.User? ==> Count(w.usage, Key(month, s)) <= limit + MergedInto(w.ledger, month, s.id))
  {
    RunsStayWithinQuota(Initial(start), steps, month, s, limit);
  }

  /** In every reachable state a charge goes through, and is one unit, exactly when the subject's charges of the month
      and what merges have added leave room for it under the charge's limit. */
  lemma ChargedExactlyWhenItFits(start: nat, steps: seq<Step>, i: nat)
    requires Legal(Initial(start), steps)
    requires i < |Execute(Initial(start), steps).threads| && Execute(Initial(start), steps).threads[i].Charge?
    ensures var w := Execute(Initial(start), steps);
            var s, limit := w.threads[i].subject, w.threads[i].limit;
            Advance(w, i).ledger
            == if ChargedTo(w.ledger, w.month, s) + Inherited(w.ledger, w.month, s) + 1 <= limit
               then w.ledger + [Charged(w.month, s, 1)] else w.ledger
  {
    RunsKeepInv(Initial(start), steps);
    var w := Execute(Initial(start), steps);
    var s := w.threads[i].subject;
    match s
    case User(user) => assert UserCounterOk(w, w.month, user);
    case Installation(id) => assert OwnCounterOk(w, w.month, id);
  }

  /** A completion of an installation, when nothing comes between its two steps: it is charged to the owner, or to the
      installation while it has none, unless it is revoked or the quota is used up; a new one is entered, active. */
  lemma CompletionIsCharged(w: World, i: nat, id: string, limit: int)
    requires Inv(w) && i < |w.threads| && w.threads[i] == ReadInstallation(id, limit)
    ensures var w' := Advance(Advance(w, i), i);
            var s := if id in w.rows && w.rows[id].owner.Some? then User(w.rows[id].owner.value) else Installation(id);
            var room := ChargedTo(w.ledger, w.month, s) + Inherited(w.ledger, w.month, s) + 1 <= limit;
            && w'.threads[i].Ended? && id in w'.rows
            && w'.rows == (if id in w.rows then w.rows else w.rows[id := Row(None, true, false)])
            && w'.ledger == if (id in w.rows ==> w.rows[id].active) && room
                            then w.ledger + [Charged(w.month, s, 1)] else w.ledger
  {
    var s := if id in w.rows && w.rows[id].owner.Some? then User(w.rows[id].owner.value) else Installation(id);
    match s
    case User(user) => assert UserCounterOk(w, w.month, user);
    case Installation(id') => assert OwnCounterOk(w, w.month, id');
  }
}
