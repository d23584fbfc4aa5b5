/** What a link can lose. A user who owns an installation should find the installation's charges of a month in the
    user's counter of that month; the merge (api/internal/usage/monthly.go:43-53) moves only what it finds, once,
    in the month in which it runs. Here: how much is missing in every reachable state, when nothing is, and which
    charge can still be taken over. */
module LinkLosses {
  import opened Wrappers
  import opened MonthlyUsage
  import opened AccountLinks

  // ---- charges to owned installations

  ghost function OwnedBy(rows: map<string, Row>, user: string): set<string> {
    set id | id in rows && rows[id].owner == Some(user)
  }

  predicate MergesIn(l: seq<Event>, month: nat, id: string) {
    exists j :: 0 <= j < |l| && l[j].Merged? && l[j].id == id && l[j].month == month
  }

  predicate OwnedCharge(e: Event, owned: set<string>, month: nat) {
    e.Charged? && e.month == month && e.subject.Installation? && e.subject.id in owned
  }

  /** All charges of the month to the installations of a set. */
  function OwnedCharges(l: seq<Event>, owned: set<string>, month: nat): int {
    if l == [] then 0
    else (if OwnedCharge(l[0], owned, month) then l[0].amount else 0) + OwnedCharges(l[1..], owned, month)
  }

  /** Those of them that no later merge of the installation in that month has taken over. */
  function Stranded(l: seq<Event>, owned: set<string>, month: nat): int {
    if l == [] then 0
    else
      (if OwnedCharge(l[0], owned, month) && !MergesIn(l[1..], month, l[0].subject.id) then l[0].amount else 0)
      + Stranded(l[1..], owned, month)
  }

  /** The `k`-th event, if it charges an installation of the set, is followed by a merge of it in its month. */
  predicate TakenOver(l: seq<Event>, k: nat, owned: set<string>, month: nat)
    requires k < |l|
  {
    OwnedCharge(l[k], owned, month) ==> MergesIn(l[k + 1..], month, l[k].subject.id)
  }

  ghost predicate AllTakenOver(l: seq<Event>, owned: set<string>, month: nat) {
    forall k {:trigger TakenOver(l, k, owned, month)} :: 0 <= k < |l| ==> TakenOver(l, k, owned, month)
  }

  lemma MergesInAppend(l: seq<Event>, e: Event, month: nat, id: string)
    ensures MergesIn(l + [e], month, id) <==> MergesIn(l, month, id) || (e.Merged? && e.id == id && e.month == month)
  {
    var l' := l + [e];
    if MergesIn(l, month, id) {
      var j :| 0 <= j < |l| && l[j].Merged? && l[j].id == id && l[j].month == month;
      assert l'[j] == l[j];
    }
    if e.Merged? && e.id == id && e.month == month { assert l'[|l|] == e; }
  }

  lemma {:induction false} OwnedChargesAppend(l: seq<Event>, e: Event, owned: set<string>, month: nat)
    ensures OwnedCharges(l + [e], owned, month)
            == OwnedCharges(l, owned, month) + if OwnedCharge(e, owned, month) then e.amount else 0
  {
    if l == [] {
      assert [] + [e] == [e] && [e][1..] == [];
    } else {
      assert (l + [e])[1..] == l[1..] + [e];
      OwnedChargesAppend(l[1..], e, owned, month);
    }
  }

  lemma {:induction false} ChargedInFront(x: Event, l: seq<Event>, month: nat, s: Subject)
    ensures ChargedTo([x] + l, month, s)
            == (if x.Charged? && x.month == month && x.subject == s then x.amount else 0) + ChargedTo(l, month, s)
  {
    if l == [] {
      assert [x] + l == [x] && [x][..0] == [];
    } else {
      assert ([x] + l)[..|l|] == [x] + l[..|l| - 1];
      ChargedInFront(x, l[..|l| - 1], month, s);
    }
  }

  /** A charge adds itself to the stranded ones; a first merge takes over all that the installation was charged in
      the month, and touches no other month. */
  lemma {:induction false} StrandedAppend(l: seq<Event>, e: Event, owned: set<string>, month: nat)
    requires e.Merged? ==> !IsMerged(l, e.id)
    ensures Stranded(l + [e], owned, month)
            == Stranded(l, owned, month)
               + (if OwnedCharge(e, owned, month) then e.amount else 0)
               - (if e.Merged? && e.month == month && e.id in owned then ChargedTo(l, month, Installation(e.id)) else 0)
  {
    if l == [] {
      assert [] + [e] == [e] && [e][1..] == [];
    } else {
      var x, r := l[0], l[1..];
      assert l == [x] + r && (l + [e])[1..] == r + [e];
      if e.Merged? { NotMergedLater(l, e.id); }
      StrandedAppend(r, e, owned, month);
      if e.Merged? { ChargedInFront(x, r, month, Installation(e.id)); }
      if OwnedCharge(x, owned, month) { MergesInAppend(r, e, month, x.subject.id); }
    }
  }

  lemma NotMergedLater(l: seq<Event>, id: string)
    requires l != [] && !IsMerged(l, id)
    ensures !IsMerged(l[1..], id)
    ensures forall month :: !MergesIn(l[1..], month, id)
  {
    assert forall j :: 0 <= j < |l[1..]| ==> l[1..][j] == l[j + 1];
  }

  lemma MergesOkPrefix(l: seq<Event>)
    requires MergesOk(l) && l != []
    ensures MergesOk(l[..|l| - 1])
  {
    var p := l[..|l| - 1];
    forall k | 0 <= k < |p| ensures TookOver(p, k) {
      assert p[..k] == l[..k] && TookOver(l, k);
    }
  }

  /** The merges into the user are the merges of the set. */
  predicate MergesAreOf(l: seq<Event>, owned: set<string>, user: string) {
    forall k :: 0 <= k < |l| && l[k].Merged? ==> (l[k].user == user <==> l[k].id in owned)
  }

  /** What the merges took over and what is stranded add up to everything charged to the installations. */
  lemma {:induction false} MergedPlusStranded(l: seq<Event>, owned: set<string>, month: nat, user: string)
    requires MergesOk(l) && MergesAreOf(l, owned, user)
    ensures MergedInto(l, month, user) + Stranded(l, owned, month) == OwnedCharges(l, owned, month)
  {
    if l != [] {
      var p, e := l[..|l| - 1], l[|l| - 1];
      assert l == p + [e] && TookOver(l, |p|);
      MergesOkPrefix(l);
      MergedPlusStranded(p, owned, month, user);
      assert e.Merged? ==> !IsMerged(p, e.id);
      OwnedChargesAppend(p, e, owned, month);
      StrandedAppend(p, e, owned, month);
      AppendedSums(p, e);
    }
  }

  /** With positive amounts, nothing is stranded if and only if every charge has been taken over. */
  lemma {:induction false} NothingStranded(l: seq<Event>, owned: set<string>, month: nat)
    requires forall k :: 0 <= k < |l| && l[k].Charged? ==> l[k].amount > 0
    ensures Stranded(l, owned, month) >= 0
    ensures Stranded(l, owned, month) == 0 <==> AllTakenOver(l, owned, month)
  {
    if l != [] {
      NothingStranded(l[1..], owned, month);
      forall k | 0 <= k < |l[1..]| ensures TakenOver(l[1..], k, owned, month) <==> TakenOver(l, k + 1, owned, month) {
        assert l[1..][k + 1..] == l[k + 2..] && l[1..][k] == l[k + 1];
      }
      if AllTakenOver(l, owned, month) { assert TakenOver(l, 0, owned, month); }
      if Stranded(l, owned, month) == 0 {
        forall k | 0 <= k < |l| ensures TakenOver(l, k, owned, month) {
          if k > 0 { assert TakenOver(l[1..], k - 1, owned, month); }
        }
      }
      if AllTakenOver(l, owned, month) {
        forall k | 0 <= k < |l[1..]| ensures TakenOver(l[1..], k, owned, month) {
          assert TakenOver(l, k + 1, owned, month);
        }
      }
    }
  }

  // ---- the ledger as a journal

  /** Charges are of one unit, months never go back, and whoever charges an installation has seen its row. */
  ghost predicate Journal(w: World) {
    && (forall k :: 0 <= k < |w.ledger| && w.ledger[k].Charged? ==> w.ledger[k].amount == 1)
    && (forall k :: 0 <= k < |w.ledger| ==> w.ledger[k].month <= w.month)
    && (forall j, k :: 0 <= j < k < |w.ledger| ==> w.ledger[j].month <= w.ledger[k].month)
    && (forall i :: 0 <= i < |w.threads| && w.threads[i].Charge? && w.threads[i].subject.Installation? ==>
          w.threads[i].subject.id in w.rows)
  }

  lemma NextJournal(w: World, step: Step)
    requires Journal(w) && Enabled(w, step)
    ensures Journal(Next(w, step))
  {
  }

  lemma {:induction false} RunsKeepJournal(w: World, steps: seq<Step>)
    requires Inv(w) && Journal(w) && Legal(w, steps)
    ensures Inv(Execute(w, steps)) && Journal(Execute(w, steps))
    decreases |steps|
  {
    if steps != [] {
      NextInv(w, steps[0]);
      NextJournal(w, steps[0]);
      RunsKeepJournal(Next(w, steps[0]), steps[1..]);
    }
  }

  // ---- how much is lost

  /** The user's counter shows everything that the user and the installations the user owns were charged. */
  ghost predicate NothingMissing(w: World, month: nat, user: string) {
    Count(w.usage, Key(month, User(user)))
    == ChargedTo(w.ledger, month, User(user)) + OwnedCharges(w.ledger, OwnedBy(w.rows, user), month)
  }

  lemma LossHere(w: World, month: nat, user: string)
    requires Inv(w) && Journal(w)
    ensures var owned := OwnedBy(w.rows, user);
            && Count(w.usage, Key(month, User(user))) + Stranded(w.ledger, owned, month)
               == ChargedTo(w.ledger, month, User(user)) + OwnedCharges(w.ledger, owned, month)
            && (NothingMissing(w, month, user) <==> AllTakenOver(w.ledger, owned, month))
  {
    var owned := OwnedBy(w.rows, user);
    assert UserCounterOk(w, month, user);
    MergedPlusStranded(w.ledger, owned, month, user);
    NothingStranded(w.ledger, owned, month);
  }

  /** In every reachable state, after any crashes, overlaps and month changes: a user's counter of a month falls
      short of what the user and the owned installations were charged by exactly the stranded charges; so nothing is
      missing if and only if every charge to an owned installation is followed by its merge in the same month. */
  lemma LossIsExactlyStranded(start: nat, steps: seq<Step>, month: nat, user: string)
    requires Legal(Initial(start), steps)
    ensures var w := Execute(Initial(start), steps);
            var owned := OwnedBy(w.rows, user);
            && Count(w.usage, Key(month, User(user))) + Stranded(w.ledger, owned, month)
               == ChargedTo(w.ledger, month, User(user)) + OwnedCharges(w.ledger, owned, month)
            && (NothingMissing(w, month, user) <==> AllTakenOver(w.ledger, owned, month))
  {
    RunsKeepJournal(Initial(start), steps);
    LossHere(Execute(Initial(start), steps), month, user);
  }

  // ---- which charge can still be taken over

  /** A merge of the installation can still happen: a thread is about to run it, or the row has not been marked and
      is active or has a thread about to mark it. */
  predicate CanMerge(w: World, id: string)
    requires id in w.rows
  {
    || (exists i :: 0 <= i < |w.threads| && w.threads[i].LinkMerge? && w.threads[i].id == id)
    || (!w.rows[id].usageLinked
        && (w.rows[id].active || exists i :: 0 <= i < |w.threads| && w.threads[i].LinkMark? && w.threads[i].id == id))
  }

  lemma SettledStep(w: World, step: Step, id: string)
    requires id in w.rows && !CanMerge(w, id) && Enabled(w, step)
    ensures id in Next(w, step).rows && !CanMerge(Next(w, step), id)
    ensures var l := Next(w, step).ledger;
            l == w.ledger || (|l| == |w.ledger| + 1 && l[..|w.ledger|] == w.ledger
                              && !(l[|w.ledger|].Merged? && l[|w.ledger|].id == id))
  {
    var w' := Next(w, step);
    if step.Run? && w'.ledger != w.ledger { assert w'.ledger[..|w.ledger|] == w.ledger; }
  }

  lemma {:induction false} SettledForever(w: World, steps: seq<Step>, id: string)
    requires id in w.rows && !CanMerge(w, id) && Legal(w, steps)
    ensures var l := Execute(w, steps).ledger;
            |w.ledger| <= |l| && !IsMerged(l[|w.ledger|..], id)
    decreases |steps|
  {
    var n := |w.ledger|;
    if steps == [] {
      assert w.ledger[n..] == [];
    } else {
      var m := Next(w, steps[0]);
      SettledStep(w, steps[0], id);
      SettledForever(m, steps[1..], id);
      var l := Execute(w, steps).ledger;
      LedgerGrows(m, steps[1..]);
      if m.ledger != w.ledger {
        assert l[n] == m.ledger[n];
        assert forall j :: 0 < j < |l[n..]| ==> l[n..][j] == l[n + 1..][j - 1];
      }
    }
  }

  lemma {:induction false} LedgerGrows(w: World, steps: seq<Step>)
    requires Legal(w, steps)
    ensures w.ledger <= Execute(w, steps).ledger
    decreases |steps|
  {
    if steps != [] {
      LedgerGrows(Next(w, steps[0]), steps[1..]);
      assert w.ledger <= Next(w, steps[0]).ledger;
    }
  }

  /** The events after the first `n` hold a merge of the installation in the month. */
  predicate MergesSince(w: World, n: nat, month: nat, id: string) {
    n <= |w.ledger| && MergesIn(w.ledger[n..], month, id)
  }

  /** A run that merges the installation in the current month, when one is possible. */
  lemma MergeAhead(w: World, id: string) returns (steps: seq<Step>)
    requires Inv(w) && id in w.rows && CanMerge(w, id)
    ensures Legal(w, steps) && MergesSince(Execute(w, steps), |w.ledger|, w.month, id)
  {
    if i: nat :| i < |w.threads| && w.threads[i].LinkMerge? && w.threads[i].id == id {
      steps := MergeNow(w, i);
    } else if i: nat :| i < |w.threads| && w.threads[i].LinkMark? && w.threads[i].id == id && !w.rows[id].usageLinked {
      steps := MarkThenMerge(w, i);
    } else {
      steps := LinkThenMerge(w, id);
    }
  }

  lemma MergeNow(w: World, i: nat) returns (steps: seq<Step>)
    requires Inv(w) && i < |w.threads| && w.threads[i].LinkMerge?
    ensures Legal(w, steps) && MergesSince(Execute(w, steps), |w.ledger|, w.month, w.threads[i].id)
  {
    steps := [Run(i)];
    MergeStep(w, i);
    OneStep(w, Run(i));
    var id := w.threads[i].id;
    AppendedMerge(w.ledger, Merged(w.month, id, w.threads[i].user, ChargedTo(w.ledger, w.month, Installation(id))));
  }

  lemma OneStep(w: World, step: Step)
    requires Enabled(w, step)
    ensures Legal(w, [step]) && Execute(w, [step]) == Next(w, step)
  {
    assert [step][1..] == [];
  }

  lemma AppendedMerge(l: seq<Event>, e: Event)
    requires e.Merged?
    ensures |l| <= |l + [e]| && MergesIn((l + [e])[|l|..], e.month, e.id)
  {
    assert (l + [e])[|l|..] == [e] && [e][0] == e;
  }

  lemma MarkThenMerge(w: World, i: nat) returns (steps: seq<Step>)
    requires Inv(w) && i < |w.threads| && w.threads[i].LinkMark?
    requires w.threads[i].id in w.rows && !w.rows[w.threads[i].id].usageLinked
    ensures Legal(w, steps) && MergesSince(Execute(w, steps), |w.ledger|, w.month, w.threads[i].id)
  {
    NextInv(w, Run(i));
    var later := MergeNow(Advance(w, i), i);
    steps := [Run(i)] + later;
    assert steps[1..] == later;
  }

  lemma LinkThenMerge(w: World, id: string) returns (steps: seq<Step>)
    requires Inv(w) && id in w.rows && w.rows[id].active && !w.rows[id].usageLinked
    ensures Legal(w, steps) && MergesSince(Execute(w, steps), |w.ledger|, w.month, id)
  {
    var user := if w.rows[id].owner.Some? then w.rows[id].owner.value else "u";
    var i, arrive := |w.threads|, Arrive(LinkRow(user, id));
    var a := Next(w, arrive);
    NextInv(w, arrive);
    NextInv(a, Run(i));
    var later := MarkThenMerge(Advance(a, i), i);
    var rest := [Run(i)] + later;
    assert rest[1..] == later;
    steps := [arrive] + rest;
    assert steps[1..] == rest;
  }

  /** A completion that read an installation without an owner is charging it. The charge can still reach the
      owner's counter if and only if a merge can still happen: when the row has not been marked and is active or
      about to be marked, or a merge is about to run. */
  lemma ChargeCanBeTakenOverExactlyWhen(w: World, j: nat, id: string, limit: int, owned: set<string>)
    requires Inv(w) && Journal(w) && j < |w.threads| && w.threads[j] == Charge(Installation(id), limit) && id in owned
    requires Fits(w.usage, Key(w.month, Installation(id)), limit, 1)
    ensures id in w.rows
    ensures CanMerge(w, id) <==> exists steps :: Legal(Advance(w, j), steps)
                                   && |w.ledger| < |Execute(Advance(w, j), steps).ledger|
                                   && TakenOver(Execute(Advance(w, j), steps).ledger, |w.ledger|, owned, w.month)
  {
    var w', n := Advance(w, j), |w.ledger|;
    NextInv(w, Run(j));
    assert w'.ledger[n] == Charged(w.month, Installation(id), 1) && |w'.ledger| == n + 1;
    ChargeKeepsCanMerge(w, j, id);
    if CanMerge(w, id) {
      var steps := MergeAhead(w', id);
      LedgerGrows(w', steps);
      assert TakenOver(Execute(w', steps).ledger, n, owned, w.month);
    } else {
      forall steps | Legal(w', steps) && n < |Execute(w', steps).ledger|
        ensures !TakenOver(Execute(w', steps).ledger, n, owned, w.month)
      {
        LedgerGrows(w', steps);
        SettledForever(w', steps, id);
      }
    }
  }

  lemma ChargeKeepsCanMerge(w: World, j: nat, id: string)
    requires j < |w.threads| && w.threads[j].Charge? && id in w.rows
    ensures CanMerge(Advance(w, j), id) <==> CanMerge(w, id)
  {
    var w' := Advance(w, j);
    assert forall i :: 0 <= i < |w.threads| && i != j ==> w'.threads[i] == w.threads[i];
  }

  // ---- runs without overlap or failure

  /** A completion that was authorised without an owner is still to be charged when the link commits. */
  predicate Overlaps(w: World, step: Step) {
    step.Run? && step.index < |w.threads| && w.threads[step.index].LinkRow?
    && LinkVerdict(w.rows, w.threads[step.index].id, w.threads[step.index].user).None?
    && exists j :: 0 <= j < |w.threads| && w.threads[j].Charge?
                   && w.threads[j].subject == Installation(w.threads[step.index].id)
  }

  predicate Undisturbed(w: World, steps: seq<Step>)
    requires Legal(w, steps)
    decreases |steps|
  {
    steps == [] || (!Overlaps(w, steps[0]) && Undisturbed(Next(w, steps[0]), steps[1..]))
  }

  predicate WithoutCrash(steps: seq<Step>) {
    forall k :: 0 <= k < |steps| ==> !steps[k].Crash?
  }

  /** No charge to an installation comes after its merge, in any month. */
  ghost predicate NoneLate(l: seq<Event>) {
    forall j, k :: 0 <= j < k < |l| && l[j].Merged? && l[k].Charged? ==> l[k].subject != Installation(l[j].id)
  }

  /** Whoever is about to charge an installation found it without an owner, and it still has none. */
  ghost predicate NoStray(w: World) {
    && (forall i :: 0 <= i < |w.threads| && w.threads[i].Charge? && w.threads[i].subject.Installation? ==>
          w.threads[i].subject.id in w.rows && w.rows[w.threads[i].subject.id].owner.None?)
    && NoneLate(w.ledger)
  }

  lemma RowKeepsNoStray(w: World, i: nat)
    requires Inv(w) && NoStray(w) && i < |w.threads| && !w.threads[i].LinkMerge? && !w.threads[i].Charge?
    requires !Overlaps(w, Run(i))
    ensures NoStray(Advance(w, i))
  {
    var w' := Advance(w, i);
    assert w'.ledger == w.ledger;
    forall j | 0 <= j < |w'.threads| && w'.threads[j].Charge? && w'.threads[j].subject.Installation?
      ensures w'.threads[j].subject.id in w'.rows && w'.rows[w'.threads[j].subject.id].owner.None?
    {
      if j != i {
        assert w.threads[j].Charge? && w.rows[w.threads[j].subject.id].owner.None?;
        assert w.threads[i].LinkRow? && LinkVerdict(w.rows, w.threads[i].id, w.threads[i].user).None? ==>
            w.threads[j].subject != Installation(w.threads[i].id);
      }
    }
  }

  lemma StepKeepsNoStray(w: World, step: Step)
    requires Inv(w) && NoStray(w) && Enabled(w, step) && !Overlaps(w, step)
    ensures NoStray(Next(w, step))
  {
    if step.Run? && !w.threads[step.index].LinkMerge? && !w.threads[step.index].Charge? {
      RowKeepsNoStray(w, step.index);
    }
  }

  lemma {:induction false} UndisturbedRunsKeepNoStray(w: World, steps: seq<Step>)
    requires Inv(w) && NoStray(w) && Legal(w, steps) && Undisturbed(w, steps)
    ensures NoStray(Execute(w, steps))
    decreases |steps|
  {
    if steps != [] {
      StepKeepsNoStray(w, steps[0]);
      NextInv(w, steps[0]);
      UndisturbedRunsKeepNoStray(Next(w, steps[0]), steps[1..]);
    }
  }

  /** Every owned installation has been merged or some link thread is still on its way to do so. */
  ghost predicate Pending(w: World) {
    forall id :: id in w.rows && w.rows[id].owner.Some? ==> IsMerged(w.ledger, id) || Expected(w, id)
  }

  predicate Expected(w: World, id: string)
    requires id in w.rows
  {
    exists i :: 0 <= i < |w.threads| &&
      if w.rows[id].usageLinked then w.threads[i].LinkMerge? && w.threads[i].id == id
      else w.threads[i].LinkMark? && w.threads[i].id == id
  }

  lemma StepKeepsPending(w: World, step: Step)
    requires Inv(w) && Pending(w) && Enabled(w, step) && !step.Crash?
    ensures Pending(Next(w, step))
  {
    var w' := Next(w, step);
    forall id | id in w'.rows && w'.rows[id].owner.Some? ensures IsMerged(w'.ledger, id) || Expected(w', id) {
      match step
      case Run(i) => RunKeepsPending(w, i, id);
      case Crash(_) =>
      case _ =>
        if !IsMerged(w.ledger, id) {
          var j := ExpectedBy(w, id);
          assert w'.threads[j] == w.threads[j];
        }
    }
  }

  lemma ExpectedBy(w: World, id: string) returns (j: nat)
    requires id in w.rows && w.rows[id].owner.Some? && Pending(w) && !IsMerged(w.ledger, id)
    ensures j < |w.threads| && Linking(w.threads[j], id) && w.threads[j].LinkMerge? == w.rows[id].usageLinked
  {
    assert Expected(w, id);
    j :| 0 <= j < |w.threads| &&
         if w.rows[id].usageLinked then w.threads[j].LinkMerge? && w.threads[j].id == id
         else w.threads[j].LinkMark? && w.threads[j].id == id;
  }

  lemma RunKeepsPending(w: World, i: nat, id: string)
    requires Inv(w) && Pending(w) && i < |w.threads|
    requires id in Advance(w, i).rows && Advance(w, i).rows[id].owner.Some?
    ensures IsMerged(Advance(w, i).ledger, id) || Expected(Advance(w, i), id)
  {
    var w', thread := Advance(w, i), w.threads[i];
    assert ThreadOk(w, i);
    if IsMerged(w.ledger, id) {
      if w'.ledger != w.ledger { AppendedSums(w.ledger, w'.ledger[|w.ledger|]); }
    } else if thread.LinkMerge? && thread.id == id {
      MergeStep(w, i);
      AppendedSums(w.ledger, w'.ledger[|w.ledger|]);
    } else if id !in w.rows || w.rows[id].owner.None? {
      // The link has just committed.
      assert thread.LinkRow? && w'.threads[i] == LinkMark(thread.user, id) && !w'.rows[id].usageLinked;
    } else {
      var j := ExpectedBy(w, id);
      if thread.LinkMark? && thread.id == id && !w.rows[id].usageLinked {
        assert w'.threads[i] == LinkMerge(thread.user, id);
      } else {
        assert j != i && w'.threads[j] == w.threads[j] && w'.rows[id].usageLinked == w.rows[id].usageLinked;
      }
    }
  }

  lemma {:induction false} CrashFreeRunsKeepPending(w: World, steps: seq<Step>)
    requires Inv(w) && Pending(w) && Legal(w, steps) && WithoutCrash(steps)
    ensures Pending(Execute(w, steps))
    decreases |steps|
  {
    if steps != [] {
      StepKeepsPending(w, steps[0]);
      NextInv(w, steps[0]);
      CrashFreeRunsKeepPending(Next(w, steps[0]), steps[1..]);
    }
  }

  /** No link call is past its first step and still short of its end. */
  predicate LinksAreDone(w: World) {
    forall i :: 0 <= i < |w.threads| ==> !w.threads[i].LinkMark? && !w.threads[i].LinkMerge?
  }

  lemma DoneMeansMerged(w: World, id: string)
    requires Pending(w) && LinksAreDone(w) && id in w.rows && w.rows[id].owner.Some?
    ensures IsMerged(w.ledger, id)
  {
    if !IsMerged(w.ledger, id) { var j := ExpectedBy(w, id); }
  }

  /** With no failure and no completion overlapping a link, once the link calls are done: every owned installation has
      been merged, no charge to it came after its merge, and in each month nothing is missing from its owner's
      counter if and only if every owned installation charged in that month was also merged in it. */
  lemma NothingIsLost(start: nat, steps: seq<Step>)
    requires Legal(Initial(start), steps) && Undisturbed(Initial(start), steps) && WithoutCrash(steps)
    requires LinksAreDone(Execute(Initial(start), steps))
    ensures var w := Execute(Initial(start), steps);
            && (forall id :: id in w.rows && w.rows[id].owner.Some? ==> IsMerged(w.ledger, id))
            && NoneLate(w.ledger)
            && forall month: nat, user {:trigger NothingMissing(w, month, user)} ::
                 NothingMissing(w, month, user)
                 <==> forall k :: 0 <= k < |w.ledger| && OwnedCharge(w.ledger[k], OwnedBy(w.rows, user), month) ==>
                        MergesIn(w.ledger, month, w.ledger[k].subject.id)
  {
    var w := Execute(Initial(start), steps);
    assert Inv(Initial(start)) && NoStray(Initial(start)) && Pending(Initial(start));
    UndisturbedRunsKeepNoStray(Initial(start), steps);
    CrashFreeRunsKeepPending(Initial(start), steps);
    forall id | id in w.rows && w.rows[id].owner.Some? ensures IsMerged(w.ledger, id) {
      DoneMeansMerged(w, id);
    }
    forall month: nat, user ensures NothingMissing(w, month, user)
                 <==> forall k :: 0 <= k < |w.ledger| && OwnedCharge(w.ledger[k], OwnedBy(w.rows, user), month) ==>
                        MergesIn(w.ledger, month, w.ledger[k].subject.id)
    {
      LossIsExactlyStranded(start, steps, month, user);
      MergedAtAllIsMergedLater(w.ledger, OwnedBy(w.rows, user), month);
    }
  }

  /** A charge that no merge precedes is taken over as soon as there is a merge at all. */
  lemma MergedAtAllIsMergedLater(l: seq<Event>, owned: set<string>, month: nat)
    requires NoneLate(l)
    ensures AllTakenOver(l, owned, month)
            <==> forall k :: 0 <= k < |l| && OwnedCharge(l[k], owned, month) ==> MergesIn(l, month, l[k].subject.id)
  {
    forall k | 0 <= k < |l| && OwnedCharge(l[k], owned, month)
      ensures TakenOver(l, k, owned, month) <==> MergesIn(l, month, l[k].subject.id)
    {
      MergedLater(l, k, month, l[k].subject.id);
    }
    if AllTakenOver(l, owned, month) {
      forall k | 0 <= k < |l| && OwnedCharge(l[k], owned, month) ensures MergesIn(l, month, l[k].subject.id) {
        assert TakenOver(l, k, owned, month);
      }
    }
  }

  lemma MergedLater(l: seq<Event>, k: nat, month: nat, id: string)
    requires NoneLate(l) && k < |l| && l[k].Charged? && l[k].subject == Installation(id)
    ensures MergesIn(l[k + 1..], month, id) <==> MergesIn(l, month, id)
  {
    if MergesIn(l, month, id) {
      var j :| 0 <= j < |l| && l[j].Merged? && l[j].id == id && l[j].month == month;
      assert j > k && l[k + 1..][j - k - 1] == l[j];
    }
    if MergesIn(l[k + 1..], month, id) {
      var j :| 0 <= j < |l[k + 1..]| && l[k + 1..][j].Merged? && l[k + 1..][j].id == id && l[k + 1..][j].month == month;
      assert l[k + 1 + j] == l[k + 1..][j];
    }
  }

  // ---- runs in which a charge is lost

  /** Reached from the start; without any crash if `crashFree`. */
  ghost predicate Reached(w: World, crashFree: bool) {
    exists steps :: Legal(Initial(0), steps) && (crashFree ==> WithoutCrash(steps)) && Execute(Initial(0), steps) == w
  }

  lemma {:induction false} Extend(w: World, steps: seq<Step>, step: Step)
    requires Legal(w, steps) && Enabled(Execute(w, steps), step)
    ensures Legal(w, steps + [step]) && Execute(w, steps + [step]) == Next(Execute(w, steps), step)
    decreases |steps|
  {
    if steps == [] {
      assert [] + [step] == [step] && [step][1..] == [];
    } else {
      Extend(Next(w, steps[0]), steps[1..], step);
      assert (steps + [step])[1..] == steps[1..] + [step];
    }
  }

  lemma ReachNext(w: World, step: Step, w': World, crashFree: bool)
    requires Reached(w, crashFree) && Enabled(w, step) && (crashFree ==> !step.Crash?) && Next(w, step) == w'
    ensures Reached(w', crashFree)
  {
    var steps :| Legal(Initial(0), steps) && (crashFree ==> WithoutCrash(steps)) && Execute(Initial(0), steps) == w;
    Extend(Initial(0), steps, step);
    assert crashFree ==> WithoutCrash(steps + [step]);
  }

  lemma ReachedInv(w: World, crashFree: bool)
    requires Reached(w, crashFree)
    ensures Inv(w) && Journal(w)
  {
    var steps :| Legal(Initial(0), steps) && Execute(Initial(0), steps) == w;
    RunsKeepJournal(Initial(0), steps);
  }

  /** A completion that read the installation before anyone owned it, and a link. */
  function Crossing(id: string, limit: int, link: Thread, owner: Option<string>, linked: bool): World {
    World(map[id := Row(owner, true, linked)], Usage(map[], {}), 0, [Charge(Installation(id), limit), link], [])
  }

  lemma ReachCrossing(id: string, user: string, limit: int, crashFree: bool)
    ensures Reached(Crossing(id, limit, LinkRow(user, id), None, false), crashFree)
  {
    var w0, read := Initial(0), ReadInstallation(id, limit);
    assert Legal(w0, []) && Execute(w0, []) == w0 && WithoutCrash([]);
    var w1 := w0.(threads := [read]);
    ReachNext(w0, Arrive(read), w1, crashFree);
    var w2 := w1.(rows := map[id := Row(None, true, false)], threads := [Charge(Installation(id), limit)]);
    ReachNext(w1, Run(0), w2, crashFree);
    ReachNext(w2, Arrive(LinkRow(user, id)), Crossing(id, limit, LinkRow(user, id), None, false), crashFree);
  }

  lemma CrossingRuns(id: string, user: string, limit: int, crashFree: bool)
    ensures Reached(Crossing(id, limit, LinkMerge(user, id), Some(user), true), crashFree)
  {
    ReachCrossing(id, user, limit, crashFree);
    CrossingRow(id, user, limit);
    ReachNext(Crossing(id, limit, LinkRow(user, id), None, false), Run(1),
              Crossing(id, limit, LinkMark(user, id), Some(user), false), crashFree);
    CrossingMark(id, user, limit);
    ReachNext(Crossing(id, limit, LinkMark(user, id), Some(user), false), Run(1),
              Crossing(id, limit, LinkMerge(user, id), Some(user), true), crashFree);
  }

  lemma CrossingRow(id: string, user: string, limit: int)
    ensures Advance(Crossing(id, limit, LinkRow(user, id), None, false), 1)
            == Crossing(id, limit, LinkMark(user, id), Some(user), false)
  {
  }

  lemma CrossingMark(id: string, user: string, limit: int)
    ensures Advance(Crossing(id, limit, LinkMark(user, id), Some(user), false), 1)
            == Crossing(id, limit, LinkMerge(user, id), Some(user), true)
  {
  }

  /** One charge of the month is missing from the counter of the installation's owner, and can no longer reach it. */
  ghost predicate LostOne(w: World, id: string, user: string, month: nat) {
    && id in w.rows && w.rows[id].owner == Some(user) && !CanMerge(w, id)
    && Stranded(w.ledger, OwnedBy(w.rows, user), month) == 1
    && Count(w.usage, Key(month, User(user))) == 0
    && !NothingMissing(w, month, user)
  }

  lemma OneOwned(w: World, id: string, user: string)
    requires w.rows.Keys == {id} && w.rows[id].owner == Some(user)
    ensures OwnedBy(w.rows, user) == {id}
  {
  }

  /** The merge has run in month 0, and the completion is charged after it in `month`. */
  lemma ChargedAfterMerge(id: string, user: string, limit: int, m: World, month: nat)
    requires limit >= 1 && Reached(m, true) && m.rows == map[id := Row(Some(user), true, true)] && m.month == month
    requires m.ledger == [Merged(0, id, user, 0)] && m.threads == [Charge(Installation(id), limit), Ended]
    requires Count(m.usage, Key(month, Installation(id))) == 0 && Count(m.usage, Key(month, User(user))) == 0
    ensures Reached(Advance(m, 0), true) && LostOne(Advance(m, 0), id, user, month)
  {
    var w, merged, charge := Advance(m, 0), Merged(0, id, user, 0), Charged(month, Installation(id), 1);
    ReachNext(m, Run(0), w, true);
    ReachedInv(w, true);
    OneOwned(w, id, user);
    assert w.ledger == [merged] + [charge];
    assert [] + [merged] == [merged];
    StrandedAppend([], merged, {id}, month);
    StrandedAppend([merged], charge, {id}, month);
    LossHere(w, month, user);
    NothingStranded(w.ledger, {id}, month);
  }

  /** With an overlap a charge can be lost without any failure, for every installation, user and limit: the
      completion is charged only after the link has run to its end. */
  lemma OverlapLosesTheCharge(id: string, user: string, limit: int) returns (w: World)
    requires limit >= 1
    ensures Reached(w, true) && w.month == 0 && LostOne(w, id, user, 0)
  {
    CrossingRuns(id, user, limit, true);
    var c := Crossing(id, limit, LinkMerge(user, id), Some(user), true);
    var m := Advance(c, 1);
    ReachNext(c, Run(1), m, true);
    ChargedAfterMerge(id, user, limit, m, 0);
    w := Advance(m, 0);
  }

  /** The same when the month ends between the merge and the charge: the merge was in another month. */
  lemma MonthEndLosesTheCharge(id: string, user: string, limit: int) returns (w: World)
    requires limit >= 1
    ensures Reached(w, true) && w.month == 1 && MergesIn(w.ledger, 0, id) && LostOne(w, id, user, 1)
  {
    CrossingRuns(id, user, limit, true);
    var c := Crossing(id, limit, LinkMerge(user, id), Some(user), true);
    var m := Advance(c, 1);
    ReachNext(c, Run(1), m, true);
    var next := Next(m, NextMonth);
    ReachNext(m, NextMonth, next, true);
    ChargedAfterMerge(id, user, limit, next, 1);
    w := Advance(next, 0);
    assert w.ledger[0] == Merged(0, id, user, 0);
  }

  /** A link call that crashes between its mark and its merge loses what the installation was charged: the row is
      owned and marked, so no later call will merge it. */
  lemma CrashLosesTheCharge(id: string, user: string, limit: int) returns (w: World)
    requires limit >= 1
    ensures Reached(w, false) && w.month == 0 && LostOne(w, id, user, 0) && !IsMerged(w.ledger, id)
  {
    CrossingRuns(id, user, limit, false);
    var c := Crossing(id, limit, LinkMerge(user, id), Some(user), true);
    var m, charge := Advance(c, 0), Charged(0, Installation(id), 1);
    ReachNext(c, Run(0), m, false);
    w := Next(m, Crash(1));
    ReachNext(m, Crash(1), w, false);
    ReachedInv(w, false);
    OneOwned(w, id, user);
    assert w.ledger == [] + [charge];
    StrandedAppend([], charge, {id}, 0);
    LossHere(w, 0, user);
    NothingStranded(w.ledger, {id}, 0);
  }
}
