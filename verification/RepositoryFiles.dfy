/** The repository snippets sent with a request: their selection
    (src/context/repository/repositoryContextBuilder.ts:86-100, 303-309) and the cut to the focus budget
    (src/completion/backendCompletionEngine.ts:113-119). */
module RepositoryFiles {
  import opened Wrappers
  import opened JsSlices
  import opened ContextWindows

  datatype File = File(path: string, language: string, reason: string, content: Text)

  /** A ranked candidate: its text when it can be read and holds nothing sensitive, and the lines around its names
      that `selectSnippet` would join. */
  datatype Candidate = Candidate(path: string, language: string, reason: string, text: Option<Text>, selection: Text)

  const PER_FILE: nat := 3000

  /** The configured ranges (src/context/repository/repositoryContextConfig.ts:19-26). */
  datatype RepositoryLimits = RepositoryLimits(maxFiles: nat, maxCharacters: nat)

  predicate InRange(l: RepositoryLimits) {
    1 <= l.maxFiles <= 8 && 1000 <= l.maxCharacters <= 30000
  }

  /** `selectSnippet` */
  function SelectSnippet(c: Candidate, text: Text, limit: nat): (content: Text)
    ensures |content| <= limit
  {
    if |text| <= limit then text else SliceFirst(c.selection, limit)
  }

  function Total(files: seq<File>): nat {
    if files == [] then 0 else Total(files[..|files| - 1]) + |files[|files| - 1].content|
  }

  function FileOf(c: Candidate, content: Text): File {
    File(c.path, c.language, c.reason, content)
  }

  /** What a file may take when `used` units are taken: at most its share, within what is left. */
  function Share(limits: RepositoryLimits, used: nat): nat
    requires used <= limits.maxCharacters
  {
    if PER_FILE < limits.maxCharacters - used then PER_FILE else limits.maxCharacters - used
  }

  /** The file is what its candidate offers for its share of the budget. */
  predicate Offered(f: File, c: Candidate, used: nat, limits: RepositoryLimits) {
    && c.text.Some? && used < limits.maxCharacters
    && f == FileOf(c, SelectSnippet(c, c.text.value, Share(limits, used)))
    && 0 < |f.content| <= PER_FILE
  }

  /** Each file is what candidate `from[i]` offers, in the candidates' order. */
  ghost predicate Chosen(files: seq<File>, from: seq<nat>, candidates: seq<Candidate>, limits: RepositoryLimits) {
    && |from| == |files|
    && (forall i, j :: 0 <= i < j < |from| ==> from[i] < from[j])
    && (forall i {:trigger ChosenAt(files, from, candidates, limits, i)} :: 0 <= i < |files| ==>
          ChosenAt(files, from, candidates, limits, i))
  }

  ghost predicate ChosenAt(files: seq<File>, from: seq<nat>, candidates: seq<Candidate>, limits: RepositoryLimits,
                           i: nat)
    requires i < |files| == |from|
  {
    from[i] < |candidates| && Offered(files[i], candidates[from[i]], Total(files[..i]), limits)
  }

  lemma ChosenGrows(files: seq<File>, from: seq<nat>, candidates: seq<Candidate>, limits: RepositoryLimits,
                    f: File, k: nat)
    requires Chosen(files, from, candidates, limits) && k < |candidates|
    requires forall i :: 0 <= i < |from| ==> from[i] < k
    requires Offered(f, candidates[k], Total(files), limits)
    ensures Chosen(files + [f], from + [k], candidates, limits)
    ensures Total(files + [f]) == Total(files) + |f.content|
  {
    var more := files + [f];
    assert more[..|more| - 1] == files;
    forall i | 0 <= i < |more| ensures ChosenAt(more, from + [k], candidates, limits, i) {
      if i < |files| {
        assert more[..i] == files[..i];
        assert ChosenAt(files, from, candidates, limits, i);
      }
    }
  }

  /** What is selected from candidate `k` on, when `used` units are taken and `room` more files fit: nothing once the
      deadline has passed or a limit is reached; an unreadable or empty candidate is passed over. */
  function Selected(candidates: seq<Candidate>, limits: RepositoryLimits, expired: nat -> bool,
                    k: nat, used: nat, room: nat): seq<File>
    requires k <= |candidates| && used <= limits.maxCharacters
    decreases |candidates| - k
  {
    if k == |candidates| || expired(k) || room == 0 || used == limits.maxCharacters then []
    else
      var content := ContentOf(candidates[k], limits, used);
      if content == [] then Selected(candidates, limits, expired, k + 1, used, room)
      else [FileOf(candidates[k], content)] + Selected(candidates, limits, expired, k + 1, used + |content|, room - 1)
  }

  function ContentOf(c: Candidate, limits: RepositoryLimits, used: nat): (content: Text)
    requires used <= limits.maxCharacters
    ensures |content| <= Share(limits, used)
  {
    if c.text.Some? then SelectSnippet(c, c.text.value, Share(limits, used)) else []
  }

  lemma SelectedGrows(files: seq<File>, file: File, rest: seq<File>)
    ensures files + ([file] + rest) == (files + [file]) + rest
  {
  }

  /** One candidate's turn, when the selection goes on. */
  lemma SelectedNext(all: seq<File>, files: seq<File>, candidates: seq<Candidate>, limits: RepositoryLimits,
                     expired: nat -> bool, k: nat, used: nat, room: nat)
    requires k < |candidates| && !expired(k) && room > 0 && used < limits.maxCharacters
    requires all == files + Selected(candidates, limits, expired, k, used, room)
    ensures var content := ContentOf(candidates[k], limits, used);
            && used + |content| <= limits.maxCharacters
            && all == if content == [] then files + Selected(candidates, limits, expired, k + 1, used, room)
                      else (files + [FileOf(candidates[k], content)])
                           + Selected(candidates, limits, expired, k + 1, used + |content|, room - 1)
  {
    var content := ContentOf(candidates[k], limits, used);
    if content != [] {
      SelectedGrows(files, FileOf(candidates[k], content),
                    Selected(candidates, limits, expired, k + 1, used + |content|, room - 1));
    }
  }

  lemma SelectedStops(candidates: seq<Candidate>, limits: RepositoryLimits, expired: nat -> bool,
                      k: nat, used: nat, room: nat, files: seq<File>)
    requires k <= |candidates| && used <= limits.maxCharacters
    requires k == |candidates| || expired(k) || room == 0 || used == limits.maxCharacters
    ensures files + Selected(candidates, limits, expired, k, used, room) == files
  {
  }

  /** The selection loop of `build`: `expired(k)` says that the deadline has passed at candidate `k`. */
  method SelectFiles(candidates: seq<Candidate>, limits: RepositoryLimits, expired: nat -> bool)
    returns (files: seq<File>)
    ensures files == Selected(candidates, limits, expired, 0, 0, limits.maxFiles)
  {
    files := [];
    ghost var all := Selected(candidates, limits, expired, 0, 0, limits.maxFiles);
    var characters: nat := 0;
    for k := 0 to |candidates|
      invariant characters <= limits.maxCharacters && |files| <= limits.maxFiles
      invariant files + Selected(candidates, limits, expired, k, characters, limits.maxFiles - |files|) == all
    {
      if expired(k) || |files| >= limits.maxFiles || characters >= limits.maxCharacters {
        SelectedStops(candidates, limits, expired, k, characters, limits.maxFiles - |files|, files);
        return;
      }
      SelectedNext(all, files, candidates, limits, expired, k, characters, limits.maxFiles - |files|);
      var candidate := candidates[k];
      if candidate.text.None? { continue; }
      var content := SelectSnippet(candidate, candidate.text.value, Share(limits, characters));
      if content == [] { continue; }
      files, characters := files + [FileOf(candidate, content)], characters + |content|;
    }
    SelectedStops(candidates, limits, expired, |candidates|, characters, limits.maxFiles - |files|, files);
  }

  lemma ChosenNext(all: seq<File>, files: seq<File>, from: seq<nat>, candidates: seq<Candidate>,
                   limits: RepositoryLimits, expired: nat -> bool, k: nat, room: nat)
    requires k < |candidates| && !expired(k) && room > 0 && Total(files) < limits.maxCharacters
    requires Chosen(files, from, candidates, limits) && forall i :: 0 <= i < |from| ==> from[i] < k
    requires all == files + Selected(candidates, limits, expired, k, Total(files), room)
    requires ContentOf(candidates[k], limits, Total(files)) != []
    ensures var more := files + [FileOf(candidates[k], ContentOf(candidates[k], limits, Total(files)))];
            && Chosen(more, from + [k], candidates, limits) && Total(more) <= limits.maxCharacters
            && all == more + Selected(candidates, limits, expired, k + 1, Total(more), room - 1)
  {
    var used, content := Total(files), ContentOf(candidates[k], limits, Total(files));
    var file := FileOf(candidates[k], content);
    ChosenGrows(files, from, candidates, limits, file, k);
    SelectedNext(all, files, candidates, limits, expired, k, used, room);
  }

  /** The units taken by the files chosen before candidate `k`. */
  function UsedBefore(files: seq<File>, from: seq<nat>, k: nat): nat
    requires |files| == |from|
  {
    if files == [] then 0
    else
      var n := |files| - 1;
      UsedBefore(files[..n], from[..n], k) + if from[n] < k then |files[n].content| else 0
  }

  /** Candidate `k` was chosen, or had nothing to offer for the share of the budget left at its turn. */
  ghost predicate Settled(files: seq<File>, from: seq<nat>, candidates: seq<Candidate>, limits: RepositoryLimits,
                          k: nat)
    requires k < |candidates| && |files| == |from|
  {
    || k in from
    || (UsedBefore(files, from, k) <= limits.maxCharacters
        && ContentOf(candidates[k], limits, UsedBefore(files, from, k)) == [])
  }

  /** The selection went as far as candidate `stop`, and passed over only what had nothing to offer. */
  ghost predicate WentTo(files: seq<File>, from: seq<nat>, candidates: seq<Candidate>, limits: RepositoryLimits,
                         stop: nat) {
    && stop <= |candidates| && |files| == |from|
    && (forall i :: 0 <= i < |from| ==> from[i] < stop)
    && (forall k {:trigger Settled(files, from, candidates, limits, k)} :: 0 <= k < stop ==>
          Settled(files, from, candidates, limits, k))
  }

  lemma {:induction false} UsedByAll(files: seq<File>, from: seq<nat>, k: nat)
    requires |files| == |from| && forall i :: 0 <= i < |from| ==> from[i] < k
    ensures UsedBefore(files, from, k) == Total(files)
  {
    if files != [] { UsedByAll(files[..|files| - 1], from[..|files| - 1], k); }
  }

  lemma UsedEarlier(files: seq<File>, from: seq<nat>, f: File, j: nat, k: nat)
    requires |files| == |from| && k <= j
    ensures UsedBefore(files + [f], from + [j], k) == UsedBefore(files, from, k)
  {
    assert (files + [f])[..|files|] == files && (from + [j])[..|files|] == from;
  }

  lemma WentPast(files: seq<File>, from: seq<nat>, candidates: seq<Candidate>, limits: RepositoryLimits, k: nat)
    requires WentTo(files, from, candidates, limits, k) && k < |candidates| && Total(files) <= limits.maxCharacters
    requires ContentOf(candidates[k], limits, Total(files)) == []
    ensures WentTo(files, from, candidates, limits, k + 1)
  {
    UsedByAll(files, from, k);
    assert Settled(files, from, candidates, limits, k);
  }

  lemma WentOn(files: seq<File>, from: seq<nat>, candidates: seq<Candidate>, limits: RepositoryLimits, f: File, k: nat)
    requires WentTo(files, from, candidates, limits, k) && k < |candidates|
    ensures WentTo(files + [f], from + [k], candidates, limits, k + 1)
  {
    forall j | 0 <= j < k + 1 ensures Settled(files + [f], from + [k], candidates, limits, j) {
      if j < k {
        assert Settled(files, from, candidates, limits, j);
        UsedEarlier(files, from, f, k, j);
      } else {
        assert (from + [k])[|from|] == k;
      }
    }
  }

  /** `all` is the files selected so far and those selected from candidate `k` on. */
  lemma {:induction false} ChosenFrom(all: seq<File>, files: seq<File>, from: seq<nat>, candidates: seq<Candidate>,
                                      limits: RepositoryLimits, expired: nat -> bool, k: nat, room: nat)
    returns (from': seq<nat>, stop: nat)
    requires k <= |candidates| && Total(files) <= limits.maxCharacters
    requires Chosen(files, from, candidates, limits) && WentTo(files, from, candidates, limits, k)
    requires all == files + Selected(candidates, limits, expired, k, Total(files), room)
    ensures Chosen(all, from', candidates, limits) && |all| <= |files| + room && Total(all) <= limits.maxCharacters
    ensures WentTo(all, from', candidates, limits, stop)
    ensures stop == |candidates| || expired(stop) || |all| == |files| + room || Total(all) == limits.maxCharacters
    decreases |candidates| - k
  {
    var used := Total(files);
    from', stop := from, k;
    if k == |candidates| || expired(k) || room == 0 || used == limits.maxCharacters {
      assert all == files;
    } else {
      var content := ContentOf(candidates[k], limits, used);
      if content == [] {
        WentPast(files, from, candidates, limits, k);
        from', stop := ChosenFrom(all, files, from, candidates, limits, expired, k + 1, room);
      } else {
        ChosenNext(all, files, from, candidates, limits, expired, k, room);
        var file := FileOf(candidates[k], content);
        WentOn(files, from, candidates, limits, file, k);
        from', stop := ChosenFrom(all, files + [file], from + [k], candidates, limits, expired, k + 1, room - 1);
      }
    }
  }

  /** The files selected come from the candidates in their order, each with the share of the budget it then had;
      neither the number of files nor the characters exceed the limits. The selection stops only at the end, at the
      deadline or at a limit, and up to there passes over only candidates that cannot be read or offer nothing. */
  lemma SelectionIsChosen(candidates: seq<Candidate>, limits: RepositoryLimits, expired: nat -> bool)
    returns (from: seq<nat>, stop: nat)
    ensures var files := Selected(candidates, limits, expired, 0, 0, limits.maxFiles);
            && Chosen(files, from, candidates, limits) && WentTo(files, from, candidates, limits, stop)
            && |files| <= limits.maxFiles && Total(files) <= limits.maxCharacters
            && (stop == |candidates| || expired(stop) || |files| == limits.maxFiles
                || Total(files) == limits.maxCharacters)
  {
    var files := Selected(candidates, limits, expired, 0, 0, limits.maxFiles);
    assert [] + files == files;
    from, stop := ChosenFrom(files, [], [], candidates, limits, expired, 0, limits.maxFiles);
  }

  /** The candidates' texts, whole. */
  function Whole(candidates: seq<Candidate>): seq<File>
    requires forall i :: 0 <= i < |candidates| ==> candidates[i].text.Some?
  {
    if candidates == [] then []
    else [FileOf(candidates[0], candidates[0].text.value)] + Whole(candidates[1..])
  }

  function Length(candidates: seq<Candidate>): nat
    requires forall i :: 0 <= i < |candidates| ==> candidates[i].text.Some?
  {
    if candidates == [] then 0 else |candidates[0].text.value| + Length(candidates[1..])
  }

  lemma {:induction false} SmallFilesFrom(candidates: seq<Candidate>, limits: RepositoryLimits, expired: nat -> bool,
                                          k: nat, used: nat, room: nat)
    requires k <= |candidates| && forall i :: 0 <= i < |candidates| ==>
               candidates[i].text.Some? && 0 < |candidates[i].text.value| <= 3000 && !expired(i)
    requires used + Length(candidates[k..]) <= limits.maxCharacters && |candidates| - k <= room
    ensures Selected(candidates, limits, expired, k, used, room) == Whole(candidates[k..])
    decreases |candidates| - k
  {
    if k < |candidates| {
      assert candidates[k..][1..] == candidates[k + 1..];
      SmallFilesFrom(candidates, limits, expired, k + 1, used + |candidates[k].text.value|, room - 1);
    }
  }

  /** Files of at most 3000 units each, no more of them than allowed and no longer together, are all sent whole and in
      order, when the deadline does not pass. */
  lemma SmallFilesAreSentWhole(candidates: seq<Candidate>, limits: RepositoryLimits, expired: nat -> bool)
    requires forall i :: 0 <= i < |candidates| ==>
               candidates[i].text.Some? && 0 < |candidates[i].text.value| <= 3000 && !expired(i)
    requires Length(candidates) <= limits.maxCharacters && |candidates| <= limits.maxFiles
    ensures Selected(candidates, limits, expired, 0, 0, limits.maxFiles) == Whole(candidates)
  {
    assert candidates[0..] == candidates;
    SmallFilesFrom(candidates, limits, expired, 0, 0, limits.maxFiles);
  }

  function SumOf(files: seq<File>): Text {
    if files == [] then [] else files[0].content + SumOf(files[1..])
  }

  /** The `flatMap` of `toApiCompletionRequest`, with what remains of the focus budget. */
  function CutFiles(files: seq<File>, remaining: int): seq<File> {
    if files == [] then []
    else if remaining <= 0 then CutFiles(files[1..], remaining)
    else
      var content := SliceFirst(files[0].content, remaining);
      [files[0].(content := content)] + CutFiles(files[1..], remaining - |content|)
  }

  method CutFilesLoop(files: seq<File>, budget: nat) returns (sent: seq<File>)
    ensures sent == CutFiles(files, budget)
  {
    var remaining := budget;
    sent := [];
    for i := 0 to |files|
      invariant remaining >= 0
      invariant sent + CutFiles(files[i..], remaining) == CutFiles(files, budget)
    {
      assert files[i..][0] == files[i] && files[i..][1..] == files[i + 1..];
      if remaining <= 0 { continue; }
      var content := SliceFirst(files[i].content, remaining);
      sent := sent + [files[i].(content := content)];
      remaining := remaining - |content|;
    }
    assert sent + [] == sent;
  }

  lemma {:induction false} SpentBudget(files: seq<File>)
    ensures CutFiles(files, 0) == []
  {
    if files != [] { SpentBudget(files[1..]); }
  }

  /** `a` is `b` with a non-empty prefix of its content. */
  predicate IsCutOf(a: File, b: File) {
    a == b.(content := a.content) && a.content <= b.content && a.content != []
  }

  lemma PrependCut(sent: seq<File>, files: seq<File>, a: File, b: File)
    requires |sent| <= |files| && IsCutOf(a, b)
    requires forall i {:trigger sent[i]} :: 0 <= i < |sent| ==> IsCutOf(sent[i], files[i])
    ensures forall i {:trigger ([a] + sent)[i]} :: 0 <= i < |[a] + sent| ==> IsCutOf(([a] + sent)[i], ([b] + files)[i])
  {
  }

  lemma SumOfCut(content: Text, rest: Text, budget: nat)
    ensures var cut := SliceFirst(content, budget);
            |cut| <= budget && SliceFirst(content + rest, budget) == cut + SliceFirst(rest, budget - |cut|)
  {
  }

  /** The files sent are the first ones, each cut to a prefix of its content, and together they are exactly the
      first `budget` units of all the contents, one after the other. */
  lemma {:induction false} CutFilesArePrefixes(files: seq<File>, budget: nat)
    requires forall i :: 0 <= i < |files| ==> files[i].content != []
    ensures var sent := CutFiles(files, budget);
            && |sent| <= |files|
            && (forall i {:trigger sent[i]} :: 0 <= i < |sent| ==> IsCutOf(sent[i], files[i]))
            && SumOf(sent) == SliceFirst(SumOf(files), budget)
  {
    if budget == 0 {
      SpentBudget(files);
    } else if files != [] {
      var f, rest := files[0], files[1..];
      var content := SliceFirst(f.content, budget);
      var later := CutFiles(rest, budget - |content|);
      CutFilesArePrefixes(rest, budget - |content|);
      PrependCut(later, rest, f.(content := content), f);
      SumOfCut(f.content, SumOf(rest), budget);
      assert files == [f] + rest;
      assert ([f.(content := content)] + later)[1..] == later;
    }
  }

  lemma {:induction false} SumIsTotal(files: seq<File>)
    ensures |SumOf(files)| == Total(files)
    decreases |files|
  {
    if |files| == 1 {
      assert files[..0] == [] && files[1..] == [];
    } else if |files| > 1 {
      SumIsTotal(files[1..]);
      SumIsTotal(files[..|files| - 1]);
      SumIsTotal(files[1..][..|files| - 2]);
      assert files[1..][..|files| - 2] == files[..|files| - 1][1..];
      assert files[1..][|files| - 2] == files[|files| - 1];
    }
  }
}
