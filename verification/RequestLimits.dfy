/** What the server accepts (api/internal/completion/validation.go:5-44), and that what the editor sends is accepted. */
module RequestLimits {
  import opened ContextWindows
  import opened RepositoryFiles

  /** Length in bytes of the text once it has gone through JSON and UTF-8; a lone surrogate arrives as the
      replacement character. */
  function Utf8Length(s: Text): nat {
    if s == [] then 0
    else if s[0] < 0x80 then 1 + Utf8Length(s[1..])
    else if s[0] < 0x800 then 2 + Utf8Length(s[1..])
    else if 0xD800 <= s[0] < 0xDC00 && |s| > 1 && 0xDC00 <= s[1] < 0xE000 then 4 + Utf8Length(s[2..])
    else 3 + Utf8Length(s[1..])
  }

  lemma {:induction false} AtMostThreeBytes(s: Text)
    ensures Utf8Length(s) <= 3 * |s|
  {
    if s != [] {
      AtMostThreeBytes(s[1..]);
      if |s| > 1 { AtMostThreeBytes(s[2..]); }
    }
  }

  /** The first number that `n` bytes of UTF-8 do not hold (section 3 of RFC 3629): 7 bits in one byte, 5 * n + 1 in
      more. */
  function Holds(n: nat): nat {
    if n == 0 then 0 else if n == 1 then 0x80 else if n == 2 then 0x800 else if n == 3 then 0x1_0000 else 0x20_0000
  }

  predicate Surrogate(u: Unit) {
    0xD800 <= u < 0xE000
  }

  /** Each character, of one unit or of a surrogate pair, counts the fewest bytes that hold its number; a surrogate
      without its partner counts the three of the replacement character. */
  lemma FewestBytes(s: Text, n: nat)
    requires s != [] && 1 <= n <= 4
    ensures !Surrogate(s[0]) && Holds(n - 1) <= s[0] < Holds(n) ==> Utf8Length(s) == n + Utf8Length(s[1..])
    ensures |s| > 1 && 0xD800 <= s[0] < 0xDC00 && 0xDC00 <= s[1] < 0xE000
            && Holds(n - 1) <= 0x1_0000 + (s[0] - 0xD800) * 0x400 + (s[1] - 0xDC00) < Holds(n) ==>
              Utf8Length(s) == n + Utf8Length(s[2..])
    ensures Surrogate(s[0]) && !(|s| > 1 && s[0] < 0xDC00 && 0xDC00 <= s[1] < 0xE000) ==>
              Utf8Length(s) == 3 + Utf8Length(s[1..])
  {
  }

  const MAX_PREFIX := 50000
  const MAX_SUFFIX := 25000
  const MAX_LANGUAGE := 100
  const MAX_PATH := 4096
  const MAX_REASON := 100
  const MAX_FILES := 8
  const MAX_REPOSITORY := 30000
  const MAX_FILE := 10000

  /** `isAbsolutePath` */
  predicate IsAbsolutePath(path: string) {
    |path| > 0 && (path[0] == '/' || path[0] == '\\' || (|path| > 2 && path[1] == ':'))
  }

  /** What `Validate` asks of a file apart from its size. */
  predicate Labelled(f: File) {
    f.path != "" && |f.path| <= MAX_PATH && |f.language| <= MAX_LANGUAGE && |f.reason| <= MAX_REASON
    && !IsAbsolutePath(f.path)
  }

  function Bytes(files: seq<File>): nat {
    if files == [] then 0 else Bytes(files[..|files| - 1]) + Utf8Length(files[|files| - 1].content)
  }

  /** What `Validate` asks of the windows and the repository files. */
  predicate SizesAccepted(prefix: Text, suffix: Text, files: seq<File>) {
    && Utf8Length(prefix) <= MAX_PREFIX && Utf8Length(suffix) <= MAX_SUFFIX
    && |files| <= MAX_FILES && Bytes(files) <= MAX_REPOSITORY
    && forall i :: 0 <= i < |files| ==> Utf8Length(files[i].content) <= MAX_FILE
  }

  /** The checks of `Validate` on the windows and the file loop, with its early returns. */
  method ValidateContext(prefix: Text, suffix: Text, files: seq<File>) returns (ok: bool)
    ensures ok <==> SizesAccepted(prefix, suffix, files) && forall i :: 0 <= i < |files| ==> Labelled(files[i])
  {
    if Utf8Length(prefix) > MAX_PREFIX || Utf8Length(suffix) > MAX_SUFFIX { return false; }
    if |files| > MAX_FILES { return false; }
    var total := 0;
    for i := 0 to |files|
      invariant total == Bytes(files[..i])
      invariant forall j :: 0 <= j < i ==> Labelled(files[j]) && Utf8Length(files[j].content) <= MAX_FILE
    {
      assert files[..i + 1][..i] == files[..i] && files[..i + 1][i] == files[i];
      total := total + Utf8Length(files[i].content);
      if !Labelled(files[i]) || Utf8Length(files[i].content) > MAX_FILE { return false; }
    }
    assert files[..|files|] == files;
    return total <= MAX_REPOSITORY;
  }

  predicate Ascii(s: Text) {
    forall i :: 0 <= i < |s| ==> s[i] < 0x80
  }

  lemma {:induction false} AsciiLength(s: Text)
    requires Ascii(s)
    ensures Utf8Length(s) == |s|
  {
    if s != [] { AsciiLength(s[1..]); }
  }

  lemma {:induction false} AsciiBytes(files: seq<File>)
    requires forall i :: 0 <= i < |files| ==> Ascii(files[i].content)
    ensures Bytes(files) == Total(files)
  {
    if files != [] {
      AsciiBytes(files[..|files| - 1]);
      AsciiLength(files[|files| - 1].content);
    }
  }

  /** The server's limits in numbers, on texts of one byte a character. */
  lemma AsciiIsAcceptedExactlyWhen(prefix: Text, suffix: Text, files: seq<File>)
    requires Ascii(prefix) && Ascii(suffix) && forall i :: 0 <= i < |files| ==> Ascii(files[i].content)
    ensures SizesAccepted(prefix, suffix, files)
            <==> |prefix| <= 50000 && |suffix| <= 25000 && |files| <= 8 && Total(files) <= 30000
                 && forall i :: 0 <= i < |files| ==> |files[i].content| <= 10000
  {
    AsciiLength(prefix);
    AsciiLength(suffix);
    AsciiBytes(files);
    forall i | 0 <= i < |files| ensures Utf8Length(files[i].content) == |files[i].content| {
      AsciiLength(files[i].content);
    }
  }

  /** A file is accepted, but for its size, exactly with a path of 1 to 4096 bytes that does not start with a slash or
      backslash, nor goes on after one character and a colon, and with a language and a reason of at most 100. */
  lemma LabelledExactlyWhen(f: File)
    ensures Labelled(f)
            <==> 1 <= |f.path| <= 4096 && |f.language| <= 100 && |f.reason| <= 100
                 && (forall rest :: f.path != "/" + rest && f.path != "\\" + rest)
                 && (forall drive: char, rest :: rest != "" ==> f.path != [drive] + ":" + rest)
  {
    var path := f.path;
    if |path| > 0 { assert path == [path[0]] + path[1..]; }
    if |path| > 2 && path[1] == ':' { assert path == [path[0]] + ":" + path[2..]; }
  }

  lemma {:induction false} BytesOfTotal(files: seq<File>)
    ensures Bytes(files) <= 3 * Total(files)
  {
    if files != [] {
      BytesOfTotal(files[..|files| - 1]);
      AtMostThreeBytes(files[|files| - 1].content);
    }
  }

  /** Whatever the document, the cursor, the settings in range, the repository's files and the deadline: the sizes of
      what is sent satisfy every limit of the server, whatever characters the texts are made of. */
  lemma SentRequestFits(document: Text, cursor: nat, maxPrefix: nat, maxSuffix: nat,
                        candidates: seq<Candidate>, repository: RepositoryLimits, expired: nat -> bool,
                        focus: string, mode: string, repositoryTimedOut: bool)
    requires cursor <= |document| && maxPrefix > 0 && InRange(repository)
    ensures var limits := ContextLimits(focus, mode, repositoryTimedOut);
            var files := Selected(candidates, repository, expired, 0, 0, repository.maxFiles);
            SizesAccepted(SentPrefix(document, cursor, maxPrefix, limits),
                          SentSuffix(document, cursor, maxSuffix, limits), CutFiles(files, limits.repository))
  {
    var limits := ContextLimits(focus, mode, repositoryTimedOut);
    var files := Selected(candidates, repository, expired, 0, 0, repository.maxFiles);
    var from, _ := SelectionIsChosen(candidates, repository, expired);
    LimitsAreBounded(focus, mode, repositoryTimedOut);
    SentPrefixEndsAtCursor(document, cursor, maxPrefix, limits);
    SentSuffixStartsAtCursor(document, cursor, maxSuffix, limits);
    AtMostThreeBytes(SentPrefix(document, cursor, maxPrefix, limits));
    AtMostThreeBytes(SentSuffix(document, cursor, maxSuffix, limits));
    forall i | 0 <= i < |files| ensures 0 < |files[i].content| <= PER_FILE {
      assert ChosenAt(files, from, candidates, repository, i);
    }
    SentFilesFit(files, limits.repository);
  }

  lemma SentFilesFit(files: seq<File>, budget: nat)
    requires |files| <= MAX_FILES && budget <= 8000
    requires forall i :: 0 <= i < |files| ==> 0 < |files[i].content| <= PER_FILE
    ensures var sent := CutFiles(files, budget);
            && |sent| <= MAX_FILES && Bytes(sent) <= MAX_REPOSITORY
            && forall i :: 0 <= i < |sent| ==> Utf8Length(sent[i].content) <= MAX_FILE
  {
    var sent := CutFiles(files, budget);
    CutFilesArePrefixes(files, budget);
    SumIsTotal(sent);
    BytesOfTotal(sent);
    forall i | 0 <= i < |sent| ensures Utf8Length(sent[i].content) <= MAX_FILE {
      AtMostThreeBytes(sent[i].content);
      assert |sent[i].content| <= |files[i].content|;
    }
  }
}
