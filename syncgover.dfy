/**
 * syncgover: read the Go version from the Dockerfile's `FROM golang:` line, derive the go.mod
 * version one minor below it, and rewrite every `go-version: ` line of the workflow files.
 */
module SyncGoVer {
  import opened Wrappers
  import opened GoText

  const FromGolang: string := "FROM golang:"
  const GoVersionKey: string := "go-version: "
  const ColonSpace: string := ": "

  /** The errors syncGoVer can return (file-system and git errors are not modelled). */
  datatype SyncError =
    | NoFromLine                        // no line contains `FROM golang:`
    | MinorMissing                      // the version has no '.', so indexing piece 1 panics
    | MinorNotInteger(cause: NumError)  // the minor field is not an integer
    | TidyFailed(output: string)        // `go mod tidy -go <version>` failed
    | MalformedGoVersionLine(line: string)  // a go-version line does not split into two parts

  // ---------------------------------------------------------------------------
  // readGoVersionFromDockerfile
  // ---------------------------------------------------------------------------

  /** The index of the first line containing `FROM golang:`. */
  function FirstFromLine(ls: seq<string>): (r: Option<nat>)
    ensures r.Some? ==> r.value < |ls| && Contains(ls[r.value], FromGolang)
    ensures r.Some? ==> forall k :: 0 <= k < r.value ==> !Contains(ls[k], FromGolang)
    ensures r.None? ==> forall k :: 0 <= k < |ls| ==> !Contains(ls[k], FromGolang)
    decreases |ls|
  {
    if ls == [] then None
    else if Contains(ls[0], FromGolang) then Some(0)
    else
      match FirstFromLine(ls[1..])
      case None => None
      case Some(k) => Some(k + 1)
  }

  /**
   * The version readGoVersionFromDockerfile reports: the first scanned line containing
   * `FROM golang:`, with that prefix trimmed (a line that contains the text without starting
   * with it is returned whole).
   */
  function DockerfileGoVersion(content: string): (r: Result<string, SyncError>)
    ensures r.Err? <==> forall k :: 0 <= k < |Lines(content)| ==> !Contains(Lines(content)[k], FromGolang)
    ensures r.Err? ==> r.error == NoFromLine
  {
    match FirstFromLine(Lines(content))
    case None => Err(NoFromLine)
    case Some(i) => Ok(TrimPrefix(Lines(content)[i], FromGolang))
  }

  /** readGoVersionFromDockerfile: a scan over the lines that returns at the first match. */
  method ReadGoVersionFromDockerfile(content: string) returns (r: Result<string, SyncError>)
    ensures r == DockerfileGoVersion(content)
  {
    var lines := Lines(content);
    var i := 0;
    while i < |lines|
      invariant 0 <= i <= |lines|
      invariant forall k :: 0 <= k < i ==> !Contains(lines[k], FromGolang)
    {
      var line := lines[i];
      if Contains(line, FromGolang) {
        return Ok(TrimPrefix(line, FromGolang));
      }
      i := i + 1;
    }
    return Err(NoFromLine);
  }

  /** FirstFromLine finds the line that contains the text after lines that do not. */
  lemma FirstFromLineAt(ls: seq<string>, i: nat)
    requires i < |ls| && Contains(ls[i], FromGolang)
    requires forall k :: 0 <= k < i ==> !Contains(ls[k], FromGolang)
    ensures FirstFromLine(ls) == Some(i)
  {
  }

  /** A line that starts with `FROM golang:` yields the rest of the line. */
  lemma FromLineVersion(v: string)
    requires '\n' !in v && (v == [] || v[|v| - 1] != '\r')
    ensures Contains(FromGolang + v, FromGolang)
    ensures TrimPrefix(FromGolang + v, FromGolang) == v
    ensures '\n' !in FromGolang + v && DropCR(FromGolang + v) == FromGolang + v
  {
    assert '\n' !in FromGolang && FromGolang[|FromGolang| - 1] == ':';
    var line := FromGolang + v;
    assert line[..|FromGolang|] == FromGolang;
    assert OccursAt(line, FromGolang, 0);
    var r := TrimPrefix(line, FromGolang);
    assert FromGolang + r == line;
    assert r == line[|FromGolang|..];
  }

  /**
   * Only the first `FROM golang:` line matters: whatever follows it, the version is the text
   * after the prefix of that line.
   */
  lemma FirstFromLineWins(before: seq<string>, v: string, after: seq<string>)
    requires forall k :: 0 <= k < |before| ==> '\n' !in before[k] && !Contains(DropCR(before[k]), FromGolang)
    requires forall k :: 0 <= k < |after| ==> '\n' !in after[k]
    requires '\n' !in v && (v == [] || v[|v| - 1] != '\r')
    ensures DockerfileGoVersion(UnLines(before + [FromGolang + v] + after)) == Ok(v)
  {
    var line := FromGolang + v;
    var ls := before + [line] + after;
    FromLineVersion(v);
    forall k | 0 <= k < |ls| ensures '\n' !in ls[k] {
      if k < |before| {
        assert ls[k] == before[k];
      } else if k == |before| {
        assert ls[k] == line;
      } else {
        assert ls[k] == after[k - |before| - 1];
      }
    }
    LinesOfUnLines(ls);
    var scanned := Lines(UnLines(ls));
    assert scanned[|before|] == line;
    forall k | 0 <= k < |before| ensures !Contains(scanned[k], FromGolang) {
      assert scanned[k] == DropCR(before[k]);
    }
    FirstFromLineAt(scanned, |before|);
  }

  // ---------------------------------------------------------------------------
  // The go.mod version derived in syncGoVer
  // ---------------------------------------------------------------------------

  /**
   * `major.(minor-1)` from the first two dot-separated fields of the Dockerfile version; a
   * missing second field is the source's index-out-of-range panic, a non-integer minor an
   * error. `minor-1` wraps around like Go's int64 arithmetic.
   */
  function GoModVersion(goVersion: string): (r: Result<string, SyncError>)
    ensures r == Err(MinorMissing) <==> '.' !in goVersion
    ensures r.Err? ==> r.error == MinorMissing || r.error.MinorNotInteger?
  {
    SplitSinglePiece(goVersion, '.');
    var splits := Split(goVersion, ".");
    if |splits| < 2 then Err(MinorMissing)
    else
      match Atoi(splits[1])
      case Err(e) => Err(MinorNotInteger(e))
      case Ok(minor) => Ok(splits[0] + "." + Itoa(WrapInt64(minor - 1)))
  }

  /** The first two dot-separated fields of `major.minor` or `major.minor.rest`. */
  lemma SplitVersionFields(major: string, minor: string, rest: string)
    requires '.' !in major && '.' !in minor
    requires rest == [] || rest[0] == '.'
    ensures var splits := Split(major + "." + minor + rest, ".");
      |splits| >= 2 && splits[0] == major && splits[1] == minor
  {
    assert major + "." + minor + rest == major + ['.'] + (minor + rest);
    SplitAfterFreePrefix(major, '.', minor + rest);
    var tail := minor + rest;
    if rest == [] {
      SplitSinglePiece(tail, '.');
    } else {
      assert tail == minor + ['.'] + rest[1..];
      SplitAfterFreePrefix(minor, '.', rest[1..]);
    }
  }

  /**
   * For any version `major.minor` or `major.minor.rest`, whatever the fields hold: a minor
   * field Atoi rejects is the MinorNotInteger error, and otherwise the go.mod version keeps
   * the major field and gives the minor's value minus one (wrapping like int64), written
   * canonically, so "1.07" gives "1.6" and "1.+3" gives "1.2".
   */
  lemma GoModVersionOfFields(major: string, minor: string, rest: string)
    requires '.' !in major && '.' !in minor
    requires rest == [] || rest[0] == '.'
    ensures Atoi(minor).Err? ==>
      GoModVersion(major + "." + minor + rest) == Err(MinorNotInteger(Atoi(minor).error))
    ensures Atoi(minor).Ok? ==>
      GoModVersion(major + "." + minor + rest) == Ok(major + "." + Itoa(WrapInt64(Atoi(minor).value - 1)))
  {
    SplitVersionFields(major, minor, rest);
  }

  /**
   * For a version `major.minor` or `major.minor.rest`, the go.mod version keeps the major
   * field and lowers the minor number by one (e.g. 1.23.3 gives 1.22).
   */
  lemma GoModVersionOneMinorBelow(major: string, minor: int, rest: string)
    requires '.' !in major
    requires InInt64(minor) && InInt64(minor - 1)
    requires rest == [] || rest[0] == '.'
    ensures GoModVersion(major + "." + Itoa(minor) + rest) == Ok(major + "." + Itoa(minor - 1))
  {
    NoDotInItoa(minor);
    assert Atoi(Itoa(minor)) == Ok(minor) by {
      AtoiItoa(minor);
    }
    assert WrapInt64(minor - 1) == minor - 1;
    GoModVersionOfFields(major, Itoa(minor), rest);
  }

  // ---------------------------------------------------------------------------
  // replaceGoVersioninWorkflow
  // ---------------------------------------------------------------------------

  /** A scanned line the rewrite accepts: not a go-version line, or one with exactly one ": ". */
  predicate Rewritable(line: string) {
    !Contains(line, GoVersionKey) || |Split(line, ColonSpace)| == 2
  }

  /** A go-version line keeps the text before its ": " and gets the new version after it. */
  function Rewritten(line: string, goVersion: string): (r: string)
    requires Rewritable(line)
  {
    if Contains(line, GoVersionKey) then Split(line, ColonSpace)[0] + ColonSpace + goVersion else line
  }

  /** The index of the first line the rewrite rejects. */
  function FirstMalformed(ls: seq<string>): (r: Option<nat>)
    ensures r.Some? ==> r.value < |ls| && !Rewritable(ls[r.value])
    ensures r.Some? ==> forall k :: 0 <= k < r.value ==> Rewritable(ls[k])
    ensures r.None? ==> forall k :: 0 <= k < |ls| ==> Rewritable(ls[k])
    decreases |ls|
  {
    if ls == [] then None
    else if !Rewritable(ls[0]) then Some(0)
    else
      match FirstMalformed(ls[1..])
      case None => None
      case Some(k) => Some(k + 1)
  }

  /**
   * The line-by-line rewrite: every line rewritten in order, or the error naming the first
   * go-version line that does not split into two parts.
   */
  function RewriteLines(ls: seq<string>, goVersion: string): (r: Result<seq<string>, SyncError>)
    ensures r.Err? <==> FirstMalformed(ls).Some?
    ensures r.Err? ==> r.error == MalformedGoVersionLine(ls[FirstMalformed(ls).value])
    ensures r.Ok? ==> |r.value| == |ls|
    ensures r.Ok? ==> forall k :: 0 <= k < |ls| ==> r.value[k] == Rewritten(ls[k], goVersion)
    decreases |ls|
  {
    if ls == [] then Ok([])
    else if !Rewritable(ls[0]) then Err(MalformedGoVersionLine(ls[0]))
    else
      match RewriteLines(ls[1..], goVersion)
      case Err(e) => Err(e)
      case Ok(out) => Ok([Rewritten(ls[0], goVersion)] + out)
  }

  /** What replaceGoVersioninWorkflow writes back, or its error (then nothing is written). */
  function WorkflowRewrite(content: string, goVersion: string): Result<string, SyncError> {
    match RewriteLines(Lines(content), goVersion)
    case Ok(out) => Ok(UnLines(out))
    case Err(e) => Err(e)
  }

  /** The loop body of replaceGoVersioninWorkflow for one scanned line. */
  method RewriteLine(line: string, goVersion: string) returns (r: Result<string, SyncError>)
    ensures r.Ok? <==> Rewritable(line)
    ensures r.Ok? ==> r.value == Rewritten(line, goVersion)
    ensures r.Err? ==> r.error == MalformedGoVersionLine(line)
  {
    if Contains(line, GoVersionKey) {
      var splits := Split(line, ColonSpace);
      if |splits| != 2 {
        return Err(MalformedGoVersionLine(line));
      }
      r := Ok(splits[0] + ColonSpace + goVersion);
    } else {
      r := Ok(line);
    }
  }

  /** replaceGoVersioninWorkflow over the file's content: a scanner loop into a builder. */
  method ReplaceGoVersionInWorkflow(content: string, goVersion: string) returns (r: Result<string, SyncError>)
    ensures r == WorkflowRewrite(content, goVersion)
  {
    var lines := Lines(content);
    var newContent: string := [];
    ghost var out: seq<string> := [];
    var i := 0;
    while i < |lines|
      invariant 0 <= i <= |lines|
      invariant forall k :: 0 <= k < i ==> Rewritable(lines[k])
      invariant |out| == i && forall k :: 0 <= k < i ==> out[k] == Rewritten(lines[k], goVersion)
      invariant newContent == UnLines(out)
    {
      var step := RewriteLine(lines[i], goVersion);
      if step.Err? {
        RewriteLinesFailsAt(lines, i, goVersion);
        return step;
      }
      var rewritten := step.value;
      AcceptedLine(lines, i, out, rewritten, goVersion);
      UnLinesSnoc(out, rewritten);
      newContent := newContent + rewritten + "\n";
      out := out + [rewritten];
      i := i + 1;
    }
    RewriteLinesSucceeds(lines, goVersion, out);
    r := Ok(newContent);
  }

  /** One more accepted line extends the rewritten prefix. */
  lemma AcceptedLine(ls: seq<string>, i: nat, out: seq<string>, rewritten: string, goVersion: string)
    requires i < |ls| && Rewritable(ls[i]) && rewritten == Rewritten(ls[i], goVersion)
    requires forall k :: 0 <= k < i ==> Rewritable(ls[k])
    requires |out| == i && forall k :: 0 <= k < i ==> out[k] == Rewritten(ls[k], goVersion)
    ensures forall k :: 0 <= k < i + 1 ==> Rewritable(ls[k])
    ensures forall k :: 0 <= k < i + 1 ==> (out + [rewritten])[k] == Rewritten(ls[k], goVersion)
  {
  }

  /** The rewrite fails with the first rejected line. */
  lemma RewriteLinesFailsAt(ls: seq<string>, i: nat, goVersion: string)
    requires i < |ls| && !Rewritable(ls[i])
    requires forall k :: 0 <= k < i ==> Rewritable(ls[k])
    ensures RewriteLines(ls, goVersion) == Err(MalformedGoVersionLine(ls[i]))
  {
    FirstMalformedAt(ls, i);
  }

  /** The rewrite of lines that are all accepted is the list of their rewritten forms. */
  lemma RewriteLinesSucceeds(ls: seq<string>, goVersion: string, out: seq<string>)
    requires forall k :: 0 <= k < |ls| ==> Rewritable(ls[k])
    requires |out| == |ls| && forall k :: 0 <= k < |ls| ==> out[k] == Rewritten(ls[k], goVersion)
    ensures RewriteLines(ls, goVersion) == Ok(out)
  {
    assert RewriteLines(ls, goVersion).value == out;
  }

  /** FirstMalformed finds a rejected line that follows accepted ones. */
  lemma FirstMalformedAt(ls: seq<string>, i: nat)
    requires i < |ls| && !Rewritable(ls[i])
    requires forall k :: 0 <= k < i ==> Rewritable(ls[k])
    ensures FirstMalformed(ls) == Some(i)
  {
  }

  /** A line does not end in a carriage return (so scanning it back does not shorten it). */
  predicate NoTrailingCR(line: string) {
    line == [] || line[|line| - 1] != '\r'
  }

  /** A rewritten line keeps the scanner's shape of the line it came from. */
  lemma RewrittenLineShape(line: string, goVersion: string)
    requires Rewritable(line) && '\n' !in line && '\n' !in goVersion
    ensures '\n' !in Rewritten(line, goVersion)
    ensures NoTrailingCR(line) && NoTrailingCR(goVersion) ==> NoTrailingCR(Rewritten(line, goVersion))
  {
    if Contains(line, GoVersionKey) {
      SplitFirstIsPrefix(line, ColonSpace);
      var head := Split(line, ColonSpace)[0];
      assert forall j :: 0 <= j < |head| ==> head[j] == line[j];
      assert Rewritten(line, goVersion) == head + ColonSpace + goVersion;
    }
  }

  /**
   * When the rewrite succeeds and the version has no newline, the written file scans back to
   * as many lines as the original.
   */
  lemma RewritePreservesLineCount(content: string, goVersion: string)
    requires '\n' !in goVersion
    requires WorkflowRewrite(content, goVersion).Ok?
    ensures |Lines(WorkflowRewrite(content, goVersion).value)| == |Lines(content)|
  {
    var ls := Lines(content);
    var out := RewriteLines(ls, goVersion).value;
    forall k | 0 <= k < |out| ensures '\n' !in out[k] {
      RewrittenLineShape(ls[k], goVersion);
    }
    LinesOfUnLines(out);
  }

  /** `head + ": " + v` splits back into `head` and `v` when neither holds ": ". */
  lemma SplitRewrittenLine(head: string, v: string)
    requires !Contains(head, ColonSpace) && !Contains(v, ColonSpace)
    ensures Split(head + ColonSpace + v, ColonSpace) == [head, v]
  {
    var s := head + ColonSpace + v;
    var n := |head|;
    assert s[n..n + 2] == ColonSpace;
    assert OccursAt(s, ColonSpace, n);
    forall j | 0 <= j < n ensures !OccursAt(s, ColonSpace, j) {
      if j + 2 <= n {
        assert s[j..j + 2] == head[j..j + 2];
        assert !OccursAt(head, ColonSpace, j);
      } else {
        assert j + 1 == n;
        assert s[j..j + 2][1] == s[n] == ':';
        assert ColonSpace[1] == ' ';
      }
    }
    assert Index(s, ColonSpace) == Some(n);
    assert s[..n] == head;
    assert s[n + 2..] == v;
  }

  /** A rewritten line is left as it is by a second rewrite with the same version. */
  lemma RewrittenLineIsFixed(line: string, goVersion: string)
    requires Rewritable(line) && !Contains(goVersion, ColonSpace)
    ensures Rewritable(Rewritten(line, goVersion))
    ensures Rewritten(Rewritten(line, goVersion), goVersion) == Rewritten(line, goVersion)
  {
    if Contains(line, GoVersionKey) {
      var head := Split(line, ColonSpace)[0];
      SplitRewrittenLine(head, goVersion);
    }
  }

  /**
   * Rewriting is idempotent: running the tool again with the same version leaves a rewritten
   * workflow file unchanged (for files whose scanned lines keep no trailing carriage return
   * and a version free of ": ", newlines and a trailing carriage return).
   */
  lemma RewriteIdempotent(content: string, goVersion: string)
    requires WorkflowRewrite(content, goVersion).Ok?
    requires !Contains(goVersion, ColonSpace) && '\n' !in goVersion && NoTrailingCR(goVersion)
    requires forall k :: 0 <= k < |Lines(content)| ==> NoTrailingCR(Lines(content)[k])
    ensures WorkflowRewrite(WorkflowRewrite(content, goVersion).value, goVersion) == WorkflowRewrite(content, goVersion)
  {
    var ls := Lines(content);
    var out := RewriteLines(ls, goVersion).value;
    forall k | 0 <= k < |out| ensures '\n' !in out[k] && DropCR(out[k]) == out[k] {
      RewrittenLineShape(ls[k], goVersion);
    }
    LinesOfUnLines(out);
    assert Lines(UnLines(out)) == out;
    forall k | 0 <= k < |out| ensures Rewritable(out[k]) && Rewritten(out[k], goVersion) == out[k] {
      RewrittenLineIsFixed(ls[k], goVersion);
    }
    assert FirstMalformed(out).None?;
    assert RewriteLines(out, goVersion).value == out;
  }

  // ---------------------------------------------------------------------------
  // syncGoVer, from the Dockerfile's content to the rewritten workflow files
  // ---------------------------------------------------------------------------

  /**
   * A walk that stops at the first failure: the values of the outcomes before the first
   * error, and that error.
   */
  function UntilFirstError(outcomes: seq<Result<string, SyncError>>): (r: (seq<string>, Option<SyncError>))
    ensures |r.0| <= |outcomes|
    ensures forall k :: 0 <= k < |r.0| ==> outcomes[k] == Ok(r.0[k])
    ensures r.1.None? <==> |r.0| == |outcomes|
    ensures r.1.Some? ==> outcomes[|r.0|] == Err(r.1.value)
    decreases |outcomes|
  {
    if outcomes == [] then ([], None)
    else
      match outcomes[0]
      case Err(e) => ([], Some(e))
      case Ok(c) =>
        var rest := UntilFirstError(outcomes[1..]);
        ([c] + rest.0, rest.1)
  }

  /** The rewrite outcome of each workflow file. */
  function Outcomes(files: seq<string>, goVersion: string): (r: seq<Result<string, SyncError>>)
    ensures |r| == |files|
    ensures forall k :: 0 <= k < |files| ==> r[k] == WorkflowRewrite(files[k], goVersion)
  {
    seq(|files|, k requires 0 <= k < |files| => WorkflowRewrite(files[k], goVersion))
  }

  /**
   * The workflow files rewritten in walk order: the new contents of the files handled before
   * the first failing one, and that file's error.
   */
  function RewriteWorkflows(files: seq<string>, goVersion: string): (seq<string>, Option<SyncError>) {
    UntilFirstError(Outcomes(files, goVersion))
  }

  /**
   * syncGoVer up to the git steps. The Dockerfile's version is read, the go.mod version one
   * minor below it is handed to `go mod tidy` (whose failure output is `tidyFailure`), and the
   * workflow files (`workflows`, in walk order) are rewritten with the Dockerfile's version
   * itself. `tidyVersion` is the version passed to `go mod tidy`, `written` the new contents of
   * the workflow files written before any error.
   */
  method SyncGoVer(dockerfile: string, tidyFailure: Option<string>, workflows: seq<string>)
    returns (tidyVersion: Option<string>, written: seq<string>, err: Option<SyncError>)
    ensures DockerfileGoVersion(dockerfile).Err? ==>
      tidyVersion.None? && written == [] && err == Some(DockerfileGoVersion(dockerfile).error)
    ensures DockerfileGoVersion(dockerfile).Ok? ==>
      var goVersion := DockerfileGoVersion(dockerfile).value;
      match GoModVersion(goVersion)
      case Err(e) => tidyVersion.None? && written == [] && err == Some(e)
      case Ok(goMod) =>
        tidyVersion == Some(goMod) &&
        (tidyFailure.Some? ==> written == [] && err == Some(TidyFailed(tidyFailure.value))) &&
        (tidyFailure.None? ==> (written, err) == RewriteWorkflows(workflows, goVersion))
  {
    tidyVersion, written, err := None, [], None;
    var read := ReadGoVersionFromDockerfile(dockerfile);
    if read.Err? {
      err := Some(read.error);
      return;
    }
    var goVersion := read.value;
    var goMod := GoModVersion(goVersion);
    if goMod.Err? {
      err := Some(goMod.error);
      return;
    }
    tidyVersion := Some(goMod.value);
    if tidyFailure.Some? {
      err := Some(TidyFailed(tidyFailure.value));
      return;
    }
    written, err := RewriteWorkflowFiles(workflows, goVersion);
  }

  /**
   * The walk's outcome is fixed by where it stops: after outcomes that all succeed, at the end
   * or at one that fails.
   */
  lemma {:induction false} UntilFirstErrorStopsAt(outcomes: seq<Result<string, SyncError>>, written: seq<string>, err: Option<SyncError>)
    requires |written| <= |outcomes|
    requires forall k :: 0 <= k < |written| ==> outcomes[k] == Ok(written[k])
    requires err.None? <==> |written| == |outcomes|
    requires err.Some? ==> outcomes[|written|] == Err(err.value)
    ensures UntilFirstError(outcomes) == (written, err)
    decreases |outcomes|
  {
    if written != [] {
      UntilFirstErrorStopsAt(outcomes[1..], written[1..], err);
      assert [written[0]] + written[1..] == written;
    }
  }

  /**
   * The walk over two runs of outcomes, one after the other: when the first run fails, the
   * second is never reached; otherwise the walk goes on into the second run with the first
   * run's values in front.
   */
  lemma UntilFirstErrorAppend(a: seq<Result<string, SyncError>>, b: seq<Result<string, SyncError>>)
    ensures UntilFirstError(a).1.Some? ==> UntilFirstError(a + b) == UntilFirstError(a)
    ensures UntilFirstError(a).1.None? ==>
      UntilFirstError(a + b) == (UntilFirstError(a).0 + UntilFirstError(b).0, UntilFirstError(b).1)
  {
    var ra, rb := UntilFirstError(a), UntilFirstError(b);
    if ra.1.Some? {
      UntilFirstErrorStopsAt(a + b, ra.0, ra.1);
    } else {
      var written := ra.0 + rb.0;
      forall k | 0 <= k < |written|
        ensures (a + b)[k] == Ok(written[k])
      {
        if k >= |a| {
          assert (a + b)[k] == b[k - |a|];
        }
      }
      UntilFirstErrorStopsAt(a + b, written, rb.1);
    }
  }

  /** Rewriting workflow files one run after another is rewriting each run in turn. */
  lemma OutcomesAppend(a: seq<string>, b: seq<string>, goVersion: string)
    ensures Outcomes(a + b, goVersion) == Outcomes(a, goVersion) + Outcomes(b, goVersion)
  {
  }

  /**
   * Once a workflow file fails to rewrite, the files after it are left alone: the walk over
   * `a + b` is the walk over `a` when that fails, and otherwise `a`'s new contents followed
   * by the walk over `b`.
   */
  lemma RewriteWorkflowsAppend(a: seq<string>, b: seq<string>, goVersion: string)
    ensures RewriteWorkflows(a, goVersion).1.Some? ==>
      RewriteWorkflows(a + b, goVersion) == RewriteWorkflows(a, goVersion)
    ensures RewriteWorkflows(a, goVersion).1.None? ==>
      RewriteWorkflows(a + b, goVersion) ==
        (RewriteWorkflows(a, goVersion).0 + RewriteWorkflows(b, goVersion).0, RewriteWorkflows(b, goVersion).1)
  {
    OutcomesAppend(a, b, goVersion);
    UntilFirstErrorAppend(Outcomes(a, goVersion), Outcomes(b, goVersion));
  }

  /** The walk over the workflow files: each is rewritten in turn, stopping at the first error. */
  method RewriteWorkflowFiles(workflows: seq<string>, goVersion: string) returns (written: seq<string>, err: Option<SyncError>)
    ensures (written, err) == RewriteWorkflows(workflows, goVersion)
  {
    ghost var outcomes := Outcomes(workflows, goVersion);
    written, err := [], None;
    var i := 0;
    while i < |workflows|
      invariant 0 <= i <= |workflows| && |written| == i
      invariant forall k :: 0 <= k < i ==> outcomes[k] == Ok(written[k])
    {
      var r := ReplaceGoVersionInWorkflow(workflows[i], goVersion);
      assert outcomes[i] == r;
      if r.Err? {
        err := Some(r.error);
        UntilFirstErrorStopsAt(outcomes, written, err);
        return;
      }
      written := written + [r.value];
      i := i + 1;
    }
    UntilFirstErrorStopsAt(outcomes, written, err);
  }
}
