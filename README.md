# aws-checker in Dafny

aws-checker is a small Go service that checks whether AWS is available. Once a second it
asks for a round of checks. A background worker runs each round: one S3 `GetObject`, one
DynamoDB `Scan` and one SQS `ReceiveMessage`. Each call's latency goes into a Prometheus
histogram vector labelled by service, method and status. A signal shuts the metrics server
down. The repository also holds three maintenance tools:

- `setghaoutputs` picks the two newest stable Go releases from the go.dev feed. It writes
  them as GitHub Actions step outputs: a build matrix and the release version.
- `syncgover` reads the Go version from the Dockerfile's `FROM golang:` line. It gives
  `go mod tidy` the version one minor below it, and rewrites every `go-version: ` line in
  the workflow files to the Dockerfile's version.
- `autotagpatch` looks at the commits since the repository's last tag, oldest first. It
  tags the newest commit of the unbroken run of Dependabot commits at the old end, using
  the last tag's version with the patch number raised by one.

The model has one module per source file, plus two shared modules:

- `Wrappers` holds Option and Result.
- `GoText` holds the Go library behaviour the tools depend on:
  - `strings.Index`, `Contains`, `HasPrefix`, `TrimPrefix`, `Split` and `Join`;
  - `bufio.Scanner` with `ScanLines`;
  - `strconv.ParseInt` (with ParseUint's digit loop), `strconv.Atoi` and `%d` formatting;
  - int64 wrap-around.
- `SetGhaOutputs`, `SyncGoVer` and `AutoTagPatch` model the three tools.
- `Checker` models `main.go`.
- `Cli` models `parse.go`.

Side effects are replaced by parameters:

- **Environment variables** are parameters (a map, or the two strings autotagpatch reads).
- **File contents** are parameters: the Dockerfile, and the workflow files in walk order.
- **Remote replies** are parameters: the go.dev feed, and GitHub's tag and commit pages in
  the order they are requested.
- **Command outcomes** are parameters: `go mod tidy` and `CreateRef`.
- **AWS call outcomes** come from a function from the round number and request to
  failure.
- **The `Run` loop's scheduling** becomes an event trace. Each event is a timer tick, the
  worker taking the pending request, or a signal.

Imperative code stays imperative:

- The scanner loops, the page loop and the selection loop are `while`/`for` loops. Each is
  proved equal to a specification function.
- `sort.Slice` is an in-place insertion sort on an array, proved sorted and a permutation.
- `slices.Reverse` is an in-place array reversal.
- The output writer, the histogram and the checker are classes whose methods change their
  fields.

## Model

| member | source | states |
|---|---|---|
| GoText.Index | tools/syncgover/syncgover.go:146-147 | the result is the first position where the pattern occurs, and None means it occurs nowhere |
| GoText.Split | tools/syncgover/syncgover.go:147 | the pieces joined back with the separator give the text; there is at least one piece; no piece contains the separator |
| GoText.SplitJoinChar | tools/autotagpatch/main.go:137-142 | with a one-character separator, splitting undoes joining pieces that do not contain it |
| GoText.SplitSinglePiece | tools/syncgover/syncgover.go:54-55 | splitting on a character gives one piece exactly when the character is absent |
| GoText.TrimPrefix | tools/syncgover/syncgover.go:115 | a text that starts with the prefix loses exactly that prefix; any other text is unchanged |
| GoText.Lines | tools/syncgover/syncgover.go:141-145 | the scanned lines contain no newline |
| GoText.LinesOfUnLines | tools/syncgover/syncgover.go:152-162 | lines written out with a newline after each scan back to the same lines, each without one trailing carriage return |
| GoText.UnLinesSnoc | tools/syncgover/syncgover.go:152-159 | writing one more line appends that line and a newline to the built text |
| GoText.WrapInt64 | tools/syncgover/syncgover.go:60 | the result is in the int64 range, agrees with the input modulo 2^64, and equals an input that is already in range |
| GoText.DigitRun | tools/autotagpatch/main.go:109 | the digit run taken is a prefix of digits that is not followed by another digit |
| GoText.ParseUintDigits | tools/autotagpatch/main.go:109 | ParseUint's digit loop never succeeds with a value past 2^64-1 |
| GoText.ParseUintDigitsRun | tools/autotagpatch/main.go:109 | the loop stops at whichever comes first, a non-digit (syntax error) or the digit that passes 2^64-1 (range error): a range error exactly when the leading digit run is worth more than 2^64-1, else a syntax error when the run stops short of the end, else the run's value |
| GoText.ParseInt | tools/autotagpatch/main.go:109 | a success is an int64 from non-empty text; an error names ParseInt and the whole input |
| GoText.ParseIntValue | tools/autotagpatch/main.go:109 | ParseInt in terms of the digit run after the optional sign: no digits and anything after the run are syntax errors, a run past 2^64-1 is a range error whatever follows it, and otherwise the signed value or a range error outside int64 |
| GoText.ParseIntSignedDigits | tools/autotagpatch/main.go:109 | an optional sign and a digit run are read as their signed value when it fits int64, and are ParseInt's range error otherwise |
| GoText.ParseIntItoa | tools/autotagpatch/main.go:109 | ParseInt reads back the `%d` rendering of every int64 |
| GoText.Atoi | tools/setghaoutputs/setghaoutputs.go:108-121 | a success is an int64 from non-empty text; an error names Atoi and the input |
| GoText.AtoiFast | tools/setghaoutputs/setghaoutputs.go:108-121 | the fast path for text of 1 to 18 characters fails only with a syntax error and succeeds only inside int64 |
| GoText.AtoiIsParseInt | tools/setghaoutputs/setghaoutputs.go:108-121 | whichever path Atoi takes, it gives ParseInt's result, with an error renamed to Atoi |
| GoText.AtoiItoa | tools/setghaoutputs/setghaoutputs.go:108-121 | Atoi reads back the `%d` rendering of every int64 |
| GoText.AtoiSignedDigits | tools/setghaoutputs/setghaoutputs.go:108-121 | an optional sign and a digit run are read as their signed value when it fits int64, and are a range error otherwise |
| GoText.AtoiRejectsNonDigit | tools/setghaoutputs/setghaoutputs.go:108-121 | text with a character that is neither a digit nor a leading sign is a syntax error, when the digits after the sign are not worth more than 2^64-1 |
| GoText.AtoiOverflowFirst | tools/syncgover/syncgover.go:56-58 | a leading digit run worth more than 2^64-1 is a range error even when a stray character follows it |
| GoText.AtoiOverflowBeforeStray | tools/syncgover/syncgover.go:56-58 | any number past 2^64-1 followed by a non-digit (for example "18446744073709551616x") is a range error, not a syntax error |
| GoText.NoDotInItoa | tools/setghaoutputs/setghaoutputs.go:142-143 | a rendered integer contains no dot |
| SetGhaOutputs.ParseRelease | tools/setghaoutputs/setghaoutputs.go:96-123 | a release gives a version exactly when it is stable, its version without "go" splits into three dot-separated fields, and Atoi accepts all three (a release with any other field is skipped); the version is the three Atoi values, each in int64 |
| SetGhaOutputs.ParseRenderedRelease | tools/setghaoutputs/setghaoutputs.go:101-123 | a stable release named "go" plus the rendering of an int64 triple parses back to that triple (rendering and parsing are inverse) |
| SetGhaOutputs.CandidatesFromStable | tools/setghaoutputs/setghaoutputs.go:96-124 | every candidate version comes from a stable release of the feed |
| SetGhaOutputs.NotOlderTransitive | tools/setghaoutputs/setghaoutputs.go:131-139 | the sort order is transitive |
| SetGhaOutputs.NotOlderAntisymmetric | tools/setghaoutputs/setghaoutputs.go:131-139 | two versions that each sort no later than the other are equal, so the sort's first two places are fixed whatever order ties take |
| SetGhaOutputs.Maximum | tools/setghaoutputs/setghaoutputs.go:131-142 | the result is in the list and no entry is newer |
| SetGhaOutputs.RemoveOne | tools/setghaoutputs/setghaoutputs.go:141-143 | removes exactly one copy of a present version and leaves the list unchanged otherwise |
| SetGhaOutputs.TopTwoOrdered | tools/setghaoutputs/setghaoutputs.go:126-143 | both picks are candidates; the first is not older than the second or any candidate; the second is not older than any candidate once one copy of the first is set aside |
| SetGhaOutputs.SortedTopTwo | tools/setghaoutputs/setghaoutputs.go:131-143 | the first two entries of any newest-first permutation of the candidates are the two picks |
| SetGhaOutputs.SortNewestFirst | tools/setghaoutputs/setghaoutputs.go:131-139 | the array ends up sorted newest first and is a permutation of its old contents |
| SetGhaOutputs.InsertNewestFirst | tools/setghaoutputs/setghaoutputs.go:131-139 | one insertion step: an entry moved into a newest-first prefix leaves the prefix one longer, still newest first, and the array a permutation of its old contents |
| SetGhaOutputs.GetGoVersions | tools/setghaoutputs/setghaoutputs.go:85-145 | a decode error is returned unchanged; fewer than two candidates is the not-two-stable error; otherwise the result is the renderings of the two picks, newest first |
| SetGhaOutputs.PickedVersions | tools/setghaoutputs/setghaoutputs.go:69-83 | a success needs a decoded body with at least two candidates; every error is an upstream error or the not-two-stable error |
| SetGhaOutputs.GetGoVersionsFromAPI | tools/setghaoutputs/setghaoutputs.go:69-83 | GET and read errors are returned unchanged, and the body goes to GetGoVersions |
| SetGhaOutputs.Message | tools/setghaoutputs/setghaoutputs.go:47-57 | an upstream error's text is its own; a write error's text is its context (matrix or release output) followed by the writer's error text |
| SetGhaOutputs.WriteMessagesDistinct | tools/setghaoutputs/setghaoutputs.go:47-57 | the matrix and release write errors never have the same text, and each text determines the writer's error |
| SetGhaOutputs.Written | tools/setghaoutputs/setghaoutputs.go:47-57 | after all three writes the output is the full matrix and release lines; after fewer it is a proper prefix of them |
| SetGhaOutputs.Piece | tools/setghaoutputs/setghaoutputs.go:47-57 | the pieces are written in order: each extends what the ones before it wrote |
| SetGhaOutputs.Torn | tools/setghaoutputs/setghaoutputs.go:47-57 | what a failing write gets out is a prefix of its data, of the writer's partial length or the whole of shorter data |
| SetGhaOutputs.WrittenBy | tools/setghaoutputs/setghaoutputs.go:47-57 | what the file holds after the failing write is always a prefix of the full outputs, at least the pieces before the failing one and at most those and the failing piece |
| SetGhaOutputs.Writer.Succeeding | tools/setghaoutputs/setghaoutputs.go:47-57 | counts the writes that succeed before the first failing one |
| SetGhaOutputs.Writer.Write | tools/setghaoutputs/setghaoutputs.go:47-57 | a successful write appends all its data; a failing write returns the writer's error and may have appended a prefix of its data |
| SetGhaOutputs.WriteOutputs | tools/setghaoutputs/setghaoutputs.go:47-59 | writes the three pieces in order; the first failing write returns that piece's wrapped error, the pieces before it stay written and the failing one may be torn |
| SetGhaOutputs.SetGHAOutputs | tools/setghaoutputs/setghaoutputs.go:31-60 | a fetch or selection error is returned before anything is written; otherwise the two picks are written as `matrix=` and `release-go-version=` outputs, with the second pick as the release version |
| SyncGoVer.FirstFromLine | tools/syncgover/syncgover.go:112-116 | finds the first line that contains `FROM golang:`, and None means no line does |
| SyncGoVer.DockerfileGoVersion | tools/syncgover/syncgover.go:106-120 | an error exactly when no scanned line contains `FROM golang:`; otherwise the first such line with that prefix trimmed |
| SyncGoVer.ReadGoVersionFromDockerfile | tools/syncgover/syncgover.go:106-120 | the scanner loop returns at the first matching line, as DockerfileGoVersion says |
| SyncGoVer.FirstFromLineWins | tools/syncgover/syncgover.go:112-116 | lines without the prefix, then `FROM golang:` plus a version, then anything: the version is read back exactly |
| SyncGoVer.GoModVersion | tools/syncgover/syncgover.go:54-60 | gives the missing-minor outcome exactly when the version has no dot; any other error is a non-integer minor |
| SyncGoVer.GoModVersionOfFields | tools/syncgover/syncgover.go:54-60 | for any `major.minor` or `major.minor.rest`: a minor Atoi rejects gives the non-integer-minor error with Atoi's error; otherwise the major field, a dot and the canonical rendering of the minor's value minus one (so "1.07" and "1.+7" give "1.6") |
| SyncGoVer.GoModVersionOneMinorBelow | tools/syncgover/syncgover.go:54-60 | for `major.minor` or `major.minor.rest`, the go.mod version keeps the major field and has the minor number one lower |
| SyncGoVer.FirstMalformed | tools/syncgover/syncgover.go:144-150 | finds the first go-version line that does not split into two parts |
| SyncGoVer.RewriteLines | tools/syncgover/syncgover.go:144-160 | fails exactly when some go-version line does not split in two, naming the first such line; otherwise every line is rewritten in place, with the count unchanged |
| SyncGoVer.ReplaceGoVersionInWorkflow | tools/syncgover/syncgover.go:133-167 | the scanner loop builds exactly the rewritten lines, or returns the error of the first malformed line |
| SyncGoVer.RewriteLine | tools/syncgover/syncgover.go:146-159 | one scanned line succeeds exactly when it is not a go-version line or splits into two parts at ": ", then giving its rewritten form, and fails naming the line otherwise |
| SyncGoVer.RewrittenLineShape | tools/syncgover/syncgover.go:152-155 | a rewritten line has no newline, and no trailing carriage return when neither the line nor the version has one |
| SyncGoVer.RewritePreservesLineCount | tools/syncgover/syncgover.go:144-162 | the rewritten file scans back to the same number of lines |
| SyncGoVer.SplitRewrittenLine | tools/syncgover/syncgover.go:147-155 | a rewritten go-version line splits back into its key part and the version |
| SyncGoVer.RewrittenLineIsFixed | tools/syncgover/syncgover.go:146-159 | rewriting a rewritten line again with the same version changes nothing |
| SyncGoVer.RewriteIdempotent | tools/syncgover/syncgover.go:133-167 | rewriting a rewritten workflow file again with the same version gives the same file |
| SyncGoVer.UntilFirstError | tools/syncgover/syncgover.go:70-87 | the walk keeps the outputs of the files before the first failing one and stops with that file's error |
| SyncGoVer.UntilFirstErrorAppend | tools/syncgover/syncgover.go:70-87 | a walk over two runs of outcomes never reaches the second run when the first fails, and otherwise continues into it after the first run's values |
| SyncGoVer.RewriteWorkflowsAppend | tools/syncgover/syncgover.go:70-87 | once a workflow file fails, the files after it are left unwritten; a run of files that all succeed is followed by the walk over the rest |
| SyncGoVer.RewriteWorkflowFiles | tools/syncgover/syncgover.go:70-87 | the walk loop rewrites the files in order and stops at the first error, as RewriteWorkflows says |
| SyncGoVer.SyncGoVer | tools/syncgover/syncgover.go:38-87 | Dockerfile and minor-version errors stop the run before `go mod tidy`; tidy gets the version one minor below; a tidy failure stops before any workflow is written; the workflows get the Dockerfile's version itself |
| AutoTagPatch.SpaceRunLength | tools/autotagpatch/main.go:109 | measures the leading run of non-newline space characters |
| AutoTagPatch.SkipSpace | tools/autotagpatch/main.go:109 | `%d` drops the leading spaces, and a newline among them is an error |
| AutoTagPatch.ScanDecimal | tools/autotagpatch/main.go:109 | a scanned number fits int64 and consumes input; a newline among the leading spaces is an error |
| AutoTagPatch.ScanNumber | tools/autotagpatch/main.go:109 | a scanned number (after the spaces) fits int64 and consumes input |
| AutoTagPatch.ScanNumberValue | tools/autotagpatch/main.go:109 | the end of input, right away or after the sign, is io.EOF, and another non-digit is the expected-integer error; otherwise the result is the signed value of the digit run when it fits int64, with the rest of the input after it, and ParseInt's range error naming the token otherwise |
| AutoTagPatch.ScanDecimalRejects | tools/autotagpatch/main.go:109 | input starting with a character that is not a space, a sign or a digit is the expected-integer error |
| AutoTagPatch.ScanLiteral | tools/autotagpatch/main.go:109 | a literal of the format succeeds exactly when it is the next character |
| AutoTagPatch.ParseSemver | tools/autotagpatch/main.go:107-114 | parsed fields fit int64; empty input is an unexpected end (io.ErrUnexpectedEOF, as the literal 'v' was due); input not starting with 'v' is a mismatch |
| AutoTagPatch.ParseSemverRejectsMajor | tools/autotagpatch/main.go:107-114 | `v` followed by a character that cannot start a number is an error |
| AutoTagPatch.ParseSemverRejectsMinor | tools/autotagpatch/main.go:107-114 | `v<major>.` followed by a character that cannot start a number is an error (so "v1.x.3" is rejected) |
| AutoTagPatch.ParseSemverRejectsPatch | tools/autotagpatch/main.go:107-114 | `v<major>.<minor>.` followed by a character that cannot start a number is an error (so "v1.2.x" is rejected) |
| AutoTagPatch.ParseSemverTagName | tools/autotagpatch/main.go:75 | `v%d.%d.%d` of any int64 version, followed by a non-digit or nothing, parses back to that version |
| AutoTagPatch.NewTagBumpsPatch | tools/autotagpatch/main.go:69-75 | the new tag parses back to the last tag's major and minor, with the patch one higher (wrapping at the int64 maximum) |
| AutoTagPatch.ScanDecimalItoa | tools/autotagpatch/main.go:109 | `%d` reads back the rendering of any int64 followed by a non-digit |
| AutoTagPatch.MergeWithoutDependabotBranchNotEligible | tools/autotagpatch/main.go:231-247 | a merge commit by another author whose message has no '/' is not eligible, so the merge text alone is not enough |
| AutoTagPatch.EligiblePrefixLength | tools/autotagpatch/main.go:54-62 | all commits in the counted run are eligible, and the next commit, if any, is not |
| AutoTagPatch.SelectCommitToTag | tools/autotagpatch/main.go:54-67 | the loop picks the last commit of the eligible run at the old end; nothing is picked exactly when the list is empty or its oldest commit is not eligible |
| AutoTagPatch.GetLastTag | tools/autotagpatch/main.go:153-164 | succeeds exactly when the listing succeeded with at least one tag, giving a listed tag (the first, the newest); the no-tags error exactly when the listing succeeded, and the listing's own error wrapped otherwise |
| AutoTagPatch.NewClient | tools/autotagpatch/main.go:123-151 | an empty token is the first error, then an empty repository; a client carries the API URL and the token |
| AutoTagPatch.NewClientSplitsOwnerRepo | tools/autotagpatch/main.go:137-142 | a client is built only from `owner/repo` with exactly one slash, whose two sides are the owner and the repository |
| AutoTagPatch.NewClientAcceptsOwnerRepo | tools/autotagpatch/main.go:137-147 | every `owner/repo` with one slash, given a token, builds the client for that owner and repository |
| AutoTagPatch.BeforeSha | tools/autotagpatch/main.go:187-193 | the result is the longest prefix with no commit of the tag's SHA, and it stops at the first such commit |
| AutoTagPatch.Collect | tools/autotagpatch/main.go:177-202 | no gathered commit has the tag's SHA |
| AutoTagPatch.BeforeShaAppend | tools/autotagpatch/main.go:187-193 | the cut over two lists falls in the first when it holds the SHA, and otherwise keeps all of the first |
| AutoTagPatch.CollectCommitsBeforeTag | tools/autotagpatch/main.go:177-202 | over pages that each announce a next page, ending at the tag's commit or at a last page, the paging yields exactly the listed commits in front of the tag's commit |
| AutoTagPatch.ReverseInPlace | tools/autotagpatch/main.go:208 | the array is reversed in place |
| AutoTagPatch.Reversed | tools/autotagpatch/main.go:208 | position k of the result holds position n-1-k of the input |
| AutoTagPatch.TakePage | tools/autotagpatch/main.go:187-193 | a page's commits are appended up to the tag's commit, with a report of whether that commit was met |
| AutoTagPatch.GetCommitsSinceTag | tools/autotagpatch/main.go:166-211 | the page loop with its labelled break, the empty check and the in-place reversal give exactly CommitsSinceTag |
| AutoTagPatch.FirstLine | tools/autotagpatch/main.go:219 | the first line is a prefix of the message without a newline, and ends at the message's first newline, if any |
| AutoTagPatch.FirstLineIsFirstPiece | tools/autotagpatch/main.go:219 | the first line is the first piece of the message split on newlines |
| AutoTagPatch.ShortMessage | tools/autotagpatch/main.go:215-223 | at most 30 characters, a prefix of the first line, and the whole first line when it is shorter |
| AutoTagPatch.SummaryFields | tools/autotagpatch/main.go:214-224 | the 7-character SHA prefix and a space come first; with the 19-character date the date is at column 8 and the short message starts at column 28 |
| AutoTagPatch.SummarizeCommit | tools/autotagpatch/main.go:213-229 | the summary is the fields followed only by spaces, with length 38 or the fields' length if that is larger |
| AutoTagPatch.AutoTag | tools/autotagpatch/main.go:25-88 | exits 1 exactly on an error, with each error of the chain in order; no eligible commit exits 0 before the tag is parsed; a non-dry run asks for `refs/tags/` plus the new tag on the selected commit; a dry run asks for nothing |
| Checker.StatusLabel | main.go:146-151 | the status is "Failure" exactly when the call failed, and "Success" exactly when it did not |
| Checker.RoundObservations | main.go:146-177 | a round records one observation per request, in order, each with one of the six allowed label triples, and the status is "Failure" exactly when that request failed |
| Checker.OccurrencesAppend | main.go:148-176 | counts over concatenated observation lists add up |
| Checker.Histogram.Observe | main.go:148 | one observation appends its labels and raises that triple's count by one |
| Checker.Checker.DoCheck | main.go:138-178 | a round appends exactly the three observations S3/GetObject, DynamoDB/Scan, SQS/ReceiveMessage in that order, whatever the earlier calls returned; each triple's count grows by its occurrences in the round |
| Checker.ObserveCall | main.go:146-151 | one call's block records its service and method with the status its outcome selects |
| Checker.HistogramCountsAfter | main.go:148-176 | the counts of a valid histogram are the occurrence counts of old and new observations added |
| Checker.ApplyOptionsCollectsS3Options | main.go:122-126 | applying the options collects all S3 client options in order |
| Checker.Checker.Apply | main.go:122-124 | one option updates the fields it names and leaves the clients alone |
| Checker.NewChecker | main.go:120-136 | options are applied first; the S3 client gets the collected S3 options; the four targets come from the environment (empty when unset), whatever the options set |
| Checker.TicksAccounted | main.go:96-100 | every tick is served, dropped or still pending, and the worker runs no more rounds than it had chances to take a request |
| Checker.UntilSignal | main.go:78-80 | the handled events are the ones before the first signal |
| Checker.UntilSignalUnique | main.go:78-80 | a signal-free prefix that ends at a signal or at the end is the handled part; a signal arrived exactly when it ends before the trace does |
| Checker.RoundsLength | main.go:72-73 | n rounds of three requests record 3n observations |
| Checker.ShutdownOutcome | main.go:87-95 | Run returns nil exactly when the server shuts down without error |
| Checker.HandleEvent | main.go:66-76 | a tick fills the empty one-slot channel or is dropped; the worker empties a full channel and runs one round |
| Checker.ServeUntilSignal | main.go:78-102 | the loop handles exactly the events before the first signal; the channel state is that of Coalesce; the histogram gains the observations of the rounds served |
| Checker.Run | main.go:48-103 | a config error returns before any round; otherwise the events before the first signal are handled; a signal returns the shutdown outcome; the histogram gains exactly the rounds served, for the environment's targets |
| Cli.ParseFlags | parse.go:8-42 | exactly one of options and exit code is present; options, always empty, exactly when there is no positional argument; code 0 exactly for `version` or `-help`; code 2 exactly for other parse errors or other argument lists; `version` prints name and version; two or more arguments print "too many arguments" |

## Left out

- Network and process I/O is left out:
  - HTTP (go.dev, GitHub, AWS);
  - JSON decoding and encoding. The matrix JSON is written out literally; Go versions need
    no escaping.
  - `os.ReadFile`, `os.WriteFile` and `filepath.Walk` over directories. Workflow files are
    their contents in walk order, and read and write errors are not modelled.
  - `go mod tidy`, whose outcome is a parameter.
  - The `git diff`/`add`/`commit` steps of syncgover, which only run commands.
- Logging, printing to stdout, `os.Exit` and `log.Fatalf` are left out. Exit codes are
  results. autotagpatch's printed lines are not modelled.
- Concurrency is left out: goroutines, channels, `signal.Notify`, `contextWithSignal`,
  `time.After`, `time.Sleep` and the HTTP server's listen goroutine. `Run` sees an
  interleaving as an event trace. After `Run` returns, a worker round still in flight is
  not modelled.
- Floating point is left out: latencies, histogram buckets and sums. An observation is a
  label triple plus a count.
- AWS SDK clients are represented by their service name and options only. An S3 client
  option `func(*s3.Options)` is an opaque name. A Go `Option` is an arbitrary function;
  the model offers options that set one field or add an S3 client option.
- Error texts are mostly not modelled:
  - Errors are datatypes, not the `fmt.Errorf` wrapping text. setghaoutputs keeps its
    message texts.
  - fmt.Sscanf reports its error kinds but not their messages. The kinds are: mismatch;
    io.ErrUnexpectedEOF for a literal due at the end; io.EOF for `%d` due at the end;
    newline; no digits; and ParseInt's range error.
  - Go's `%q` quoting of an unknown command escapes nothing in the model.
  - The flag package's own parse-error message is a parameter.
- Strings are character sequences, while Go measures bytes. For example, the 30-byte cut of
  summarizeCommit and the 7-byte SHA prefix agree for ASCII text only. Atoi's choice of its
  fast path (under 19 bytes) is made on characters, which makes no difference to its
  result, as both paths agree (GoText.AtoiIsParseInt).
- The 64 KiB line limit of `bufio.Scanner` is not modelled.
- `time.Format` is not modelled: the commit date is an already formatted string.
- AutoTagPatch.SummaryFields and AutoTagPatch.SummarizeCommit require a SHA of at least 7
  characters. With a shorter SHA, the source's slice panics. The source also summarizes
  (for its log) every commit it lists while paging (tools/autotagpatch/main.go:188) and
  every commit whose eligibility it checks (tools/autotagpatch/main.go:232). So a listed
  or checked commit with a SHA shorter than 7 characters panics there too. The model's
  AutoTagPatch.CommitsSinceTag, AutoTagPatch.IsEligibleCommit and AutoTagPatch.CommitToTag do
  not log, so for such a commit they return a result where the source panics.
- AutoTagPatch.Collect: the replies are a finite list, and running out of them ends the
  paging like a last page. The page numbers requested are not modelled.
- SyncGoVer.GoModVersion: a version without a dot makes the source panic when it indexes
  its second field. The model turns that panic into the `MinorMissing` outcome.
- autotagpatch's doc comment says a commit whose message contains "Merge pull request #"
  is eligible. The code is stricter: it also needs "/dependabot/" in the message. The model
  follows the code.
- The `Version` variable printed by `version` is set outside the shown files, so it is a
  parameter.
- The `localstack` endpoint shims and the test files are left out.
