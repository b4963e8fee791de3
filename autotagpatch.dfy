/**
 * autotagpatch: find the commits since the repository's last tag, take the most recent one of
 * the unbroken run of Dependabot commits at the old end, and tag it with the next patch
 * version. GitHub's replies and the environment are parameters.
 */
module AutoTagPatch {
  import opened Wrappers
  import opened GoText

  // ---------------------------------------------------------------------------
  // parseSemver: fmt.Sscanf(tag, "v%d.%d.%d", &major, &minor, &patch)
  // ---------------------------------------------------------------------------

  datatype Semver = Semver(major: int, minor: int, patch: int)

  /** Why fmt.Sscanf stopped (the text of Go's error is not modelled). */
  datatype ScanError =
    | InputMismatch              // the next character is not the format's literal
    | UnexpectedEof              // io.ErrUnexpectedEOF: the input ended where a literal was due
    | Eof                        // io.EOF: the input ended where `%d` was due, or after its sign
    | UnexpectedNewline          // `%d` met a newline while skipping spaces
    | ExpectedInteger            // `%d` found no digit
    | IntegerRange(cause: NumError)  // strconv.ParseInt's range error

  /** The characters fmt's scanner skips as space (newline included: it is an error there). */
  predicate IsScanSpace(c: char) {
    ('\t' <= c <= '\r') || c == ' ' || c == '\U{85}' || c == '\U{A0}' || c == '\U{1680}' ||
    ('\U{2000}' <= c <= '\U{200A}') || c == '\U{2028}' || c == '\U{2029}' || c == '\U{202F}' ||
    c == '\U{205F}' || c == '\U{3000}'
  }

  /** The length of the run of spaces other than newline at the front of `s`. */
  function SpaceRunLength(s: string): (n: nat)
    ensures n <= |s|
    ensures forall k :: 0 <= k < n ==> IsScanSpace(s[k]) && s[k] != '\n'
    ensures n < |s| ==> !IsScanSpace(s[n]) || s[n] == '\n'
    decreases |s|
  {
    if s == [] || !IsScanSpace(s[0]) || s[0] == '\n' then 0
    else 1 + SpaceRunLength(s[1..])
  }

  /** The space skipping `%d` does first: spaces go, a newline among them is an error. */
  function SkipSpace(s: string): (r: Result<string, ScanError>)
    ensures r.Ok? ==> r.value == s[SpaceRunLength(s)..]
    ensures r.Ok? && r.value != [] ==> !IsScanSpace(r.value[0])
    ensures r.Err? <==> SpaceRunLength(s) < |s| && s[SpaceRunLength(s)] == '\n'
    ensures r.Err? ==> r.error == UnexpectedNewline
  {
    var n := SpaceRunLength(s);
    if n < |s| && s[n] == '\n' then Err(UnexpectedNewline) else Ok(s[n..])
  }

  /** `%d` does not skip anything in front of a sign or a digit. */
  lemma SkipSpaceAtNumber(s: string)
    requires s != [] && (s[0] == '-' || IsDigit(s[0]))
    ensures SkipSpace(s) == Ok(s)
  {
  }

  /** Text that cannot begin a number: not a space, a sign or a digit. */
  predicate NotNumberStart(c: char) {
    !IsScanSpace(c) && !IsDigit(c) && c != '+' && c != '-'
  }

  /**
   * One `%d`: skip spaces, then read a number. Returns the value and the unread input; a
   * newline among the spaces is an error.
   */
  function ScanDecimal(s: string): (r: Result<(int, string), ScanError>)
    ensures r.Ok? ==> InInt64(r.value.0) && |r.value.1| < |s|
    ensures SkipSpace(s).Err? ==> r == Err(UnexpectedNewline)
  {
    match SkipSpace(s)
    case Err(e) => Err(e)
    case Ok(t) => ScanNumber(t)
  }

  /**
   * The number `%d` reads once spaces are skipped: an optional sign and a maximal run of
   * digits, converted with ParseInt(tok, 10, 64).
   */
  function ScanNumber(t: string): (r: Result<(int, string), ScanError>)
    ensures r.Ok? ==> InInt64(r.value.0) && |r.value.1| < |t|
  {
    if t == [] then Err(Eof)
    else
      var signLen := SignLength(t);
      if signLen == |t| then Err(Eof)
      else
        var digits := DigitRun(t[signLen..]);
        if digits == [] then Err(ExpectedInteger)
        else
          match ParseInt(t[..signLen + |digits|])
          case Err(e) => Err(IntegerRange(e))
          case Ok(n) => Ok((n, t[signLen + |digits|..]))
  }

  /**
   * What `%d` reads: the end of the input, right away or after the sign, is io.EOF, and any
   * other non-digit there is the expected-integer error; otherwise the token's value when it
   * fits int64, with the input after the digits left unread, and ParseInt's range error when
   * it does not.
   */
  lemma ScanNumberValue(t: string)
    ensures var n := SignLength(t);
      var digits := DigitRun(t[n..]);
      && (digits == [] ==>
            ScanNumber(t) == (if n == |t| then Err(Eof) else Err(ExpectedInteger)))
      && (digits != [] ==>
            var v := SignedValue(t[..n], digits);
            && (ScanNumber(t).Ok? <==> InInt64(v))
            && (InInt64(v) ==> ScanNumber(t) == Ok((v, t[n + |digits|..])))
            && (!InInt64(v) ==> ScanNumber(t) == Err(IntegerRange(NumError("ParseInt", t[..n + |digits|], RangeError)))))
  {
    var n := SignLength(t);
    var digits := DigitRun(t[n..]);
    if digits != [] {
      ScanNumberOfDigits(t, n, digits);
    }
  }

  /** ScanNumberValue for a token with digits: the value of the sign and the digit run. */
  lemma ScanNumberOfDigits(t: string, n: nat, digits: string)
    requires n == SignLength(t) && digits == DigitRun(t[n..]) && digits != []
    ensures var v := SignedValue(t[..n], digits);
      && (InInt64(v) ==> ScanNumber(t) == Ok((v, t[n + |digits|..])))
      && (!InInt64(v) ==> ScanNumber(t) == Err(IntegerRange(NumError("ParseInt", t[..n + |digits|], RangeError))))
  {
    var sign := t[..n];
    assert sign == [] || sign == "+" || sign == "-";
    assert t[..n + |digits|] == sign + digits;
    ParseIntSignedDigits(sign, digits);
  }

  /** `%d` in front of text that cannot begin a number (the "x" in "v1.x.3") is an error. */
  lemma ScanDecimalRejects(s: string)
    requires s != [] && NotNumberStart(s[0])
    ensures ScanDecimal(s) == Err(ExpectedInteger)
  {
    assert SpaceRunLength(s) == 0;
    assert SkipSpace(s) == Ok(s);
    assert SignLength(s) == 0 && s[0..] == s;
    DigitRunUnique(s, []);
  }

  /** A literal character of the format: it must be the next input character. */
  function ScanLiteral(s: string, c: char): (r: Result<string, ScanError>)
    ensures r.Ok? <==> s != [] && s[0] == c
    ensures r.Ok? ==> r.value == s[1..]
  {
    if s == [] then Err(UnexpectedEof)
    else if s[0] != c then Err(InputMismatch)
    else Ok(s[1..])
  }

  /** The `.%d` of the format: a literal dot, then a number. */
  function ScanDotDecimal(s: string): (r: Result<(int, string), ScanError>)
    ensures r.Ok? ==> InInt64(r.value.0)
  {
    match ScanLiteral(s, '.')
    case Err(e) => Err(e)
    case Ok(t) => ScanDecimal(t)
  }

  /**
   * parseSemver: the `v%d.%d.%d` scan. Input after the third number is ignored, as Sscanf
   * does not require the input to be used up.
   */
  function ParseSemver(tag: string): (r: Result<Semver, ScanError>)
    ensures r.Ok? ==> InInt64(r.value.major) && InInt64(r.value.minor) && InInt64(r.value.patch)
    ensures tag == [] ==> r == Err(UnexpectedEof)
    ensures tag != [] && tag[0] != 'v' ==> r == Err(InputMismatch)
  {
    match ScanLiteral(tag, 'v')
    case Err(e) => Err(e)
    case Ok(s1) =>
      match ScanDecimal(s1)
      case Err(e) => Err(e)
      case Ok(p1) =>
        match ScanDotDecimal(p1.1)
        case Err(e) => Err(e)
        case Ok(p2) =>
          match ScanDotDecimal(p2.1)
          case Err(e) => Err(e)
          case Ok(p3) => Ok(Semver(p1.0, p2.0, p3.0))
  }

  /** The `v%d.%d.%d` rendering of a version. */
  function TagName(v: Semver): string {
    "v" + Itoa(v.major) + "." + Itoa(v.minor) + "." + Itoa(v.patch)
  }

  /** The version after `v`: same major and minor, patch plus one (int64 wrap-around). */
  function NextPatch(v: Semver): Semver {
    Semver(v.major, v.minor, WrapInt64(v.patch + 1))
  }

  /** The new tag of the main flow. */
  function NewTag(v: Semver): string {
    TagName(NextPatch(v))
  }

  /** `%d` on text that starts with a sign or a digit: the token ends where the digits do. */
  lemma ScanDecimalAt(t: string, signLen: nat, k: nat)
    requires t != [] && (t[0] == '-' || IsDigit(t[0]))
    requires signLen == (if t[0] == '+' || t[0] == '-' then 1 else 0) && signLen < k <= |t|
    requires DigitRun(t[signLen..]) == t[signLen..k]
    ensures ScanDecimal(t) ==
      match ParseInt(t[..k])
      case Err(e) => Err(IntegerRange(e))
      case Ok(n) => Ok((n, t[k..]))
  {
    SkipSpaceAtNumber(t);
    assert SignLength(t) == signLen;
    assert |DigitRun(t[signLen..])| == k - signLen;
    assert ScanDecimal(t) == ScanNumber(t);
  }

  /** A token of an optional '-' and digits, followed by a non-digit, is what `%d` reads. */
  lemma ScanDecimalOfToken(sign: string, digits: string, rest: string)
    requires sign == [] || sign == "-"
    requires digits != [] && AllDigits(digits)
    requires rest == [] || !IsDigit(rest[0])
    ensures ScanDecimal(sign + digits + rest) ==
      match ParseInt(sign + digits)
      case Err(e) => Err(IntegerRange(e))
      case Ok(n) => Ok((n, rest))
  {
    var s := sign + digits + rest;
    var k := |sign| + |digits|;
    assert s[0] == '-' || IsDigit(s[0]);
    assert s[|sign|..] == digits + rest;
    assert s[|sign|..k] == digits;
    DigitRunOfDigits(digits, rest);
    ScanDecimalAt(s, |sign|, k);
    assert s[..k] == sign + digits;
    assert s[k..] == rest;
  }

  /** `%d` output followed by a non-digit scans back to the same number. */
  lemma ScanDecimalItoa(n: int, rest: string)
    requires InInt64(n)
    requires rest == [] || !IsDigit(rest[0])
    ensures ScanDecimal(Itoa(n) + rest) == Ok((n, rest))
  {
    ParseIntItoa(n);
    if n < 0 {
      ScanDecimalOfToken("-", NatDigits(-n), rest);
    } else {
      assert Itoa(n) == [] + NatDigits(n);
      ScanDecimalOfToken([], NatDigits(n), rest);
    }
  }

  /** `.` and `%d` output followed by a non-digit scan back to the same number. */
  lemma ScanDotDecimalItoa(n: int, rest: string)
    requires InInt64(n)
    requires rest == [] || !IsDigit(rest[0])
    ensures ScanDotDecimal("." + Itoa(n) + rest) == Ok((n, rest))
  {
    assert ("." + Itoa(n) + rest)[1..] == Itoa(n) + rest;
    ScanDecimalItoa(n, rest);
  }

  /** parseSemver succeeds when each of its scans does in turn. */
  lemma ParseSemverSteps(t: string, v: Semver, r1: string, r2: string, r3: string)
    requires ScanDecimal(t) == Ok((v.major, r1))
    requires ScanDotDecimal(r1) == Ok((v.minor, r2))
    requires ScanDotDecimal(r2) == Ok((v.patch, r3))
    ensures ParseSemver("v" + t) == Ok(v)
  {
    assert ("v" + t)[1..] == t;
  }

  /** parseSemver fails when the major number is missing ("vx.2.3"). */
  lemma ParseSemverRejectsMajor(rest: string)
    requires rest != [] && NotNumberStart(rest[0])
    ensures ParseSemver("v" + rest) == Err(ExpectedInteger)
  {
    assert ("v" + rest)[1..] == rest;
    ScanDecimalRejects(rest);
  }

  /** parseSemver fails when the minor number is missing ("v1.x.3"). */
  lemma ParseSemverRejectsMinor(major: int, rest: string)
    requires InInt64(major)
    requires rest != [] && NotNumberStart(rest[0])
    ensures ParseSemver("v" + Itoa(major) + "." + rest) == Err(ExpectedInteger)
  {
    var tail := "." + rest;
    assert ("v" + Itoa(major) + "." + rest)[1..] == Itoa(major) + tail;
    assert ScanDecimal(Itoa(major) + tail) == Ok((major, tail)) by {
      ScanDecimalItoa(major, tail);
    }
    assert ScanDotDecimal(tail) == Err(ExpectedInteger) by {
      assert tail[1..] == rest;
      ScanDecimalRejects(rest);
    }
  }

  /** parseSemver fails when the patch number is missing ("v1.2.x"). */
  lemma ParseSemverRejectsPatch(major: int, minor: int, rest: string)
    requires InInt64(major) && InInt64(minor)
    requires rest != [] && NotNumberStart(rest[0])
    ensures ParseSemver("v" + Itoa(major) + "." + Itoa(minor) + "." + rest) == Err(ExpectedInteger)
  {
    var tail3 := "." + rest;
    var tail2 := "." + Itoa(minor) + tail3;
    var t := Itoa(major) + tail2;
    calc {
      "v" + Itoa(major) + "." + Itoa(minor) + "." + rest;
      { ConcatAssoc("v" + Itoa(major) + "." + Itoa(minor), ".", rest); }
      "v" + Itoa(major) + "." + Itoa(minor) + tail3;
      { ConcatAssoc("v" + Itoa(major), ".", Itoa(minor)); }
      "v" + Itoa(major) + ("." + Itoa(minor)) + tail3;
      { ConcatAssoc("v" + Itoa(major), "." + Itoa(minor), tail3); }
      "v" + Itoa(major) + tail2;
      { ConcatAssoc("v", Itoa(major), tail2); }
      "v" + t;
    }
    assert ScanDecimal(t) == Ok((major, tail2)) by {
      ScanDecimalItoa(major, tail2);
    }
    assert ScanDotDecimal(tail2) == Ok((minor, tail3)) by {
      ScanDotDecimalItoa(minor, tail3);
    }
    assert ScanDotDecimal(tail3) == Err(ExpectedInteger) by {
      assert tail3[1..] == rest;
      ScanDecimalRejects(rest);
    }
    ParseSemverFailsAtPatch(t, major, minor, tail2, tail3);
  }

  /** parseSemver fails with the third scan's error when the first two succeed. */
  lemma ParseSemverFailsAtPatch(t: string, major: int, minor: int, r1: string, r2: string)
    requires ScanDecimal(t) == Ok((major, r1))
    requires ScanDotDecimal(r1) == Ok((minor, r2))
    requires ScanDotDecimal(r2).Err?
    ensures ParseSemver("v" + t) == Err(ScanDotDecimal(r2).error)
  {
    assert ("v" + t)[1..] == t;
  }

  /** parseSemver reads back every int64 version it renders, whatever non-digit follows. */
  lemma ParseSemverTagName(v: Semver, rest: string)
    requires InInt64(v.major) && InInt64(v.minor) && InInt64(v.patch)
    requires rest == [] || !IsDigit(rest[0])
    ensures ParseSemver(TagName(v) + rest) == Ok(v)
  {
    var tail3 := "." + Itoa(v.patch) + rest;
    var tail2 := "." + Itoa(v.minor) + tail3;
    assert TagName(v) + rest == "v" + (Itoa(v.major) + tail2);
    ScanDecimalItoa(v.major, tail2);
    ScanDotDecimalItoa(v.minor, tail3);
    ScanDotDecimalItoa(v.patch, rest);
    ParseSemverSteps(Itoa(v.major) + tail2, v, tail2, tail3, rest);
  }

  /**
   * The tag the tool creates parses back as the last tag's version with the patch number one
   * higher and the major and minor numbers unchanged.
   */
  lemma NewTagBumpsPatch(lastTag: string)
    requires ParseSemver(lastTag).Ok?
    ensures var v := ParseSemver(lastTag).value;
      ParseSemver(NewTag(v)) == Ok(Semver(v.major, v.minor, WrapInt64(v.patch + 1))) &&
      (v.patch < MaxInt64 ==> ParseSemver(NewTag(v)).value.patch == v.patch + 1)
  {
    var v := ParseSemver(lastTag).value;
    ParseSemverTagName(NextPatch(v), []);
    assert NewTag(v) + [] == NewTag(v);
  }

  // ---------------------------------------------------------------------------
  // Commits and isEligibleCommit
  // ---------------------------------------------------------------------------

  /**
   * A commit as GitHub lists it: its SHA, the author name (nil when absent), the message and
   * the committer date already formatted as `2006-01-02 15:04:05`.
   */
  datatype Commit = Commit(sha: string, authorName: Option<string>, message: string, committed: string)

  const DependabotName: string := "dependabot[bot]"
  const MergePullRequest: string := "Merge pull request #"
  const DependabotBranch: string := "/dependabot/"

  /**
   * isEligibleCommit: authored by Dependabot, or merging a pull request from a dependabot
   * branch (both texts in the message).
   */
  predicate IsEligibleCommit(c: Commit) {
    c.authorName == Some(DependabotName) ||
    (Contains(c.message, MergePullRequest) && Contains(c.message, DependabotBranch))
  }

  /**
   * A merge commit is not enough by itself: a merge of a pull request from a branch other
   * than a dependabot one (a message without any '/'), by another author, is not eligible.
   */
  lemma MergeWithoutDependabotBranchNotEligible(c: Commit)
    requires c.authorName != Some(DependabotName) && '/' !in c.message
    ensures !IsEligibleCommit(c)
  {
    assert DependabotBranch[0] == '/';
    forall i: nat | i <= |c.message| ensures !OccursAt(c.message, DependabotBranch, i) {
      if i + |DependabotBranch| <= |c.message| {
        assert c.message[i..i + |DependabotBranch|][0] == c.message[i];
        assert c.message[i] != '/';
      }
    }
  }

  // ---------------------------------------------------------------------------
  // The commit to tag: the selection loop in main
  // ---------------------------------------------------------------------------

  /** The length of the longest run of eligible commits at the front of the oldest-first list. */
  function EligiblePrefixLength(commits: seq<Commit>): (n: nat)
    ensures n <= |commits|
    ensures forall k :: 0 <= k < n ==> IsEligibleCommit(commits[k])
    ensures n < |commits| ==> !IsEligibleCommit(commits[n])
    decreases |commits|
  {
    if commits == [] || !IsEligibleCommit(commits[0]) then 0
    else 1 + EligiblePrefixLength(commits[1..])
  }

  /** The commit to tag: the last one of the eligible run, if the run is not empty. */
  function CommitToTag(commits: seq<Commit>): Option<Commit> {
    var n := EligiblePrefixLength(commits);
    if n == 0 then None else Some(commits[n - 1])
  }

  /**
   * The selection loop: walk the commits oldest first, remembering the latest eligible one,
   * and stop at the first that is not eligible.
   */
  method SelectCommitToTag(commits: seq<Commit>) returns (selected: Option<Commit>)
    ensures selected == CommitToTag(commits)
    ensures selected.None? <==> commits == [] || !IsEligibleCommit(commits[0])
  {
    selected := None;
    var i := 0;
    while i < |commits|
      invariant 0 <= i <= |commits|
      invariant forall k :: 0 <= k < i ==> IsEligibleCommit(commits[k])
      invariant selected == if i == 0 then None else Some(commits[i - 1])
    {
      var commit := commits[i];
      if IsEligibleCommit(commit) {
        selected := Some(commit);
      } else {
        break;
      }
      i := i + 1;
    }
    assert i == EligiblePrefixLength(commits);
  }

  // ---------------------------------------------------------------------------
  // getLastTag and newClient
  // ---------------------------------------------------------------------------

  /** A repository tag: its name and the SHA of the commit it points at. */
  datatype Tag = Tag(name: string, commitSha: string)

  /** The errors that make autotagpatch exit with status 1. */
  datatype AutoTagError =
    | TokenNotSet                       // GITHUB_TOKEN is empty
    | RepositoryNotSet                  // GITHUB_REPOSITORY is empty
    | InvalidRepositoryFormat           // GITHUB_REPOSITORY is not `owner/repo`
    | ListTagsFailed(cause: string)
    | NoTagsFound
    | ListCommitsFailed(cause: string)
    | NoNewCommits(tagName: string)
    | ParseSemverFailed(scan: ScanError)
    | CreateRefFailed(cause: string)

  /** getLastTag: the first tag GitHub lists. */
  function GetLastTag(listed: Result<seq<Tag>, string>): (r: Result<Tag, AutoTagError>)
    ensures r.Ok? <==> listed.Ok? && listed.value != []
    ensures r.Ok? ==> r.value in listed.value && r.value == listed.value[0]
    ensures r.Err? ==> (r.error == NoTagsFound <==> listed.Ok?)
    ensures listed.Err? ==> r == Err(ListTagsFailed(listed.error))
  {
    match listed
    case Err(e) => Err(ListTagsFailed(e))
    case Ok(tags) => if |tags| == 0 then Err(NoTagsFound) else Ok(tags[0])
  }

  const GitHubApiUrl: string := "https://api.github.com"

  /** The client's settings: API URL, token, owner and repository. */
  datatype Client = Client(url: string, token: string, owner: string, repo: string)

  /** newClient over the two environment values (an unset variable reads as ""). */
  function NewClient(token: string, ownerRepo: string): (r: Result<Client, AutoTagError>)
    ensures token == [] ==> r == Err(TokenNotSet)
    ensures token != [] && ownerRepo == [] ==> r == Err(RepositoryNotSet)
    ensures r.Ok? ==> r.value.url == GitHubApiUrl && r.value.token == token
  {
    if token == [] then Err(TokenNotSet)
    else if ownerRepo == [] then Err(RepositoryNotSet)
    else
      var parts := Split(ownerRepo, "/");
      if |parts| != 2 then Err(InvalidRepositoryFormat)
      else Ok(Client(GitHubApiUrl, token, parts[0], parts[1]))
  }

  /** `owner/repo` with a single slash. */
  predicate SingleSlashAt(ownerRepo: string, k: int) {
    0 <= k < |ownerRepo| && ownerRepo[k] == '/' && '/' !in ownerRepo[..k] && '/' !in ownerRepo[k + 1..]
  }

  /** A client is built only from `owner/repo` with one slash, owner and repository around it. */
  lemma NewClientSplitsOwnerRepo(token: string, ownerRepo: string)
    requires NewClient(token, ownerRepo).Ok?
    ensures var c := NewClient(token, ownerRepo).value;
      ownerRepo == c.owner + "/" + c.repo && '/' !in c.owner && '/' !in c.repo &&
      SingleSlashAt(ownerRepo, |c.owner|)
  {
    var parts := Split(ownerRepo, "/");
    assert ownerRepo == parts[0] + "/" + parts[1];
    ContainsChar(parts[0], '/');
    ContainsChar(parts[1], '/');
    var k := |parts[0]|;
    assert ownerRepo[..k] == parts[0] && ownerRepo[k + 1..] == parts[1];
  }

  /** Every `owner/repo` with one slash is accepted (given a token). */
  lemma NewClientAcceptsOwnerRepo(token: string, owner: string, repo: string)
    requires token != [] && '/' !in owner && '/' !in repo
    ensures NewClient(token, owner + "/" + repo) == Ok(Client(GitHubApiUrl, token, owner, repo))
  {
    assert owner + "/" + repo == Join([owner, repo], "/");
    SplitJoinChar([owner, repo], '/');
  }

  // ---------------------------------------------------------------------------
  // getCommitsSinceTag
  // ---------------------------------------------------------------------------

  /** One page of ListCommits, newest first, with the reply's NextPage (0 on the last page). */
  datatype Page = Page(commits: seq<Commit>, nextPage: int)

  /** The commits in front of the first one with SHA `sha`. */
  function BeforeSha(cs: seq<Commit>, sha: string): (r: seq<Commit>)
    ensures |r| <= |cs| && r == cs[..|r|]
    ensures forall k :: 0 <= k < |r| ==> r[k].sha != sha
    ensures |r| < |cs| ==> cs[|r|].sha == sha
    decreases |cs|
  {
    if cs == [] || cs[0].sha == sha then []
    else
      var rest := BeforeSha(cs[1..], sha);
      assert cs[..1 + |rest|] == [cs[0]] + cs[1..][..|rest|];
      [cs[0]] + rest
  }

  /** The commits of the pages, in order. */
  function Flatten(pages: seq<Page>): seq<Commit> {
    if pages == [] then [] else pages[0].commits + Flatten(pages[1..])
  }

  /**
   * The newest-first commits the paging loop gathers from the successive replies: pages are
   * taken in order until a commit with the tag's SHA (which is left out, as are the commits
   * after it) or a page whose NextPage is 0. Running out of replies ends the paging as well.
   */
  function Collect(replies: seq<Result<Page, string>>, sha: string): (r: Result<seq<Commit>, string>)
    ensures r.Ok? ==> forall k :: 0 <= k < |r.value| ==> r.value[k].sha != sha
    decreases |replies|
  {
    if replies == [] then Ok([])
    else
      match replies[0]
      case Err(e) => Err(e)
      case Ok(page) =>
        var before := BeforeSha(page.commits, sha);
        if |before| < |page.commits| || page.nextPage == 0 then Ok(before)
        else
          match Collect(replies[1..], sha)
          case Err(e) => Err(e)
          case Ok(rest) => Ok(page.commits + rest)
  }

  /** The replies of a server that answers every request with the given pages in turn. */
  function Served(pages: seq<Page>): (r: seq<Result<Page, string>>)
    ensures |r| == |pages| && forall k :: 0 <= k < |pages| ==> r[k] == Ok(pages[k])
  {
    seq(|pages|, k requires 0 <= k < |pages| => Ok(pages[k]))
  }

  /** BeforeSha is the only prefix free of `sha` that stops at `sha` or at the end. */
  lemma BeforeShaUnique(cs: seq<Commit>, sha: string, r: seq<Commit>)
    requires |r| <= |cs| && r == cs[..|r|]
    requires forall k :: 0 <= k < |r| ==> cs[k].sha != sha
    requires |r| < |cs| ==> cs[|r|].sha == sha
    ensures BeforeSha(cs, sha) == r
  {
    var x := BeforeSha(cs, sha);
    assert forall k :: 0 <= k < |x| ==> cs[k].sha != sha by {
      forall k | 0 <= k < |x| ensures cs[k].sha != sha {
        assert cs[k] == x[k];
      }
    }
    assert |x| == |r|;
  }

  /** BeforeSha over two lists: the first one's part if it holds the SHA, else all of it and more. */
  lemma BeforeShaAppend(a: seq<Commit>, b: seq<Commit>, sha: string)
    ensures BeforeSha(a + b, sha) ==
      if |BeforeSha(a, sha)| < |a| then BeforeSha(a, sha) else a + BeforeSha(b, sha)
  {
    if |BeforeSha(a, sha)| < |a| {
      BeforeShaInFirst(a, b, sha);
    } else {
      BeforeShaPastFirst(a, b, sha);
    }
  }

  lemma BeforeShaInFirst(a: seq<Commit>, b: seq<Commit>, sha: string)
    requires |BeforeSha(a, sha)| < |a|
    ensures BeforeSha(a + b, sha) == BeforeSha(a, sha)
  {
    var x := BeforeSha(a, sha);
    var ab := a + b;
    assert ab[..|x|] == a[..|x|];
    assert ab[|x|] == a[|x|];
    forall k | 0 <= k < |x| ensures ab[k].sha != sha {
      assert ab[k] == x[k];
    }
    BeforeShaUnique(ab, sha, x);
  }

  lemma BeforeShaPastFirst(a: seq<Commit>, b: seq<Commit>, sha: string)
    requires |BeforeSha(a, sha)| == |a|
    ensures BeforeSha(a + b, sha) == a + BeforeSha(b, sha)
  {
    var y := BeforeSha(b, sha);
    var ab := a + b;
    var r := a + y;
    assert ab[..|r|] == r by {
      assert y == b[..|y|];
    }
    assert forall k :: 0 <= k < |r| ==> ab[k].sha != sha by {
      var x := BeforeSha(a, sha);
      assert x == a;
      forall k | 0 <= k < |r| ensures ab[k].sha != sha {
        if k < |a| {
          assert ab[k] == x[k];
        } else {
          assert ab[k] == y[k - |a|];
        }
      }
    }
    assert |r| < |ab| ==> ab[|r|].sha == sha by {
      if |r| < |ab| {
        assert ab[|r|] == b[|y|];
      }
    }
    BeforeShaUnique(ab, sha, r);
  }

  /**
   * The paging gathers exactly the commits newer than the tag: if every page but the last
   * announces a next page, and the tag's commit is among the pages or the last page is the
   * final one, the result is everything listed in front of the tag's commit.
   */
  lemma {:induction false} CollectCommitsBeforeTag(pages: seq<Page>, sha: string)
    requires pages != []
    requires forall k :: 0 <= k < |pages| - 1 ==> pages[k].nextPage != 0
    requires |BeforeSha(Flatten(pages), sha)| < |Flatten(pages)| || pages[|pages| - 1].nextPage == 0
    ensures Collect(Served(pages), sha) == Ok(BeforeSha(Flatten(pages), sha))
    decreases |pages|
  {
    var page := pages[0];
    var replies := Served(pages);
    var before := BeforeSha(page.commits, sha);
    var later := Flatten(pages[1..]);
    assert replies[0] == Ok(page);
    assert Flatten(pages) == page.commits + later;
    BeforeShaAppend(page.commits, later, sha);
    if |before| < |page.commits| {
      CollectLastPage(replies, sha);
    } else {
      assert before == page.commits;
      if page.nextPage == 0 {
        CollectLastPage(replies, sha);
        assert |pages| == 1;
        assert later == [];
      } else {
        assert |pages| > 1;
        CollectNextPage(replies, sha);
        assert replies[1..] == Served(pages[1..]);
        CollectCommitsBeforeTag(pages[1..], sha);
      }
    }
  }

  /** The pages' commits in front of the gathered ones. */
  function Prepend(cs: seq<Commit>, r: Result<seq<Commit>, string>): Result<seq<Commit>, string> {
    match r
    case Err(e) => Err(e)
    case Ok(rest) => Ok(cs + rest)
  }

  /** Prepending the empty list changes nothing; prepending twice prepends the concatenation. */
  lemma PrependFacts(a: seq<Commit>, b: seq<Commit>, r: Result<seq<Commit>, string>)
    ensures Prepend([], r) == r
    ensures Prepend(a, Prepend(b, r)) == Prepend(a + b, r)
  {
    if r.Ok? {
      assert [] + r.value == r.value;
      assert a + (b + r.value) == (a + b) + r.value;
    }
  }

  /** A page without the tag's commit that announces a next page is followed by the next reply. */
  lemma CollectNextPage(replies: seq<Result<Page, string>>, sha: string)
    requires replies != [] && replies[0].Ok?
    requires BeforeSha(replies[0].value.commits, sha) == replies[0].value.commits
    requires replies[0].value.nextPage != 0
    ensures Collect(replies, sha) == Prepend(replies[0].value.commits, Collect(replies[1..], sha))
  {
  }

  /** A page with the tag's commit, or the last page, ends the gathering. */
  lemma CollectLastPage(replies: seq<Result<Page, string>>, sha: string)
    requires replies != [] && replies[0].Ok?
    requires BeforeSha(replies[0].value.commits, sha) != replies[0].value.commits || replies[0].value.nextPage == 0
    ensures Collect(replies, sha) == Ok(BeforeSha(replies[0].value.commits, sha))
  {
  }

  /** `s` in reverse order. */
  function Reversed<T>(s: seq<T>): (r: seq<T>)
    ensures |r| == |s|
    ensures forall k :: 0 <= k < |s| ==> r[k] == s[|s| - 1 - k]
  {
    if s == [] then [] else Reversed(s[1..]) + [s[0]]
  }

  /** slices.Reverse: the array reversed in place. */
  method ReverseInPlace<T>(a: array<T>)
    modifies a
    ensures a[..] == Reversed(old(a[..]))
  {
    var n := a.Length;
    var i := 0;
    while i < n / 2
      invariant 0 <= i <= n / 2
      invariant forall k :: 0 <= k < i ==> a[k] == old(a[n - 1 - k]) && a[n - 1 - k] == old(a[k])
      invariant forall k :: i <= k < n - i ==> a[k] == old(a[k])
    {
      a[i], a[n - 1 - i] := a[n - 1 - i], a[i];
      i := i + 1;
    }
  }

  /** getCommitsSinceTag's result: the gathered commits, oldest first, or its error. */
  function CommitsSinceTag(replies: seq<Result<Page, string>>, tag: Tag): Result<seq<Commit>, AutoTagError> {
    match Collect(replies, tag.commitSha)
    case Err(e) => Err(ListCommitsFailed(e))
    case Ok(newestFirst) =>
      if newestFirst == [] then Err(NoNewCommits(tag.name)) else Ok(Reversed(newestFirst))
  }

  /**
   * The loop over one page's commits: append each commit until the one with the tag's SHA,
   * and report whether that one was met (the labelled break out of the paging loop).
   */
  method TakePage(page: Page, sha: string, commits: seq<Commit>) returns (taken: seq<Commit>, found: bool)
    ensures taken == commits + BeforeSha(page.commits, sha)
    ensures found <==> |BeforeSha(page.commits, sha)| < |page.commits|
  {
    taken := commits;
    for j := 0 to |page.commits|
      invariant taken == commits + page.commits[..j]
      invariant forall k :: 0 <= k < j ==> page.commits[k].sha != sha
    {
      if page.commits[j].sha == sha {
        assert BeforeSha(page.commits, sha) == page.commits[..j];
        return taken, true;
      }
      taken := taken + [page.commits[j]];
    }
    assert page.commits[..|page.commits|] == page.commits;
    found := false;
  }

  /**
   * getCommitsSinceTag: page through ListCommits (the replies, in call order) until the tag's
   * commit or the last page, then reverse the gathered commits in place.
   */
  method GetCommitsSinceTag(replies: seq<Result<Page, string>>, tag: Tag) returns (r: Result<seq<Commit>, AutoTagError>)
    ensures r == CommitsSinceTag(replies, tag)
  {
    var commits: seq<Commit> := [];
    var p := 0;
    assert replies[p..] == replies;
    PrependFacts([], [], Collect(replies, tag.commitSha));
    while p < |replies|
      invariant 0 <= p <= |replies|
      invariant Collect(replies, tag.commitSha) == Prepend(commits, Collect(replies[p..], tag.commitSha))
      decreases |replies| - p
    {
      if replies[p].Err? {
        return Err(ListCommitsFailed(replies[p].error));
      }
      var page := replies[p].value;
      ghost var before := commits;
      var found;
      commits, found := TakePage(page, tag.commitSha, commits);
      if found {
        CollectLastPage(replies[p..], tag.commitSha);
        assert Collect(replies, tag.commitSha) == Ok(commits);
        break;
      }
      if page.nextPage == 0 {
        CollectLastPage(replies[p..], tag.commitSha);
        assert Collect(replies, tag.commitSha) == Ok(commits);
        break;
      }
      CollectNextPage(replies[p..], tag.commitSha);
      assert replies[p..][1..] == replies[p + 1..];
      PrependFacts(before, page.commits, Collect(replies[p + 1..], tag.commitSha));
      p := p + 1;
    }
    if p == |replies| {
      assert replies[p..] == [];
      assert commits + [] == commits;
    }
    assert Collect(replies, tag.commitSha) == Ok(commits);
    if |commits| == 0 {
      return Err(NoNewCommits(tag.name));
    }
    var a := new Commit[|commits|](k requires 0 <= k < |commits| => commits[k]);
    assert a[..] == commits;
    ReverseInPlace(a);
    return Ok(a[..]);
  }

  // ---------------------------------------------------------------------------
  // summarizeCommit
  // ---------------------------------------------------------------------------

  const ShortShaLength: nat := 7
  const ShortMessageLength: nat := 30
  const SummaryWidth: nat := 38

  /** The first line of a commit message: the text in front of its first newline. */
  function FirstLine(message: string): (r: string)
    ensures HasPrefix(message, r) && '\n' !in r
    ensures r == message || message[|r|] == '\n'
  {
    match IndexByte(message, '\n')
    case None => message
    case Some(i) => message[..i]
  }

  /** The first line is the first piece of the message split on newlines, as the code takes it. */
  lemma FirstLineIsFirstPiece(message: string)
    ensures FirstLine(message) == Split(message, "\n")[0]
  {
    match IndexByte(message, '\n')
    case None =>
      SplitSinglePiece(message, '\n');
      assert Join(Split(message, "\n"), "\n") == Split(message, "\n")[0];
    case Some(i) =>
      var line := message[..i];
      assert message == line + ['\n'] + message[i + 1..];
      SplitAfterFreePrefix(line, '\n', message[i + 1..]);
  }

  /** The first line of the message cut to at most 30 characters. */
  function ShortMessage(message: string): (r: string)
    ensures |r| <= ShortMessageLength && HasPrefix(FirstLine(message), r)
    ensures |r| < ShortMessageLength ==> r == FirstLine(message)
  {
    var line := FirstLine(message);
    line[..if |line| < ShortMessageLength then |line| else ShortMessageLength]
  }

  /**
   * The summary's fields before padding: the 7-character SHA prefix at column 0 and, for the
   * 19-character date format, the date at column 8 and the short message from column 28.
   */
  function SummaryFields(c: Commit): (r: string)
    requires |c.sha| >= ShortShaLength
    ensures |r| == 9 + |c.committed| + |ShortMessage(c.message)|
    ensures r[..7] == c.sha[..7] && r[7] == ' '
    ensures |c.committed| == 19 ==>
      r[8..27] == c.committed && r[27] == ' ' && r[28..] == ShortMessage(c.message)
  {
    var sha := c.sha[..7];
    var msg := ShortMessage(c.message);
    var r := sha + " " + c.committed + " " + msg;
    assert r[..7] == sha;
    assert r[8..8 + |c.committed|] == c.committed;
    assert r[9 + |c.committed|..] == msg;
    r
  }

  /**
   * summarizeCommit: the fields joined by spaces and padded with spaces to at least 38
   * characters; nothing is cut when the fields are longer.
   */
  method SummarizeCommit(c: Commit) returns (summary: string)
    requires |c.sha| >= ShortShaLength
    ensures var fields := SummaryFields(c);
      |summary| == (if |fields| < SummaryWidth then SummaryWidth else |fields|) &&
      summary[..|fields|] == fields &&
      forall k :: |fields| <= k < |summary| ==> summary[k] == ' '
  {
    summary := SummaryFields(c);
    ghost var fields := summary;
    var i := |summary|;
    while i < SummaryWidth
      invariant |fields| <= i && |summary| == i
      invariant i <= SummaryWidth || i == |fields|
      invariant summary[..|fields|] == fields
      invariant forall k :: |fields| <= k < |summary| ==> summary[k] == ' '
      decreases SummaryWidth - i
    {
      summary := summary + " ";
      i := i + 1;
    }
  }

  // ---------------------------------------------------------------------------
  // main
  // ---------------------------------------------------------------------------

  /** The lightweight tag reference CreateRef is asked to create. */
  datatype TagRef = TagRef(ref: string, sha: string)

  const TagRefPrefix: string := "refs/tags/"

  /**
   * main, with the environment, GitHub's replies and the CreateRef outcome as parameters.
   * Returns the exit status, the reference CreateRef was asked for (none in a dry run) and the
   * error printed before exiting with 1.
   */
  method AutoTag(token: string, ownerRepo: string, tagsReply: Result<seq<Tag>, string>,
                 commitReplies: seq<Result<Page, string>>, dryRun: bool, createFailure: Option<string>)
    returns (code: int, request: Option<TagRef>, err: Option<AutoTagError>)
    ensures code == 0 <==> err.None?
    ensures code == 0 || code == 1
    ensures request.Some? ==> !dryRun
    ensures NewClient(token, ownerRepo).Err? ==> err == Some(NewClient(token, ownerRepo).error)
    ensures NewClient(token, ownerRepo).Ok? && GetLastTag(tagsReply).Err? ==>
      err == Some(GetLastTag(tagsReply).error)
    ensures NewClient(token, ownerRepo).Ok? && GetLastTag(tagsReply).Ok? ==>
      var tag := GetLastTag(tagsReply).value;
      match CommitsSinceTag(commitReplies, tag)
      case Err(e) => request.None? && err == Some(e)
      case Ok(commits) =>
        match CommitToTag(commits)
        case None => request.None? && err.None?
        case Some(commit) =>
          match ParseSemver(tag.name)
          case Err(e) => request.None? && err == Some(ParseSemverFailed(e))
          case Ok(v) =>
            (dryRun ==> request.None? && err.None?) &&
            (!dryRun ==> request == Some(TagRef(TagRefPrefix + NewTag(v), commit.sha)) &&
                         err == (if createFailure.Some? then Some(CreateRefFailed(createFailure.value)) else None))
  {
    request, err := None, None;
    var client := NewClient(token, ownerRepo);
    if client.Err? {
      return 1, None, Some(client.error);
    }
    var lastTag := GetLastTag(tagsReply);
    if lastTag.Err? {
      return 1, None, Some(lastTag.error);
    }
    var tag := lastTag.value;
    var commits := GetCommitsSinceTag(commitReplies, tag);
    if commits.Err? {
      return 1, None, Some(commits.error);
    }
    var selected := SelectCommitToTag(commits.value);
    if selected.None? {
      return 0, None, None;
    }
    var semver := ParseSemver(tag.name);
    if semver.Err? {
      return 1, None, Some(ParseSemverFailed(semver.error));
    }
    var newTag := NewTag(semver.value);
    if !dryRun {
      request := Some(TagRef(TagRefPrefix + newTag, selected.value.sha));
      if createFailure.Some? {
        return 1, request, Some(CreateRefFailed(createFailure.value));
      }
    }
    code := 0;
  }
}
