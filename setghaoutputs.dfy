/**
 * setghaoutputs: from the decoded go.dev release feed, pick the two newest stable Go
 * versions and write them as GitHub Actions step outputs (a build matrix and the release
 * version).
 */
module SetGhaOutputs {
  import opened Wrappers
  import opened GoText

  /** One entry of the release feed, after JSON decoding. */
  datatype Release = Release(version: string, stable: bool)

  /** A parsed `goX.Y.Z` version. */
  datatype Semver = Semver(major: int, minor: int, patch: int)

  /** The order handed to sort.Slice: `a` is strictly newer than `b` by (major, minor, patch). */
  predicate Newer(a: Semver, b: Semver) {
    if a.major != b.major then a.major > b.major
    else if a.minor != b.minor then a.minor > b.minor
    else a.patch > b.patch
  }

  /** `a` sorts no later than `b` in the newest-first order. */
  predicate NotOlder(a: Semver, b: Semver) {
    !Newer(b, a)
  }

  lemma NotOlderTransitive(a: Semver, b: Semver, c: Semver)
    requires NotOlder(a, b) && NotOlder(b, c)
    ensures NotOlder(a, c)
  {
  }

  lemma NotOlderAntisymmetric(a: Semver, b: Semver)
    requires NotOlder(a, b) && NotOlder(b, a)
    ensures a == b
  {
  }

  /** The `%d.%d.%d` rendering of a version. */
  function Render(v: Semver): string {
    Itoa(v.major) + "." + Itoa(v.minor) + "." + Itoa(v.patch)
  }

  /**
   * What one release contributes to the candidate list: its version triple when it is stable
   * and its version, without a leading "go", is three dot-separated integers; nothing
   * otherwise (such releases are skipped without an error).
   */
  function ParseRelease(r: Release): (v: Option<Semver>)
    ensures v.Some? <==> r.stable && var fields := Split(TrimPrefix(r.version, "go"), ".");
      |fields| == 3 && Atoi(fields[0]).Ok? && Atoi(fields[1]).Ok? && Atoi(fields[2]).Ok?
    ensures v.Some? ==> var fields := Split(TrimPrefix(r.version, "go"), ".");
      v.value == Semver(Atoi(fields[0]).value, Atoi(fields[1]).value, Atoi(fields[2]).value)
    ensures v.Some? ==> InInt64(v.value.major) && InInt64(v.value.minor) && InInt64(v.value.patch)
  {
    if !r.stable then None
    else
      var splits := Split(TrimPrefix(r.version, "go"), ".");
      if |splits| != 3 then None
      else
        match (Atoi(splits[0]), Atoi(splits[1]), Atoi(splits[2]))
        case (Ok(major), Ok(minor), Ok(patch)) => Some(Semver(major, minor, patch))
        case _ => None
  }

  /**
   * A stable release named "go" followed by the rendering of an int64 triple is parsed back
   * to that triple: Render and ParseRelease are inverse.
   */
  lemma ParseRenderedRelease(v: Semver)
    requires InInt64(v.major) && InInt64(v.minor) && InInt64(v.patch)
    ensures ParseRelease(Release("go" + Render(v), true)) == Some(v)
  {
    var parts := [Itoa(v.major), Itoa(v.minor), Itoa(v.patch)];
    RenderIsJoin(v);
    NoDotInItoa(v.major);
    NoDotInItoa(v.minor);
    NoDotInItoa(v.patch);
    SplitJoinChar(parts, '.');
    assert ("go" + Render(v))[..2] == "go";
    assert TrimPrefix("go" + Render(v), "go") == Render(v);
    AtoiItoa(v.major);
    AtoiItoa(v.minor);
    AtoiItoa(v.patch);
    ParseReleaseOfFields(Release("go" + Render(v), true), parts, v);
  }

  /** The rendering of a version is its three fields joined with dots. */
  lemma RenderIsJoin(v: Semver)
    ensures Join([Itoa(v.major), Itoa(v.minor), Itoa(v.patch)], ".") == Render(v)
  {
    var parts := [Itoa(v.major), Itoa(v.minor), Itoa(v.patch)];
    assert parts[1..][1..] == [Itoa(v.patch)];
    assert Join(parts[1..], ".") == Itoa(v.minor) + "." + Itoa(v.patch);
    assert Join(parts, ".") == Itoa(v.major) + "." + (Itoa(v.minor) + "." + Itoa(v.patch));
  }

  /** A stable release whose three fields each parse gives the version they make up. */
  lemma ParseReleaseOfFields(r: Release, parts: seq<string>, v: Semver)
    requires r.stable && Split(TrimPrefix(r.version, "go"), ".") == parts && |parts| == 3
    requires Atoi(parts[0]) == Ok(v.major) && Atoi(parts[1]) == Ok(v.minor) && Atoi(parts[2]) == Ok(v.patch)
    ensures ParseRelease(r) == Some(v)
  {
  }

  /** The candidate list of getGoVersions: the parsed stable releases, in feed order. */
  function Candidates(releases: seq<Release>): (vs: seq<Semver>)
    ensures |vs| <= |releases|
    decreases |releases|
  {
    if releases == [] then []
    else
      var init := Candidates(releases[..|releases| - 1]);
      match ParseRelease(releases[|releases| - 1])
      case None => init
      case Some(v) => init + [v]
  }

  /** Every candidate comes from some stable release of the feed. */
  lemma {:induction false} CandidatesFromStable(releases: seq<Release>, v: Semver)
    requires v in Candidates(releases)
    ensures exists r :: r in releases && r.stable && ParseRelease(r) == Some(v)
    decreases |releases|
  {
    var last := releases[|releases| - 1];
    var init := releases[..|releases| - 1];
    if v in Candidates(init) {
      CandidatesFromStable(init, v);
      var r :| r in init && r.stable && ParseRelease(r) == Some(v);
      assert r in releases;
    } else {
      assert ParseRelease(last) == Some(v);
      assert last in releases;
    }
  }

  /** Sorted newest first. */
  predicate NewestFirst(s: seq<Semver>) {
    forall i, j :: 0 <= i < j < |s| ==> NotOlder(s[i], s[j])
  }

  /** The newest version of a non-empty list. */
  function Maximum(q: seq<Semver>): (m: Semver)
    requires q != []
    ensures m in q
    ensures forall x :: x in q ==> NotOlder(m, x)
    decreases |q|
  {
    if |q| == 1 then q[0]
    else
      var m := Maximum(q[1..]);
      assert forall x :: x in q ==> x == q[0] || x in q[1..];
      if Newer(q[0], m) then q[0] else m
  }

  /** `q` without one copy of `x`. */
  function RemoveOne(q: seq<Semver>, x: Semver): (r: seq<Semver>)
    ensures x in q ==> multiset(r) == multiset(q) - multiset{x}
    ensures x !in q ==> r == q
    decreases |q|
  {
    if q == [] then []
    else
      assert q == [q[0]] + q[1..];
      if q[0] == x then q[1..] else [q[0]] + RemoveOne(q[1..], x)
  }

  /** The two versions getGoVersions reports: the newest, then the newest of the rest. */
  function TopTwo(q: seq<Semver>): (t: (Semver, Semver))
    requires |q| >= 2
  {
    var first := Maximum(q);
    var rest := RemoveOne(q, first);
    assert |multiset(rest)| == |q| - 1;
    (first, Maximum(rest))
  }

  /**
   * The pair is ordered: the first is not older than the second, the first is not older than
   * any candidate, and the second is not older than any candidate once one copy of the first
   * is set aside (so a version listed twice can fill both places).
   */
  lemma TopTwoOrdered(q: seq<Semver>)
    requires |q| >= 2
    ensures NotOlder(TopTwo(q).0, TopTwo(q).1)
    ensures TopTwo(q).0 in q && TopTwo(q).1 in q
    ensures forall x :: x in q ==> NotOlder(TopTwo(q).0, x)
    ensures forall x :: x in multiset(q) - multiset{TopTwo(q).0} ==> NotOlder(TopTwo(q).1, x)
  {
    var first := Maximum(q);
    var rest := RemoveOne(q, first);
    assert |multiset(rest)| == |q| - 1;
    var second := Maximum(rest);
    assert second in multiset(rest);
    forall x | x in multiset(q) - multiset{first} ensures NotOlder(second, x) {
      assert x in multiset(rest);
      assert x in rest;
    }
  }

  /** The head of a newest-first permutation of `q` is the maximum of `q`. */
  lemma SortedHead(s: seq<Semver>, q: seq<Semver>)
    requires NewestFirst(s) && multiset(s) == multiset(q) && s != []
    ensures q != [] && s[0] == Maximum(q)
  {
    assert s[0] in multiset(q);
    var m := Maximum(q);
    assert m in multiset(s);
    var k :| 0 <= k < |s| && s[k] == m;
    if k > 0 {
      assert NotOlder(s[0], s[k]);
    }
    NotOlderAntisymmetric(s[0], m);
  }

  /** The first two entries of a newest-first permutation of `q` are TopTwo(q). */
  lemma SortedTopTwo(s: seq<Semver>, q: seq<Semver>)
    requires NewestFirst(s) && multiset(s) == multiset(q) && |s| >= 2
    ensures |q| >= 2 && (s[0], s[1]) == TopTwo(q)
  {
    assert |multiset(q)| == |s|;
    SortedHead(s, q);
    var rest := RemoveOne(q, s[0]);
    SortedTail(s, q);
    SortedHead(s[1..], rest);
    assert s[1..][0] == s[1];
  }

  /** Without its head, a newest-first permutation of `q` is one of `q` without that head. */
  lemma SortedTail(s: seq<Semver>, q: seq<Semver>)
    requires NewestFirst(s) && multiset(s) == multiset(q) && s != []
    ensures NewestFirst(s[1..]) && multiset(s[1..]) == multiset(RemoveOne(q, s[0]))
  {
    assert s == [s[0]] + s[1..];
    assert s[0] in multiset(q);
  }

  /** sort.Slice with the newest-first order, as an in-place insertion sort. */
  method SortNewestFirst(a: array<Semver>)
    modifies a
    ensures NewestFirst(a[..])
    ensures multiset(a[..]) == multiset(old(a[..]))
  {
    var i := 0;
    while i < a.Length
      invariant 0 <= i <= a.Length
      invariant NewestFirst(a[..i])
      invariant multiset(a[..]) == multiset(old(a[..]))
    {
      InsertNewestFirst(a, i);
      i := i + 1;
    }
    assert a[..] == a[..a.Length];
  }

  /** Moves `a[i]` down into the newest-first prefix `a[..i]`. */
  method InsertNewestFirst(a: array<Semver>, i: nat)
    requires i < a.Length && NewestFirst(a[..i])
    modifies a
    ensures NewestFirst(a[..i + 1])
    ensures multiset(a[..]) == multiset(old(a[..]))
  {
    var j := i;
    InsertionStart(a[..], i);
    while j > 0 && Newer(a[j], a[j - 1])
      invariant 0 <= j <= i
      invariant Inserting(a[..], i, j)
      invariant multiset(a[..]) == multiset(old(a[..]))
    {
      ghost var s := a[..];
      a[j - 1], a[j] := a[j], a[j - 1];
      assert a[..] == s[j - 1 := s[j]][j := s[j - 1]];
      SwapDown(s, i, j);
      j := j - 1;
    }
    InsertionDone(a[..], i, j);
  }

  /**
   * Insertion of `s[j]` into `s[..i + 1]` in progress: the entries other than `s[j]` are in
   * order, and `s[j]` is not older than anything after it.
   */
  predicate Inserting(s: seq<Semver>, i: nat, j: nat)
    requires j <= i < |s|
  {
    (forall p, q :: 0 <= p < q <= i && p != j && q != j ==> NotOlder(s[p], s[q])) &&
    (forall q :: j < q <= i ==> NotOlder(s[j], s[q]))
  }

  lemma InsertionStart(s: seq<Semver>, i: nat)
    requires i < |s| && NewestFirst(s[..i])
    ensures Inserting(s, i, i)
  {
    forall p, q | 0 <= p < q <= i && p != i && q != i ensures NotOlder(s[p], s[q]) {
      assert s[p] == s[..i][p] && s[q] == s[..i][q];
    }
  }

  /** Swapping a newer `s[j]` with `s[j - 1]` moves the insertion point one place down. */
  lemma SwapDown(s: seq<Semver>, i: nat, j: nat)
    requires 0 < j <= i < |s| && Inserting(s, i, j) && Newer(s[j], s[j - 1])
    ensures Inserting(s[j - 1 := s[j]][j := s[j - 1]], i, j - 1)
  {
    var t := s[j - 1 := s[j]][j := s[j - 1]];
    forall q | j - 1 < q <= i ensures NotOlder(t[j - 1], t[q]) {
      if q > j {
        assert NotOlder(s[j], s[q]);
      }
    }
    forall p, q | 0 <= p < q <= i && p != j - 1 && q != j - 1 ensures NotOlder(t[p], t[q]) {
      if q == j {
        if p < j - 1 {
          assert NotOlder(s[p], s[j - 1]);
        }
      } else if p == j {
        assert NotOlder(s[j - 1], s[q]);
      }
    }
  }

  /** Once `s[j]` is not newer than its left neighbour, the prefix `s[..i + 1]` is in order. */
  lemma InsertionDone(s: seq<Semver>, i: nat, j: nat)
    requires j <= i < |s| && Inserting(s, i, j)
    requires j == 0 || !Newer(s[j], s[j - 1])
    ensures NewestFirst(s[..i + 1])
  {
    forall p, q | 0 <= p < q <= i ensures NotOlder(s[p], s[q]) {
      if q == j && p < j - 1 {
        NotOlderTransitive(s[p], s[j - 1], s[j]);
      }
    }
  }

  /** The errors setGHAOutputs can return. */
  datatype GhaError =
    | Upstream(message: string)      // a fetch, read or decode error, returned as it is
    | NotTwoStable                   // fewer than two candidates
    | WriteMatrix(cause: string)     // writing the matrix output failed
    | WriteRelease(cause: string)    // writing the release-version output failed

  const WriteMatrixContext: string := "failed to write the Go versions to the output: "
  const WriteReleaseContext: string := "failed to write the release Go version to the output: "

  /**
   * The text of the error, as the tool prints it: an upstream error as it is, and a write
   * error as its context followed by the writer's own error text (the cause stays wrapped).
   */
  function Message(e: GhaError): (r: string)
    ensures e.Upstream? ==> r == e.message
    ensures e.WriteMatrix? ==> HasPrefix(r, WriteMatrixContext) && r[|WriteMatrixContext|..] == e.cause
    ensures e.WriteRelease? ==> HasPrefix(r, WriteReleaseContext) && r[|WriteReleaseContext|..] == e.cause
  {
    match e
    case Upstream(m) => m
    case NotTwoStable => "could not find two stable Go versions"
    case WriteMatrix(c) => WriteMatrixContext + c
    case WriteRelease(c) => WriteReleaseContext + c
  }

  /**
   * A write error's text tells which output failed and what the writer said: the two
   * contexts never produce the same text, and within one context the cause is recovered.
   */
  lemma WriteMessagesDistinct(c: string, d: string)
    ensures Message(WriteMatrix(c)) != Message(WriteRelease(d))
    ensures Message(WriteMatrix(c)) == Message(WriteMatrix(d)) ==> c == d
    ensures Message(WriteRelease(c)) == Message(WriteRelease(d)) ==> c == d
  {
    assert Message(WriteMatrix(c))[20] == 'G';
    assert Message(WriteRelease(d))[20] == 'r';
  }

  /** getGoVersions, over the outcome of decoding the feed. */
  method GetGoVersions(decoded: Result<seq<Release>, string>) returns (r: Result<(string, string), GhaError>)
    ensures decoded.Err? ==> r == Err(Upstream(decoded.error))
    ensures decoded.Ok? ==> (r.Ok? <==> |Candidates(decoded.value)| >= 2)
    ensures decoded.Ok? && r.Err? ==> r.error == NotTwoStable
    ensures r.Ok? ==> (decoded.Ok? && |Candidates(decoded.value)| >= 2 &&
      var top := TopTwo(Candidates(decoded.value)); r.value == (Render(top.0), Render(top.1)))
  {
    if decoded.Err? {
      return Err(Upstream(decoded.error));
    }
    var releases := decoded.value;
    var latestToOlder: seq<Semver> := [];
    for i := 0 to |releases|
      invariant latestToOlder == Candidates(releases[..i])
    {
      assert releases[..i + 1][..i] == releases[..i];
      var rel := releases[i];
      if !rel.stable {
        continue;
      }
      var v := TrimPrefix(rel.version, "go");
      var splits := Split(v, ".");
      if |splits| != 3 {
        continue;
      }
      var major := Atoi(splits[0]);
      if major.Err? {
        continue;
      }
      var minor := Atoi(splits[1]);
      if minor.Err? {
        continue;
      }
      var patch := Atoi(splits[2]);
      if patch.Err? {
        continue;
      }
      latestToOlder := latestToOlder + [Semver(major.value, minor.value, patch.value)];
    }
    assert releases[..|releases|] == releases;
    if |latestToOlder| < 2 {
      return Err(NotTwoStable);
    }
    var a := new Semver[|latestToOlder|](k requires 0 <= k < |latestToOlder| => latestToOlder[k]);
    assert a[..] == latestToOlder;
    SortNewestFirst(a);
    SortedTopTwo(a[..], latestToOlder);
    r := Ok((Render(a[0]), Render(a[1])));
  }

  /** What fetching the feed produced: a failed GET, a failed body read, or the decode outcome. */
  datatype Response =
    | GetFailed(err: string)
    | ReadFailed(err: string)
    | Body(decoded: Result<seq<Release>, string>)

  /** The outcome getGoVersionsFromAPI must have, as a function of the response. */
  function PickedVersions(res: Response): (r: Result<(string, string), GhaError>)
    ensures r.Ok? ==> res.Body? && res.decoded.Ok? && |Candidates(res.decoded.value)| >= 2
    ensures r.Err? ==> r.error.Upstream? || r.error.NotTwoStable?
  {
    match res
    case GetFailed(e) => Err(Upstream(e))
    case ReadFailed(e) => Err(Upstream(e))
    case Body(Err(e)) => Err(Upstream(e))
    case Body(Ok(releases)) =>
      var q := Candidates(releases);
      if |q| < 2 then Err(NotTwoStable)
      else var top := TopTwo(q); Ok((Render(top.0), Render(top.1)))
  }

  /** getGoVersionsFromAPI: transport errors are returned unchanged. */
  method GetGoVersionsFromAPI(res: Response) returns (r: Result<(string, string), GhaError>)
    ensures r == PickedVersions(res)
  {
    match res
    case GetFailed(e) => r := Err(Upstream(e));
    case ReadFailed(e) => r := Err(Upstream(e));
    case Body(d) => r := GetGoVersions(d);
  }

  /** The JSON encoding of the two-entry matrix; version strings need no escaping. */
  function MatrixJson(v0: string, v1: string): string {
    "{\"include\":[{\"go-version\":\"" + v0 + "\"},{\"go-version\":\"" + v1 + "\"}]}"
  }

  const MatrixKey: string := "matrix="
  const ReleaseKey: string := "release-go-version="

  /** The complete output of a successful run: the matrix line, then the release-version line. */
  function Outputs(v0: string, v1: string): string {
    MatrixKey + MatrixJson(v0, v1) + "\n" + ReleaseKey + v1 + "\n"
  }

  /** What is on the output once the first `n` of the three writes have succeeded. */
  function Written(v0: string, v1: string, n: nat): (t: string)
    requires n <= 3
    ensures n == 3 ==> t == Outputs(v0, v1)
    ensures n < 3 ==> |t| < |Outputs(v0, v1)| && t == Outputs(v0, v1)[..|t|]
  {
    var p1 := MatrixKey;
    var p2 := MatrixJson(v0, v1) + "\n";
    var p3 := ReleaseKey + v1 + "\n";
    assert Outputs(v0, v1) == p1 + p2 + p3;
    if n == 0 then [] else if n == 1 then p1 else if n == 2 then p1 + p2 else p1 + p2 + p3
  }

  /** The `i`-th of the three pieces setGHAOutputs writes, in order. */
  function Piece(v0: string, v1: string, i: nat): (p: string)
    requires i < 3
    ensures Written(v0, v1, i + 1) == Written(v0, v1, i) + p
  {
    if i == 0 then MatrixKey else if i == 1 then MatrixJson(v0, v1) + "\n" else ReleaseKey + v1 + "\n"
  }

  /** What a failing write gets out of `s`: its first `k` characters, or all of a shorter `s`. */
  function Torn(s: string, k: nat): (t: string)
    ensures |t| <= |s| && t == s[..|t|]
    ensures |t| == if k < |s| then k else |s|
  {
    if k < |s| then s[..k] else s
  }

  /**
   * An io.Writer whose calls succeed until a given call number (if any) and fail from then on;
   * a failed call may still have written the first `partial` characters of its data (all of
   * them when there are fewer), as io.Writer allows.
   */
  class Writer {
    var text: string
    var calls: nat
    const failsFrom: Option<nat>
    const failure: string
    const partial: nat

    constructor (failsFrom: Option<nat>, failure: string, partial: nat)
      ensures text == [] && calls == 0
      ensures this.failsFrom == failsFrom && this.failure == failure && this.partial == partial
    {
      text := [];
      calls := 0;
      this.failsFrom := failsFrom;
      this.failure := failure;
      this.partial := partial;
    }


    /** Whether call number `n` fails. */
    predicate Fails(n: nat) {
      failsFrom.Some? && n >= failsFrom.value
    }

    /** How many of the `k` calls from call number `start` on succeed. */
    function Succeeding(start: nat, k: nat): (n: nat)
      ensures n <= k
      ensures forall m :: start <= m < start + n ==> !Fails(m)
      ensures n < k ==> Fails(start + n)
    {
      if failsFrom.Some? && failsFrom.value < start + k then
        (if failsFrom.value <= start then 0 else failsFrom.value - start)
      else k
    }

    method Write(s: string) returns (err: Option<string>)
      modifies this
      ensures calls == old(calls) + 1
      ensures err == (if Fails(old(calls)) then Some(failure) else None)
      ensures text == old(text) + (if err.None? then s else Torn(s, partial))
    {
      if Fails(calls) {
        err := Some(failure);
        text := text + Torn(s, partial);
      } else {
        err := None;
        text := text + s;
      }
      calls := calls + 1;
    }
  }

  /**
   * What the outputs file holds after `n` successful writes, and, when `n < 3`, the torn
   * piece of the failing one.
   */
  function WrittenBy(v0: string, v1: string, n: nat, partial: nat): (t: string)
    requires n <= 3
    ensures n == 3 ==> t == Outputs(v0, v1)
    ensures n < 3 ==> |t| <= |Outputs(v0, v1)| && t == Outputs(v0, v1)[..|t|]
    ensures n < 3 ==> |Written(v0, v1, n)| <= |t| <= |Written(v0, v1, n + 1)|
    ensures n < 3 && partial < |Piece(v0, v1, n)| ==> |t| < |Written(v0, v1, n + 1)|
  {
    if n == 3 then Written(v0, v1, 3)
    else
      var p := Piece(v0, v1, n);
      var t := Written(v0, v1, n) + Torn(p, partial);
      PiecePrefix(v0, v1, n, |Torn(p, partial)|);
      t
  }

  /** A prefix of the `i`-th piece, written after the pieces before it, is a prefix of the outputs. */
  lemma PiecePrefix(v0: string, v1: string, i: nat, k: nat)
    requires i < 3 && k <= |Piece(v0, v1, i)|
    ensures Written(v0, v1, i) + Piece(v0, v1, i)[..k] == Outputs(v0, v1)[..|Written(v0, v1, i)| + k]
  {
    var a, p := Written(v0, v1, i), Piece(v0, v1, i);
    var b, o := Written(v0, v1, i + 1), Outputs(v0, v1);
    assert b == a + p;
    assert b == o[..|b|];
    assert (a + p)[..|a| + k] == a + p[..k];
    assert o[..|b|][..|a| + k] == o[..|a| + k];
  }

  /**
   * The writing half of setGHAOutputs: the three pieces in order; the first failing write ends
   * the run with its wrapped error, leaving the pieces before it written and the failing one
   * torn (so the file always gains a prefix of the outputs, and the whole of them exactly when
   * no write fails).
   */
  method WriteOutputs(w: Writer, v0: string, v1: string) returns (err: Option<GhaError>)
    modifies w
    ensures var n := w.Succeeding(old(w.calls), 3);
      && w.text == old(w.text) + WrittenBy(v0, v1, n, w.partial)
      && err == (if n == 3 then None
                 else if n == 2 then Some(WriteRelease(w.failure))
                 else Some(WriteMatrix(w.failure)))
  {
    ghost var t0 := w.text;
    var e := w.Write(Piece(v0, v1, 0));
    if e.Some? {
      assert w.text == t0 + WrittenBy(v0, v1, 0, w.partial);
      return Some(WriteMatrix(e.value));
    }
    assert w.text == t0 + Written(v0, v1, 1);
    e := w.Write(Piece(v0, v1, 1));
    if e.Some? {
      ConcatAssoc(t0, Written(v0, v1, 1), Torn(Piece(v0, v1, 1), w.partial));
      assert w.text == t0 + WrittenBy(v0, v1, 1, w.partial);
      return Some(WriteMatrix(e.value));
    }
    ConcatAssoc(t0, Written(v0, v1, 1), Piece(v0, v1, 1));
    assert w.text == t0 + Written(v0, v1, 2);
    e := w.Write(Piece(v0, v1, 2));
    if e.Some? {
      ConcatAssoc(t0, Written(v0, v1, 2), Torn(Piece(v0, v1, 2), w.partial));
      assert w.text == t0 + WrittenBy(v0, v1, 2, w.partial);
      return Some(WriteRelease(e.value));
    }
    ConcatAssoc(t0, Written(v0, v1, 2), Piece(v0, v1, 2));
    assert w.text == t0 + WrittenBy(v0, v1, 3, w.partial);
    err := None;
  }

  /**
   * setGHAOutputs: a fetch or decode error (or too few stable versions) is returned before
   * anything is written; otherwise the outputs for the two picked versions are written.
   */
  method SetGHAOutputs(w: Writer, res: Response) returns (err: Option<GhaError>)
    modifies w
    ensures PickedVersions(res).Err? ==>
      err == Some(PickedVersions(res).error) && w.text == old(w.text) && w.calls == old(w.calls)
    ensures PickedVersions(res).Ok? ==>
      var vers := PickedVersions(res).value;
      var n := w.Succeeding(old(w.calls), 3);
      && w.text == old(w.text) + WrittenBy(vers.0, vers.1, n, w.partial)
      && err == (if n == 3 then None
                 else if n == 2 then Some(WriteRelease(w.failure))
                 else Some(WriteMatrix(w.failure)))
  {
    var vers := GetGoVersionsFromAPI(res);
    if vers.Err? {
      return Some(vers.error);
    }
    err := WriteOutputs(w, vers.value.0, vers.value.1);
  }
}
