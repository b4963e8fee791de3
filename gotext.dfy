/**
 * The parts of Go's `strings`, `strconv` and `bufio` packages that the tools rely on,
 * stated over `string` (a sequence of characters; Go works on bytes, and the two agree
 * for ASCII text).
 */
module GoText {
  import opened Wrappers

  // ---------------------------------------------------------------------------
  // Substring search: strings.Index, strings.Contains, strings.HasPrefix, strings.TrimPrefix
  // ---------------------------------------------------------------------------

  /** `t` occurs in `s` starting at index `i`. */
  predicate OccursAt(s: string, t: string, i: nat) {
    i + |t| <= |s| && s[i..i + |t|] == t
  }

  /** Dropping the first character of `s` shifts every occurrence one place left. */
  lemma OccursAtTail(s: string, t: string)
    requires |s| > 0
    ensures forall k: nat :: OccursAt(s[1..], t, k) ==> OccursAt(s, t, k + 1)
    ensures forall k: nat :: k > 0 && OccursAt(s, t, k) ==> OccursAt(s[1..], t, k - 1)
  {
    forall k: nat ensures OccursAt(s[1..], t, k) ==> OccursAt(s, t, k + 1) {
      if k + 1 + |t| <= |s| {
        assert s[1..][k..k + |t|] == s[k + 1..k + 1 + |t|];
      }
    }
    forall k: nat | k > 0 ensures OccursAt(s, t, k) ==> OccursAt(s[1..], t, k - 1) {
      if k + |t| <= |s| {
        assert s[1..][k - 1..k - 1 + |t|] == s[k..k + |t|];
      }
    }
  }

  /** strings.Index: the first index at which `t` occurs in `s`, if any. */
  function Index(s: string, t: string): (r: Option<nat>)
    ensures r.Some? ==> OccursAt(s, t, r.value)
    ensures r.Some? ==> forall j: nat :: j < r.value ==> !OccursAt(s, t, j)
    ensures r.None? ==> forall j: nat :: !OccursAt(s, t, j)
    decreases |s|
  {
    if OccursAt(s, t, 0) then Some(0)
    else if |s| == 0 then None
    else
      OccursAtTail(s, t);
      match Index(s[1..], t)
      case None => None
      case Some(k) => Some(k + 1)
  }

  /** strings.Contains: whether `t` occurs anywhere in `s` (Index finds it exactly then). */
  predicate Contains(s: string, t: string) {
    exists i: nat | i <= |s| :: OccursAt(s, t, i)
  }

  /** A one-character pattern occurs exactly where that character sits. */
  lemma ContainsChar(s: string, c: char)
    ensures Contains(s, [c]) <==> c in s
  {
    if c in s {
      var i :| 0 <= i < |s| && s[i] == c;
      assert s[i..i + 1] == [c];
      assert OccursAt(s, [c], i);
    }
    if Contains(s, [c]) {
      var i: nat :| i <= |s| && OccursAt(s, [c], i);
      assert s[i..i + 1] == [c];
      assert s[i] == c;
    }
  }

  /** strings.HasPrefix. */
  predicate HasPrefix(s: string, p: string) {
    |p| <= |s| && s[..|p|] == p
  }

  /** strings.TrimPrefix: `s` without the leading `p`, or `s` unchanged when it does not start with `p`. */
  function TrimPrefix(s: string, p: string): (r: string)
    ensures HasPrefix(s, p) ==> p + r == s
    ensures !HasPrefix(s, p) ==> r == s
  {
    if HasPrefix(s, p) then s[|p|..] else s
  }

  // ---------------------------------------------------------------------------
  // strings.Split and strings.Join (non-empty separator)
  // ---------------------------------------------------------------------------

  /** strings.Join. */
  function Join(parts: seq<string>, sep: string): string {
    if parts == [] then []
    else if |parts| == 1 then parts[0]
    else parts[0] + sep + Join(parts[1..], sep)
  }

  /** Concatenation regroups freely; long chains of it name this step to keep proofs small. */
  lemma ConcatAssoc<T>(a: seq<T>, b: seq<T>, c: seq<T>)
    ensures (a + b) + c == a + (b + c)
  {
  }

  /** The text before the first occurrence of `sep` does not contain `sep`. */
  lemma BeforeFirstOccurrence(s: string, sep: string, i: nat)
    requires sep != []
    requires OccursAt(s, sep, i)
    requires forall j: nat :: j < i ==> !OccursAt(s, sep, j)
    ensures !Contains(s[..i], sep)
  {
    var p := s[..i];
    forall j: nat ensures !OccursAt(p, sep, j) {
      if j + |sep| <= |p| {
        assert j < i;
        assert p[j..j + |sep|] == s[j..j + |sep|];
        assert !OccursAt(s, sep, j);
      }
    }
  }

  /**
   * strings.Split with a non-empty separator: the pieces between the occurrences of `sep`,
   * found left to right. Joining them back with `sep` gives `s`, and no piece contains `sep`.
   */
  function Split(s: string, sep: string): (parts: seq<string>)
    requires sep != []
    ensures |parts| >= 1
    ensures Join(parts, sep) == s
    ensures forall k :: 0 <= k < |parts| ==> !Contains(parts[k], sep)
    decreases |s|
  {
    match Index(s, sep)
    case None => [s]
    case Some(i) =>
      BeforeFirstOccurrence(s, sep, i);
      var rest := Split(s[i + |sep|..], sep);
      assert s == s[..i] + sep + s[i + |sep|..] by {
        assert s[i..i + |sep|] == sep;
      }
      assert ([s[..i]] + rest)[1..] == rest;
      [s[..i]] + rest
  }

  /** `p + [c] + r` has its first `c` at index `|p|` when `p` holds no `c`. */
  lemma IndexAfterFreePrefix(p: string, c: char, r: string)
    requires c !in p
    ensures Index(p + [c] + r, [c]) == Some(|p|)
  {
    var s := p + [c] + r;
    assert s[|p|..|p| + 1] == [c];
    assert OccursAt(s, [c], |p|);
    var k := Index(s, [c]).value;
    assert s[k..k + 1] == [c];
    assert s[k] == c;
    assert forall j :: 0 <= j < |p| ==> s[j] == p[j];
  }

  /** The first piece of a split is a prefix of the text. */
  lemma SplitFirstIsPrefix(s: string, sep: string)
    requires sep != []
    ensures HasPrefix(s, Split(s, sep)[0])
  {
    var parts := Split(s, sep);
    if |parts| > 1 {
      assert s == parts[0] + sep + Join(parts[1..], sep);
      assert s[..|parts[0]|] == parts[0];
    }
  }

  /** Splitting on a character that first occurs right after `p` yields `p`, then the rest's pieces. */
  lemma SplitAfterFreePrefix(p: string, c: char, r: string)
    requires c !in p
    ensures Split(p + [c] + r, [c]) == [p] + Split(r, [c])
  {
    IndexAfterFreePrefix(p, c, r);
    var s := p + [c] + r;
    assert s[..|p|] == p;
    assert s[|p| + 1..] == r;
  }

  /** Splitting on a character gives a single piece exactly when the character is absent. */
  lemma SplitSinglePiece(s: string, c: char)
    ensures |Split(s, [c])| == 1 <==> c !in s
  {
    ContainsChar(s, c);
    if c in s {
      var i := Index(s, [c]).value;
      assert |Split(s[i + 1..], [c])| >= 1;
    }
  }

  /**
   * With a one-character separator, Split undoes Join: pieces free of the separator are
   * recovered exactly.
   */
  lemma {:induction false} SplitJoinChar(parts: seq<string>, c: char)
    requires |parts| >= 1
    requires forall k :: 0 <= k < |parts| ==> c !in parts[k]
    ensures Split(Join(parts, [c]), [c]) == parts
    decreases |parts|
  {
    if |parts| == 1 {
      ContainsChar(parts[0], c);
    } else {
      SplitAfterFreePrefix(parts[0], c, Join(parts[1..], [c]));
      SplitJoinChar(parts[1..], c);
      assert [parts[0]] + parts[1..] == parts;
    }
  }

  // ---------------------------------------------------------------------------
  // bufio.Scanner with bufio.ScanLines
  // ---------------------------------------------------------------------------

  /** bytes.IndexByte: the first index of `c` in `s`, if any. */
  function IndexByte(s: string, c: char): (r: Option<nat>)
    ensures r.Some? ==> r.value < |s| && s[r.value] == c && c !in s[..r.value]
    ensures r.None? ==> c !in s
    decreases |s|
  {
    if s == [] then None
    else if s[0] == c then Some(0)
    else
      match IndexByte(s[1..], c)
      case None => None
      case Some(k) =>
        assert s[..k + 1] == [s[0]] + s[1..][..k];
        Some(k + 1)
  }

  /** One trailing carriage return is dropped from a scanned line. */
  function DropCR(line: string): (r: string)
    ensures |line| > 0 && line[|line| - 1] == '\r' ==> r + "\r" == line
    ensures !(|line| > 0 && line[|line| - 1] == '\r') ==> r == line
  {
    if |line| > 0 && line[|line| - 1] == '\r' then line[..|line| - 1] else line
  }

  /**
   * The tokens a bufio.Scanner yields with ScanLines: the text is cut at every newline, each
   * piece loses one trailing carriage return, and text ending in a newline yields no final
   * empty line. The 64 KiB token limit is not modelled.
   */
  function Lines(s: string): (ls: seq<string>)
    ensures forall k :: 0 <= k < |ls| ==> '\n' !in ls[k]
    decreases |s|
  {
    if s == [] then []
    else
      match IndexByte(s, '\n')
      case None => [DropCR(s)]
      case Some(i) => [DropCR(s[..i])] + Lines(s[i + 1..])
  }

  /** Appending a line to the list appends it, with its newline, to the text. */
  lemma {:induction false} UnLinesSnoc(ls: seq<string>, l: string)
    ensures UnLines(ls + [l]) == UnLines(ls) + l + "\n"
    decreases |ls|
  {
    if ls != [] {
      assert (ls + [l])[1..] == ls[1..] + [l];
      UnLinesSnoc(ls[1..], l);
    }
  }

  /** The text made of `ls`, each line followed by a newline (what the tools write back). */
  function UnLines(ls: seq<string>): string {
    if ls == [] then [] else ls[0] + "\n" + UnLines(ls[1..])
  }

  /** Scanning a line, its newline and more text yields that line, then the rest's lines. */
  lemma LinesCons(head: string, rest: string)
    requires '\n' !in head
    ensures Lines(head + "\n" + rest) == [DropCR(head)] + Lines(rest)
  {
    var s := head + "\n" + rest;
    assert s[|head|] == '\n';
    assert s[..|head|] == head;
    assert IndexByte(s, '\n').value == |head|;
    assert s[|head| + 1..] == rest;
  }

  /**
   * Writing lines out with a newline after each and scanning the result again gives the same
   * number of lines, each with its trailing carriage return (if any) dropped.
   */
  lemma {:induction false} LinesOfUnLines(ls: seq<string>)
    requires forall k :: 0 <= k < |ls| ==> '\n' !in ls[k]
    ensures |Lines(UnLines(ls))| == |ls|
    ensures forall k :: 0 <= k < |ls| ==> Lines(UnLines(ls))[k] == DropCR(ls[k])
    decreases |ls|
  {
    if ls != [] {
      LinesCons(ls[0], UnLines(ls[1..]));
      LinesOfUnLines(ls[1..]);
    }
  }

  // ---------------------------------------------------------------------------
  // Integers: strconv.ParseInt and strconv.Atoi, fmt's %d, int64 arithmetic
  // ---------------------------------------------------------------------------

  const MinInt64: int := -0x8000_0000_0000_0000
  const MaxInt64: int := 0x7fff_ffff_ffff_ffff

  /** Go's `int` on a 64-bit platform. */
  predicate InInt64(n: int) {
    MinInt64 <= n <= MaxInt64
  }

  /** The two's-complement wrap-around of Go's int64 `+` and `-`. */
  function WrapInt64(n: int): (r: int)
    ensures InInt64(r)
    ensures InInt64(n) ==> r == n
    ensures (r - n) % 0x1_0000_0000_0000_0000 == 0
  {
    (n - MinInt64) % 0x1_0000_0000_0000_0000 + MinInt64
  }

  predicate IsDigit(c: char) {
    '0' <= c <= '9'
  }

  predicate AllDigits(s: string) {
    forall k :: 0 <= k < |s| ==> IsDigit(s[k])
  }

  function DigitValue(c: char): nat
    requires IsDigit(c)
  {
    c as int - '0' as int
  }

  /** The value of a run of decimal digits, most significant first. */
  function DigitsValue(s: string): nat
    requires AllDigits(s)
    decreases |s|
  {
    if s == [] then 0 else DigitsValue(s[..|s| - 1]) * 10 + DigitValue(s[|s| - 1])
  }

  function DigitChar(d: nat): (c: char)
    requires d < 10
    ensures IsDigit(c) && DigitValue(c) == d
  {
    ('0' as int + d) as char
  }

  /** The decimal digits of `n`, without leading zeros. */
  function NatDigits(n: nat): (s: string)
    ensures s != [] && AllDigits(s)
    ensures DigitsValue(s) == n
    ensures s[0] == '0' ==> n == 0
    decreases n
  {
    if n < 10 then [DigitChar(n)]
    else
      var high := NatDigits(n / 10);
      assert (high + [DigitChar(n % 10)])[..|high|] == high;
      high + [DigitChar(n % 10)]
  }

  /** fmt's `%d` (and strconv.Itoa): decimal, with a leading '-' for negative numbers. */
  function Itoa(n: int): (s: string)
    ensures s != []
  {
    if n < 0 then "-" + NatDigits(-n) else NatDigits(n)
  }

  /** The decimal rendering of an integer holds no dot. */
  lemma NoDotInItoa(n: int)
    ensures '.' !in Itoa(n)
  {
    var s := Itoa(n);
    if n < 0 {
      assert s == "-" + NatDigits(-n);
      assert forall k :: 1 <= k < |s| ==> s[k] == NatDigits(-n)[k - 1];
    }
  }

  /** The longest run of ASCII digits at the front of `s`. */
  function DigitRun(s: string): (d: string)
    ensures |d| <= |s| && d == s[..|d|] && AllDigits(d)
    ensures |d| < |s| ==> !IsDigit(s[|d|])
    decreases |s|
  {
    if s == [] || !IsDigit(s[0]) then []
    else
      var rest := DigitRun(s[1..]);
      assert s[..1 + |rest|] == [s[0]] + s[1..][..|rest|];
      [s[0]] + rest
  }

  /** The length of the optional '+' or '-' in front of a number. */
  function SignLength(t: string): (n: nat)
    ensures n <= 1 && n <= |t|
    ensures n == 1 <==> t != [] && (t[0] == '+' || t[0] == '-')
  {
    if t != [] && (t[0] == '+' || t[0] == '-') then 1 else 0
  }

  /** The digits of `n` followed by a non-digit are the maximal digit run. */
  lemma DigitRunOfDigits(digits: string, rest: string)
    requires AllDigits(digits)
    requires rest == [] || !IsDigit(rest[0])
    ensures DigitRun(digits + rest) == digits
  {
    var s := digits + rest;
    assert s[..|digits|] == digits;
    forall k | 0 <= k < |digits| ensures IsDigit(s[k]) {
      assert s[k] == digits[k];
    }
    if |digits| < |s| {
      assert s[|digits|] == rest[0];
    }
    DigitRunUnique(s, digits);
  }

  /** DigitRun is the only digit prefix that stops at a non-digit or at the end. */
  lemma DigitRunUnique(s: string, d: string)
    requires |d| <= |s| && d == s[..|d|]
    requires forall k :: 0 <= k < |d| ==> IsDigit(s[k])
    requires |d| < |s| ==> !IsDigit(s[|d|])
    ensures DigitRun(s) == d
  {
    var x := DigitRun(s);
    assert forall k :: 0 <= k < |x| ==> IsDigit(s[k]) by {
      forall k | 0 <= k < |x| ensures IsDigit(s[k]) {
        assert s[k] == x[k];
      }
    }
    assert |x| == |d|;
  }

  const MaxUint64: nat := 0xffff_ffff_ffff_ffff

  /** 10 to the power `k`. */
  function Pow10(k: nat): (p: nat)
    ensures p >= 1
  {
    if k == 0 then 1 else 10 * Pow10(k - 1)
  }

  /** A run of `k` digits is worth less than 10^k. */
  lemma {:induction false} DigitsValueBelow(x: string)
    requires AllDigits(x)
    ensures DigitsValue(x) < Pow10(|x|)
    decreases |x|
  {
    if x != [] {
      var y := x[..|x| - 1];
      assert AllDigits(y) by {
        forall j | 0 <= j < |y| ensures IsDigit(y[j]) {
          assert y[j] == x[j];
        }
      }
      DigitsValueBelow(y);
    }
  }

  /** A prefix of a digit run is never worth more than the run. */
  lemma {:induction false} DigitsValuePrefix(x: string, k: nat)
    requires AllDigits(x) && k <= |x|
    ensures AllDigits(x[..k]) && DigitsValue(x[..k]) <= DigitsValue(x)
    decreases |x|
  {
    assert AllDigits(x[..k]) by {
      forall j | 0 <= j < k ensures IsDigit(x[..k][j]) {
        assert x[..k][j] == x[j];
      }
    }
    if k == |x| {
      assert x[..k] == x;
    } else {
      var y := x[..|x| - 1];
      assert AllDigits(y) by {
        forall j | 0 <= j < |y| ensures IsDigit(y[j]) {
          assert y[j] == x[j];
        }
      }
      assert y[..k] == x[..k];
      DigitsValuePrefix(y, k);
    }
  }

  datatype NumErrorKind = SyntaxError | RangeError

  /** A *strconv.NumError: the failing function, its input and the reason. */
  datatype NumError = NumError(func: string, num: string, kind: NumErrorKind)

  /**
   * The digit loop of strconv.ParseUint (base 10, 64 bits) from position `i` of `s`, where
   * `n` is the value of the digits before `i`: a character that is not a digit is a syntax
   * error, and a digit that takes the value past 2^64-1 is a range error, whichever the loop
   * meets first.
   */
  function ParseUintDigits(s: string, i: nat, n: nat): (r: Result<nat, NumErrorKind>)
    requires i <= |s| && n <= MaxUint64
    ensures r.Ok? ==> r.value <= MaxUint64
    decreases |s| - i
  {
    if i == |s| then Ok(n)
    else if !IsDigit(s[i]) then Err(SyntaxError)
    else if n * 10 + DigitValue(s[i]) > MaxUint64 then Err(RangeError)
    else ParseUintDigits(s, i + 1, n * 10 + DigitValue(s[i]))
  }

  /**
   * The digit loop's outcome, from any point inside the leading digit run: a range error
   * exactly when the whole run is worth more than 2^64-1 (so an overflow wins over a stray
   * character after the run), otherwise a syntax error when the run stops short of the end,
   * and otherwise the value of all of `s`.
   */
  lemma {:induction false} ParseUintDigitsRun(s: string, i: nat)
    requires i <= |DigitRun(s)|
    requires AllDigits(s[..i]) && DigitsValue(s[..i]) <= MaxUint64
    ensures var d := DigitRun(s);
      ParseUintDigits(s, i, DigitsValue(s[..i])) ==
        if DigitsValue(d) > MaxUint64 then Err(RangeError)
        else if |d| < |s| then Err(SyntaxError)
        else Ok(DigitsValue(d))
    decreases |s| - i
  {
    var d := DigitRun(s);
    var u := DigitsValue(s[..i]);
    if i == |s| {
      assert d == s && s[..i] == s;
    } else if !IsDigit(s[i]) {
      assert |d| == i by {
        assert forall j :: 0 <= j < |d| ==> s[j] == d[j];
      }
      assert d == s[..i];
      assert ParseUintDigits(s, i, u) == Err(SyntaxError);
    } else {
      var t := s[..i + 1];
      var m := u * 10 + DigitValue(s[i]);
      assert DigitsValue(t) == m by {
        assert t[..i] == s[..i];
      }
      assert m <= DigitsValue(d) by {
        assert t == d[..i + 1];
        DigitsValuePrefix(d, i + 1);
      }
      if m > MaxUint64 {
        assert ParseUintDigits(s, i, u) == Err(RangeError);
      } else {
        assert ParseUintDigits(s, i, u) == ParseUintDigits(s, i + 1, m);
        ParseUintDigitsRun(s, i + 1);
      }
    }
  }

  /** The value of an optional sign followed by decimal digits. */
  function SignedValue(sign: string, digits: string): int
    requires AllDigits(digits)
  {
    if sign == "-" then -(DigitsValue(digits) as int) else DigitsValue(digits)
  }

  /**
   * strconv.ParseInt(s, 10, 64): an optional '+' or '-', then ParseUint's digit loop over the
   * rest (no digits at all is a syntax error); a value that fits uint64 but not int64 is a
   * range error.
   */
  function ParseInt(s: string): (r: Result<int, NumError>)
    ensures r.Ok? ==> InInt64(r.value) && s != []
    ensures r.Err? ==> r.error.func == "ParseInt" && r.error.num == s
  {
    var n := SignLength(s);
    if n == |s| then Err(NumError("ParseInt", s, SyntaxError))
    else
      match ParseUintDigits(s[n..], 0, 0)
      case Err(kind) => Err(NumError("ParseInt", s, kind))
      case Ok(u) =>
        var v := if n == 1 && s[0] == '-' then -(u as int) else u;
        if InInt64(v) then Ok(v) else Err(NumError("ParseInt", s, RangeError))
  }

  /**
   * ParseInt in terms of the digit run after the sign: no digits is a syntax error; a run
   * worth more than 2^64-1 is a range error, whatever follows it; anything after the run is a
   * syntax error; otherwise the signed value when it fits int64 and a range error when not.
   */
  lemma ParseIntValue(s: string)
    ensures var n := SignLength(s);
      var d := DigitRun(s[n..]);
      ParseInt(s) ==
        if d == [] then Err(NumError("ParseInt", s, SyntaxError))
        else if DigitsValue(d) > MaxUint64 then Err(NumError("ParseInt", s, RangeError))
        else if n + |d| < |s| then Err(NumError("ParseInt", s, SyntaxError))
        else if InInt64(SignedValue(s[..n], d)) then Ok(SignedValue(s[..n], d))
        else Err(NumError("ParseInt", s, RangeError))
  {
    var n := SignLength(s);
    if n < |s| {
      var t := s[n..];
      assert t[..0] == [];
      ParseUintDigitsRun(t, 0);
      assert n == 1 ==> s[..n] == [s[0]];
    }
  }

  /**
   * strconv.Atoi on a 64-bit platform: text of 1 to 18 bytes takes a fast path that checks
   * each character (and cannot overflow); other text goes to ParseInt, whose error is
   * renamed to Atoi.
   */
  function Atoi(s: string): (r: Result<int, NumError>)
    ensures r.Ok? ==> InInt64(r.value) && s != []
    ensures r.Err? ==> r.error.func == "Atoi" && r.error.num == s
  {
    if 0 < |s| < 19 then AtoiFast(s)
    else
      match ParseInt(s)
      case Ok(v) => Ok(v)
      case Err(e) => Err(NumError("Atoi", e.num, e.kind))
  }

  /** Atoi's fast path: an optional sign and then only digits, at least one. */
  function AtoiFast(s: string): (r: Result<int, NumError>)
    requires 0 < |s| < 19
    ensures r.Ok? ==> InInt64(r.value)
    ensures r.Err? ==> r.error == NumError("Atoi", s, SyntaxError)
  {
    var n := SignLength(s);
    var digits := s[n..];
    if digits == [] || !AllDigits(digits) then Err(NumError("Atoi", s, SyntaxError))
    else
      ShortDigitsFit(digits);
      Ok(SignedValue(s[..n], digits))
  }

  /** At most 18 digits are worth less than 10^18, well inside int64. */
  lemma ShortDigitsFit(x: string)
    requires AllDigits(x) && |x| <= 18
    ensures DigitsValue(x) < 1_000_000_000_000_000_000
  {
    DigitsValueBelow(x);
    Pow10Monotone(|x|, 18);
    assert Pow10(9) == 1_000_000_000;
    assert Pow10(18) == 1_000_000_000_000_000_000;
  }

  lemma {:induction false} Pow10Monotone(j: nat, k: nat)
    requires j <= k
    ensures Pow10(j) <= Pow10(k)
    decreases k
  {
    if j < k {
      Pow10Monotone(j, k - 1);
    }
  }

  /** Both of Atoi's paths give what ParseInt gives, with the error renamed to Atoi. */
  lemma AtoiIsParseInt(s: string)
    ensures Atoi(s) ==
      match ParseInt(s)
      case Ok(v) => Ok(v)
      case Err(e) => Err(NumError("Atoi", s, e.kind))
  {
    if 0 < |s| < 19 {
      AtoiFastIsParseInt(s);
    }
  }

  /** On text of 1 to 18 characters, the fast path agrees with ParseInt. */
  lemma AtoiFastIsParseInt(s: string)
    requires 0 < |s| < 19
    ensures AtoiFast(s) ==
      match ParseInt(s)
      case Ok(v) => Ok(v)
      case Err(e) => Err(NumError("Atoi", s, e.kind))
  {
    ParseIntValue(s);
    var n := SignLength(s);
    var digits := s[n..];
    var d := DigitRun(digits);
    ShortDigitsFit(d);
    assert digits[..|digits|] == digits;
    if digits != [] && AllDigits(digits) {
      DigitRunUnique(digits, digits);
    }
  }

  /**
   * An optional sign followed by one or more digits is a number: ParseInt gives its value when
   * it fits int64 and a range error otherwise.
   */
  lemma ParseIntSignedDigits(sign: string, digits: string)
    requires sign == [] || sign == "+" || sign == "-"
    requires digits != [] && AllDigits(digits)
    ensures InInt64(SignedValue(sign, digits)) ==> ParseInt(sign + digits) == Ok(SignedValue(sign, digits))
    ensures !InInt64(SignedValue(sign, digits)) ==>
      ParseInt(sign + digits) == Err(NumError("ParseInt", sign + digits, RangeError))
  {
    var s := sign + digits;
    if sign == [] {
      assert s == digits;
    } else {
      assert s[0] == sign[0];
    }
    assert SignLength(s) == |sign| && s[|sign|..] == digits && s[..|sign|] == sign;
    DigitRunUnique(digits, digits);
    ParseIntValue(s);
  }

  /** The same for Atoi. */
  lemma AtoiSignedDigits(sign: string, digits: string)
    requires sign == [] || sign == "+" || sign == "-"
    requires digits != [] && AllDigits(digits)
    ensures InInt64(SignedValue(sign, digits)) ==> Atoi(sign + digits) == Ok(SignedValue(sign, digits))
    ensures !InInt64(SignedValue(sign, digits)) ==>
      Atoi(sign + digits) == Err(NumError("Atoi", sign + digits, RangeError))
  {
    ParseIntSignedDigits(sign, digits);
    AtoiIsParseInt(sign + digits);
  }

  /** ParseInt reads back what `%d` prints, for every int64. */
  lemma ParseIntItoa(n: int)
    requires InInt64(n)
    ensures ParseInt(Itoa(n)) == Ok(n)
  {
    if n < 0 {
      ParseIntSignedDigits("-", NatDigits(-n));
    } else {
      assert Itoa(n) == [] + NatDigits(n);
      ParseIntSignedDigits([], NatDigits(n));
    }
  }

  /** Atoi reads back what `%d` prints, for every int64. */
  lemma AtoiItoa(n: int)
    requires InInt64(n)
    ensures Atoi(Itoa(n)) == Ok(n)
  {
    ParseIntItoa(n);
    AtoiIsParseInt(Itoa(n));
  }

  /**
   * Text with a character other than a sign or a digit, or a sign not in front, is a syntax
   * error, provided the digits in front of it are not worth more than 2^64-1 (otherwise
   * ParseUint stops at the overflow first; see AtoiOverflowFirst).
   */
  lemma AtoiRejectsNonDigit(s: string, k: nat)
    requires k < |s| && !IsDigit(s[k])
    requires k > 0 || (s[0] != '+' && s[0] != '-')
    requires DigitsValue(DigitRun(s[SignLength(s)..])) <= MaxUint64
    ensures Atoi(s) == Err(NumError("Atoi", s, SyntaxError))
  {
    var n := SignLength(s);
    var d := DigitRun(s[n..]);
    assert forall j :: n <= j < n + |d| ==> IsDigit(s[j]) by {
      forall j | n <= j < n + |d| ensures IsDigit(s[j]) {
        assert s[j] == d[j - n];
      }
    }
    assert n + |d| < |s|;
    assert ParseInt(s) == Err(NumError("ParseInt", s, SyntaxError)) by {
      ParseIntValue(s);
    }
    AtoiIsParseInt(s);
  }

  /**
   * A digit run worth more than 2^64-1 is a range error even when a stray character follows
   * it, as ParseUint stops at the digit that overflows.
   */
  lemma AtoiOverflowFirst(s: string)
    requires DigitsValue(DigitRun(s[SignLength(s)..])) > MaxUint64
    ensures Atoi(s) == Err(NumError("Atoi", s, RangeError))
  {
    AtoiIsParseInt(s);
    ParseIntValue(s);
  }

  /**
   * A number past 2^64-1 followed by anything that is not a digit (2^64 and "x" give
   * "18446744073709551616x") is a range error, not a syntax error.
   */
  lemma AtoiOverflowBeforeStray(n: nat, rest: string)
    requires n > MaxUint64
    requires rest == [] || !IsDigit(rest[0])
    ensures Atoi(NatDigits(n) + rest) == Err(NumError("Atoi", NatDigits(n) + rest, RangeError))
  {
    var s := NatDigits(n) + rest;
    DigitRunOfDigits(NatDigits(n), rest);
    assert SignLength(s) == 0 && s[0..] == s;
    AtoiOverflowFirst(s);
  }
}
