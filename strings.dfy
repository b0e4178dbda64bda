/** String helpers shared by all the scripts: prefix/suffix tests, Python's
    str.strip / str.find / str.split / str.splitlines / str.lower (ASCII part),
    decimal rendering of naturals, and the code-point order used by sorted(). */
module Strings {

  predicate StartsWith(s: string, prefix: string) {
    |prefix| <= |s| && s[..|prefix|] == prefix
  }

  predicate EndsWith(s: string, suffix: string) {
    |suffix| <= |s| && s[|s| - |suffix|..] == suffix
  }

  /** `pat` occurs in `s` starting at index `i`. */
  predicate OccursAt(s: string, pat: string, i: nat) {
    i + |pat| <= |s| && s[i..i + |pat|] == pat
  }

  ghost predicate Contains(s: string, pat: string) {
    exists i: nat :: OccursAt(s, pat, i)
  }

  // ---------------------------------------------------------------------------
  // str.find
  // ---------------------------------------------------------------------------

  function FindFrom(s: string, pat: string, k: nat): (r: int)
    requires forall i: nat :: i < k ==> !OccursAt(s, pat, i)
    ensures r == -1 || (k <= r && OccursAt(s, pat, r))
    ensures r == -1 ==> forall i: nat :: !OccursAt(s, pat, i)
    ensures r >= 0 ==> forall i: nat :: i < r ==> !OccursAt(s, pat, i)
    decreases |s| - k
  {
    if k + |pat| > |s| then -1
    else if s[k..k + |pat|] == pat then k
    else FindFrom(s, pat, k + 1)
  }

  /** Python's `s.find(pat)`: the leftmost occurrence, or -1. */
  function Find(s: string, pat: string): (r: int)
    ensures r == -1 || (0 <= r && OccursAt(s, pat, r))
    ensures r == -1 <==> !Contains(s, pat)
    ensures r >= 0 ==> forall i: nat :: i < r ==> !OccursAt(s, pat, i)
  {
    FindFrom(s, pat, 0)
  }

  /** An occurrence inside a slice is an occurrence in the whole string. */
  lemma OccursInSlice(s: string, pat: string, a: nat, b: nat, j: nat)
    requires a <= b <= |s| && OccursAt(s[a..b], pat, j)
    ensures OccursAt(s, pat, a + j)
  {
    var x, y := s[a..b][j..j + |pat|], s[a + j..a + j + |pat|];
    forall k | 0 <= k < |pat| ensures x[k] == y[k] {
      assert x[k] == s[a..b][j + k] == s[a + j + k];
    }
    assert x == y;
  }

  lemma NotContainsSlice(s: string, pat: string, a: nat, b: nat)
    requires a <= b <= |s| && !Contains(s, pat)
    ensures !Contains(s[a..b], pat)
  {
    if Contains(s[a..b], pat) {
      var j: nat :| OccursAt(s[a..b], pat, j);
      OccursInSlice(s, pat, a, b, j);
    }
  }

  // ---------------------------------------------------------------------------
  // Whitespace and str.strip
  // ---------------------------------------------------------------------------

  /** The characters Python's str.isspace() accepts (and str.strip() removes). */
  predicate IsSpace(c: char) {
    || c == ' ' || ('\t' <= c <= '\r') || ('\U{1C}' <= c <= '\U{1F}')
    || c == '\U{85}' || c == '\U{A0}' || c == '\U{1680}'
    || ('\U{2000}' <= c <= '\U{200A}')
    || c == '\U{2028}' || c == '\U{2029}' || c == '\U{202F}' || c == '\U{205F}' || c == '\U{3000}'
  }

  predicate IsBlank(s: string) {
    forall k :: 0 <= k < |s| ==> IsSpace(s[k])
  }

  /** No whitespace at either end. */
  predicate IsStripped(s: string) {
    s == [] || (!IsSpace(s[0]) && !IsSpace(s[|s| - 1]))
  }

  /** The first index at or after k that is not whitespace. */
  function SkipSpaces(s: string, k: nat): (r: nat)
    requires k <= |s|
    ensures k <= r <= |s|
    ensures forall j :: k <= j < r ==> IsSpace(s[j])
    ensures r < |s| ==> !IsSpace(s[r])
    decreases |s| - k
  {
    if k < |s| && IsSpace(s[k]) then SkipSpaces(s, k + 1) else k
  }

  /** The index after the last non-space before j (0 when there is none). */
  function SkipSpacesBack(s: string, j: nat): (r: nat)
    requires j <= |s|
    ensures r <= j
    ensures forall k :: r <= k < j ==> IsSpace(s[k])
    ensures r > 0 ==> !IsSpace(s[r - 1])
  {
    if j > 0 && IsSpace(s[j - 1]) then SkipSpacesBack(s, j - 1) else j
  }

  /** SkipSpaces stops at the first non-space: any index with only spaces
      before it and none at it is the answer. */
  lemma {:induction false} SkipSpacesOverBlank(s: string, k: nat, j: nat)
    requires k <= j <= |s|
    requires forall i :: k <= i < j ==> IsSpace(s[i])
    requires j == |s| || !IsSpace(s[j])
    ensures SkipSpaces(s, k) == j
    decreases j - k
  {
    if k < j {
      SkipSpacesOverBlank(s, k + 1, j);
    }
  }

  lemma {:induction false} SkipSpacesBackOverBlank(s: string, j: nat, m: nat)
    requires m <= j <= |s|
    requires forall i :: m <= i < j ==> IsSpace(s[i])
    requires m == 0 || !IsSpace(s[m - 1])
    ensures SkipSpacesBack(s, j) == m
    decreases j
  {
    if m < j {
      SkipSpacesBackOverBlank(s, j - 1, m);
    }
  }

  /** Python's `s.lstrip()`. */
  function LStrip(s: string): (r: string)
    ensures |r| <= |s| && r == s[|s| - |r|..]
    ensures IsBlank(s[..|s| - |r|])
    ensures r == [] || !IsSpace(r[0])
  {
    s[SkipSpaces(s, 0)..]
  }

  /** Python's `s.rstrip()`. */
  function RStrip(s: string): (r: string)
    ensures |r| <= |s| && r == s[..|r|]
    ensures IsBlank(s[|r|..])
    ensures r == [] || !IsSpace(r[|r| - 1])
  {
    s[..SkipSpacesBack(s, |s|)]
  }

  /** Python's `s.strip()`: the slice s[a..b] left after removing all leading
      and trailing whitespace. */
  function Strip(s: string): (r: string)
    ensures IsStripped(r)
    ensures (r == []) <==> IsBlank(s)
  {
    var l := LStrip(s);
    var r := RStrip(l);
    assert r == [] ==> IsBlank(s) by {
      if r == [] {
        // a non-empty l starts with a non-space, which RStrip would keep
        assert l == [] by { assert l[|r|..] == l; }
        assert s[..|s| - |l|] == s;
      }
    }
    assert r != [] ==> !IsSpace(r[0]) by {
      if r != [] { assert r[0] == l[0]; }
    }
    r
  }

  /** Strip returns a slice of its argument. */
  lemma StripIsSlice(s: string)
    ensures exists a: nat, b: nat :: a <= b <= |s| && Strip(s) == s[a..b]
  {
    var l := LStrip(s);
    var a := |s| - |l|;
    var r := RStrip(l);
    assert Strip(s) == r == l[..|r|] == s[a..a + |r|];
  }

  lemma StripKeepsNoOccurrence(s: string, pat: string)
    requires !Contains(s, pat)
    ensures !Contains(Strip(s), pat)
  {
    StripIsSlice(s);
    var a: nat, b: nat :| a <= b <= |s| && Strip(s) == s[a..b];
    NotContainsSlice(s, pat, a, b);
  }

  /** lstrip removes a blank prefix and stops at the first non-space. */
  lemma LStripBlankPrefix(a: string, y: string)
    requires IsBlank(a) && (y == [] || !IsSpace(y[0]))
    ensures LStrip(a + y) == y
  {
    var s := a + y;
    forall i | 0 <= i < |a| ensures IsSpace(s[i]) { assert s[i] == a[i]; }
    if y != [] { assert s[|a|] == y[0]; }
    SkipSpacesOverBlank(s, 0, |a|);
    assert s[|a|..] == y;
  }

  /** rstrip removes a blank suffix and stops at the last non-space. */
  lemma RStripBlankSuffix(y: string, b: string)
    requires IsBlank(b) && (y == [] || !IsSpace(y[|y| - 1]))
    ensures RStrip(y + b) == y
  {
    var s := y + b;
    forall i | |y| <= i < |s| ensures IsSpace(s[i]) { assert s[i] == b[i - |y|]; }
    if y != [] { assert s[|y| - 1] == y[|y| - 1]; }
    SkipSpacesBackOverBlank(s, |s|, |y|);
    assert s[..|y|] == y;
  }

  /** strip() of a stripped text padded with whitespace on both sides is the text. */
  lemma StripAround(a: string, t: string, b: string)
    requires IsBlank(a) && IsBlank(b) && IsStripped(t)
    ensures Strip(a + t + b) == t
  {
    assert a + t + b == a + (t + b);
    if t == [] {
      assert IsBlank(t + b) by { assert t + b == b; }
      StripOfBlank(a + (t + b));
    } else {
      LStripBlankPrefix(a, t + b);
      RStripBlankSuffix(t, b);
    }
  }

  /** strip() of a blank string is empty. */
  lemma StripOfBlank(s: string)
    requires IsBlank(s)
    ensures Strip(s) == []
  {
  }

  /** A stripped string is its own strip. */
  lemma StripOfStripped(s: string)
    requires IsStripped(s)
    ensures Strip(s) == s
  {
  }

  // ---------------------------------------------------------------------------
  // str.lower (ASCII letters only)
  // ---------------------------------------------------------------------------

  predicate IsUpper(c: char) {
    'A' <= c <= 'Z'
  }

  function LowerChar(c: char): char {
    if IsUpper(c) then (c as int + 32) as char else c
  }

  /** str.lower(): every ASCII capital becomes its small letter, 32 code
      points up, and every other character is kept; no capital is left. */
  function Lower(s: string): (r: string)
    ensures |r| == |s|
    ensures forall i :: 0 <= i < |s| && IsUpper(s[i]) ==> r[i] as int == s[i] as int + 32 && 'a' <= r[i] <= 'z'
    ensures forall i :: 0 <= i < |s| && !IsUpper(s[i]) ==> r[i] == s[i]
    ensures forall i :: 0 <= i < |r| ==> !IsUpper(r[i])
  {
    seq(|s|, i requires 0 <= i < |s| => LowerChar(s[i]))
  }

  /** lower() is idempotent, and it commutes with concatenation and slicing. */
  lemma LowerIdempotent(s: string)
    ensures Lower(Lower(s)) == Lower(s)
  {
  }

  lemma LowerConcat(a: string, b: string)
    ensures Lower(a + b) == Lower(a) + Lower(b)
  {
  }

  /** lower() leaves a string without ASCII capitals unchanged. */
  lemma LowerNoCapitals(s: string)
    requires forall k :: 0 <= k < |s| ==> !IsUpper(s[k])
    ensures Lower(s) == s
  {
  }

  // ---------------------------------------------------------------------------
  // str.split(sep) and sep.join(parts)
  // ---------------------------------------------------------------------------

  function Join(parts: seq<string>, sep: string): string {
    if |parts| == 0 then ""
    else if |parts| == 1 then parts[0]
    else parts[0] + sep + Join(parts[1..], sep)
  }

  /** Each cut of `pieces` is leftmost: no occurrence of `sep` starts inside
      a piece and runs into the separator after it. */
  ghost predicate LeftmostCuts(pieces: seq<string>, sep: string)
    requires |sep| > 0
  {
    forall k :: 0 <= k < |pieces| - 1 ==> !Contains(pieces[k] + sep[..|sep| - 1], sep)
  }

  /** Python's `s.split(sep)` for a non-empty separator: the pieces between
      the non-overlapping occurrences of `sep`, scanned left to right, so
      each cut is at the leftmost occurrence after the previous one. */
  function Split(s: string, sep: string): (r: seq<string>)
    requires |sep| > 0
    ensures |r| >= 1
    ensures forall k :: 0 <= k < |r| ==> !Contains(r[k], sep)
    ensures LeftmostCuts(r, sep)
    ensures Join(r, sep) == s
    decreases |s|
  {
    var i := Find(s, sep);
    if i < 0 then [s]
    else
      var head := s[..i];
      var rest := Split(s[i + |sep|..], sep);
      FirstCut(s, sep, i);
      ConsPieces(head, rest, sep);
      [head] + rest
  }

  /** The text before the first occurrence holds no occurrence, not even
      one running into the separator. */
  lemma FirstCut(s: string, sep: string, i: int)
    requires |sep| > 0 && i == Find(s, sep) && i >= 0
    ensures !Contains(s[..i], sep) && !Contains(s[..i] + sep[..|sep| - 1], sep)
    ensures s == s[..i] + sep + s[i + |sep|..]
  {
    assert !Contains(s[..i], sep) by {
      if Contains(s[..i], sep) {
        var j: nat :| OccursAt(s[..i], sep, j);
        OccursInSlice(s, sep, 0, i, j);
      }
    }
    assert !Contains(s[..i] + sep[..|sep| - 1], sep) by {
      assert s[..i] + sep[..|sep| - 1] == s[..i + |sep| - 1];
      if Contains(s[..i + |sep| - 1], sep) {
        var j: nat :| OccursAt(s[..i + |sep| - 1], sep, j);
        OccursInSlice(s, sep, 0, i + |sep| - 1, j);
      }
    }
  }

  /** A leftmost first piece in front of leftmost pieces gives leftmost pieces. */
  lemma ConsPieces(head: string, rest: seq<string>, sep: string)
    requires |sep| > 0 && |rest| >= 1
    requires !Contains(head, sep) && !Contains(head + sep[..|sep| - 1], sep)
    requires forall k :: 0 <= k < |rest| ==> !Contains(rest[k], sep)
    requires LeftmostCuts(rest, sep)
    ensures var r := [head] + rest;
      && (forall k :: 0 <= k < |r| ==> !Contains(r[k], sep))
      && LeftmostCuts(r, sep)
      && Join(r, sep) == head + sep + Join(rest, sep)
  {
    var r := [head] + rest;
    assert r[1..] == rest;
    assert forall k :: 1 <= k < |r| ==> r[k] == rest[k - 1];
  }

  /** With a piece cut leftmost, no occurrence starts inside it. */
  lemma NoEarlierCut(h: string, sep: string, tail: string, j: nat)
    requires |sep| > 0 && j < |h|
    requires !Contains(h, sep) && !Contains(h + sep[..|sep| - 1], sep)
    ensures !OccursAt(h + sep + tail, sep, j)
  {
    var s := h + sep + tail;
    if j + |sep| <= |h| {
      assert s[j..j + |sep|] == h[j..j + |sep|];
      assert !OccursAt(h, sep, j);
    } else {
      var t := h + sep[..|sep| - 1];
      assert s[j..j + |sep|] == t[j..j + |sep|];
      assert !OccursAt(t, sep, j);
    }
  }

  /** The contract of Split fixes its result: any pieces free of `sep`,
      cut leftmost, that join back to `s` are Split(s, sep). */
  lemma {:induction false} SplitUnique(s: string, sep: string, pieces: seq<string>)
    requires |sep| > 0 && |pieces| >= 1
    requires forall k :: 0 <= k < |pieces| ==> !Contains(pieces[k], sep)
    requires LeftmostCuts(pieces, sep)
    requires Join(pieces, sep) == s
    ensures pieces == Split(s, sep)
    decreases |pieces|
  {
    if |pieces| == 1 {
      assert Find(s, sep) == -1;
    } else {
      var h, tail := pieces[0], Join(pieces[1..], sep);
      var i := |h|;
      assert s == h + sep + tail;
      assert OccursAt(s, sep, i) by { assert s[i..i + |sep|] == sep; }
      forall j: nat | j < i ensures !OccursAt(s, sep, j) {
        NoEarlierCut(h, sep, tail, j);
      }
      assert Find(s, sep) == i;
      assert s[..i] == h && s[i + |sep|..] == tail;
      forall k | 0 <= k < |pieces| - 2 ensures !Contains(pieces[1..][k] + sep[..|sep| - 1], sep) {
        assert pieces[1..][k] == pieces[k + 1];
      }
      forall k | 0 <= k < |pieces| - 1 ensures !Contains(pieces[1..][k], sep) {
        assert pieces[1..][k] == pieces[k + 1];
      }
      SplitUnique(tail, sep, pieces[1..]);
      assert pieces == [h] + pieces[1..];
    }
  }

  /** A text no longer than the pattern, and not equal to it, does not
      contain it. */
  lemma ShortNoOccurrence(s: string, pat: string)
    requires |s| <= |pat| && s != pat
    ensures !Contains(s, pat)
  {
    forall j: nat ensures !OccursAt(s, pat, j) {
      if j + |pat| <= |s| {
        assert s[j..j + |pat|] == s;
      }
    }
  }

  /** str.split cuts "a----b" on "---" as "a" and "-b": the first cut is
      the leftmost occurrence. */
  lemma SplitLeftmostExample()
    ensures Split("a----b", "---") == ["a", "-b"]
  {
    var r := ["a", "-b"];
    assert Join(r, "---") == "a----b";
    ShortNoOccurrence("a", "---");
    ShortNoOccurrence("-b", "---");
    ShortNoOccurrence("a--", "---");
    SplitUnique("a----b", "---", r);
  }

  // ---------------------------------------------------------------------------
  // str.splitlines()
  // ---------------------------------------------------------------------------

  /** The line boundaries of Python's str.splitlines(). */
  predicate IsLineBreak(c: char) {
    || c == '\n' || c == '\r' || c == '\U{0B}' || c == '\U{0C}'
    || c == '\U{1C}' || c == '\U{1D}' || c == '\U{1E}' || c == '\U{85}'
    || c == '\U{2028}' || c == '\U{2029}'
  }

  function FirstBreak(s: string, k: nat): (r: nat)
    requires k <= |s|
    ensures k <= r <= |s|
    ensures r < |s| ==> IsLineBreak(s[r])
    ensures forall j :: k <= j < r ==> !IsLineBreak(s[j])
    decreases |s| - k
  {
    if k == |s| || IsLineBreak(s[k]) then k else FirstBreak(s, k + 1)
  }

  /** Python's `s.splitlines()`: no piece contains a line break, "\r\n"
      counts as one boundary, and a final boundary adds no empty piece. */
  function SplitLines(s: string): (r: seq<string>)
    ensures forall k, j :: 0 <= k < |r| && 0 <= j < |r[k]| ==> !IsLineBreak(r[k][j])
    ensures s != [] ==> |r| >= 1
    decreases |s|
  {
    if s == [] then []
    else
      var i := FirstBreak(s, 0);
      if i == |s| then [s]
      else
        var width := if s[i] == '\r' && i + 1 < |s| && s[i + 1] == '\n' then 2 else 1;
        [s[..i]] + SplitLines(s[i + width..])
  }

  /** Only "\n" breaks lines. */
  predicate PlainBreaks(text: string) {
    forall k :: 0 <= k < |text| && IsLineBreak(text[k]) ==> text[k] == '\n'
  }

  lemma PlainBreaksSuffix(s: string, j: nat)
    requires PlainBreaks(s) && j <= |s|
    ensures PlainBreaks(s[j..])
  {
    forall k | 0 <= k < |s[j..]| && IsLineBreak(s[j..][k]) ensures s[j..][k] == '\n' {
      assert s[j..][k] == s[j + k];
    }
  }

  /** Splitting a text whose only line breaks are "\n" and re-joining it
      with "\n" gives the text back, when it does not end with a break. */
  lemma {:induction false} JoinSplitLines(s: string)
    requires PlainBreaks(s)
    requires s == [] || s[|s| - 1] != '\n'
    ensures Join(SplitLines(s), "\n") == s
    decreases |s|
  {
    if s != [] {
      var i := FirstBreak(s, 0);
      if i < |s| {
        assert s[i] == '\n' && i + 1 < |s|;
        PlainBreaksSuffix(s, i + 1);
        JoinSplitLines(s[i + 1..]);
        JoinSplitStep(s, i);
      }
    }
  }

  /** The inductive step: the first line, a "\n", and the re-joined rest. */
  lemma JoinSplitStep(s: string, i: nat)
    requires i == FirstBreak(s, 0) && i + 1 < |s| && s[i] == '\n'
    requires Join(SplitLines(s[i + 1..]), "\n") == s[i + 1..]
    ensures Join(SplitLines(s), "\n") == s
  {
    var head, rest := s[..i], s[i + 1..];
    SplitLinesAtNewline(s, i);
    JoinCons(head, SplitLines(rest), "\n");
    assert head + "\n" + rest == s by {
      assert head + "\n" == s[..i + 1];
      assert s[..i + 1] + s[i + 1..] == s;
    }
  }

  /** Joining a head and a non-empty tail puts one separator between them. */
  lemma JoinCons(head: string, tail: seq<string>, sep: string)
    requires tail != []
    ensures Join([head] + tail, sep) == head + sep + Join(tail, sep)
  {
    assert ([head] + tail)[1..] == tail;
  }

  lemma SplitLinesAtNewline(s: string, i: nat)
    requires s != [] && i == FirstBreak(s, 0) && i < |s| && s[i] == '\n'
    ensures SplitLines(s) == [s[..i]] + SplitLines(s[i + 1..])
  {
    assert s[i] != '\r';
  }

  // ---------------------------------------------------------------------------
  // Decimal rendering of naturals (Python's str(n) / f"{n}")
  // ---------------------------------------------------------------------------

  predicate IsDigit(c: char) { '0' <= c <= '9' }

  function DigitChar(d: nat): (c: char)
    requires d < 10
    ensures IsDigit(c) && c as int - '0' as int == d
  {
    ('0' as int + d) as char
  }

  function NatToString(n: nat): (r: string)
    ensures |r| >= 1
    ensures forall k :: 0 <= k < |r| ==> IsDigit(r[k])
  {
    if n < 10 then [DigitChar(n)] else NatToString(n / 10) + [DigitChar(n % 10)]
  }

  function ParseNat(s: string): nat
    requires forall k :: 0 <= k < |s| ==> IsDigit(s[k])
  {
    if s == [] then 0
    else
      assert IsDigit(s[|s| - 1]);
      10 * ParseNat(s[..|s| - 1]) + (s[|s| - 1] as int - '0' as int)
  }

  /** Reading back a rendered number gives the number. */
  lemma {:induction false} ParseNatToString(n: nat)
    ensures ParseNat(NatToString(n)) == n
  {
    var s := NatToString(n);
    if n >= 10 {
      ParseNatToString(n / 10);
      assert s[..|s| - 1] == NatToString(n / 10);
    }
  }

  lemma NatToStringInjective(m: nat, n: nat)
    requires NatToString(m) == NatToString(n)
    ensures m == n
  {
    ParseNatToString(m);
    ParseNatToString(n);
  }

  /** `s.startswith(p)` and `s == p + t` agree. */
  lemma StartsWithConcat(p: string, t: string)
    ensures StartsWith(p + t, p)
  {
    assert (p + t)[..|p|] == p;
  }

  lemma EndsWithConcat(t: string, p: string)
    ensures EndsWith(t + p, p)
  {
    assert (t + p)[|t + p| - |p|..] == p;
  }

  // ---------------------------------------------------------------------------
  // Code-point order of Python's str comparison, and sorted() of a set
  // ---------------------------------------------------------------------------

  /** `a < b` for Python strings: lexicographic by code point, a proper
      prefix being smaller. */
  predicate Less(a: string, b: string)
    decreases |a|
  {
    if |a| == 0 then |b| > 0
    else if |b| == 0 then false
    else if a[0] != b[0] then a[0] < b[0]
    else Less(a[1..], b[1..])
  }

  lemma {:induction false} LessIrreflexive(a: string)
    ensures !Less(a, a)
    decreases |a|
  {
    if |a| > 0 { LessIrreflexive(a[1..]); }
  }

  lemma {:induction false} LessAsymmetric(a: string, b: string)
    ensures !(Less(a, b) && Less(b, a))
    decreases |a|
  {
    if |a| > 0 && |b| > 0 && a[0] == b[0] { LessAsymmetric(a[1..], b[1..]); }
  }

  lemma {:induction false} LessTransitive(a: string, b: string, c: string)
    requires Less(a, b) && Less(b, c)
    ensures Less(a, c)
    decreases |a|
  {
    if |a| > 0 && a[0] == b[0] && b[0] == c[0] { LessTransitive(a[1..], b[1..], c[1..]); }
  }

  lemma {:induction false} LessTotal(a: string, b: string)
    requires a != b
    ensures Less(a, b) || Less(b, a)
    decreases |a|
  {
    if |a| > 0 && |b| > 0 && a[0] == b[0] {
      assert a == [a[0]] + a[1..] && b == [b[0]] + b[1..];
      LessTotal(a[1..], b[1..]);
    }
  }

  lemma LessAsymmetricAll()
    ensures forall a, b :: !(Less(a, b) && Less(b, a))
  {
    forall a, b ensures !(Less(a, b) && Less(b, a)) { LessAsymmetric(a, b); }
  }

  ghost predicate IsMinimum(m: string, s: set<string>) {
    m in s && forall y :: y in s ==> m == y || Less(m, y)
  }

  lemma {:induction false} MinimumExists(s: set<string>)
    requires s != {}
    ensures exists m :: IsMinimum(m, s)
    decreases |s|
  {
    var x :| x in s;
    if s == {x} {
      assert IsMinimum(x, s);
    } else {
      MinimumExists(s - {x});
      var m :| IsMinimum(m, s - {x});
      if Less(x, m) {
        forall y | y in s ensures x == y || Less(x, y) {
          if y != x && y != m { LessTransitive(x, m, y); }
        }
        assert IsMinimum(x, s);
      } else {
        LessTotal(x, m);
        assert IsMinimum(m, s);
      }
    }
  }

  /** The smallest string of a non-empty set. */
  function Min(s: set<string>): (m: string)
    requires s != {}
    ensures m in s && forall y :: y in s ==> m == y || Less(m, y)
  {
    MinimumExists(s);
    LessAsymmetricAll();
    var m :| m in s && forall y :: y in s ==> m == y || Less(m, y);
    m
  }

  predicate StrictlySorted(r: seq<string>) {
    forall i, j :: 0 <= i < j < |r| ==> Less(r[i], r[j])
  }

  /** Python's `sorted(s)` of a set of strings: every element exactly once,
      in strictly ascending order. */
  function SortedSet(s: set<string>): (r: seq<string>)
    ensures StrictlySorted(r)
    ensures forall x :: x in r <==> x in s
    ensures |r| == |s|
    decreases |s|
  {
    if s == {} then []
    else
      var m := Min(s);
      var rest := SortedSet(s - {m});
      assert forall j :: 0 <= j < |rest| ==> Less(m, rest[j]) by {
        forall j | 0 <= j < |rest| ensures Less(m, rest[j]) { assert rest[j] in s - {m}; }
      }
      [m] + rest
  }

  /** No string occurs twice. */
  ghost predicate Distinct(r: seq<string>) {
    forall i, j :: 0 <= i < j < |r| ==> r[i] != r[j]
  }

  /** The rest of a list without repeats has none, and lacks the head. */
  lemma DistinctRest(r: seq<string>)
    requires r != [] && Distinct(r)
    ensures Distinct(r[1..]) && r[0] !in r[1..]
  {
    assert forall i :: 0 <= i < |r| - 1 ==> r[1..][i] == r[i + 1];
  }

  lemma SortedDistinct(r: seq<string>, i: nat, j: nat)
    requires StrictlySorted(r) && i < j < |r|
    ensures r[i] != r[j]
  {
    LessIrreflexive(r[i]);
  }
}
