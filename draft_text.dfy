/** The two pure readers post_approved.py applies to a LinkedIn draft: the
    task hash behind "**Task Hash:**" and the post text under
    "## Generated Post Text". */
module DraftText {
  import opened Strings
  import opened Wrappers

  // ---------------------------------------------------------------------------
  // _extract_hash_from_file: re.search(r"\*\*Task Hash:\*\*\s*([a-f0-9]{12})")
  // ---------------------------------------------------------------------------

  const HashMarker := "**Task Hash:**"
  const HashLength := 12

  predicate IsHexDigit(c: char) {
    '0' <= c <= '9' || 'a' <= c <= 'f'
  }

  /** Twelve lower-case hexadecimal digits. */
  predicate IsTaskHash(h: string) {
    |h| == HashLength && forall k :: 0 <= k < |h| ==> IsHexDigit(h[k])
  }

  /** The regex attempted at index i, where the marker occurs: all the
      whitespace after the marker, then twelve hex digits. Backtracking into
      the whitespace cannot help, since no whitespace is a hex digit. */
  function HashAt(s: string, i: nat): (r: Option<string>)
    requires OccursAt(s, HashMarker, i)
    ensures r.Some? ==> IsTaskHash(r.value)
  {
    var j := SkipSpaces(s, i + |HashMarker|);
    if j + HashLength <= |s| && IsTaskHash(s[j..j + HashLength]) then Some(s[j..j + HashLength])
    else None
  }

  /** A match of the regex starts at index i. */
  predicate MatchesAt(s: string, i: nat) {
    OccursAt(s, HashMarker, i) && HashAt(s, i).Some?
  }

  function ExtractHashFrom(s: string, k: nat): (r: string)
    ensures r == "" || IsTaskHash(r)
    decreases |s| - k
  {
    if k + |HashMarker| > |s| then ""
    else if MatchesAt(s, k) then HashAt(s, k).value
    else ExtractHashFrom(s, k + 1)
  }

  /** The scan from k returns the leftmost match at or after k, or "" when
      there is none. */
  lemma {:induction false} ExtractHashFromIsLeftmost(s: string, k: nat)
    ensures var r := ExtractHashFrom(s, k);
      && (r == "" <==> forall i: nat :: k <= i ==> !MatchesAt(s, i))
      && (r != "" ==> exists i: nat ::
            (k <= i && MatchesAt(s, i) && HashAt(s, i) == Some(r)
             && forall i': nat :: k <= i' < i ==> !MatchesAt(s, i')))
    decreases |s| - k
  {
    var r := ExtractHashFrom(s, k);
    if k + |HashMarker| > |s| {
      forall i: nat | k <= i ensures !MatchesAt(s, i) {}
    } else if MatchesAt(s, k) {
      assert HashAt(s, k) == Some(r);
    } else {
      ExtractHashFromIsLeftmost(s, k + 1);
      if r != "" {
        var i: nat :| k + 1 <= i && MatchesAt(s, i) && HashAt(s, i) == Some(r)
          && forall i': nat :: k + 1 <= i' < i ==> !MatchesAt(s, i');
        assert forall i': nat :: k <= i' < i ==> !MatchesAt(s, i');
      }
    }
  }

  /** _extract_hash_from_file(content): the hash of the leftmost match, or ""
      when nothing matches. */
  function ExtractHash(content: string): (r: string)
    ensures r == "" || IsTaskHash(r)
  {
    ExtractHashFrom(content, 0)
  }

  /** The hash is "" exactly when nothing matches, and otherwise comes from
      the leftmost match. */
  lemma ExtractHashIsLeftmostMatch(content: string)
    ensures var r := ExtractHash(content);
      && (r == "" <==> forall i: nat :: !MatchesAt(content, i))
      && (r != "" ==> exists i: nat ::
            (MatchesAt(content, i) && HashAt(content, i) == Some(r)
             && forall i': nat :: i' < i ==> !MatchesAt(content, i')))
  {
    ExtractHashFromIsLeftmost(content, 0);
  }

  /** A hash written right after the marker (with any whitespace between) is
      read back exactly. */
  lemma HashRoundTrip(ws: string, h: string, rest: string)
    requires IsBlank(ws) && IsTaskHash(h)
    ensures ExtractHash(HashMarker + ws + h + rest) == h
  {
    var s := HashMarker + ws + h + rest;
    assert s[..|HashMarker|] == HashMarker;
    assert OccursAt(s, HashMarker, 0);
    var j := |HashMarker| + |ws|;
    assert s[j] == h[0];
    assert !IsSpace(h[0]);
    forall i | |HashMarker| <= i < j ensures IsSpace(s[i]) {
      assert s[i] == ws[i - |HashMarker|];
    }
    assert SkipSpaces(s, |HashMarker|) == j by {
      SkipSpacesOverBlank(s, |HashMarker|, j);
    }
    assert s[j..j + HashLength] == h;
  }

  /** A draft without a twelve-digit hash after the marker yields "". */
  lemma NoMarkerNoHash(content: string)
    requires !Contains(content, HashMarker)
    ensures ExtractHash(content) == ""
  {
    ExtractHashIsLeftmostMatch(content);
  }

  // ---------------------------------------------------------------------------
  // _extract_post_text
  // ---------------------------------------------------------------------------

  const PostMarker := "## Generated Post Text"
  const SectionBreak := "\n---"
  const InstructionPrefix := "*To "

  /** The comprehension dropping the "*To ..." instruction lines. */
  function KeepLines(lines: seq<string>): (r: seq<string>)
    ensures forall k :: 0 <= k < |r| ==> !StartsWith(r[k], InstructionPrefix) && r[k] in lines
    ensures (forall k :: 0 <= k < |lines| ==> !StartsWith(lines[k], InstructionPrefix)) ==> r == lines
  {
    if lines == [] then []
    else if StartsWith(lines[0], InstructionPrefix) then KeepLines(lines[1..])
    else [lines[0]] + KeepLines(lines[1..])
  }

  /** The section under the marker, up to the first "\n---" when there is one. */
  function SectionText(after: string): string {
    var sep := Find(after, SectionBreak);
    if sep != -1 then Strip(after[..sep]) else after
  }

  /** The section re-joined without its instruction lines, stripped. */
  function CleanLines(body: string): (r: string)
    ensures IsStripped(r)
  {
    Strip(Join(KeepLines(SplitLines(body)), "\n"))
  }

  /** _extract_post_text(content): without the marker the whole draft,
      stripped; otherwise the text after the first marker, cut at the first
      "\n---", without instruction lines, re-joined with "\n" and stripped. */
  function ExtractPostText(content: string): (r: string)
    ensures IsStripped(r)
  {
    var idx := Find(content, PostMarker);
    if idx == -1 then Strip(content)
    else MarkedSection(content[idx + |PostMarker|..])
  }

  /** What follows the marker, stripped, cut at the first "\n---" and cleaned. */
  function MarkedSection(after: string): string {
    CleanLines(SectionText(Strip(after)))
  }

  /** Without the marker the whole draft, stripped, is the post text. */
  lemma UnmarkedDraftIsStripped(content: string)
    requires !Contains(content, PostMarker)
    ensures ExtractPostText(content) == Strip(content)
  {
  }

  /** A post text laid out as the draft writer lays it out — after a header
      that does not itself contain the marker, under the marker, and ended
      by a "---" line — is read back exactly, provided it is stripped and
      non-empty, breaks lines only with "\n", has no "---" line of its own
      and no line starting with "*To ". */
  lemma PostTextRoundTrip(header: string, text: string, footer: string)
    requires !Contains(header, PostMarker)
    requires text != [] && IsStripped(text)
    requires !Contains(text, SectionBreak)
    requires PlainBreaks(text) && NoInstructionLine(text)
    ensures ExtractPostText(header + PostMarker + "\n\n" + text + SectionBreak + footer) == text
  {
    var rest := "\n\n" + text + SectionBreak + footer;
    var lead := header + PostMarker;
    var content := header + PostMarker + "\n\n" + text + SectionBreak + footer;
    assert content == lead + rest;
    MarkerFoundAfterHeader(header, rest);
    var idx := Find(content, PostMarker);
    assert idx + |PostMarker| == |lead|;
    assert content[idx + |PostMarker|..] == rest;
    var after := Strip(rest);
    SectionStripped(text, footer);
    assert after == text + SectionBreak + RStrip(footer);
    BreakFoundAfterText(text, RStrip(footer));
    SectionCut(text, RStrip(footer));
    assert SectionText(after) == text;
    CleanOfPlainText(text);
    MarkedPostText(content, idx);
  }

  lemma MarkedPostText(content: string, idx: int)
    requires idx >= 0 && Find(content, PostMarker) == idx
    ensures ExtractPostText(content) == MarkedSection(content[idx + |PostMarker|..])
  {
  }

  lemma SectionStripped(text: string, footer: string)
    requires text != [] && IsStripped(text)
    ensures Strip("\n\n" + text + SectionBreak + footer) == text + SectionBreak + RStrip(footer)
  {
    var y := text + SectionBreak + footer;
    LeadingBreaksStripped(text, y);
    assert "\n\n" + text + SectionBreak + footer == "\n\n" + y;
    assert y == (text + SectionBreak) + footer;
    RStripAfterNonSpace(text + SectionBreak, footer);
  }

  lemma LeadingBreaksStripped(text: string, y: string)
    requires text != [] && IsStripped(text) && StartsWith(y, text)
    ensures LStrip("\n\n" + y) == y
  {
    assert y[0] == text[0];
    assert IsBlank("\n\n");
    LStripBlankPrefix("\n\n", y);
  }

  lemma SectionCut(text: string, q: string)
    requires text != [] && IsStripped(text)
    requires Find(text + SectionBreak + q, SectionBreak) == |text|
    ensures SectionText(text + SectionBreak + q) == text
  {
    var after := text + SectionBreak + q;
    assert after[..|text|] == text;
    StripOfStripped(text);
  }

  /** No line of the text starts with "*To ". */
  ghost predicate NoInstructionLine(text: string) {
    !StartsWith(text, InstructionPrefix) && !Contains(text, "\n" + InstructionPrefix)
  }

  lemma CleanOfPlainText(text: string)
    requires IsStripped(text) && PlainBreaks(text) && NoInstructionLine(text)
    ensures CleanLines(text) == text
  {
    JoinSplitLines(text);
    KeepPlainLines(text);
    StripOfStripped(text);
  }

  /** Splitting such a text yields no instruction line to drop. */
  lemma {:induction false} KeepPlainLines(s: string)
    requires PlainBreaks(s) && NoInstructionLine(s)
    ensures KeepLines(SplitLines(s)) == SplitLines(s)
    decreases |s|
  {
    if s != [] {
      var i := FirstBreak(s, 0);
      if i < |s| {
        var head, rest := s[..i], s[i + 1..];
        SplitLinesAtNewline(s, i);
        FirstLineClean(s, i);
        PlainBreaksSuffix(s, i + 1);
        KeepPlainLines(rest);
        assert ([head] + SplitLines(rest))[1..] == SplitLines(rest);
      }
    }
  }

  /** Cutting such a text at its first line break: the first line is no
      instruction, and the rest has no instruction line either. */
  lemma FirstLineClean(s: string, i: nat)
    requires NoInstructionLine(s) && i < |s| && s[i] == '\n'
    ensures !StartsWith(s[..i], InstructionPrefix) && NoInstructionLine(s[i + 1..])
  {
    var head, rest := s[..i], s[i + 1..];
    assert !StartsWith(head, InstructionPrefix) by {
      if |InstructionPrefix| <= |head| {
        assert head[..|InstructionPrefix|] == s[..|InstructionPrefix|];
      }
    }
    assert !StartsWith(rest, InstructionPrefix) by {
      if |InstructionPrefix| <= |rest| {
        assert !OccursAt(s, "\n" + InstructionPrefix, i);
        assert s[i..i + 1 + |InstructionPrefix|] == [s[i]] + rest[..|InstructionPrefix|];
      }
    }
    NotContainsSlice(s, "\n" + InstructionPrefix, i + 1, |s|);
    assert s[i + 1..|s|] == rest;
  }

  /** The marker has no proper prefix that is also its suffix, so it occurs
      first right after a header that does not contain it. */
  lemma MarkerFoundAfterHeader(header: string, rest: string)
    requires !Contains(header, PostMarker)
    ensures Find(header + PostMarker + rest, PostMarker) == |header|
  {
    var s := header + PostMarker + rest;
    var m := |PostMarker|;
    assert s[|header|..|header| + m] == PostMarker;
    assert OccursAt(s, PostMarker, |header|);
    forall i: nat | i < |header| ensures !OccursAt(s, PostMarker, i) {
      if i + m <= |header| {
        assert s[i..i + m] == header[i..i + m];
        assert !OccursAt(header, PostMarker, i);
      } else if i + m <= |s| {
        var d := |header| - i;
        var w := s[i..i + m];
        assert w[d] == s[|header|] == '#';
        if d == 1 {
          assert w[2] == s[|header| + 1] == '#';
          assert w[2] != PostMarker[2];
        } else {
          assert 2 <= d < m;
          assert PostMarker[d] != '#';
        }
      }
    }
  }

  /** The "\n---" closing a text that does not contain it, and does not end
      with a line break, is the first one. */
  lemma BreakFoundAfterText(text: string, rest: string)
    requires !Contains(text, SectionBreak)
    requires text != [] && !IsSpace(text[|text| - 1])
    ensures Find(text + SectionBreak + rest, SectionBreak) == |text|
  {
    var s := text + SectionBreak + rest;
    assert s[|text|..|text| + 4] == SectionBreak;
    assert OccursAt(s, SectionBreak, |text|);
    forall i: nat | i < |text| ensures !OccursAt(s, SectionBreak, i) {
      if i + 4 <= |text| {
        assert s[i..i + 4] == text[i..i + 4];
        assert !OccursAt(text, SectionBreak, i);
      } else {
        var d := |text| - i;
        assert s[i..i + 4][d] == s[|text|] == '\n';
        assert SectionBreak[d] == '-';
      }
    }
  }

  /** rstrip stops at the last non-space character. */
  lemma RStripAfterNonSpace(a: string, b: string)
    requires a != [] && !IsSpace(a[|a| - 1])
    ensures RStrip(a + b) == a + RStrip(b)
  {
    var s, m := a + b, SkipSpacesBack(b, |b|);
    forall i | |a| + m <= i < |s| ensures IsSpace(s[i]) { assert s[i] == b[i - |a|]; }
    assert s[|a| + m - 1] == if m > 0 then b[m - 1] else a[|a| - 1];
    SkipSpacesBackOverBlank(s, |s|, |a| + m);
    assert s[..|a| + m] == a + b[..m];
  }
}
