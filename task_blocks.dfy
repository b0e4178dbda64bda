/** The task-block splitter shared by watcher_manual.py, whatsapp_watcher.py
    and linkedin_watcher.py: the input text is cut at every "---", each piece
    is stripped, and the pieces left empty are dropped. */
module TaskBlocks {
  import opened Strings

  const Separator := "---"

  /** The comprehension [b.strip() for b in pieces if b.strip()]. */
  function NonEmptyStripped(pieces: seq<string>): (r: seq<string>)
    ensures |r| <= |pieces|
    ensures forall k :: 0 <= k < |r| ==> r[k] != [] && IsStripped(r[k])
  {
    if pieces == [] then []
    else
      var b := Strip(pieces[0]);
      var rest := NonEmptyStripped(pieces[1..]);
      if b == [] then rest else [b] + rest
  }

  /** Stripping and dropping pieces creates no separator. */
  lemma {:induction false} NonEmptyStrippedNoSeparator(pieces: seq<string>)
    requires forall k :: 0 <= k < |pieces| ==> !Contains(pieces[k], Separator)
    ensures forall k :: 0 <= k < |NonEmptyStripped(pieces)| ==> !Contains(NonEmptyStripped(pieces)[k], Separator)
    decreases |pieces|
  {
    if pieces != [] {
      StripKeepsNoOccurrence(pieces[0], Separator);
      forall k | 0 <= k < |pieces| - 1 ensures !Contains(pieces[1..][k], Separator) {
        assert pieces[1..][k] == pieces[k + 1];
      }
      NonEmptyStrippedNoSeparator(pieces[1..]);
    }
  }

  /** The task blocks of a (stripped) input text: non-empty, stripped, and
      free of the separator, in input order. */
  function Blocks(raw: string): (r: seq<string>)
    ensures forall k :: 0 <= k < |r| ==> r[k] != [] && IsStripped(r[k]) && !Contains(r[k], Separator)
  {
    NonEmptyStrippedNoSeparator(Split(raw, Separator));
    NonEmptyStripped(Split(raw, Separator))
  }

  /** An empty text has no blocks. */
  lemma BlocksOfEmpty()
    ensures Blocks("") == []
  {
    assert Split("", Separator) == [""] by { assert Find("", Separator) == -1; }
  }

  /** What a well-formed list of blocks looks like. */
  ghost predicate WellFormed(bs: seq<string>) {
    forall k :: 0 <= k < |bs| ==> bs[k] != [] && IsStripped(bs[k]) && !Contains(bs[k], Separator)
  }

  /** The separator line the blocks are written with in an input file. */
  const SeparatorLine := "\n---\n"

  /** Blocks written one after another, separated by "---" lines, are read
      back exactly. */
  lemma BlocksOfJoined(bs: seq<string>)
    requires WellFormed(bs)
    ensures Blocks(Join(bs, SeparatorLine)) == bs
  {
    if bs == [] {
      BlocksOfEmpty();
    } else {
      assert bs == [] + bs;
      assert "" + Join(bs, SeparatorLine) == Join(bs, SeparatorLine);
      PiecesOfJoined("", bs);
    }
  }

  /** The induction behind BlocksOfJoined: every piece but the first starts
      with the newline that precedes its "---". */
  lemma {:induction false} PiecesOfJoined(pre: string, bs: seq<string>)
    requires pre == "" || pre == "\n"
    requires bs != [] && WellFormed(bs)
    ensures NonEmptyStripped(Split(pre + Join(bs, SeparatorLine), Separator)) == bs
    decreases |bs|
  {
    NoSeparatorAfterBlank(pre, bs[0]);
    if |bs| == 1 {
      SingleBlock(pre, bs[0]);
      assert Join(bs, SeparatorLine) == bs[0];
    } else {
      assert WellFormed(bs[1..]) by {
        forall k | 0 <= k < |bs| - 1 ensures bs[1..][k] == bs[k + 1] { }
      }
      PiecesOfJoined("\n", bs[1..]);
      var rest := Join(bs[1..], SeparatorLine);
      assert Join(bs, SeparatorLine) == bs[0] + SeparatorLine + rest;
      Regroup(pre, bs[0], SeparatorLine, rest);
      JoinedStep(pre, bs[0], rest, bs[1..]);
      assert [bs[0]] + bs[1..] == bs;
    }
  }

  /** One step of PiecesOfJoined: the first block, then the pieces of the rest. */
  lemma JoinedStep(pre: string, b: string, rest: string, tail: seq<string>)
    requires pre == "" || pre == "\n"
    requires b != [] && IsStripped(b) && !Contains(pre + b, Separator)
    requires NonEmptyStripped(Split("\n" + rest, Separator)) == tail
    ensures NonEmptyStripped(Split(pre + b + SeparatorLine + rest, Separator)) == [b] + tail
  {
    var y, t := pre + b + "\n", Split("\n" + rest, Separator);
    SplitAtSeparatorLine(pre + b, rest);
    StripAround(pre, b, "\n");
    NonEmptyStrippedCons(y, t);
  }

  /** One block, with or without its leading newline, is one piece. */
  lemma SingleBlock(pre: string, b: string)
    requires pre == "" || pre == "\n"
    requires b != [] && IsStripped(b) && !Contains(pre + b, Separator)
    ensures NonEmptyStripped(Split(pre + b, Separator)) == [b]
  {
    SplitWithoutSeparator(pre + b);
    assert pre + b + "" == pre + b;
    StripAround(pre, b, "");
  }

  /** The comprehension keeps a first piece that strips to something. */
  lemma NonEmptyStrippedCons(y: string, t: seq<string>)
    requires Strip(y) != []
    ensures NonEmptyStripped([y] + t) == [Strip(y)] + NonEmptyStripped(t)
  {
    assert ([y] + t)[1..] == t;
  }

  lemma Regroup(a: string, b: string, c: string, d: string)
    ensures a + (b + c + d) == a + b + c + d
  {
  }

  /** A text without the separator is a single piece. */
  lemma SplitWithoutSeparator(x: string)
    requires !Contains(x, Separator)
    ensures Split(x, Separator) == [x]
  {
  }

  /** Prefixing a blank text (no '-' in it) creates no separator. */
  lemma NoSeparatorAfterBlank(pre: string, b: string)
    requires pre == "" || pre == "\n"
    requires !Contains(b, Separator)
    ensures !Contains(pre + b, Separator)
  {
    if pre == "\n" && Contains(pre + b, Separator) {
      var s := pre + b;
      var i: nat :| OccursAt(s, Separator, i);
      assert s[i] == '-' by { assert s[i..i + 3][0] == s[i]; }
      assert i >= 1;
      assert s[i..i + 3] == b[i - 1..i + 2];
      assert OccursAt(b, Separator, i - 1);
    } else if pre == "" {
      assert pre + b == b;
    }
  }

  /** The first "---" of x + "\n---\n" + rest is the one of the separator line. */
  lemma SplitAtSeparatorLine(x: string, rest: string)
    requires !Contains(x, Separator)
    ensures Split(x + SeparatorLine + rest, Separator) == [x + "\n"] + Split("\n" + rest, Separator)
  {
    var s := x + SeparatorLine + rest;
    var m := |x| + 1;
    assert s[m..m + 3] == Separator;
    assert OccursAt(s, Separator, m);
    forall i: nat | i < m ensures !OccursAt(s, Separator, i) {
      if i + 3 <= |x| {
        if OccursAt(s, Separator, i) {
          assert s[i..i + 3] == x[i..i + 3];
          assert OccursAt(x, Separator, i);
        }
      } else {
        assert s[i..i + 3][|x| - i] == s[|x|] == '\n';
      }
    }
    assert Find(s, Separator) == m;
    assert s[..m] == x + "\n";
    assert s[m + 3..] == "\n" + rest;
  }

  // ---------------------------------------------------------------------------
  // File names of the ingested blocks
  // ---------------------------------------------------------------------------

  /** <prefix>_<slug>_<i>.md, the name a watcher gives the i-th block. */
  function BlockFileName(prefix: string, slug: string, i: nat): (r: string)
    ensures EndsWith(r, ".md")
  {
    EndsWithConcat(prefix + "_" + slug + "_" + NatToString(i), ".md");
    prefix + "_" + slug + "_" + NatToString(i) + ".md"
  }

  /** The block number sits between the slug and the extension. */
  lemma BlockNumberInName(prefix: string, slug: string, i: nat)
    ensures var n := BlockFileName(prefix, slug, i);
      && |n| == |prefix| + |slug| + |NatToString(i)| + 5
      && n[|prefix| + |slug| + 2..|n| - 3] == NatToString(i)
  {
  }

  /** Two blocks with different numbers get different names, provided the
      slugs have the same width (ts_slug() always renders the same
      strftime pattern). */
  lemma BlockFileNamesDistinct(prefix: string, s1: string, s2: string, i: nat, j: nat)
    requires |s1| == |s2| && i != j
    ensures BlockFileName(prefix, s1, i) != BlockFileName(prefix, s2, j)
  {
    BlockNumberInName(prefix, s1, i);
    BlockNumberInName(prefix, s2, j);
    if BlockFileName(prefix, s1, i) == BlockFileName(prefix, s2, j) {
      NatToStringInjective(i, j);
    }
  }
}
