/** watcher_manual.py: turns the task blocks of manual_input.txt into
    Needs_Action/manual_<slug>_<i>.md files, then empties the input file.
    Neither the block writes nor the final clearing is guarded, so an error
    there ends the script. */
module WatcherManual {
  import opened Strings
  import opened Wrappers
  import opened Audit
  import opened FileOps
  import opened TaskBlocks

  const ManualInput := Path(Base, "manual_input.txt")
  const ManualPrefix := "manual"

  /** ts_slug() is read again for every block; `slugs(i)` is its value for block i. */
  ghost predicate SameWidth(slugs: nat -> string) {
    forall a: nat, b: nat :: |slugs(a)| == |slugs(b)|
  }

  function ManualPath(slugs: nat -> string, i: nat): Path {
    Path(NeedsAction, BlockFileName(ManualPrefix, slugs(i), i))
  }

  datatype Written = Written(disk: Disk, events: seq<Event>, crashed: bool)

  /** The loop of main(): block number `first` and the ones after it, each
      written as the block followed by a newline; a write that raises ends
      the script. */
  function WriteBlocks(d: Disk, blocks: seq<string>, first: nat, slugs: nat -> string): Written
    decreases |blocks|
  {
    if blocks == [] then Written(d, [], false)
    else
      var p := ManualPath(slugs, first);
      var o := WriteText(d, p, blocks[0] + "\n");
      if !o.ok then Written(d, [], true)
      else
        var rest := WriteBlocks(o.disk, blocks[1..], first + 1, slugs);
        Written(rest.disk, [ManualIngested(p.name)] + rest.events, rest.crashed)
  }

  /** How main() ends. */
  datatype Exit = NoInputFile | EmptyInput | NoBlocks | Cleared(blocks: nat) | Crashed

  datatype ManualRun = ManualRun(disk: Disk, events: seq<Event>, exit: Exit)

  /** main(): Needs_Action/ is created; a missing input returns early, an
      unreadable one raises; otherwise its stripped text is ingested. */
  function RunManual(d: Disk, slugs: nat -> string): ManualRun {
    var d1 := MakeDir(d, NeedsAction);
    if ManualInput !in d1.files then ManualRun(d1, [], NoInputFile)
    else
      match ReadText(d1, ManualInput)
      case None => ManualRun(d1, [], Crashed)
      case Some(text) => IngestText(d1, Strip(text), slugs)
  }

  /** A blank text or one without blocks returns early; otherwise the blocks
      are written and the input emptied. */
  function IngestText(d1: Disk, raw: string, slugs: nat -> string): ManualRun {
    if raw == [] then ManualRun(d1, [], EmptyInput)
    else
      var blocks := Blocks(raw);
      if blocks == [] then ManualRun(d1, [], NoBlocks)
      else WriteAndClear(d1, blocks, slugs)
  }

  /** Every block is written, then manual_input.txt is emptied. */
  function WriteAndClear(d1: Disk, blocks: seq<string>, slugs: nat -> string): ManualRun {
    var w := WriteBlocks(d1, blocks, 1, slugs);
    if w.crashed then ManualRun(w.disk, w.events, Crashed)
    else
      var c := WriteText(w.disk, ManualInput, "");
      if !c.ok then ManualRun(w.disk, w.events, Crashed)
      else ManualRun(c.disk, w.events, Cleared(|blocks|))
  }

  // ---------------------------------------------------------------------------
  // Properties
  // ---------------------------------------------------------------------------

  /** The paths of blocks first .. first + n - 1. */
  ghost function BlockPaths(slugs: nat -> string, first: nat, n: nat): set<Path> {
    set i | first <= i < first + n :: ManualPath(slugs, i)
  }

  /** The loop touches only the files of its blocks; it raises exactly when
      one of them is faulty, and otherwise logs one entry per block. */
  lemma {:induction false} WriteBlocksOutcome(d: Disk, blocks: seq<string>, first: nat, slugs: nat -> string)
    requires NeedsAction in d.dirs
    ensures var w := WriteBlocks(d, blocks, first, slugs);
      && SameExcept(d, w.disk, BlockPaths(slugs, first, |blocks|))
      && w.disk.dirs == d.dirs
      && (w.crashed <==> exists i :: first <= i < first + |blocks| && ManualPath(slugs, i) in d.faulty)
      && (!w.crashed ==> |w.events| == |blocks|)
    decreases |blocks|
  {
    if blocks != [] {
      var p := ManualPath(slugs, first);
      var o := WriteText(d, p, blocks[0] + "\n");
      if o.ok {
        WriteBlocksOutcome(o.disk, blocks[1..], first + 1, slugs);
        assert BlockPaths(slugs, first + 1, |blocks| - 1) + {p} == BlockPaths(slugs, first, |blocks|);
      }
    }
  }

  /** Without a crash every block is on disk under its own name: block k is
      Needs_Action/manual_<slug>_<first+k>.md holding the block and a newline. */
  lemma {:induction false} WriteBlocksStoresEach(d: Disk, blocks: seq<string>, first: nat, slugs: nat -> string, k: nat)
    requires NeedsAction in d.dirs && SameWidth(slugs)
    requires k < |blocks| && !WriteBlocks(d, blocks, first, slugs).crashed
    ensures var w := WriteBlocks(d, blocks, first, slugs);
      ManualPath(slugs, first + k) in w.disk.files && w.disk.files[ManualPath(slugs, first + k)] == blocks[k] + "\n"
    decreases |blocks|
  {
    var p := ManualPath(slugs, first);
    var o := WriteText(d, p, blocks[0] + "\n");
    if k == 0 {
      WriteBlocksOutcome(o.disk, blocks[1..], first + 1, slugs);
      forall i | first + 1 <= i < first + |blocks| ensures ManualPath(slugs, i) != p {
        BlockFileNamesDistinct(ManualPrefix, slugs(i), slugs(first), i, first);
      }
      assert p !in BlockPaths(slugs, first + 1, |blocks| - 1);
    } else {
      assert blocks[k] == blocks[1..][k - 1];
      WriteBlocksStoresEach(o.disk, blocks[1..], first + 1, slugs, k - 1);
    }
  }

  /** A missing input file, or one holding only whitespace, makes the script
      write nothing and leave the input alone. */
  lemma NothingWithoutInput(d: Disk, slugs: nat -> string)
    requires ManualInput !in d.files || (ManualInput !in d.faulty && IsBlank(d.files[ManualInput]))
    ensures RunManual(d, slugs).disk == MakeDir(d, NeedsAction)
    ensures RunManual(d, slugs).events == []
    ensures RunManual(d, slugs).exit == (if ManualInput in d.files then EmptyInput else NoInputFile)
  {
  }

  /** The input file is emptied only when every block was written, and then
      the count is the number of blocks; otherwise it keeps its text. */
  lemma ClearedOnlyAfterAllBlocks(d: Disk, slugs: nat -> string)
    requires d.Valid() && ManualInput in d.files && ManualInput !in d.faulty
    ensures var r := RunManual(d, slugs);
      var blocks := Blocks(Strip(d.files[ManualInput]));
      && (r.exit.Cleared? <==>
           blocks != [] && forall i :: 1 <= i <= |blocks| ==> ManualPath(slugs, i) !in d.faulty)
      && (r.exit.Cleared? ==>
            && r.exit.blocks == |blocks| && |r.events| == |blocks|
            && ManualInput in r.disk.files && r.disk.files[ManualInput] == "")
      && (!r.exit.Cleared? ==> ManualInput in r.disk.files && r.disk.files[ManualInput] == d.files[ManualInput])
  {
    var d1 := MakeDir(d, NeedsAction);
    var raw := Strip(d.files[ManualInput]);
    RunManualIs(d, slugs);
    if raw == [] {
      BlocksOfEmpty();
    } else if Blocks(raw) != [] {
      FinishOutcome(d1, Blocks(raw), slugs);
    }
  }

  /** RunManual on a readable input is the ingestion of its stripped text. */
  lemma RunManualIs(d: Disk, slugs: nat -> string)
    requires ManualInput in d.files && ManualInput !in d.faulty
    ensures RunManual(d, slugs) == IngestText(MakeDir(d, NeedsAction), Strip(d.files[ManualInput]), slugs)
  {
  }

  /** Writing the blocks and clearing: cleared exactly when no block path is
      faulty; the input keeps its text otherwise. */
  lemma FinishOutcome(d1: Disk, blocks: seq<string>, slugs: nat -> string)
    requires d1.Valid() && NeedsAction in d1.dirs && ManualInput in d1.files && ManualInput !in d1.faulty
    requires blocks != []
    ensures var r := WriteAndClear(d1, blocks, slugs);
      && (r.exit.Cleared? <==> forall i :: 1 <= i <= |blocks| ==> ManualPath(slugs, i) !in d1.faulty)
      && (r.exit.Cleared? ==>
            && r.exit.blocks == |blocks| && |r.events| == |blocks|
            && ManualInput in r.disk.files && r.disk.files[ManualInput] == "")
      && (!r.exit.Cleared? ==> ManualInput in r.disk.files && r.disk.files[ManualInput] == d1.files[ManualInput])
  {
    WriteBlocksOutcome(d1, blocks, 1, slugs);
    assert ManualInput !in BlockPaths(slugs, 1, |blocks|);
  }

  /** Each block of a run that cleared its input is in Needs_Action/. */
  lemma ClearedRunStoresBlocks(d: Disk, slugs: nat -> string, k: nat)
    requires d.Valid() && SameWidth(slugs) && ManualInput in d.files && ManualInput !in d.faulty
    requires RunManual(d, slugs).exit.Cleared?
    requires k < |Blocks(Strip(d.files[ManualInput]))|
    ensures var b := Blocks(Strip(d.files[ManualInput]))[k];
      var r := RunManual(d, slugs).disk;
      ManualPath(slugs, k + 1) in r.files && r.files[ManualPath(slugs, k + 1)] == b + "\n"
  {
    var d1 := MakeDir(d, NeedsAction);
    var raw := Strip(d.files[ManualInput]);
    RunManualIs(d, slugs);
    IngestCleared(d1, raw, slugs);
    ClearedIs(d1, Blocks(raw), slugs);
    WriteBlocksStoresEach(d1, Blocks(raw), 1, slugs, k);
  }

  /** A cleared ingestion had blocks to write. */
  lemma IngestCleared(d1: Disk, raw: string, slugs: nat -> string)
    requires IngestText(d1, raw, slugs).exit.Cleared?
    ensures raw != [] && Blocks(raw) != []
    ensures IngestText(d1, raw, slugs) == WriteAndClear(d1, Blocks(raw), slugs)
  {
  }

  /** A cleared run is the block writes followed by emptying the input. */
  lemma ClearedIs(d1: Disk, blocks: seq<string>, slugs: nat -> string)
    requires WriteAndClear(d1, blocks, slugs).exit.Cleared?
    ensures var w := WriteBlocks(d1, blocks, 1, slugs);
      !w.crashed && WriteAndClear(d1, blocks, slugs).disk.files == w.disk.files[ManualInput := ""]
  {
  }

  // ---------------------------------------------------------------------------
  // The script
  // ---------------------------------------------------------------------------

  /** The loop over the blocks; `crashed` is true when a write raised. */
  method WriteEach(v: Vault, blocks: seq<string>, slugs: nat -> string) returns (crashed: bool)
    requires v.Valid()
    modifies v`disk, v`log
    ensures v.Valid()
    ensures var w := WriteBlocks(old(v.disk), blocks, 1, slugs);
      v.disk == w.disk && v.log == old(v.log) + w.events && crashed == w.crashed
  {
    ghost var d0, log0 := v.disk, v.log;
    var i := 0;
    while i < |blocks|
      invariant 0 <= i <= |blocks|
      invariant v.Valid()
      invariant var rest := WriteBlocks(v.disk, blocks[i..], i + 1, slugs);
        var all := WriteBlocks(d0, blocks, 1, slugs);
        rest.disk == all.disk && v.log + rest.events == log0 + all.events && rest.crashed == all.crashed
    {
      var p := ManualPath(slugs, i + 1);
      WriteStep(v.disk, blocks, i, slugs, v.log);
      var ok := v.WriteTextRaw(p, blocks[i] + "\n");
      if !ok {
        return true;
      }
      v.Record(ManualIngested(p.name));
      i := i + 1;
    }
    return false;
  }

  /** One turn of the loop: the write of block i, then the rest of the loop. */
  lemma WriteStep(d: Disk, blocks: seq<string>, i: nat, slugs: nat -> string, log: seq<Event>)
    requires i < |blocks|
    ensures var p := ManualPath(slugs, i + 1);
      var o := WriteText(d, p, blocks[i] + "\n");
      var here := WriteBlocks(d, blocks[i..], i + 1, slugs);
      if !o.ok then here == Written(d, [], true)
      else
        var rest := WriteBlocks(o.disk, blocks[i + 1..], i + 2, slugs);
        && rest.disk == here.disk && rest.crashed == here.crashed
        && (log + [ManualIngested(p.name)]) + rest.events == log + here.events
  {
    assert blocks[i..][1..] == blocks[i + 1..];
    var p := ManualPath(slugs, i + 1);
    var o := WriteText(d, p, blocks[i] + "\n");
    if o.ok {
      LogAssoc(log, [ManualIngested(p.name)], WriteBlocks(o.disk, blocks[i + 1..], i + 2, slugs).events);
    }
  }

  method Run(v: Vault, slugs: nat -> string) returns (exit: Exit)
    requires v.Valid()
    modifies v`disk, v`log
    ensures v.Valid()
    ensures var r := RunManual(old(v.disk), slugs);
      v.disk == r.disk && v.log == old(v.log) + r.events && exit == r.exit
  {
    v.MakeFolder(NeedsAction);
    if ManualInput !in v.disk.files {
      return NoInputFile;
    }
    var text := ReadText(v.disk, ManualInput);
    if text.None? {
      return Crashed;
    }
    var raw := Strip(text.value);
    if raw == [] {
      return EmptyInput;
    }
    var blocks := Blocks(raw);
    if blocks == [] {
      return NoBlocks;
    }
    var crashed := WriteEach(v, blocks, slugs);
    if crashed {
      return Crashed;
    }
    var ok := v.WriteTextRaw(ManualInput, "");
    if !ok {
      return Crashed;
    }
    exit := Cleared(|blocks|);
  }
}
