/** whatsapp_watcher.py and linkedin_watcher.py: the two simulated channel
    watchers. They differ only in their input file, file-name prefix and
    header, so one model serves both. Each block of the input becomes
    Needs_Action/<prefix>_<slug>_<i>.md; a block whose write raises is
    skipped, and the input is emptied after the loop. */
module ChannelWatcher {
  import opened Strings
  import opened Wrappers
  import opened Audit
  import opened FileOps
  import opened TaskBlocks

  /** What sets one watcher apart: its name in the log ("whatsapp" or
      "linkedin"), its input file in the vault root, the prefix of its task
      files and the header written above each block. */
  datatype Source = Source(channel: string, inputName: string, prefix: string, header: string)

  const WhatsApp := Source("whatsapp", "whatsapp_input.txt", "wa",
    "# WhatsApp Task (Simulated)\n\nSource: whatsapp_input.txt\n\n")
  const LinkedIn := Source("linkedin", "linkedin_input.txt", "li",
    "# LinkedIn Lead/DM Task (Simulated)\n\nSource: linkedin_input.txt\n\n")

  function InputPath(c: Source): Path {
    Path(Base, c.inputName)
  }

  /** The task file written for one block. */
  function TaskText(c: Source, block: string): string {
    c.header + block + "\n"
  }

  /** Block i of a run whose ts_slug() was `slug`. */
  function TaskPath(c: Source, slug: string, i: nat): Path {
    Path(NeedsAction, BlockFileName(c.prefix, slug, i))
  }

  const NoInputReason := "no_input_file"
  const EmptyFileReason := "empty_file"

  /** One file the loop writes: Needs_Action/<prefix>_<slug>_<i>.md and its text. */
  datatype Task = Task(path: Path, text: string)

  /** The files for the blocks, numbered from 1 as enumerate(blocks, start=1) does. */
  function Tasks(c: Source, blocks: seq<string>, slug: string): (r: seq<Task>)
    ensures |r| == |blocks|
    ensures forall k :: 0 <= k < |r| ==> r[k] == Task(TaskPath(c, slug, k + 1), TaskText(c, blocks[k]))
  {
    seq(|blocks|, k requires 0 <= k < |blocks| => Task(TaskPath(c, slug, k + 1), TaskText(c, blocks[k])))
  }

  datatype Written = Written(disk: Disk, events: seq<Event>, ingested: nat)

  /** The loop of main(): each file is written inside try/except, a failed
      write is skipped, and `ingested` counts the writes that succeeded. */
  function WriteTasks(channel: string, d: Disk, ts: seq<Task>): Written
    decreases |ts|
  {
    if ts == [] then Written(d, [], 0)
    else
      var o := WriteText(d, ts[0].path, ts[0].text);
      var rest := WriteTasks(channel, o.disk, ts[1..]);
      Written(rest.disk,
              (if o.ok then [ChannelIngested(channel, ts[0].path.name)] else []) + rest.events,
              (if o.ok then 1 else 0) + rest.ingested)
  }

  /** How main() ends. */
  datatype Exit = NoInputFile | EmptyFile | NoBlocks | Ingested(count: nat) | Crashed

  datatype ChannelRun = ChannelRun(disk: Disk, events: seq<Event>, exit: Exit)

  /** main(): Needs_Action/ and Logs/ are created; a missing or blank input
      is logged as a skip; an unreadable one raises; otherwise the blocks are
      ingested. */
  function RunChannel(c: Source, d: Disk, slug: string): ChannelRun {
    var d1 := MakeDir(MakeDir(d, NeedsAction), Logs);
    var input := InputPath(c);
    if input !in d1.files then ChannelRun(d1, [ChannelSkipped(c.channel, NoInputReason)], NoInputFile)
    else
      match ReadText(d1, input)
      case None => ChannelRun(d1, [], Crashed)
      case Some(text) => IngestText(c, d1, Strip(text), slug)
  }

  function IngestText(c: Source, d1: Disk, raw: string, slug: string): ChannelRun {
    if raw == [] then ChannelRun(d1, [ChannelSkipped(c.channel, EmptyFileReason)], EmptyFile)
    else
      var blocks := Blocks(raw);
      if blocks == [] then ChannelRun(d1, [], NoBlocks)
      else WriteAndClear(c, d1, blocks, slug)
  }

  /** The loop, then the guarded clearing of the input (a failure to clear
      is swallowed), then the closing log entry. */
  function WriteAndClear(c: Source, d1: Disk, blocks: seq<string>, slug: string): ChannelRun {
    var w := WriteTasks(c.channel, d1, Tasks(c, blocks, slug));
    var cleared := WriteText(w.disk, InputPath(c), "");
    ChannelRun(cleared.disk, w.events + [ChannelDone(c.channel, w.ingested)], Ingested(w.ingested))
  }

  // ---------------------------------------------------------------------------
  // Properties
  // ---------------------------------------------------------------------------

  ghost function Paths(ts: seq<Task>): set<Path> {
    set k | 0 <= k < |ts| :: ts[k].path
  }

  ghost predicate DistinctPaths(ts: seq<Task>) {
    forall i, j :: 0 <= i < j < |ts| ==> ts[i].path != ts[j].path
  }

  ghost predicate InNeedsAction(ts: seq<Task>) {
    forall k :: 0 <= k < |ts| ==> ts[k].path.dir == NeedsAction
  }

  /** The files of one run are distinct and all in Needs_Action/. */
  lemma TasksDistinct(c: Source, blocks: seq<string>, slug: string)
    ensures DistinctPaths(Tasks(c, blocks, slug)) && InNeedsAction(Tasks(c, blocks, slug))
  {
    var ts := Tasks(c, blocks, slug);
    forall i, j | 0 <= i < j < |ts| ensures ts[i].path != ts[j].path {
      BlockFileNamesDistinct(c.prefix, slug, slug, i + 1, j + 1);
    }
  }

  lemma TasksTail(ts: seq<Task>)
    requires ts != []
    ensures Paths(ts) == Paths(ts[1..]) + {ts[0].path}
    ensures DistinctPaths(ts) ==> DistinctPaths(ts[1..]) && ts[0].path !in Paths(ts[1..])
    ensures InNeedsAction(ts) ==> InNeedsAction(ts[1..])
  {
    assert forall k :: 0 <= k < |ts| - 1 ==> ts[1..][k] == ts[k + 1];
    if DistinctPaths(ts) {
      forall p | p in Paths(ts[1..]) ensures p != ts[0].path {
        var k :| 0 <= k < |ts| - 1 && ts[1..][k].path == p;
        assert ts[k + 1].path == p;
      }
    }
  }

  /** How many of the files have a path that does not raise: the writes
      the loop can complete. */
  function SoundCount(faulty: set<Path>, ts: seq<Task>): (r: nat)
    ensures r <= |ts|
    ensures r == |ts| <==> forall k :: 0 <= k < |ts| ==> ts[k].path !in faulty
    decreases |ts|
  {
    if ts == [] then 0
    else
      var rest := SoundCount(faulty, ts[1..]);
      assert forall k :: 0 <= k < |ts| - 1 ==> ts[1..][k] == ts[k + 1];
      (if ts[0].path in faulty then 0 else 1) + rest
  }

  /** The loop touches only its files, never raises, logs one entry per
      success, and counts exactly the files whose path does not raise. */
  lemma {:induction false} WriteTasksOutcome(channel: string, d: Disk, ts: seq<Task>)
    requires NeedsAction in d.dirs && InNeedsAction(ts)
    ensures var w := WriteTasks(channel, d, ts);
      && SameExcept(d, w.disk, Paths(ts))
      && w.disk.dirs == d.dirs
      && w.ingested == SoundCount(d.faulty, ts)
      && w.ingested <= |ts| && |w.events| == w.ingested
      && (w.ingested == |ts| <==> forall k :: 0 <= k < |ts| ==> ts[k].path !in d.faulty)
    decreases |ts|
  {
    if ts != [] {
      var o := WriteText(d, ts[0].path, ts[0].text);
      TasksTail(ts);
      WriteTasksOutcome(channel, o.disk, ts[1..]);
      assert forall k :: 0 <= k < |ts| - 1 ==> ts[1..][k] == ts[k + 1];
    }
  }

  /** File k is stored with its text when its path is not faulty, and is
      absent or untouched when it is. */
  lemma {:induction false} WriteTasksStoresEach(channel: string, d: Disk, ts: seq<Task>, k: nat)
    requires NeedsAction in d.dirs && InNeedsAction(ts) && DistinctPaths(ts) && k < |ts|
    ensures var w := WriteTasks(channel, d, ts);
      var p := ts[k].path;
      if p !in d.faulty then p in w.disk.files && w.disk.files[p] == ts[k].text
      else (p in w.disk.files <==> p in d.files) && (p in d.files ==> w.disk.files[p] == d.files[p])
    decreases |ts|
  {
    var o := WriteText(d, ts[0].path, ts[0].text);
    TasksTail(ts);
    if k == 0 {
      WriteTasksOutcome(channel, o.disk, ts[1..]);
    } else {
      assert ts[k] == ts[1..][k - 1];
      WriteTasksStoresEach(channel, o.disk, ts[1..], k - 1);
    }
  }

  /** Block k of a run is stored under its number with the channel header
      when its path is not faulty, and is absent or untouched when it is. */
  lemma StoresEachBlock(c: Source, d: Disk, blocks: seq<string>, slug: string, k: nat)
    requires NeedsAction in d.dirs && k < |blocks|
    ensures var w := WriteTasks(c.channel, d, Tasks(c, blocks, slug));
      var p := TaskPath(c, slug, k + 1);
      if p !in d.faulty then p in w.disk.files && w.disk.files[p] == TaskText(c, blocks[k])
      else (p in w.disk.files <==> p in d.files) && (p in d.files ==> w.disk.files[p] == d.files[p])
  {
    TasksDistinct(c, blocks, slug);
    WriteTasksStoresEach(c.channel, d, Tasks(c, blocks, slug), k);
  }

  /** A missing or blank input writes nothing and is logged as a skip with
      its reason. */
  lemma SkipWithoutInput(c: Source, d: Disk, slug: string)
    requires InputPath(c) !in d.files || (InputPath(c) !in d.faulty && IsBlank(d.files[InputPath(c)]))
    ensures var r := RunChannel(c, d, slug);
      && r.disk == MakeDir(MakeDir(d, NeedsAction), Logs)
      && r.events == [ChannelSkipped(c.channel, if InputPath(c) in d.files then EmptyFileReason else NoInputReason)]
  {
  }

  /** RunChannel on a readable input is the ingestion of its stripped text. */
  lemma RunChannelIs(c: Source, d: Disk, slug: string)
    requires InputPath(c) in d.files && InputPath(c) !in d.faulty
    ensures RunChannel(c, d, slug) == IngestText(c, MakeDir(MakeDir(d, NeedsAction), Logs), Strip(d.files[InputPath(c)]), slug)
  {
  }

  /** With blocks to ingest, the input is emptied after the loop and the
      reported count is the number of block files whose path does not
      raise; without blocks the input keeps its text and nothing is written. */
  lemma ClearedAfterLoop(c: Source, d: Disk, slug: string)
    requires d.Valid() && InputPath(c) in d.files && InputPath(c) !in d.faulty
    ensures var r := RunChannel(c, d, slug);
      var blocks := Blocks(Strip(d.files[InputPath(c)]));
      && (blocks == [] ==> r.disk == MakeDir(MakeDir(d, NeedsAction), Logs) && !r.exit.Ingested?)
      && (blocks != [] ==>
            && r.exit.Ingested? && r.exit.count <= |blocks|
            && r.exit.count == SoundCount(d.faulty, Tasks(c, blocks, slug))
            && InputPath(c) in r.disk.files && r.disk.files[InputPath(c)] == "")
  {
    var d1 := MakeDir(MakeDir(d, NeedsAction), Logs);
    var raw := Strip(d.files[InputPath(c)]);
    RunChannelIs(c, d, slug);
    if raw == [] {
      BlocksOfEmpty();
    } else if Blocks(raw) != [] {
      ClearOutcome(c, d1, Blocks(raw), slug);
    }
  }

  /** After the loop and the guarded clear the input holds "", and the
      count reported in the closing entry and the exit is the number of
      block files whose path does not raise. */
  lemma ClearOutcome(c: Source, d1: Disk, blocks: seq<string>, slug: string)
    requires d1.Valid() && NeedsAction in d1.dirs && InputPath(c) in d1.files && InputPath(c) !in d1.faulty
    ensures var r := WriteAndClear(c, d1, blocks, slug);
      && r.exit.Ingested? && r.exit.count <= |blocks|
      && r.exit.count == SoundCount(d1.faulty, Tasks(c, blocks, slug))
      && r.events[|r.events| - 1] == ChannelDone(c.channel, r.exit.count)
      && InputPath(c) in r.disk.files && r.disk.files[InputPath(c)] == ""
  {
    var ts := Tasks(c, blocks, slug);
    TasksDistinct(c, blocks, slug);
    WriteTasksOutcome(c.channel, d1, ts);
    assert InputPath(c) !in Paths(ts);
  }

  // ---------------------------------------------------------------------------
  // The script
  // ---------------------------------------------------------------------------

  /** One turn of the loop: the write of file i, then the rest of the loop. */
  lemma WriteStep(channel: string, d: Disk, ts: seq<Task>, i: nat, log: seq<Event>, count: nat)
    requires i < |ts|
    ensures var o := WriteText(d, ts[i].path, ts[i].text);
      var here := WriteTasks(channel, d, ts[i..]);
      var rest := WriteTasks(channel, o.disk, ts[i + 1..]);
      var e := if o.ok then [ChannelIngested(channel, ts[i].path.name)] else [];
      && rest.disk == here.disk
      && (count + (if o.ok then 1 else 0)) + rest.ingested == count + here.ingested
      && (log + e) + rest.events == log + here.events
  {
    assert ts[i..][1..] == ts[i + 1..];
    var o := WriteText(d, ts[i].path, ts[i].text);
    var e := if o.ok then [ChannelIngested(channel, ts[i].path.name)] else [];
    LogAssoc(log, e, WriteTasks(channel, o.disk, ts[i + 1..]).events);
  }

  method WriteEach(v: Vault, channel: string, ts: seq<Task>) returns (ingested: nat)
    requires v.Valid()
    modifies v`disk, v`log
    ensures v.Valid()
    ensures var w := WriteTasks(channel, old(v.disk), ts);
      v.disk == w.disk && v.log == old(v.log) + w.events && ingested == w.ingested
  {
    ghost var d0, log0 := v.disk, v.log;
    ingested := 0;
    var i := 0;
    while i < |ts|
      invariant 0 <= i <= |ts|
      invariant v.Valid()
      invariant var rest := WriteTasks(channel, v.disk, ts[i..]);
        var all := WriteTasks(channel, d0, ts);
        rest.disk == all.disk && v.log + rest.events == log0 + all.events && ingested + rest.ingested == all.ingested
    {
      WriteStep(channel, v.disk, ts, i, v.log, ingested);
      var ok := v.WriteTextRaw(ts[i].path, ts[i].text);
      if ok {
        v.Record(ChannelIngested(channel, ts[i].path.name));
        ingested := ingested + 1;
      }
      i := i + 1;
    }
  }

  method Run(v: Vault, c: Source, slug: string) returns (exit: Exit)
    requires v.Valid()
    modifies v`disk, v`log
    ensures v.Valid()
    ensures var r := RunChannel(c, old(v.disk), slug);
      v.disk == r.disk && v.log == old(v.log) + r.events && exit == r.exit
  {
    v.MakeFolder(NeedsAction);
    v.MakeFolder(Logs);
    var input := InputPath(c);
    if input !in v.disk.files {
      v.Record(ChannelSkipped(c.channel, NoInputReason));
      return NoInputFile;
    }
    var text := ReadText(v.disk, input);
    if text.None? {
      return Crashed;
    }
    exit := Ingest(v, c, Strip(text.value), slug);
  }

  /** The part of main() after the input was read. */
  method Ingest(v: Vault, c: Source, raw: string, slug: string) returns (exit: Exit)
    requires v.Valid()
    modifies v`disk, v`log
    ensures v.Valid()
    ensures var r := IngestText(c, old(v.disk), raw, slug);
      v.disk == r.disk && v.log == old(v.log) + r.events && exit == r.exit
  {
    if raw == [] {
      v.Record(ChannelSkipped(c.channel, EmptyFileReason));
      return EmptyFile;
    }
    var blocks := Blocks(raw);
    if blocks == [] {
      return NoBlocks;
    }
    exit := Finish(v, c, blocks, slug);
  }

  /** The loop over the blocks, the clearing of the input and the closing entry. */
  method Finish(v: Vault, c: Source, blocks: seq<string>, slug: string) returns (exit: Exit)
    requires v.Valid()
    modifies v`disk, v`log
    ensures v.Valid()
    ensures var r := WriteAndClear(c, old(v.disk), blocks, slug);
      v.disk == r.disk && v.log == old(v.log) + r.events && exit == r.exit
  {
    var ingested := WriteEach(v, c.channel, Tasks(c, blocks, slug));
    var _ := v.WriteTextRaw(InputPath(c), "");
    v.Record(ChannelDone(c.channel, ingested));
    exit := Ingested(ingested);
  }
}
