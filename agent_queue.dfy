/** agent_queue.py: picks the first task of Needs_Action/ in name order and
    writes a prompt file for it into prompts/, named
    <ts>__process__<task>.md. normalize_md makes sure a name carries exactly
    one ".md". */
module AgentQueue {
  import opened Strings
  import opened FileOps

  /** name.lower().endswith(".md"). */
  predicate EndsMdAnyCase(s: string) {
    EndsWith(Lower(s), MdSuffix)
  }

  lemma EndsMdAnyCaseChars(s: string)
    ensures EndsMdAnyCase(s) <==>
      |s| >= 3 && LowerChar(s[|s| - 3]) == '.' && LowerChar(s[|s| - 2]) == 'm' && LowerChar(s[|s| - 1]) == 'd'
  {
    if |s| >= 3 {
      assert Lower(s)[|s| - 3..] == [LowerChar(s[|s| - 3]), LowerChar(s[|s| - 2]), LowerChar(s[|s| - 1])];
    }
  }

  /** What the loop of normalize_md leaves: the name with every trailing
      ".md", in any letter case, removed. */
  function StripMdExt(s: string): string
    decreases |s|
  {
    if EndsMdAnyCase(s) then StripMdExt(s[..|s| - 3]) else s
  }

  /** normalize_md(filename), as a value. */
  function Normalized(s: string): string {
    StripMdExt(s) + MdSuffix
  }

  /** The stripped name is a prefix of the name and no longer ends in ".md". */
  lemma {:induction false} StripMdExtClean(s: string)
    ensures var r := StripMdExt(s);
      |r| <= |s| && r == s[..|r|] && !EndsMdAnyCase(r)
    decreases |s|
  {
    if EndsMdAnyCase(s) {
      StripMdExtClean(s[..|s| - 3]);
    }
  }

  /** A name without ".md" at the end gets exactly one added, and loses it again. */
  lemma StripAfterMd(q: string)
    requires !EndsMdAnyCase(q)
    ensures StripMdExt(q + MdSuffix) == q
  {
    var s := q + MdSuffix;
    EndsMdAnyCaseChars(s);
    assert s[..|s| - 3] == q;
  }

  /** normalize_md ends in ".md", and cutting that one ".md" leaves a name
      that no longer ends in ".md" in any letter case: exactly one extension. */
  lemma NormalizedHasOneExtension(s: string)
    ensures var r := Normalized(s);
      && EndsWith(r, MdSuffix)
      && !EndsMdAnyCase(r[..|r| - 3])
  {
    StripMdExtClean(s);
    var r := Normalized(s);
    assert r[..|r| - 3] == StripMdExt(s);
  }

  /** normalize_md is idempotent. */
  lemma NormalizedIdempotent(s: string)
    ensures Normalized(Normalized(s)) == Normalized(s)
  {
    StripMdExtClean(s);
    StripAfterMd(StripMdExt(s));
  }

  /** The examples of the docstring: a doubled extension is reduced to one,
      a missing one is added, and a capitalised one is lower-cased. */
  lemma NormalizedExamples()
    ensures Normalized("x.md.md") == "x.md"
    ensures Normalized("x") == "x.md"
    ensures Normalized("x.MD") == "x.md"
  {
    EndsMdAnyCaseChars("x.md.md");
    assert "x.md.md"[..4] == "x.md";
    EndsMdAnyCaseChars("x.md");
    assert "x.md"[..1] == "x";
    EndsMdAnyCaseChars("x");
    EndsMdAnyCaseChars("x.MD");
    assert "x.MD"[..1] == "x";
  }

  /** normalize_md as agent_queue.py writes it: a loop that cuts ".md" off
      while the lower-cased name ends with it. */
  method NormalizeMd(filename: string) returns (r: string)
    ensures r == Normalized(filename)
  {
    var name := filename;
    while EndsMdAnyCase(name)
      invariant StripMdExt(name) == StripMdExt(filename)
      decreases |name|
    {
      name := name[..|name| - 3];
    }
    r := name + MdSuffix;
  }

  // ---------------------------------------------------------------------------
  // pick_task
  // ---------------------------------------------------------------------------

  /** The entries of Needs_Action/ that end in ".md" in any letter case. */
  function Candidates(d: Disk): (r: set<string>)
    ensures forall n :: n in r <==> Path(NeedsAction, n) in d.files && EndsMdAnyCase(n)
  {
    var names := set p | p in d.files && p.dir == NeedsAction && EndsMdAnyCase(p.name) :: p.name;
    assert forall n :: n in names <==> Path(NeedsAction, n) in d.files && EndsMdAnyCase(n) by {
      forall n ensures n in names <==> Path(NeedsAction, n) in d.files && EndsMdAnyCase(n) {
        if Path(NeedsAction, n) in d.files && EndsMdAnyCase(n) {
          assert Path(NeedsAction, n).name == n;
        }
      }
    }
    names
  }

  datatype Pick = FolderMissing | NoTask | Picked(name: string)

  /** pick_task(): raises without Needs_Action/; otherwise the first of the
      sorted candidates, or None. */
  function PickTask(d: Disk): (r: Pick)
    ensures r == FolderMissing <==> NeedsAction !in d.dirs
    ensures r == NoTask <==> NeedsAction in d.dirs && Candidates(d) == {}
    ensures r.Picked? ==>
      && Path(NeedsAction, r.name) in d.files && EndsMdAnyCase(r.name)
      && forall m :: m in Candidates(d) ==> m == r.name || Less(r.name, m)
  {
    if NeedsAction !in d.dirs then FolderMissing
    else
      var c := Candidates(d);
      if c == {} then NoTask else Picked(Min(c))
  }

  // ---------------------------------------------------------------------------
  // main
  // ---------------------------------------------------------------------------

  const ProcessInfix := "__process__"

  /** The text of the prompt file around the six places that name the task. */
  const PromptPieces := [
    "# Claude Run Prompt — Process Task\n\n## Context\nYou must act as the AI Employee Agent. Follow:\n"
      + "- ./CLAUDE.md\n- ./skills/process_task.SKILL.md\n\n## Task File\n- ./Needs_Action/",
    "\n\n## Instructions\n1) Read ./skills/process_task.SKILL.md\n2) Read ./Needs_Action/",
    "\n3) Rewrite ./Needs_Action/",
    " using the skill template\n4) Move ./Needs_Action/",
    " to ./Done/",
    "\n5) Append a log line to ./run_log.md:\n   [YYYY-MM-DD HH:MM] ",
    " -> TASK_COMPLETE\n6) Reply only: TASK_COMPLETE\n"]

  function PromptText(pieces: seq<string>, taskMd: string): string {
    Join(pieces, taskMd)
  }

  /** The prompt file name for a task picked at time `ts`. */
  function PromptName(ts: string, taskMd: string): string {
    Normalized(ts + ProcessInfix + taskMd)
  }

  /** The infix ends in "__", so appending a name that does not end in
      ".md" gives a name that does not either. */
  lemma CleanAfterInfix(ts: string, s: string)
    requires !EndsMdAnyCase(s)
    ensures !EndsMdAnyCase(ts + ProcessInfix + s)
  {
    var q := ts + ProcessInfix + s;
    EndsMdAnyCaseChars(s);
    EndsMdAnyCaseChars(q);
    if |s| >= 3 {
      assert q[|q| - 3..] == s[|s| - 3..];
    } else if |s| == 0 {
      assert q[|q| - 1] == '_';
    } else {
      assert q[|q| - 3] == '_';
    }
  }

  /** The prompt file is named exactly <ts>__process__<task_md>: the second
      normalize_md finds the single ".md" of task_md and puts it back, so
      the name ends in exactly one ".md". */
  lemma PromptNameKeepsTask(ts: string, task: string)
    ensures PromptName(ts, Normalized(task)) == ts + ProcessInfix + Normalized(task)
    ensures var r := PromptName(ts, Normalized(task));
      EndsWith(r, MdSuffix) && !EndsMdAnyCase(r[..|r| - 3])
  {
    var s := StripMdExt(task);
    StripMdExtClean(task);
    var q := ts + ProcessInfix + s;
    CleanAfterInfix(ts, s);
    assert ts + ProcessInfix + Normalized(task) == q + MdSuffix;
    StripAfterMd(q);
    NormalizedHasOneExtension(ts + ProcessInfix + Normalized(task));
  }

  datatype Exit = Crashed | NoTaskFound | PromptWritten(file: string)

  datatype QueueRun = QueueRun(disk: Disk, exit: Exit)

  /** The part of main() after a task is picked: the prompt is written to
      prompts/<name>, and a failing write raises. */
  function WritePrompt(pieces: seq<string>, d: Disk, ts: string, task: string): QueueRun {
    var taskMd := Normalized(task);
    var name := PromptName(ts, taskMd);
    var w := WriteText(d, Path(Prompts, name), PromptText(pieces, taskMd));
    if !w.ok then QueueRun(d, Crashed) else QueueRun(w.disk, PromptWritten(name))
  }

  /** main(): prompts/ is created and pick_task may raise. */
  function RunQueue(pieces: seq<string>, d: Disk, ts: string): QueueRun {
    var d1 := MakeDir(d, Prompts);
    match PickTask(d1)
    case FolderMissing => QueueRun(d1, Crashed)
    case NoTask => QueueRun(d1, NoTaskFound)
    case Picked(task) => WritePrompt(pieces, d1, ts, task)
  }

  /** Writing the prompt adds exactly the file <ts>__process__<task_md>
      when that path can be written, and otherwise crashes with the disk
      unchanged. */
  lemma WritePromptOutcome(pieces: seq<string>, d: Disk, ts: string, task: string)
    requires Prompts in d.dirs
    ensures var r := WritePrompt(pieces, d, ts, task);
      var file := ts + ProcessInfix + Normalized(task);
      && (r.exit.PromptWritten? <==> Path(Prompts, file) !in d.faulty)
      && (r.exit.PromptWritten? ==>
            && r.exit.file == file
            && r.disk == d.(files := d.files[Path(Prompts, file) := PromptText(pieces, Normalized(task))]))
      && (!r.exit.PromptWritten? ==> r == QueueRun(d, Crashed))
  {
    PromptNameKeepsTask(ts, task);
  }

  /** A run writes at most the one prompt file and changes nothing else: no
      task is moved. It writes it exactly when a task is picked and the
      path is writable, under the name <ts>__process__<task_md>. */
  lemma RunQueueOutcome(pieces: seq<string>, d: Disk, ts: string)
    ensures var r := RunQueue(pieces, d, ts);
      var d1 := MakeDir(d, Prompts);
      var pick := PickTask(d1);
      && r.disk.dirs == d1.dirs
      && (r.exit.PromptWritten? ==> pick.Picked?)
      && (pick.Picked? ==>
            var file := ts + ProcessInfix + Normalized(pick.name);
            && (r.exit.PromptWritten? <==> Path(Prompts, file) !in d.faulty)
            && (r.exit.PromptWritten? ==>
                  r.exit.file == file && r.disk.files == d1.files[Path(Prompts, file) := PromptText(pieces, Normalized(pick.name))]))
      && (!r.exit.PromptWritten? ==> r.disk == d1)
      && (r.exit == NoTaskFound <==> pick.NoTask?)
  {
    var d1 := MakeDir(d, Prompts);
    var pick := PickTask(d1);
    if pick.Picked? {
      WritePromptOutcome(pieces, d1, ts, pick.name);
    }
  }

  method Run(v: Vault, ts: string) returns (exit: Exit)
    requires v.Valid()
    modifies v`disk
    ensures v.Valid()
    ensures var r := RunQueue(PromptPieces, old(v.disk), ts);
      v.disk == r.disk && exit == r.exit
  {
    v.MakeFolder(Prompts);
    var pick := PickTask(v.disk);
    if pick.FolderMissing? {
      return Crashed;
    }
    if pick.NoTask? {
      return NoTaskFound;
    }
    var taskMd := NormalizeMd(pick.name);
    var name := NormalizeMd(ts + ProcessInfix + taskMd);
    var ok := v.WriteTextRaw(Path(Prompts, name), PromptText(PromptPieces, taskMd));
    exit := if ok then PromptWritten(name) else Crashed;
  }
}
