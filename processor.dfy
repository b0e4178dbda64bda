/** processor.py: a module-level loop over the entries of Needs_Action/. Each
    ".md" file is rewritten in place to the fixed "Processed Task" template
    embedding its original text, then moved to Done/ under the same name,
    and one line is appended to run_log.md. Nothing is guarded: a missing
    Needs_Action/ or Done/, or an error on any file, ends the script. */
module Processor {
  import opened Strings
  import opened Wrappers
  import opened Audit
  import opened FileOps

  datatype Template = Template(head: string, tail: string)

  /** The text around the original content in the rewritten file. */
  const Rewrite := Template(
    "\n# Processed Task\n\n## Skill Used\nprocess_task.SKILL.md\n\n## Original Content\n",
    "\n\n## AI Summary\nThis task has been processed according to the defined Agent Skill workflow.\n\nStatus: Completed\n")

  function Summary(t: Template, content: string): string {
    t.head + content + t.tail
  }

  /** The original text is recovered from the rewritten file by cutting the
      template's head and tail. */
  lemma SummaryEmbedsContent(t: Template, content: string)
    ensures var s := Summary(t, content);
      && StartsWith(s, t.head) && EndsWith(s, t.tail)
      && s[|t.head|..|s| - |t.tail|] == content
  {
  }

  /** Different originals give different rewritten files. */
  lemma SummaryInjective(t: Template, a: string, b: string)
    requires Summary(t, a) == Summary(t, b)
    ensures a == b
  {
    SummaryEmbedsContent(t, a);
    SummaryEmbedsContent(t, b);
  }

  function Task(n: string): Path { Path(NeedsAction, n) }
  function Finished(n: string): Path { Path(Done, n) }

  predicate IsMd(n: string) { EndsWith(n, MdSuffix) }

  /** os.listdir(NEEDS_ACTION): every entry of the folder exactly once. Its
      order is not specified, so the model takes any order. */
  ghost predicate IsListing(d: Disk, names: seq<string>) {
    Distinct(names) && forall n :: n in names <==> Task(n) in d.files
  }

  datatype Step = Step(disk: Disk, events: seq<Event>, crashed: bool)

  /** One turn of the loop. A non-".md" entry is skipped; a ".md" file is
      read, rewritten, moved to Done/ and logged. Any failure raises, and
      the disk keeps what was done before it (a failed move leaves the
      rewritten file in Needs_Action/). */
  function ProcessOne(d: Disk, n: string): Step {
    if !IsMd(n) then Step(d, [], false)
    else
      match ReadText(d, Task(n))
      case None => Step(d, [], true)
      case Some(content) =>
        var w := WriteText(d, Task(n), Summary(Rewrite, content));
        if !w.ok then Step(d, [], true)
        else
          var m := ShutilMove(w.disk, Task(n), Finished(n));
          if !m.ok then Step(w.disk, [], true)
          else Step(m.disk, [SkillExecuted(n)], false)
  }

  /** The loop from the given entry on, stopping at the first crash. */
  function ProcessAll(d: Disk, names: seq<string>): Step
    decreases |names|
  {
    if names == [] then Step(d, [], false)
    else
      var s := ProcessOne(d, names[0]);
      if s.crashed then s
      else
        var rest := ProcessAll(s.disk, names[1..]);
        Step(rest.disk, s.events + rest.events, rest.crashed)
  }

  /** How the script ends. */
  datatype Exit = NoTasks | Completed | Crashed

  datatype ProcessorRun = ProcessorRun(disk: Disk, events: seq<Event>, exit: Exit)

  /** The whole script over a listing of Needs_Action/. */
  function RunProcessor(d: Disk, listing: seq<string>): ProcessorRun {
    if NeedsAction !in d.dirs then ProcessorRun(d, [], Crashed)
    else if listing == [] then ProcessorRun(d, [], NoTasks)
    else
      var s := ProcessAll(d, listing);
      ProcessorRun(s.disk, s.events, if s.crashed then Crashed else Completed)
  }

  // ---------------------------------------------------------------------------
  // Properties
  // ---------------------------------------------------------------------------

  /** A ".md" entry goes through without raising exactly when its file is
      readable and writable and Done/ exists with a writable destination. */
  predicate Sound(d: Disk, n: string) {
    Task(n) !in d.faulty && Done in d.dirs && Finished(n) !in d.faulty
  }

  /** The ".md" names of the listing, in loop order. */
  function MdNames(names: seq<string>): (r: seq<string>)
    ensures forall n :: n in r <==> n in names && IsMd(n)
  {
    if names == [] then []
    else (if IsMd(names[0]) then [names[0]] else []) + MdNames(names[1..])
  }

  function SkillEvents(ns: seq<string>): (r: seq<Event>)
    ensures |r| == |ns|
    ensures forall k :: 0 <= k < |ns| ==> r[k] == SkillExecuted(ns[k])
  {
    if ns == [] then [] else [SkillExecuted(ns[0])] + SkillEvents(ns[1..])
  }

  ghost function Touched(names: seq<string>): set<Path> {
    (set n | n in names && IsMd(n) :: Task(n)) + (set n | n in names && IsMd(n) :: Finished(n))
  }

  ghost predicate AllPresent(d: Disk, names: seq<string>) {
    forall k :: 0 <= k < |names| ==> Task(names[k]) in d.files
  }

  /** One entry: skipped when it is not ".md"; otherwise it raises exactly
      when it is not sound, and on success the rewritten text is in Done/
      and the file is gone from Needs_Action/. */
  lemma ProcessOneOutcome(d: Disk, n: string)
    requires NeedsAction in d.dirs && Task(n) in d.files
    ensures var s := ProcessOne(d, n);
      && s.disk.dirs == d.dirs && s.disk.faulty == d.faulty
      && (!IsMd(n) ==> s == Step(d, [], false))
      && (IsMd(n) ==> (s.crashed <==> !Sound(d, n)))
      && (IsMd(n) && !s.crashed ==>
            && s.events == [SkillExecuted(n)]
            && s.disk.files == (d.files - {Task(n)})[Finished(n) := Summary(Rewrite, d.files[Task(n)])])
      && SameExcept(d, s.disk, if IsMd(n) then {Task(n), Finished(n)} else {})
  {
  }

  lemma TouchedTail(names: seq<string>)
    requires names != []
    ensures Touched(names) == Touched(names[1..]) + (if IsMd(names[0]) then {Task(names[0]), Finished(names[0])} else {})
  {
    assert forall n :: n in names <==> n == names[0] || n in names[1..];
  }

  lemma ListingTail(d: Disk, names: seq<string>)
    requires names != [] && Distinct(names) && AllPresent(d, names)
    ensures Distinct(names[1..]) && names[0] !in names[1..]
    ensures forall d': Disk :: SameExcept(d, d', {Task(names[0]), Finished(names[0])}) ==> AllPresent(d', names[1..])
  {
    assert forall k :: 0 <= k < |names| - 1 ==> names[1..][k] == names[k + 1];
  }

  /** The loop touches only the ".md" entries and their namesakes in Done/;
      it raises exactly when some ".md" entry is not sound; without a crash
      it logs one line per ".md" entry, in listing order. */
  lemma {:induction false} ProcessAllOutcome(d: Disk, names: seq<string>)
    requires NeedsAction in d.dirs && Distinct(names) && AllPresent(d, names)
    ensures var s := ProcessAll(d, names);
      && SameExcept(d, s.disk, Touched(names))
      && s.disk.dirs == d.dirs
      && (s.crashed <==> exists k :: 0 <= k < |names| && IsMd(names[k]) && !Sound(d, names[k]))
      && (!s.crashed ==> s.events == SkillEvents(MdNames(names)))
    decreases |names|
  {
    if names != [] {
      var s := ProcessOne(d, names[0]);
      ProcessOneOutcome(d, names[0]);
      ListingTail(d, names);
      TouchedTail(names);
      if !s.crashed {
        ProcessAllOutcome(s.disk, names[1..]);
        assert forall k :: 0 <= k < |names| - 1 ==> names[1..][k] == names[k + 1];
        assert forall n :: Sound(s.disk, n) == Sound(d, n);
      }
    }
  }

  /** In a run without a crash every ".md" entry ends in Done/ under its
      name, holding the template around its original text, and is gone
      from Needs_Action/. */
  lemma {:induction false} ProcessAllMovesEach(d: Disk, names: seq<string>, k: nat)
    requires NeedsAction in d.dirs && Distinct(names) && AllPresent(d, names)
    requires k < |names| && IsMd(names[k]) && !ProcessAll(d, names).crashed
    ensures var s := ProcessAll(d, names);
      var n := names[k];
      && Task(n) !in s.disk.files
      && Finished(n) in s.disk.files && s.disk.files[Finished(n)] == Summary(Rewrite, d.files[Task(n)])
    decreases |names|
  {
    var s := ProcessOne(d, names[0]);
    ProcessOneOutcome(d, names[0]);
    ListingTail(d, names);
    if k == 0 {
      ProcessAllOutcome(s.disk, names[1..]);
      assert Task(names[0]) !in Touched(names[1..]) && Finished(names[0]) !in Touched(names[1..]);
    } else {
      assert names[k] == names[1..][k - 1];
      assert names[k] != names[0];
      ProcessAllMovesEach(s.disk, names[1..], k - 1);
    }
  }

  lemma ListingPresent(d: Disk, listing: seq<string>)
    requires IsListing(d, listing)
    ensures AllPresent(d, listing)
  {
    assert forall k :: 0 <= k < |listing| ==> listing[k] in listing;
  }

  /** A whole run: nothing but the ".md" entries and their namesakes in
      Done/ changes; it completes exactly when Needs_Action/ exists and
      every ".md" entry is sound, and then every ".md" task is in Done/ with
      the template around its text and the log has one line per task. */
  lemma RunProcessorOutcome(d: Disk, listing: seq<string>)
    requires IsListing(d, listing)
    ensures var r := RunProcessor(d, listing);
      && SameExcept(d, r.disk, Touched(listing))
      && (r.exit == Completed <==>
            NeedsAction in d.dirs && listing != [] && forall n :: n in listing && IsMd(n) ==> Sound(d, n))
      && (r.exit == Completed ==> r.events == SkillEvents(MdNames(listing)))
  {
    if NeedsAction in d.dirs && listing != [] {
      ListingPresent(d, listing);
      ProcessAllOutcome(d, listing);
    }
  }

  lemma RunProcessorMovesEach(d: Disk, listing: seq<string>, n: string)
    requires IsListing(d, listing) && RunProcessor(d, listing).exit == Completed
    requires n in listing && IsMd(n)
    ensures var r := RunProcessor(d, listing).disk;
      && Task(n) !in r.files
      && Finished(n) in r.files && r.files[Finished(n)] == Summary(Rewrite, d.files[Task(n)])
  {
    ListingPresent(d, listing);
    var k :| 0 <= k < |listing| && listing[k] == n;
    ProcessAllMovesEach(d, listing, k);
  }

  /** An empty Needs_Action/ changes nothing and logs nothing. */
  lemma EmptyListingChangesNothing(d: Disk, listing: seq<string>)
    requires NeedsAction in d.dirs && IsListing(d, listing)
    requires forall p :: p in d.files ==> p.dir != NeedsAction
    ensures RunProcessor(d, listing) == ProcessorRun(d, [], NoTasks)
  {
    ListingPresent(d, listing);
  }

  // ---------------------------------------------------------------------------
  // The script
  // ---------------------------------------------------------------------------

  /** One turn of the loop, as statements. */
  method ProcessEntry(v: Vault, n: string) returns (crashed: bool)
    requires v.Valid()
    modifies v`disk, v`log
    ensures var s := ProcessOne(old(v.disk), n);
      v.Valid() && v.disk == s.disk && v.log == old(v.log) + s.events && crashed == s.crashed
  {
    if !IsMd(n) {
      return false;
    }
    var content := ReadText(v.disk, Task(n));
    if content.None? {
      return true;
    }
    var ok := v.WriteTextRaw(Task(n), Summary(Rewrite, content.value));
    if !ok {
      return true;
    }
    ok := v.ShutilMoveRaw(Task(n), Finished(n));
    if !ok {
      return true;
    }
    v.Record(SkillExecuted(n));
    crashed := false;
  }

  /** One turn of the loop, then the rest of it. */
  lemma ProcessStep(d: Disk, names: seq<string>, i: nat, log: seq<Event>)
    requires i < |names|
    ensures var s := ProcessOne(d, names[i]);
      var here := ProcessAll(d, names[i..]);
      if s.crashed then here == s
      else
        var rest := ProcessAll(s.disk, names[i + 1..]);
        && rest.disk == here.disk && rest.crashed == here.crashed
        && (log + s.events) + rest.events == log + here.events
  {
    assert names[i..][1..] == names[i + 1..];
    var s := ProcessOne(d, names[i]);
    if !s.crashed {
      LogAssoc(log, s.events, ProcessAll(s.disk, names[i + 1..]).events);
    }
  }

  method ProcessEach(v: Vault, names: seq<string>) returns (crashed: bool)
    requires v.Valid()
    modifies v`disk, v`log
    ensures v.Valid()
    ensures var s := ProcessAll(old(v.disk), names);
      v.disk == s.disk && v.log == old(v.log) + s.events && crashed == s.crashed
  {
    ghost var d0, log0 := v.disk, v.log;
    var i := 0;
    while i < |names|
      invariant 0 <= i <= |names|
      invariant v.Valid()
      invariant var rest := ProcessAll(v.disk, names[i..]);
        var all := ProcessAll(d0, names);
        rest.disk == all.disk && v.log + rest.events == log0 + all.events && rest.crashed == all.crashed
    {
      ProcessStep(v.disk, names, i, v.log);
      crashed := ProcessEntry(v, names[i]);
      if crashed {
        return;
      }
      i := i + 1;
    }
    crashed := false;
  }

  /** The script; `listing` is what os.listdir returns. */
  method Run(v: Vault, listing: seq<string>) returns (exit: Exit)
    requires v.Valid()
    modifies v`disk, v`log
    ensures v.Valid()
    ensures var r := RunProcessor(old(v.disk), listing);
      v.disk == r.disk && v.log == old(v.log) + r.events && exit == r.exit
  {
    if NeedsAction !in v.disk.dirs {
      return Crashed;
    }
    if listing == [] {
      return NoTasks;
    }
    var crashed := ProcessEach(v, listing);
    exit := if crashed then Crashed else Completed;
  }
}
