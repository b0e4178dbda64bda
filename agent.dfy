/** agent.py: for every task listed by mcp_server.list_tasks(Needs_Action),
    build a prompt from the stripped text, obtain a summary (from OpenAI or a
    fallback), write the processed output to Done/<name>, then move the task
    onto that same path with move_task, and log the run and the prompt.
    The move replaces the processed output, so Done/<name> ends up holding
    the task's original text. The OpenAI call is an abstract reply. */
module Agent {
  import opened Strings
  import opened Wrappers
  import opened Audit
  import opened FileOps
  import McpServer

  // ---------------------------------------------------------------------------
  // The prompt
  // ---------------------------------------------------------------------------

  /** The fixed texts of agent.py: the instructions heading every prompt,
      the three summaries that do not come from the model, and the pieces of
      the processed output around the original text and the summary. */
  datatype Texts = Texts(promptPrefix: string, fallback: string, empty: string, errorPrefix: string,
                         outputHead: string, outputMiddle: string, outputTail: string)

  const AgentTexts := Texts(
    "You are an AI employee. Summarize the task clearly in 3-6 bullet points.\n"
    + "Then write a short 'Next actions' section (1-3 bullets).\n"
    + "Keep it concise. Do NOT invent details.\n\n"
    + "TASK:\n",
    "Silver Agent processed this task. (fallback: OpenAI not configured)",
    "Summary generated but empty response.",
    "(OpenAI error fallback) ",
    "# Processed Task\n\n## Original Content\n",
    "\n\n## AI Summary\n",
    "\n\nStatus: Completed\n")

  /** MAX_TASK_CHARS when the variable is unset. */
  const DefaultMaxChars := 6000

  /** Python's t[:m]: the first m characters, the whole text when it is
      shorter, and for a negative m all but the last -m characters. */
  function SliceTo(t: string, m: int): (r: string)
    ensures |r| <= |t| && r == t[..|r|]
    ensures m >= 0 ==> |r| == if m < |t| then m else |t|
    ensures m < 0 ==> |r| == if |t| + m > 0 then |t| + m else 0
  {
    if m >= 0 then (if m < |t| then t[..m] else t)
    else if |t| + m > 0 then t[..|t| + m] else []
  }

  /** build_prompt(task_text): the fixed instructions, then the task text
      cut to MAX_CHARS. */
  function BuildPrompt(x: Texts, t: string, maxChars: int): string {
    x.promptPrefix + SliceTo(t, maxChars)
  }

  /** The prompt starts with the instructions and carries the first
      MAX_CHARS characters of the task, all of a task that fits. */
  lemma PromptCarriesTask(x: Texts, t: string, maxChars: int)
    requires maxChars >= 0
    ensures var p := BuildPrompt(x, t, maxChars);
      && StartsWith(p, x.promptPrefix)
      && |p| <= |x.promptPrefix| + maxChars
      && p[|x.promptPrefix|..] == t[..|p| - |x.promptPrefix|]
      && (|t| <= maxChars ==> p == x.promptPrefix + t)
  {
  }

  // ---------------------------------------------------------------------------
  // The summary
  // ---------------------------------------------------------------------------

  /** What the chat-completion call gave: the message content, or an
      exception with its text. */
  datatype Reply = Completion(content: string) | Raised(message: string)

  datatype Status = Fallback | OpenAiEmpty | OpenAiOk | OpenAiError

  /** The status word written to the logs. */
  function StatusName(s: Status): (r: string)
    ensures r != []
  {
    match s
    case Fallback => "fallback"
    case OpenAiEmpty => "openai_empty"
    case OpenAiOk => "openai_ok"
    case OpenAiError => "openai_error"
  }

  /** The four statuses are told apart in the logs. */
  lemma StatusNamesDistinct(a: Status, b: Status)
    requires a != b
    ensures StatusName(a) != StatusName(b)
  {
  }

  /** OPENAI_API_KEY (as read, "" when unset), whether the openai package
      imported, and MAX_TASK_CHARS. */
  datatype Config = Config(apiKey: string, libraryInstalled: bool, maxChars: int)

  datatype Summary = Summary(text: string, status: Status)

  function Configured(cfg: Config): bool {
    Strip(cfg.apiKey) != [] && cfg.libraryInstalled
  }

  /** openai_summarize(prompt): never raises; the reply is consulted only
      when a key (after stripping) and the package are both present. */
  function Summarize(x: Texts, cfg: Config, reply: Reply): Summary {
    if !Configured(cfg) then Summary(x.fallback, Fallback)
    else
      match reply
      case Raised(msg) => Summary(x.errorPrefix + msg, OpenAiError)
      case Completion(content) =>
        var text := Strip(content);
        if text == [] then Summary(x.empty, OpenAiEmpty) else Summary(text, OpenAiOk)
  }

  /** The status says which branch was taken: fallback exactly without a key
      or package; openai_ok exactly for a non-blank reply, which is then the
      summary, stripped; openai_error exactly for an exception. The summary
      is never empty. */
  lemma SummarizeCases(cfg: Config, reply: Reply)
    ensures var s := Summarize(AgentTexts, cfg, reply);
      && s.text != []
      && (s.status == Fallback <==> !Configured(cfg))
      && (s.status == Fallback ==> s.text == AgentTexts.fallback)
      && (s.status == OpenAiOk <==> Configured(cfg) && reply.Completion? && Strip(reply.content) != [])
      && (s.status == OpenAiOk ==> s.text == Strip(reply.content) && IsStripped(s.text))
      && (s.status == OpenAiEmpty <==> Configured(cfg) && reply.Completion? && Strip(reply.content) == [])
      && (s.status == OpenAiError <==> Configured(cfg) && reply.Raised?)
      && (s.status == OpenAiError ==> s.text == AgentTexts.errorPrefix + reply.message)
  {
  }

  /** What the prompt history records instead of the prompt. */
  function PromptLog(status: Status, prompt: string): string {
    if status == Fallback then "fallback" else prompt
  }

  /** The history shows "fallback" exactly for a fallback summary: a real
      prompt always starts with the instructions, so it is never that word. */
  lemma PromptLogSaysFallback(status: Status, t: string, maxChars: int)
    ensures (PromptLog(status, BuildPrompt(AgentTexts, t, maxChars)) == "fallback") <==> status == Fallback
  {
    var p := BuildPrompt(AgentTexts, t, maxChars);
    assert |p| >= |AgentTexts.promptPrefix| > |"fallback"|;
  }

  // ---------------------------------------------------------------------------
  // One task
  // ---------------------------------------------------------------------------

  /** The processed output written to Done/<name> before the move. */
  function Output(x: Texts, original: string, summary: string): string {
    x.outputHead + original + x.outputMiddle + summary + x.outputTail
  }

  function Task(n: string): Path { Path(NeedsAction, n) }
  function Finished(n: string): Path { Path(Done, n) }

  datatype Step = Step(disk: Disk, events: seq<Event>, crashed: bool)

  /** What one task produces from its text: the output to write, the line
      for run_log.md and the entry for prompt_history.md. */
  datatype Prepared = Prepared(output: string, runLine: Event, promptEntry: Event) {
    function Events(): seq<Event> { [runLine, promptEntry] }
  }

  function Prepare(x: Texts, n: string, raw: string, cfg: Config, reply: Reply): Prepared {
    var original := Strip(raw);
    var prompt := BuildPrompt(x, original, cfg.maxChars);
    var s := Summarize(x, cfg, reply);
    Prepared(Output(x, original, s.text), TaskProcessed(n, StatusName(s.status)),
             PromptRecorded(n, StatusName(s.status), PromptLog(s.status, prompt)))
  }

  /** The file operations of one task: write_text of the output, which is
      not guarded, then move_task onto the same path, whose result is
      ignored. */
  function Commit(d: Disk, n: string, p: Prepared): Step {
    var w := WriteText(d, Finished(n), p.output);
    if !w.ok then Step(d, [], true)
    else
      var m := MoveFileResult(w.disk, Task(n), Finished(n));
      Step(m.disk, p.Events(), false)
  }

  /** One turn of the loop; read_text is not guarded either. */
  function ProcessOne(x: Texts, d: Disk, n: string, cfg: Config, reply: Reply): Step {
    match ReadText(d, Task(n))
    case None => Step(d, [], true)
    case Some(raw) => Commit(d, n, Prepare(x, n, raw, cfg, reply))
  }

  /** The loop from position i of the listing on; replies(i) is what the
      i-th OpenAI call gives. */
  function ProcessAll(x: Texts, d: Disk, names: seq<string>, i: nat, cfg: Config, replies: nat -> Reply): Step
    decreases |names|
  {
    if names == [] then Step(d, [], false)
    else
      var s := ProcessOne(x, d, names[0], cfg, replies(i));
      if s.crashed then s
      else
        var rest := ProcessAll(x, s.disk, names[1..], i + 1, cfg, replies);
        Step(rest.disk, s.events + rest.events, rest.crashed)
  }

  datatype Exit = NoTasks | Completed | Crashed

  datatype AgentRun = AgentRun(disk: Disk, events: seq<Event>, exit: Exit)

  /** main(): both folders are created and the sorted "*.md" tasks are
      processed; an empty listing logs "No tasks found" and stops. The
      script runs with x == AgentTexts. */
  function RunAgent(x: Texts, d: Disk, cfg: Config, replies: nat -> Reply): AgentRun {
    var d1 := MakeDir(MakeDir(d, NeedsAction), Done);
    var names := McpServer.ListTasks(d1, NeedsAction);
    if names == [] then AgentRun(d1, [NoTasksFound], NoTasks)
    else
      var s := ProcessAll(x, d1, names, 0, cfg, replies);
      AgentRun(s.disk, s.events, if s.crashed then Crashed else Completed)
  }

  // ---------------------------------------------------------------------------
  // Properties
  // ---------------------------------------------------------------------------

  /** A task goes through exactly when its file and its Done/ namesake
      do not raise. */
  predicate Sound(d: Disk, n: string) {
    Task(n) !in d.faulty && Finished(n) !in d.faulty
  }

  /** The file operations of one task: they raise exactly when the output
      cannot be written; otherwise the task leaves Needs_Action/ and
      Done/<name> holds the task's text as it was, not the output (the
      move lands on the output just written). */
  lemma CommitOutcome(d: Disk, n: string, p: Prepared)
    requires Done in d.dirs && Task(n) in d.files && Task(n) !in d.faulty
    ensures var s := Commit(d, n, p);
      && s.disk.dirs == d.dirs && s.disk.faulty == d.faulty
      && (s.crashed <==> Finished(n) in d.faulty)
      && (!s.crashed ==> s.disk.files == (d.files - {Task(n)})[Finished(n) := d.files[Task(n)]] && s.events == p.Events())
      && SameExcept(d, s.disk, {Task(n), Finished(n)})
  {
  }

  /** One task: it raises exactly when it is not sound; otherwise the task
      leaves Needs_Action/, Done/<name> holds its ORIGINAL text, and the two
      entries prepared from that text are logged. */
  lemma ProcessOneOutcome(x: Texts, d: Disk, n: string, cfg: Config, reply: Reply)
    requires Done in d.dirs && Task(n) in d.files
    ensures var s := ProcessOne(x, d, n, cfg, reply);
      && s.disk.dirs == d.dirs && s.disk.faulty == d.faulty
      && (s.crashed <==> !Sound(d, n))
      && (!s.crashed ==>
            && s.disk.files == (d.files - {Task(n)})[Finished(n) := d.files[Task(n)]]
            && s.events == Prepare(x, n, d.files[Task(n)], cfg, reply).Events())
      && SameExcept(d, s.disk, {Task(n), Finished(n)})
  {
    if Task(n) !in d.faulty {
      CommitOutcome(d, n, Prepare(x, n, d.files[Task(n)], cfg, reply));
    }
  }

  /** The processed output does not survive: whenever it differs from the
      task's text, Done/<name> does not hold it. */
  lemma ProcessedOutputIsReplaced(x: Texts, d: Disk, n: string, cfg: Config, reply: Reply)
    requires Done in d.dirs && Task(n) in d.files && Sound(d, n)
    ensures var out := Prepare(x, n, d.files[Task(n)], cfg, reply).output;
      var s := ProcessOne(x, d, n, cfg, reply);
      out != d.files[Task(n)] ==> s.disk.files[Finished(n)] != out
  {
    ProcessOneOutcome(x, d, n, cfg, reply);
  }

  /** The log entries of a run without a crash, task by task: each is the
      run line and prompt entry prepared from the task's text. */
  function Expected(x: Texts, d: Disk, names: seq<string>, i: nat, cfg: Config, replies: nat -> Reply): seq<Event>
    requires forall k :: 0 <= k < |names| ==> Task(names[k]) in d.files
    decreases |names|
  {
    if names == [] then []
    else Prepare(x, names[0], d.files[Task(names[0])], cfg, replies(i)).Events() + Expected(x, d, names[1..], i + 1, cfg, replies)
  }

  /** Each task adds two entries: its run line, then its prompt entry, and
      with the agent's own texts the prompt entry is "fallback" exactly for
      a fallback summary. */
  lemma PreparedEvents(n: string, raw: string, cfg: Config, reply: Reply)
    ensures var e := Prepare(AgentTexts, n, raw, cfg, reply).Events();
      var s := Summarize(AgentTexts, cfg, reply);
      && |e| == 2
      && e[0] == TaskProcessed(n, StatusName(s.status))
      && e[1].PromptRecorded? && e[1].file == n && e[1].status == StatusName(s.status)
      && (e[1].prompt == "fallback" <==> s.status == Fallback)
  {
    PromptLogSaysFallback(Summarize(AgentTexts, cfg, reply).status, Strip(raw), cfg.maxChars);
  }

  ghost function Touched(names: seq<string>): set<Path> {
    (set n | n in names :: Task(n)) + (set n | n in names :: Finished(n))
  }

  ghost predicate AllPresent(d: Disk, names: seq<string>) {
    forall k :: 0 <= k < |names| ==> Task(names[k]) in d.files
  }

  lemma TouchedTail(names: seq<string>)
    requires names != []
    ensures Touched(names) == Touched(names[1..]) + {Task(names[0]), Finished(names[0])}
  {
    assert forall n :: n in names <==> n == names[0] || n in names[1..];
  }

  lemma ListingTail(d: Disk, d': Disk, names: seq<string>)
    requires names != [] && Distinct(names) && AllPresent(d, names)
    requires SameExcept(d, d', {Task(names[0]), Finished(names[0])})
    ensures Distinct(names[1..]) && names[0] !in names[1..] && AllPresent(d', names[1..]) && AllPresent(d, names[1..])
    ensures forall k :: 0 <= k < |names| - 1 ==> d'.files[Task(names[1..][k])] == d.files[Task(names[1..][k])]
  {
    assert forall k :: 0 <= k < |names| - 1 ==> names[1..][k] == names[k + 1];
  }

  /** The expected log depends only on the files the rest of the loop reads. */
  lemma {:induction false} ExpectedFrame(x: Texts, d: Disk, d': Disk, names: seq<string>, i: nat, cfg: Config, replies: nat -> Reply)
    requires AllPresent(d, names) && AllPresent(d', names)
    requires forall k :: 0 <= k < |names| ==> d'.files[Task(names[k])] == d.files[Task(names[k])]
    ensures Expected(x, d, names, i, cfg, replies) == Expected(x, d', names, i, cfg, replies)
    decreases |names|
  {
    if names != [] {
      assert forall k :: 0 <= k < |names| - 1 ==> names[1..][k] == names[k + 1];
      ExpectedFrame(x, d, d', names[1..], i + 1, cfg, replies);
    }
  }

  /** The loop touches only the tasks and their Done/ namesakes, and it
      raises exactly when some task is not sound. */
  lemma {:induction false} ProcessAllFrame(x: Texts, d: Disk, names: seq<string>, i: nat, cfg: Config, replies: nat -> Reply)
    requires Done in d.dirs && Distinct(names) && AllPresent(d, names)
    ensures var s := ProcessAll(x, d, names, i, cfg, replies);
      && SameExcept(d, s.disk, Touched(names))
      && s.disk.dirs == d.dirs
      && (s.crashed <==> exists k :: 0 <= k < |names| && !Sound(d, names[k]))
    decreases |names|
  {
    if names != [] {
      var s := ProcessOne(x, d, names[0], cfg, replies(i));
      ProcessOneOutcome(x, d, names[0], cfg, replies(i));
      TouchedTail(names);
      ListingTail(d, s.disk, names);
      if !s.crashed {
        ProcessAllFrame(x, s.disk, names[1..], i + 1, cfg, replies);
        assert forall k :: 0 <= k < |names| - 1 ==> names[1..][k] == names[k + 1];
        assert forall n :: Sound(s.disk, n) == Sound(d, n);
      }
    }
  }

  /** Without a crash the loop logs, task by task in listing order, the
      entries prepared from each task's text. */
  lemma {:induction false} ProcessAllLog(x: Texts, d: Disk, names: seq<string>, i: nat, cfg: Config, replies: nat -> Reply)
    requires Done in d.dirs && Distinct(names) && AllPresent(d, names)
    requires !ProcessAll(x, d, names, i, cfg, replies).crashed
    ensures ProcessAll(x, d, names, i, cfg, replies).events == Expected(x, d, names, i, cfg, replies)
    decreases |names|
  {
    if names != [] {
      var s := ProcessOne(x, d, names[0], cfg, replies(i));
      ProcessOneOutcome(x, d, names[0], cfg, replies(i));
      ListingTail(d, s.disk, names);
      ProcessAllLog(x, s.disk, names[1..], i + 1, cfg, replies);
      ExpectedFrame(x, d, s.disk, names[1..], i + 1, cfg, replies);
    }
  }

  /** A path outside the tasks and their Done/ namesakes comes out of the
      loop as it went in. */
  lemma UntouchedSurvives(x: Texts, d: Disk, names: seq<string>, i: nat, cfg: Config, replies: nat -> Reply, p: Path)
    requires Done in d.dirs && Distinct(names) && AllPresent(d, names) && p.name !in names
    ensures var s := ProcessAll(x, d, names, i, cfg, replies);
      && (p in s.disk.files <==> p in d.files)
      && (p in d.files ==> s.disk.files[p] == d.files[p])
  {
    ProcessAllFrame(x, d, names, i, cfg, replies);
    assert p !in Touched(names);
  }

  /** The loop on a list whose first task goes through is that task, then
      the loop on the rest. */
  lemma ProcessAllUnfold(x: Texts, d: Disk, names: seq<string>, i: nat, cfg: Config, replies: nat -> Reply)
    requires names != []
    ensures var s := ProcessOne(x, d, names[0], cfg, replies(i));
      var rest := ProcessAll(x, s.disk, names[1..], i + 1, cfg, replies);
      !s.crashed ==>
        ProcessAll(x, d, names, i, cfg, replies).disk == rest.disk
        && ProcessAll(x, d, names, i, cfg, replies).crashed == rest.crashed
  {
  }

  /** Without a crash every task has left Needs_Action/ and Done/<name>
      holds its original text. */
  lemma {:induction false} ProcessAllMovesEach(x: Texts, d: Disk, names: seq<string>, i: nat, cfg: Config, replies: nat -> Reply, k: nat)
    requires Done in d.dirs && Distinct(names) && AllPresent(d, names)
    requires k < |names| && !ProcessAll(x, d, names, i, cfg, replies).crashed
    ensures var s := ProcessAll(x, d, names, i, cfg, replies);
      && Task(names[k]) !in s.disk.files
      && Finished(names[k]) in s.disk.files && s.disk.files[Finished(names[k])] == d.files[Task(names[k])]
    decreases |names|
  {
    var s := ProcessOne(x, d, names[0], cfg, replies(i));
    ProcessOneOutcome(x, d, names[0], cfg, replies(i));
    ListingTail(d, s.disk, names);
    ProcessAllUnfold(x, d, names, i, cfg, replies);
    if k == 0 {
      UntouchedSurvives(x, s.disk, names[1..], i + 1, cfg, replies, Task(names[0]));
      UntouchedSurvives(x, s.disk, names[1..], i + 1, cfg, replies, Finished(names[0]));
    } else {
      assert names[k] == names[1..][k - 1];
      assert names[k] != names[0];
      ProcessAllMovesEach(x, s.disk, names[1..], i + 1, cfg, replies, k - 1);
    }
  }

  lemma ListingOk(d: Disk)
    ensures var names := McpServer.ListTasks(d, NeedsAction);
      Distinct(names) && AllPresent(d, names)
  {
    var names := McpServer.ListTasks(d, NeedsAction);
    forall i, j | 0 <= i < j < |names| ensures names[i] != names[j] {
      SortedDistinct(names, i, j);
    }
    assert forall k :: 0 <= k < |names| ==> names[k] in names;
  }

  /** An empty Needs_Action/ moves nothing and logs "No tasks found". */
  lemma NoTasksMovesNothing(x: Texts, d: Disk, cfg: Config, replies: nat -> Reply)
    requires forall p :: p in d.files && p.dir == NeedsAction ==> !EndsWith(p.name, MdSuffix) || p.name == GitKeep
    ensures RunAgent(x, d, cfg, replies) == AgentRun(MakeDir(MakeDir(d, NeedsAction), Done), [NoTasksFound], NoTasks)
  {
    var d1 := MakeDir(MakeDir(d, NeedsAction), Done);
    ListingOk(d1);
    assert forall n :: n !in McpServer.ListTasks(d1, NeedsAction);
  }

  /** A run over a non-empty listing is the loop over it. */
  lemma RunAgentIs(x: Texts, d: Disk, cfg: Config, replies: nat -> Reply)
    ensures var d1 := MakeDir(MakeDir(d, NeedsAction), Done);
      var names := McpServer.ListTasks(d1, NeedsAction);
      var s := ProcessAll(x, d1, names, 0, cfg, replies);
      names != [] ==> RunAgent(x, d, cfg, replies) == AgentRun(s.disk, s.events, if s.crashed then Crashed else Completed)
  {
  }

  /** A whole run: only the listed tasks, taken in ascending name order,
      and their Done/ namesakes change; over a non-empty listing it
      completes exactly when every task is sound. */
  lemma RunAgentOutcome(x: Texts, d: Disk, cfg: Config, replies: nat -> Reply)
    ensures var r := RunAgent(x, d, cfg, replies);
      var d1 := MakeDir(MakeDir(d, NeedsAction), Done);
      var names := McpServer.ListTasks(d1, NeedsAction);
      && StrictlySorted(names)
      && SameExcept(d1, r.disk, Touched(names))
      && (names != [] ==> (r.exit == Completed <==> forall n :: n in names ==> Sound(d, n)))
  {
    var d1 := MakeDir(MakeDir(d, NeedsAction), Done);
    var names := McpServer.ListTasks(d1, NeedsAction);
    ListingOk(d1);
    RunAgentIs(x, d, cfg, replies);
    ProcessAllFrame(x, d1, names, 0, cfg, replies);
    AllSound(d, d1, names);
  }

  lemma AllSound(d: Disk, d1: Disk, names: seq<string>)
    requires d1.faulty == d.faulty
    ensures (exists k :: 0 <= k < |names| && !Sound(d1, names[k])) <==> !(forall n :: n in names ==> Sound(d, n))
  {
    if exists n :: n in names && !Sound(d, n) {
      var n :| n in names && !Sound(d, n);
      var k :| 0 <= k < |names| && names[k] == n;
      assert !Sound(d1, names[k]);
    } else {
      forall k | 0 <= k < |names|
        ensures Sound(d1, names[k])
      {
        assert names[k] in names;
      }
    }
  }

  /** A completed run logs the tasks' entries in ascending name order. */
  lemma RunAgentLog(x: Texts, d: Disk, cfg: Config, replies: nat -> Reply)
    requires RunAgent(x, d, cfg, replies).exit == Completed
    ensures var d1 := MakeDir(MakeDir(d, NeedsAction), Done);
      var names := McpServer.ListTasks(d1, NeedsAction);
      RunAgent(x, d, cfg, replies).events == Expected(x, d1, names, 0, cfg, replies)
  {
    var d1 := MakeDir(MakeDir(d, NeedsAction), Done);
    var names := McpServer.ListTasks(d1, NeedsAction);
    ListingOk(d1);
    RunAgentIs(x, d, cfg, replies);
    ProcessAllLog(x, d1, names, 0, cfg, replies);
  }

  /** After a completed run every listed task has left Needs_Action/ and
      Done/<name> holds the task's original text. */
  lemma RunAgentMovesEach(x: Texts, d: Disk, cfg: Config, replies: nat -> Reply, n: string)
    requires RunAgent(x, d, cfg, replies).exit == Completed
    requires n in McpServer.ListTasks(MakeDir(MakeDir(d, NeedsAction), Done), NeedsAction)
    ensures var r := RunAgent(x, d, cfg, replies).disk;
      Task(n) !in r.files && Finished(n) in r.files && r.files[Finished(n)] == d.files[Task(n)]
  {
    var d1 := MakeDir(MakeDir(d, NeedsAction), Done);
    var names := McpServer.ListTasks(d1, NeedsAction);
    ListingOk(d1);
    RunAgentIs(x, d, cfg, replies);
    var k :| 0 <= k < |names| && names[k] == n;
    ProcessAllMovesEach(x, d1, names, 0, cfg, replies, k);
  }

  // ---------------------------------------------------------------------------
  // The script
  // ---------------------------------------------------------------------------

  method CommitTask(v: Vault, n: string, p: Prepared) returns (crashed: bool)
    requires v.Valid()
    modifies v`disk, v`log
    ensures var s := Commit(old(v.disk), n, p);
      v.Valid() && v.disk == s.disk && v.log == old(v.log) + s.events && crashed == s.crashed
  {
    var ok := v.WriteTextRaw(Finished(n), p.output);
    if !ok {
      return true;
    }
    var _ := McpServer.MoveTask(v, Task(n), Finished(n));
    v.Record(p.runLine);
    v.Record(p.promptEntry);
    crashed := false;
  }

  method ProcessTask(x: Texts, v: Vault, n: string, cfg: Config, reply: Reply) returns (crashed: bool)
    requires v.Valid()
    modifies v`disk, v`log
    ensures var s := ProcessOne(x, old(v.disk), n, cfg, reply);
      v.Valid() && v.disk == s.disk && v.log == old(v.log) + s.events && crashed == s.crashed
  {
    var raw := ReadText(v.disk, Task(n));
    if raw.None? {
      return true;
    }
    var original := Strip(raw.value);
    var prompt := BuildPrompt(x, original, cfg.maxChars);
    var s := Summarize(x, cfg, reply);
    var p := Prepared(Output(x, original, s.text), TaskProcessed(n, StatusName(s.status)),
                      PromptRecorded(n, StatusName(s.status), PromptLog(s.status, prompt)));
    crashed := CommitTask(v, n, p);
  }

  lemma ProcessStep(x: Texts, d: Disk, names: seq<string>, i: nat, cfg: Config, replies: nat -> Reply, log: seq<Event>)
    requires i < |names|
    ensures var s := ProcessOne(x, d, names[i], cfg, replies(i));
      var here := ProcessAll(x, d, names[i..], i, cfg, replies);
      if s.crashed then here == s
      else
        var rest := ProcessAll(x, s.disk, names[i + 1..], i + 1, cfg, replies);
        && rest.disk == here.disk && rest.crashed == here.crashed
        && (log + s.events) + rest.events == log + here.events
  {
    assert names[i..][1..] == names[i + 1..];
    var s := ProcessOne(x, d, names[i], cfg, replies(i));
    if !s.crashed {
      LogAssoc(log, s.events, ProcessAll(x, s.disk, names[i + 1..], i + 1, cfg, replies).events);
    }
  }

  method ProcessEach(x: Texts, v: Vault, names: seq<string>, cfg: Config, replies: nat -> Reply) returns (crashed: bool)
    requires v.Valid()
    modifies v`disk, v`log
    ensures v.Valid()
    ensures var s := ProcessAll(x, old(v.disk), names, 0, cfg, replies);
      v.disk == s.disk && v.log == old(v.log) + s.events && crashed == s.crashed
  {
    ghost var d0, log0 := v.disk, v.log;
    var i := 0;
    while i < |names|
      invariant 0 <= i <= |names|
      invariant v.Valid()
      invariant var rest := ProcessAll(x, v.disk, names[i..], i, cfg, replies);
        var all := ProcessAll(x, d0, names, 0, cfg, replies);
        rest.disk == all.disk && v.log + rest.events == log0 + all.events && rest.crashed == all.crashed
    {
      ProcessStep(x, v.disk, names, i, cfg, replies, v.log);
      crashed := ProcessTask(x, v, names[i], cfg, replies(i));
      if crashed {
        return;
      }
      i := i + 1;
    }
    crashed := false;
  }

  /** main(); the script itself runs it with x == AgentTexts. */
  method Run(x: Texts, v: Vault, cfg: Config, replies: nat -> Reply) returns (exit: Exit)
    requires v.Valid()
    modifies v`disk, v`log
    ensures v.Valid()
    ensures var r := RunAgent(x, old(v.disk), cfg, replies);
      v.disk == r.disk && v.log == old(v.log) + r.events && exit == r.exit
  {
    v.MakeFolder(NeedsAction);
    v.MakeFolder(Done);
    var names := McpServer.ListTasks(v.disk, NeedsAction);
    if names == [] {
      v.Record(NoTasksFound);
      return NoTasks;
    }
    var crashed := ProcessEach(x, v, names, cfg, replies);
    exit := if crashed then Crashed else Completed;
  }
}
