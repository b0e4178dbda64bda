# A verified model of the AI Employee vault pipeline

The system is a folder-based work queue with a human approval gate. Tasks are
Markdown files that move through the stage folders of one vault:

    Inbox/ → Needs_Action/ → Pending_Approval/ → Approved/ → Done/

- Watchers create tasks:
  - `watcher_inbox.py` moves `Inbox/*.md` into `Needs_Action/`;
  - `watcher_manual.py`, `whatsapp_watcher.py` and `linkedin_watcher.py` turn the `---`-separated blocks of a text file into task files;
  - `gmail_watcher.py` turns unread mail from allowed domains into `Inbox/` tasks.
- Processors finish tasks:
  - `processor.py` and `agent.py` rewrite or summarise each task and move it to `Done/`;
  - `agent_queue.py` writes a prompt file for the first task.
- `approve.py` is the only code that moves a file from `Pending_Approval/` to `Approved/`. It is run by a human.
- `post_approved.py` publishes the `linkedin_draft_*.md` files of `Approved/` through `mcp_linkedin_ops.create_post`:
  - an idempotency ledger of 12-hex task hashes (`Logs/posted_ids.json`) prevents a second post of a task whose draft carries a `**Task Hash:**` marker (a draft without one has hash "" and is posted on every run);
  - only a posted draft moves on to `Done/`.
- `mcp_file_ops.py` and `mcp_server.py` give the store's list/read/write/append/move/copy tools.
- `mcp_calendar_ops.py` keeps a simulated, append-only calendar.

## How the model is built

- The file system is a value `FileOps.Disk`. It has four parts:
  - the files, a map from (folder, name) to text;
  - the folders that exist;
  - the set of `faulty` paths, where the operating system raises;
  - the set of `pinned` paths, where only `Path.unlink()` raises.
- The class `FileOps.Vault` holds the current disk, the audit log (`Audit.Event`s, one per line a script appends to `run_log.md`), the posted-hash ledger and the calendar store. The scripts' methods change it in place.
- Each script is modelled twice:
  - a specification function over values (`RunAgent`, `RunGmail`, `PostApprovedRun`, …), about which the properties are proved as lemmas;
  - an imperative method (`Run`) whose loop is proved to end in exactly the state that function describes.
- An exception that the script does not catch becomes the exit `Crashed`, which stops the run with the state reached so far.
- Outside inputs are parameters:
  - clock values (slugs and time stamps);
  - environment settings;
  - the LinkedIn HTTP reply, the OpenAI reply;
  - the Gmail mailbox.
- Directory listings are read as sets. Where a script sorts, the model sorts with `Strings.SortedSet`. Where it does not (`processor.py`'s `os.listdir`), the order is any sequence without repeats.

The model follows the code as written, in particular:
- A draft whose hash is already in the ledger stays in `Approved/`; it is not moved, because only a published draft changes the disk. See `PostApproved.Attempt` and `PostApproved.NewDisk`.
- In `agent.py`, `move_task` at line 114 lands on the output written at line 111. So `Done/<name>` holds the task's original text and the processed output is lost. See `Agent.ProcessOneOutcome` and `Agent.ProcessedOutputIsReplaced`.

## Model

| member | source | states |
|---|---|---|
| Strings.Strip | watcher_manual.py:42 | strip() leaves a text that neither starts nor ends with whitespace, and is empty exactly for a blank text |
| Strings.StripIsSlice | watcher_manual.py:47 | strip() returns a slice of its argument |
| Strings.StripAround | post_approved.py:105 | strip() of a stripped text padded with whitespace on both sides is the text |
| Strings.StripOfStripped | post_approved.py:112 | strip() is idempotent on stripped text |
| Strings.Split | watcher_manual.py:47 | split(sep) yields at least one piece, no piece contains the separator, every cut is at the leftmost occurrence after the previous cut (no occurrence runs from a piece into the separator after it), and joining the pieces with it gives the text back |
| Strings.SplitUnique | watcher_manual.py:47 | those four properties determine the pieces: any list with them is Split's result |
| Strings.SplitLeftmostExample | watcher_manual.py:47 | "a----b".split("---") is ["a", "-b"], not ["a-", "b"] |
| Strings.SplitLines | post_approved.py:111 | splitlines() yields lines without line breaks, at least one for a non-empty text; their contents are fixed by Strings.JoinSplitLines beside it |
| Strings.Lower | gmail_watcher.py:77 | lower() keeps the length, turns each ASCII capital into its small letter (32 code points up), keeps every other character, and leaves no ASCII capital |
| Strings.LowerIdempotent | gmail_watcher.py:77 | lowering twice is lowering once |
| Strings.LowerConcat | gmail_watcher.py:77 | lowering a concatenation lowers each part |
| Strings.NatToString | watcher_manual.py:54 | str(n) is a non-empty string of decimal digits |
| Strings.ParseNatToString | mcp_linkedin_ops.py:159 | reading back a rendered number gives the number |
| Strings.NatToStringInjective | watcher_manual.py:54 | distinct numbers render differently |
| Strings.LessTotal | mcp_file_ops.py:32 | string order is total on distinct strings |
| Strings.LessTransitive | mcp_file_ops.py:32 | string order is transitive |
| Strings.SortedSet | mcp_file_ops.py:32 | sorted() of a set of names is strictly ascending and holds exactly the set's names, each once |
| FileOps.FolderNames | mcp_file_ops.py:32 | a name is in the set exactly when a file of that name is in the folder, matches the glob and is not ".gitkeep" |
| FileOps.ListFiles | mcp_file_ops.py:27-32 | the listing is strictly sorted, holds exactly the matching names other than ".gitkeep", and is empty when the folder does not exist |
| FileOps.ListTasks | mcp_file_ops.py:113-115 | the alias lists exactly the sorted "*.md" names of the folder |
| FileOps.ReadFile | mcp_file_ops.py:35-40 | a readable file reads as its contents; a missing file, or one whose read raises, reads as "" |
| FileOps.WriteFileResult | mcp_file_ops.py:43-51 | write_file succeeds exactly when the path does not raise; it always creates the parent folder; on success the file holds the content; no other file changes |
| FileOps.AppendFileResult | mcp_file_ops.py:54-63 | append_file succeeds exactly when the path does not raise; the file then holds its old contents (or "") followed by the content; no other file changes |
| FileOps.MoveFileResult | mcp_file_ops.py:66-76 | move_file succeeds exactly when the source exists and neither path raises; a missing source changes nothing (not even the folders); on success the destination holds the source's contents and the source is gone; nothing else changes |
| FileOps.CopyFileResult | mcp_file_ops.py:79-89 | copy_file succeeds exactly when the source exists, neither path raises and the destination is not the source itself (shutil.copy2 raises SameFileError there); on success both paths hold the source's contents; only the destination changes |
| FileOps.MoveTaskResult | mcp_file_ops.py:118-120 | the alias succeeds exactly when move_file does and then moves the contents to the destination |
| FileOps.ReadAfterWrite | mcp_file_ops.py:35-51 | read_file after a write_file that did not raise gives back the written text |
| FileOps.ReadAfterAppend | mcp_file_ops.py:35-63 | read_file after append_file gives the old contents followed by the appended text |
| FileOps.HelpersKeepValid | mcp_file_ops.py:43-89 | none of the four writing helpers leaves a file outside an existing folder |
| FileOps.Vault.constructor | mcp_file_ops.py:27-120 | the vault starts on the given disk and JSON stores with an empty log |
| FileOps.Vault.Record | mcp_file_ops.py:96-106 | logging an event appends exactly that event to the log |
| FileOps.Vault.MakeFolder | mcp_file_ops.py:47 | mkdir(parents=True, exist_ok=True) adds the folder and keeps the store valid |
| FileOps.Vault.WriteTextRaw | mcp_file_ops.py:48 | the in-place write leaves the disk and result that WriteText specifies |
| FileOps.Vault.ShutilMoveRaw | mcp_file_ops.py:73 | the in-place shutil.move leaves the disk and result that ShutilMove specifies |
| FileOps.Vault.UnlinkRaw | watcher_inbox.py:45 | the in-place unlink leaves the disk and result that Unlink specifies |
| FileOps.Vault.WriteFile | mcp_file_ops.py:43-51 | the in-place write_file ends in the state and result of WriteFileResult |
| FileOps.Vault.AppendFile | mcp_file_ops.py:54-63 | the in-place append_file ends in the state and result of AppendFileResult |
| FileOps.Vault.MoveFile | mcp_file_ops.py:66-76 | the in-place move_file ends in the state and result of MoveFileResult |
| FileOps.Vault.CopyFile | mcp_file_ops.py:79-89 | the in-place copy_file ends in the state and result of CopyFileResult |
| FileOps.Vault.MoveTask | mcp_file_ops.py:118-120 | the in-place move_task ends in the state and result of MoveTaskResult |
| McpServer.ListTasks | mcp_server.py:17-24 | the listing is strictly sorted, holds exactly the "*.md" names of the folder other than ".gitkeep", and is empty when the folder does not exist |
| McpServer.ListTasksAgrees | mcp_server.py:17-24 | the server's list_tasks and the file-ops alias give the same listing on every disk |
| McpServer.MoveTask | mcp_server.py:27-37 | the move succeeds exactly when the source exists and neither path raises, and ends in the state move_file specifies |
| WatcherInbox.Movable | watcher_inbox.py:41-49 | a name is moved exactly when it is listed, neither its Inbox path nor its Needs_Action path raises, and its Inbox file can be unlinked |
| WatcherInbox.MovedEvents | watcher_inbox.py:46 | one "moved" log line per moved name, in loop order |
| WatcherInbox.MoveOneOutcome | watcher_inbox.py:42-49 | one file's move succeeds exactly when its two paths do not raise and the unlink does not either; on success the destination holds the source's bytes (replacing any file there) and the source is gone; when only the unlink raises the destination holds the bytes and the source stays, so the file is in both folders and nothing is logged; when the read or write raises nothing changes |
| WatcherInbox.MoveAllOutcome | watcher_inbox.py:41-49 | the loop touches only the listed names' two paths, keeps the folders, and logs exactly the movable names in order |
| WatcherInbox.MoveAllMovesEach | watcher_inbox.py:41-49 | each listed file ends moved with its bytes when its paths are sound, copied with its source kept when only the unlink raises, and untouched at both paths otherwise |
| WatcherInbox.ListingIsDistinct | watcher_inbox.py:34-35 | the sorted listing has no repeats and names only files present in Inbox |
| WatcherInbox.EmptyInboxChangesNothing | watcher_inbox.py:31-39 | without "*.md" files in Inbox the run only creates the two folders, logs nothing and takes the "no files" exit |
| WatcherInbox.RunInboxOutcome | watcher_inbox.py:28-51 | over a whole run only listed names' paths change; each listed file is moved with its bytes exactly when its paths are sound and its unlink succeeds, is copied to Needs_Action while staying in Inbox when only the unlink raises, and stays in Inbox otherwise; the log names the moved files in sorted order |
| WatcherInbox.OnlyMarkdownMoves | watcher_inbox.py:34-35 | a file outside Inbox and Needs_Action, or not ending in ".md", is never touched |
| WatcherInbox.MoveStep | watcher_inbox.py:41-49 | one turn of the loop followed by the rest of the loop is the loop from that turn on |
| WatcherInbox.MoveFileOnce | watcher_inbox.py:43-45 | the try block (read, write, unlink) ends in the state and result of MoveOne |
| WatcherInbox.MoveAndLog | watcher_inbox.py:43-49 | the try block logs the move exactly when it succeeded |
| WatcherInbox.MoveEach | watcher_inbox.py:41-49 | the in-place loop ends in the disk and log of MoveAll |
| WatcherInbox.Run | watcher_inbox.py:28-51 | main() ends in the disk, log and exit of RunInbox |
| Processor.SummaryEmbedsContent | processor.py:39-52 | the rewritten file starts with the template head, ends with its tail, and holds exactly the original text between them |
| Processor.SummaryInjective | processor.py:39-52 | different original texts give different rewritten files |
| Processor.MdNames | processor.py:32-33 | the names the loop processes are exactly the listed entries ending in ".md" |
| Processor.SkillEvents | processor.py:58 | one "skill executed" log line per processed name, in loop order |
| Processor.ProcessOneOutcome | processor.py:32-58 | a non-".md" entry is skipped unchanged; a ".md" entry raises exactly when its file, Done/ or its destination is unusable; on success the template around the original text is in Done/ under the same name, the file is gone from Needs_Action/, and one line is logged |
| Processor.ProcessAllOutcome | processor.py:32-60 | the loop touches only ".md" entries and their namesakes in Done/; it raises exactly when some ".md" entry is unusable; without a crash it logs one line per ".md" entry in listing order |
| Processor.ProcessAllMovesEach | processor.py:32-58 | in a run without a crash every ".md" entry ends in Done/ holding the template around its original text, and is gone from Needs_Action/ |
| Processor.ListingPresent | processor.py:27 | every entry os.listdir returns names a file of Needs_Action/ |
| Processor.RunProcessorOutcome | processor.py:26-62 | only ".md" entries and their namesakes change; the run completes exactly when Needs_Action/ exists, is not empty and every ".md" entry is usable, and then logs one line per task |
| Processor.RunProcessorMovesEach | processor.py:32-58 | after a completed run each ".md" task is in Done/ with the template around its text and no longer in Needs_Action/ |
| Processor.EmptyListingChangesNothing | processor.py:29-30 | an empty Needs_Action/ changes nothing, logs nothing and ends with "no tasks" |
| Processor.ProcessEntry | processor.py:33-58 | one turn of the loop, as statements, ends in the state ProcessOne specifies |
| Processor.ProcessStep | processor.py:32-60 | one turn followed by the rest of the loop is the loop from that turn on, and a crash ends it |
| Processor.ProcessEach | processor.py:32-60 | the in-place loop ends in the disk, log and crash flag of ProcessAll |
| Processor.Run | processor.py:26-62 | the script ends in the disk, log and exit of RunProcessor |
| TaskBlocks.NonEmptyStripped | watcher_manual.py:47 | the comprehension keeps at most as many pieces as it is given, each non-empty and stripped |
| TaskBlocks.NonEmptyStrippedNoSeparator | watcher_manual.py:47 | stripping and dropping pieces never creates a "---" |
| TaskBlocks.Blocks | watcher_manual.py:47 | every task block is non-empty, stripped and free of "---" |
| TaskBlocks.BlocksOfEmpty | watcher_manual.py:47 | an empty text has no task blocks |
| TaskBlocks.BlocksOfJoined | watcher_manual.py:47 | well-formed blocks written one after another with "---" lines between them are read back exactly, in order |
| TaskBlocks.PiecesOfJoined | watcher_manual.py:47 | the induction behind the round trip: each piece after the first keeps the newline before its "---" and strips back to its block |
| TaskBlocks.SplitAtSeparatorLine | watcher_manual.py:47 | the first "---" of a text followed by a separator line is the one of that line |
| TaskBlocks.BlockFileName | watcher_manual.py:54 | every block file name ends in ".md" |
| TaskBlocks.BlockNumberInName | watcher_manual.py:54 | the block number sits between the time slug and the ".md" extension |
| TaskBlocks.BlockFileNamesDistinct | watcher_manual.py:53-55 | two blocks with different numbers get different file names whenever the slugs have the same width |
| WatcherManual.WriteBlocksOutcome | watcher_manual.py:53-58 | the loop touches only its blocks' files, raises exactly when one of them is faulty, and otherwise logs one line per block |
| WatcherManual.WriteBlocksStoresEach | watcher_manual.py:53-56 | without a crash block k is stored as Needs_Action/manual_<slug>_<k>.md holding the block and a newline |
| WatcherManual.NothingWithoutInput | watcher_manual.py:36-45 | a missing or blank manual_input.txt writes nothing, logs nothing, leaves the input alone and takes the matching early exit |
| WatcherManual.ClearedOnlyAfterAllBlocks | watcher_manual.py:42-62 | the input is emptied exactly when it has blocks and every block file was written, and then the block count and log length equal the number of blocks; otherwise the input keeps its text |
| WatcherManual.FinishOutcome | watcher_manual.py:53-62 | writing the blocks and clearing empties the input exactly when no block path is faulty |
| WatcherManual.ClearedRunStoresBlocks | watcher_manual.py:47-61 | in a run that emptied its input each block of the input is in Needs_Action/ under its number |
| WatcherManual.IngestCleared | watcher_manual.py:43-51 | a run that emptied its input had a non-blank text with blocks |
| WatcherManual.ClearedIs | watcher_manual.py:53-61 | an emptied run is the block writes followed by writing "" to the input |
| WatcherManual.WriteEach | watcher_manual.py:53-58 | the in-place loop ends in the disk, log and crash flag of WriteBlocks |
| WatcherManual.WriteStep | watcher_manual.py:53-58 | one block's write followed by the rest of the loop is the loop from that block on |
| WatcherManual.Run | watcher_manual.py:33-64 | main() ends in the disk, log and exit of RunManual |
| ChannelWatcher.Tasks | whatsapp_watcher.py:82-90 | one task file per block, numbered from 1, each Needs_Action/<prefix>_<slug>_<i>.md holding the channel header, the block and a newline (linkedin_watcher.py:82-90 is the same code with its own prefix and header) |
| ChannelWatcher.TasksDistinct | whatsapp_watcher.py:82-85 | the task files of one run have distinct paths, all in Needs_Action/ |
| ChannelWatcher.TasksTail | whatsapp_watcher.py:83 | dropping the first task file keeps the remaining paths distinct and leaves out the first one |
| ChannelWatcher.SoundCount | whatsapp_watcher.py:83-96 | the number of task files whose path does not raise: at most the number of files, and all of them exactly when no path is faulty |
| ChannelWatcher.WriteTasksOutcome | whatsapp_watcher.py:83-96 | the loop touches only its task files, never raises, logs one entry per successful write, and its `ingested` count is exactly the number of task paths that do not raise (SoundCount) |
| ChannelWatcher.WriteTasksStoresEach | whatsapp_watcher.py:86-96 | a task file whose path is sound is stored with its text; a faulty one is left as it was |
| ChannelWatcher.StoresEachBlock | whatsapp_watcher.py:81-96 | block k of a run is stored under number k + 1 with the channel header when its path is sound, and is left as it was otherwise |
| ChannelWatcher.SkipWithoutInput | whatsapp_watcher.py:59-73 | a missing or blank input writes nothing but the two folders and logs one skip with the reason "no_input_file" or "empty_file" |
| ChannelWatcher.ClearedAfterLoop | whatsapp_watcher.py:75-103 | with blocks the input is emptied after the loop and the exit's count is the number of block files whose path does not raise (SoundCount); without blocks nothing is written and the input keeps its text |
| ChannelWatcher.ClearOutcome | whatsapp_watcher.py:81-106 | after the loop and the guarded clear the input holds "", and the count in the exit and in the closing "done" entry is the number of block files whose path does not raise (SoundCount) |
| ChannelWatcher.WriteStep | whatsapp_watcher.py:83-96 | one file's write followed by the rest of the loop is the loop from that file on, count and log included |
| ChannelWatcher.WriteEach | whatsapp_watcher.py:81-96 | the in-place loop ends in the disk, log and count of WriteTasks |
| ChannelWatcher.Run | whatsapp_watcher.py:56-107 | main() ends in the disk, log and exit of RunChannel |
| ChannelWatcher.Ingest | whatsapp_watcher.py:68-79 | the part after reading ends in the state of IngestText |
| ChannelWatcher.Finish | whatsapp_watcher.py:81-107 | the loop, the guarded clear and the closing entry end in the state of WriteAndClear |
| Approve.ApproveFileResult | approve.py:43-62 | approve_file succeeds exactly when Pending_Approval/name exists and neither it nor Approved/name raises; a missing file changes nothing; on success the file is in Approved/ with its pending contents and gone from Pending_Approval/ |
| Approve.ApproveFileFrame | approve.py:43-62 | approve_file touches no file but Pending_Approval/name and Approved/name, and none at all when it fails |
| Approve.ApproveFile | approve.py:43-62 | the in-place approve_file ends in the state of ApproveFileResult and logs nothing for a missing file, an approval on success and a failure otherwise |
| Approve.ApproveBatch | approve.py:96-100 | the --all loop counts at most one approval per snapshot name |
| Approve.BatchTouchesOnlySnapshot | approve.py:70-100 | --all touches only the two gate paths of the names in the snapshot taken before the loop; Done/ and every other folder stay as they were |
| Approve.EmptyBatch | approve.py:93-95 | an empty snapshot approves nothing and changes nothing |
| Approve.Approvable | approve.py:96-99 | the snapshot names whose Pending_Approval/ and Approved/ paths do not raise, no more than the snapshot |
| Approve.BatchCountsApprovals | approve.py:92-100 | for a snapshot of distinct pending names, approved_count is exactly the number of approvable names, that is of approve_file calls that return True |
| Approve.BatchMovesEachName | approve.py:96-99 | each snapshot name whose two paths are sound ends in Approved/ with its pending contents and leaves Pending_Approval/; the others stay pending with their contents |
| Approve.BatchMovesHead | approve.py:97-99 | the rest of the batch leaves the first name's two paths alone, so the first name ends as its own approval left it |
| Approve.NoApprovalWithoutSnapshot | approve.py:70-99 | a file that appears or changes in Approved/ during --all is one of the snapshot's names: nothing reaches Approved/ without being listed as pending |
| Approve.ParseCommand | approve.py:72-102 | no argument means list mode; "--all" approves the snapshot; any other first argument names the one file to approve |
| Approve.ListingEntries | approve.py:78-80 | list mode shows every pending name in order, tagged [LINKEDIN] exactly when it starts with "linkedin_draft_" |
| Approve.BatchStep | approve.py:97-99 | one approval followed by the rest of the loop is the whole loop, count and log included |
| Approve.ApproveEach | approve.py:96-100 | the in-place --all loop ends in the disk, log and count of ApproveBatch |
| Approve.Run | approve.py:65-102 | main() creates the three folders and then lists, approves the whole snapshot or approves one name, ending in the matching specified state and report; list mode and an empty --all change nothing further |
| LinkedInOps.SimulatedFlag | mcp_linkedin_ops.py:95 | an unset LINKEDIN_SIMULATED counts as "true" |
| LinkedInOps.Prefix | mcp_linkedin_ops.py:149 | text[:n] is a prefix of the text of length at most n, and the whole text when it is that short |
| LinkedInOps.CreatePostResult | mcp_linkedin_ops.py:86-165 | without both credentials or with the flag on the result is "simulated_mode" or "not_configured"; a live call without requests is "requests_not_installed"; it is posted exactly when a live call gets status 200 or 201, with the x-restli-id header or "unknown" as post id; another status gives "api_error_<status>" and an exception gives its message |
| LinkedInOps.CreatePostEvents | mcp_linkedin_ops.py:100-165 | simulated mode logs one simulated attempt; a missing requests library logs one error; a live call logs the live attempt followed by the entry for the answer |
| LinkedInOps.ApiErrorBodyBounded | mcp_linkedin_ops.py:148-156 | an API error is logged with at most the first 300 characters of the response body, and the whole body when it is that short |
| LinkedInOps.ReplyBodyBounded | mcp_linkedin_ops.py:148-156 | the entry for the POST's answer keeps at most 300 characters of the body, a prefix of it |
| LinkedInOps.CreatePost | mcp_linkedin_ops.py:86-165 | create_post never raises, returns the result of the decision table and appends exactly its log entries |
| LinkedInOps.SendPost | mcp_linkedin_ops.py:141-165 | the POST and its classification return ReplyResult and log the matching entry |
| LinkedInOps.KeptReasonsMeanSimulated | mcp_linkedin_ops.py:101-161 | when the live call got a response, the reason is "simulated_mode" or "not_configured" exactly when the simulated branch was taken |
| LinkedInOps.NoCredentialsNoPost | mcp_linkedin_ops.py:101-108 | without both credentials nothing is posted, whatever the flag and the network say |
| LinkedInOps.DefaultIsSimulated | mcp_linkedin_ops.py:95-108 | with LINKEDIN_SIMULATED unset every call is simulated |
| LinkedInOps.FlagIgnoresPadding | mcp_linkedin_ops.py:95 | whitespace around the flag does not matter and only its lower-case form is compared with "true", "1" and "yes" |
| DraftText.HashAt | post_approved.py:93 | a match attempted at a marker occurrence yields twelve lower-case hexadecimal digits, if anything |
| DraftText.ExtractHashFrom | post_approved.py:91-96 | the scan returns "" or a twelve-digit lower-case hexadecimal hash |
| DraftText.ExtractHashFromIsLeftmost | post_approved.py:93-96 | the scan from k returns "" exactly when no match starts at or after k, and otherwise the hash of the leftmost such match |
| DraftText.ExtractHash | post_approved.py:91-96 | _extract_hash_from_file returns "" or a twelve-digit lower-case hexadecimal hash |
| DraftText.ExtractHashIsLeftmostMatch | post_approved.py:93-96 | the hash is "" exactly when the regex matches nowhere, and otherwise the group of the leftmost match, as re.search finds it |
| DraftText.HashRoundTrip | post_approved.py:93 | a hash written right after "**Task Hash:**", with any whitespace between, is read back exactly |
| DraftText.NoMarkerNoHash | post_approved.py:93-96 | a draft without the "**Task Hash:**" marker has hash "" |
| DraftText.KeepLines | post_approved.py:111 | the kept lines are lines of the section, none starting with "*To ", and all lines are kept when none starts with it |
| DraftText.CleanLines | post_approved.py:111-112 | the cleaned section is stripped |
| DraftText.ExtractPostText | post_approved.py:99-112 | the post text is always stripped |
| DraftText.UnmarkedDraftIsStripped | post_approved.py:102-104 | without "## Generated Post Text" the whole draft, stripped, is the post text |
| DraftText.PostTextRoundTrip | post_approved.py:99-112 | a stripped, non-empty post text with "\n" line breaks, no "\n---" and no "*To " line, written under the marker after a header without it and closed by "\n---", is read back exactly |
| DraftText.SectionStripped | post_approved.py:105 | stripping the text after the marker removes the blank lines above the post and the trailing space of the footer only |
| DraftText.SectionCut | post_approved.py:107-109 | the section ends at the first "\n---" after the post |
| DraftText.CleanOfPlainText | post_approved.py:111-112 | cleaning a text that has no instruction line and only "\n" breaks gives it back unchanged |
| DraftText.KeepPlainLines | post_approved.py:111 | splitting such a text yields no instruction line to drop |
| DraftText.MarkerFoundAfterHeader | post_approved.py:102 | the marker is first found right after a header that does not contain it |
| DraftText.BreakFoundAfterText | post_approved.py:107 | the "\n---" closing a post that does not contain it is the first one |
| Strings.JoinSplitLines | post_approved.py:111-112 | splitlines followed by "\n".join gives back a text whose only breaks are "\n" and that does not end with one |
| PostApproved.LoadPostedIds | post_approved.py:68-76 | a missing or unloadable posted_ids.json gives the empty set; otherwise a hash is loaded exactly when it is in the stored list |
| PostApproved.SavePostedIds | post_approved.py:79-88 | the set is saved as a strictly sorted list with one entry per hash |
| PostApproved.LedgerRoundTrip | post_approved.py:68-88 | loading what was saved gives back exactly the saved set |
| PostApproved.BlockEvents | post_approved.py:130-140 | one blocked_without_approval entry per pending draft |
| PostApproved.BlockEventsAt | post_approved.py:130-140 | entry k names pending draft k |
| PostApproved.CheckPendingBlocks | post_approved.py:119-147 | the check only creates Pending_Approval/, logs one block per linkedin_draft_*.md waiting there, and returns their number |
| PostApproved.LogBlocks | post_approved.py:130-140 | the in-place loop appends exactly BlockEvents of the pending names |
| PostApproved.BlockedCountIsPendingDrafts | post_approved.py:125-147 | the blocked count is the number of linkedin_draft_*.md files waiting in Pending_Approval/ |
| PostApproved.Attempt | post_approved.py:193-270 | a draft is a read failure exactly when it cannot be read; its hash is the one extracted from its text; it is a duplicate exactly when its hash is non-empty and already posted; create_post is called only with a new or empty hash and the non-empty extracted post text; it is published exactly when create_post posts; kept drafts have reason "simulated_mode" or "not_configured" and failed ones any other reason |
| PostApproved.Tally | post_approved.py:185-270 | each draft bumps exactly one counter and never found |
| PostApproved.NewDisk | post_approved.py:225-229 | only a published draft changes the disk, and then only its Approved/ and Done/ paths; a published, readable draft moves to Done/ with its contents and leaves Approved/, unless Done/<name> raises, when the files stay as they were |
| PostApproved.NewLedger | post_approved.py:230-232 | after a published draft with a hash, posted_ids.json loads as the old hashes plus that hash; otherwise the file is left as it was |
| PostApproved.NewHashes | post_approved.py:230-231 | posted_hashes only grows, by the hash of a published draft when it has one |
| PostApproved.CallOf | post_approved.py:223 | create_post is called once for a draft that reaches it and never otherwise |
| PostApproved.DispatchStep | post_approved.py:193-270 | one turn followed by the rest of the loop is the loop from that turn on |
| PostApproved.DispatchCountsEachDraftOnce | post_approved.py:185-270 | over the loop the counters grow by exactly the number of drafts and found is unchanged |
| PostApproved.NoRepostPairwise | post_approved.py:204-231 | no call carries a hash known at the start, and no call repeats the non-empty hash of an earlier call that posted |
| PostApproved.PostedHashesHas | post_approved.py:230-231 | the hash of a call that posted is among the posted hashes |
| PostApproved.CallKeepsLedger | post_approved.py:204-231 | one more create_post call keeps posted_hashes equal to the loaded hashes plus those posted, and keeps the no-repost invariant |
| PostApproved.StepKeepsLedger | post_approved.py:193-270 | one loop turn keeps that ledger invariant and posted_hashes only grows |
| PostApproved.DispatchKeepsLedger | post_approved.py:193-270 | the whole loop keeps the ledger invariant and posted_hashes only grows |
| PostApproved.DispatchTouchesOnlyDrafts | post_approved.py:193-270 | the loop changes nothing outside Approved/n and Done/n of its drafts, in particular nothing in Pending_Approval/ |
| PostApproved.StepPublishes | post_approved.py:225-229 | a turn whose draft is published leaves that draft as PostedOutcome describes |
| PostApproved.DispatchMovesPosted | post_approved.py:193-229 | over distinct names, a call that posted was for one of them, and that draft was readable in Approved/ and ends in Done/ with its contents, gone from Approved/ (or stays in Approved/ when Done/<name> raises) |
| PostApproved.DispatchMovesOnlyPosted | post_approved.py:225-229 | a path changes during the loop only for a draft whose create_post call posted |
| PostApproved.StepMovesOnlyPosted | post_approved.py:225-229 | a turn that changes a path has just posted the draft of that name |
| PostApproved.NewDiskChanges | post_approved.py:225-229 | only a published draft's two paths can change |
| PostApproved.PostedAtPrefix | post_approved.py:223 | a posted call keeps its index when calls are appended |
| PostApproved.DispatchCallsGrow | post_approved.py:193-270 | the loop only appends calls |
| PostApproved.StepCallsFrom | post_approved.py:197-223 | the call a turn makes is for its draft and carries that draft's text and hash |
| PostApproved.AttemptCallFrom | post_approved.py:197-223 | a verdict that calls create_post carries the text and hash of the draft as read |
| PostApproved.CallsAppended | post_approved.py:223 | appending a verdict's call keeps the earlier calls and adds one for the draft |
| PostApproved.StepKeepsOtherDrafts | post_approved.py:229 | a turn changes no other draft's Approved/ file |
| PostApproved.NewDiskKeepsOthers | post_approved.py:229 | NewDisk leaves every path outside the draft's two paths as it was |
| PostApproved.DispatchCallsFromApproved | post_approved.py:193-223 | for distinct drafts every call is for one of them and carries the text and hash read from Approved/ at the start |
| PostApproved.AllFromGrow | post_approved.py:223 | calls appended to calls all read from one disk still all read from it |
| PostApproved.CallsForJoin | post_approved.py:193 | the calls of the first turn and of the rest are all for the loop's drafts |
| PostApproved.ProcessDraft | post_approved.py:194-270 | the in-place loop body ends with the verdict of Attempt, the disk of NewDisk, the hashes of NewHashes, the stats of Tally, the ledger of NewLedger, and the log of create_post's and the dispatcher's entries |
| PostApproved.Conclude | post_approved.py:225-270 | once create_post answered, a post is published, the two simulated reasons keep the draft and any other reason is an API error |
| PostApproved.MoveToDone | post_approved.py:225-241 | a published draft is moved to Done/, its non-empty hash added and the ledger saved at once, and the post logged |
| PostApproved.DispatchDrafts | post_approved.py:193-270 | the in-place for-loop ends in the disk, hashes, ledger, stats, log and calls of DispatchAll |
| PostApproved.Turn | post_approved.py:193-270 | one in-place turn ends in the state of Step |
| PostApproved.HitlCheck | post_approved.py:164-170 | the HITL block creates Pending_Approval/, returns the number of pending drafts and logs their blocks, the "clear" entry when there were none, and the check's count |
| PostApproved.Run | post_approved.py:154-282 | main() ends in the disk, ledger, log, blocked count, stats and calls of PostApprovedRun |
| PostApproved.StartRun | post_approved.py:157-170 | main() up to the approved drafts creates the four folders and logs the start and the HITL check |
| PostApproved.PostDrafts | post_approved.py:172-274 | without approved drafts the run logs that and ends; otherwise it runs the loop |
| PostApproved.PublishApproved | post_approved.py:183-274 | the loop starts from the loaded hashes with found set to the number of drafts, then the ledger is saved and the stats logged |
| PostApproved.PendingApprovalUntouched | post_approved.py:6-11 | a run never changes Pending_Approval/: every file there keeps its contents and none appears |
| PostApproved.OutsideLoopPaths | post_approved.py:194-228 | only Approved/ and Done/ paths are draft paths |
| PostApproved.SameExceptAt | post_approved.py:193-270 | a path outside the changed set keeps its presence and contents |
| PostApproved.PhaseTouchesOnlyDrafts | post_approved.py:172-274 | after the HITL check only Approved/n and Done/n of approved drafts can change |
| PostApproved.EveryDraftCountedOnce | post_approved.py:185-270 | found is the number of approved drafts, and each is counted under exactly one of posted, skipped_duplicate, skipped_not_configured and errors |
| PostApproved.NoSecondPost | post_approved.py:13-15 | no create_post call carries a hash already in posted_ids.json, no two calls carry the non-empty hash of an earlier successful post, and the saved ledger is the loaded one plus the hashes posted |
| PostApproved.OnlyApprovedDraftsPosted | post_approved.py:10 | every create_post call is for a linkedin_draft_*.md of Approved/ readable at the start of the run, with the post text extracted from it |
| PostApproved.CallsFromPrepared | post_approved.py:157-159 | calls that read from the disk after the folders were created read the same drafts as the original disk |
| PostApproved.PostedIsMoved | post_approved.py:193-229 | the converse of MovedOnlyWhenPosted: a draft whose create_post call posted ends in Done/ with its text and leaves Approved/; if Done/<name> raises, the ignored move_file failure leaves it in Approved/ although it counts as posted |
| PostApproved.MovedOnlyWhenPosted | post_approved.py:18-25 | a draft leaves Approved/, and anything in Done/ changes, only when its create_post call posted |
| PostApproved.SimulatedRunMovesNothing | post_approved.py:19-22 | in simulated or unconfigured mode nothing is posted and no file moves |
| PostApproved.SimulatedDispatch | post_approved.py:193-270 | in simulated or unconfigured mode the loop posts nothing and leaves the disk unchanged |
| Agent.SliceTo | agent.py:44 | t[:m] is a prefix of t: of length m (or all of t) for m >= 0, and all but the last -m characters for negative m |
| Agent.PromptCarriesTask | agent.py:39-45 | the prompt starts with the fixed instructions and carries the first MAX_CHARS characters of the task, all of a task that fits |
| Agent.StatusName | agent.py:48-69 | each status word is non-empty |
| Agent.StatusNamesDistinct | agent.py:48-69 | the four statuses "fallback", "openai_empty", "openai_ok" and "openai_error" are told apart in the logs |
| Agent.SummarizeCases | agent.py:48-69 | the summary is never empty; it is the fallback text exactly without a stripped key or the package; openai_ok exactly for a non-blank reply, which is then the summary, stripped; openai_empty exactly for a blank reply; openai_error exactly for an exception, with its message after the error prefix |
| Agent.PromptLogSaysFallback | agent.py:118 | the prompt history shows "fallback" exactly for a fallback summary, since a real prompt starts with the instructions |
| Agent.CommitOutcome | agent.py:110-114 | the file operations raise exactly when Done/<name> cannot be written; otherwise the task leaves Needs_Action/ and Done/<name> holds the task's text as it was, because the move lands on the output just written |
| Agent.ProcessOneOutcome | agent.py:93-122 | one task raises exactly when its file or its Done/ namesake raises; otherwise it leaves Needs_Action/, Done/<name> holds its original text, and the run line and prompt entry prepared from it are logged |
| Agent.ProcessedOutputIsReplaced | agent.py:100-114 | the processed output does not survive: whenever it differs from the task's text, Done/<name> does not hold it |
| Agent.PreparedEvents | agent.py:116-122 | each task logs two entries, its run line with the status and its prompt entry, which reads "fallback" exactly for a fallback summary |
| Agent.ExpectedFrame | agent.py:93-122 | the expected log depends only on the task files the rest of the loop reads |
| Agent.ProcessAllFrame | agent.py:93-122 | the loop touches only the tasks and their Done/ namesakes, keeps the folders, and raises exactly when some task is unusable |
| Agent.ProcessAllLog | agent.py:93-122 | without a crash the loop logs, task by task in listing order, the entries prepared from each task's text |
| Agent.ProcessAllMovesEach | agent.py:93-114 | without a crash every task has left Needs_Action/ and Done/<name> holds its original text |
| Agent.ListingOk | agent.py:85 | the listing has no repeats and names only present tasks |
| Agent.NoTasksMovesNothing | agent.py:85-91 | an empty Needs_Action/ only creates the two folders, logs "No tasks found" and stops |
| Agent.RunAgentOutcome | agent.py:73-126 | the tasks are taken in ascending name order, only they and their Done/ namesakes change, and over a non-empty listing the run completes exactly when every task is usable |
| Agent.AllSound | agent.py:93-114 | creating the folders does not change which tasks are usable |
| Agent.RunAgentLog | agent.py:93-122 | a completed run logs the tasks' entries in ascending name order |
| Agent.RunAgentMovesEach | agent.py:93-114 | after a completed run every listed task has left Needs_Action/ and Done/<name> holds its original text |
| Agent.CommitTask | agent.py:110-122 | the in-place write and move end in the state of Commit |
| Agent.ProcessTask | agent.py:94-122 | one in-place task ends in the state of ProcessOne |
| Agent.ProcessStep | agent.py:93-124 | one task followed by the rest of the loop is the loop from that task on, and a crash ends it |
| Agent.ProcessEach | agent.py:93-124 | the in-place loop ends in the disk, log and crash flag of ProcessAll |
| Agent.Run | agent.py:73-126 | main() ends in the disk, log and exit of RunAgent |
| AgentQueue.EndsMdAnyCaseChars | agent_queue.py:14 | name.lower().endswith(".md") holds exactly when the last three characters are '.', 'm', 'd' in either case |
| AgentQueue.StripMdExtClean | agent_queue.py:13-15 | the loop leaves a prefix of the name that no longer ends in ".md" in any letter case |
| AgentQueue.StripAfterMd | agent_queue.py:13-16 | adding ".md" to a name without one and stripping it again gives the name back |
| AgentQueue.NormalizedHasOneExtension | agent_queue.py:8-16 | normalize_md ends in ".md", and cutting that one ".md" leaves a name without one: exactly one extension |
| AgentQueue.NormalizedIdempotent | agent_queue.py:8-16 | normalize_md applied twice is normalize_md applied once |
| AgentQueue.NormalizedExamples | agent_queue.py:10-11 | "x.md.md" becomes "x.md", "x" becomes "x.md" and "x.MD" becomes "x.md" |
| AgentQueue.NormalizeMd | agent_queue.py:8-16 | the loop returns the stripped name with one ".md" added |
| AgentQueue.Candidates | agent_queue.py:22 | the candidates are exactly the files of Needs_Action/ ending in ".md" in any letter case |
| AgentQueue.PickTask | agent_queue.py:18-24 | pick_task raises exactly without Needs_Action/, returns None exactly when there is no candidate, and otherwise returns a candidate that comes before every other in name order |
| AgentQueue.CleanAfterInfix | agent_queue.py:37 | a name ending in "__process__" followed by a name without ".md" does not end in ".md" either |
| AgentQueue.PromptNameKeepsTask | agent_queue.py:34-37 | the prompt file is named exactly <ts>__process__<task_md>, with one ".md" at the end |
| AgentQueue.WritePromptOutcome | agent_queue.py:34-61 | the prompt is written to prompts/<ts>__process__<task_md> exactly when that path can be written, and changes nothing else; otherwise main() raises with the disk unchanged |
| AgentQueue.RunQueueOutcome | agent_queue.py:26-61 | a run creates prompts/, writes at most the one prompt file and moves no task; it writes exactly when a task is picked and the path can be written, and stops without a task exactly when pick_task finds none |
| AgentQueue.Run | agent_queue.py:26-61 | main() ends in the disk and exit of RunQueue |
| GmailWatcher.FirstMatch | gmail_watcher.py:66 | re.search finds the leftmost index where '@' is followed by a domain character, or reports that there is none |
| GmailWatcher.RunEnd | gmail_watcher.py:66 | the greedy [\w.-]+ run ends at the first character outside the class, or at the end |
| GmailWatcher.ExtractDomain | gmail_watcher.py:65-67 | extract_domain is "" exactly when no '@' is followed by a domain character |
| GmailWatcher.DomainAllowed | gmail_watcher.py:70-72 | an address with no usable '@' domain is never allowed |
| GmailWatcher.DomainOfAddress | gmail_watcher.py:65-67 | for local@domain with no '@' in the local part, the extracted domain is the domain, lower-cased |
| GmailWatcher.AllowedAddress | gmail_watcher.py:22-28 | for a lower-case address the allowlist accepts exactly the five listed domains and their subdomains |
| GmailWatcher.SuffixDot | gmail_watcher.py:72 | a name ending in ".<d>" has a dot right before its last |d| characters |
| GmailWatcher.SubdomainListed | gmail_watcher.py:72 | "a.github.com" is a listed domain |
| GmailWatcher.SubdomainAllowed | gmail_watcher.py:70-72 | a sender at a subdomain of an allowed domain passes |
| GmailWatcher.AllowedLengths | gmail_watcher.py:22-28 | every allowed domain has between 9 and 13 characters |
| GmailWatcher.NoDotNotListed | gmail_watcher.py:72 | a domain of 14 or more characters with no dot where ".<d>" would put one is not listed |
| GmailWatcher.LookAlikeNotListed | gmail_watcher.py:72 | "evilgithub.com" is not a listed domain |
| GmailWatcher.LookAlikeRejected | gmail_watcher.py:70-72 | a sender at a look-alike that only ends in an allowed name is rejected |
| GmailWatcher.GetHeader | gmail_watcher.py:75-79 | get_header returns the value of the first header whose name matches without regard to case, and "" when none does |
| GmailWatcher.EmailNameHasId | gmail_watcher.py:83-86 | the name email_<ts>_<id>.md is a "*.md" name the duplicate check finds for its id |
| GmailWatcher.ExistsGrows | gmail_watcher.py:82-88 | adding files and folders never makes the duplicate check forget an id |
| GmailWatcher.Letters | gmail_watcher.py:165-196 | one task file per listed message, named and filled from its headers and snippet with the stamp of its turn |
| GmailWatcher.Announce | gmail_watcher.py:200-203 | one ingested entry per written file, with its name and sender, in order |
| GmailWatcher.WrittenIdIsSeen | gmail_watcher.py:82-88 | once a message's file exists in Inbox/, its id counts as seen |
| GmailWatcher.IngestOneOutcome | gmail_watcher.py:178-198 | a message is written exactly when its sender is allowed, no task file for its id exists and the path can be written; the write raises exactly when that path cannot be written; only its own file changes |
| GmailWatcher.WroteFresh | gmail_watcher.py:178-198 | a written message had an allowed sender, an unseen id and a new file |
| GmailWatcher.FreshShrinks | gmail_watcher.py:82-88 | a message fresh on a larger disk is fresh on a smaller one |
| GmailWatcher.WrittenPathsTail | gmail_watcher.py:165-204 | the files written by a turn and the rest of the loop are the union of both |
| GmailWatcher.IngestAllFrame | gmail_watcher.py:165-204 | the loop keeps the folders, removes no file and changes only the files it wrote |
| GmailWatcher.NamedTail | gmail_watcher.py:184 | every later message's file is also found by the duplicate check for its id |
| GmailWatcher.IngestAllFromList | gmail_watcher.py:165-204 | every written message came from the listing |
| GmailWatcher.IngestAllFresh | gmail_watcher.py:178-198 | every written message was fresh when the loop started |
| GmailWatcher.IngestAllPresent | gmail_watcher.py:198 | every written file is still there when the loop ends |
| GmailWatcher.IngestAllIdsDistinct | gmail_watcher.py:181-182 | no id is written twice in a run, even when the listing repeats it |
| GmailWatcher.IngestAllCovers | gmail_watcher.py:178-198 | after a loop without a crash, every message with an allowed sender has a task file for its id |
| GmailWatcher.RunGmailEarlyExits | gmail_watcher.py:132-161 | a run always logs its start first; a caught sign-in failure, a SystemExit from auth_gmail (missing libraries or credentials.json), a raising listing and an empty listing only create the three folders; only the caught failure logs auth_failed, SystemExit ends the script with the start entry alone, a raising listing ends it as a crash, and an empty listing logs no_unread |
| GmailWatcher.IngestLettersOutcome | gmail_watcher.py:163-207 | the count reported is the number of files written, each logged once in order, and only those files change; a raising write skips the closing entry |
| GmailWatcher.IngestLettersWritesFresh | gmail_watcher.py:165-204 | every written file belongs to a listed message whose sender was allowed and whose id had no task file, is new and stays; no id is written twice |
| GmailWatcher.RunGmailCovers | gmail_watcher.py:132-207 | after a completed run every listed message with an allowed sender has a task file, so a second run ingests none of them |
| GmailWatcher.AnnounceConcat | gmail_watcher.py:200-203 | the entries for two runs of written files are the entries of each, in order |
| GmailWatcher.IngestStep | gmail_watcher.py:165-204 | one turn followed by the rest of the loop is the loop from that turn on, and a raising write ends it |
| GmailWatcher.AnnounceStep | gmail_watcher.py:200-204 | the log and the count after one turn and the rest add up |
| GmailWatcher.IngestLetter | gmail_watcher.py:178-204 | one in-place turn ends in the state of IngestOne and logs its file when it wrote one |
| GmailWatcher.IngestTurn | gmail_watcher.py:165-204 | turn i ends in a state from which the rest of the loop finishes the loop from i |
| GmailWatcher.IngestEach | gmail_watcher.py:163-204 | the in-place loop ends in the disk of IngestAll, logs its written files and counts them |
| GmailWatcher.Run | gmail_watcher.py:132-209 | main() ends in the disk, log and exit of RunGmail, for each of the sign-in and listing outcomes |
| GmailWatcher.Finish | gmail_watcher.py:163-207 | the loop and the closing entry end in the state of IngestLetters |
| CalendarOps.EventsOf | mcp_calendar_ops.py:80-90 | one record per create_event call, built from that call's arguments, in call order |
| CalendarOps.CreateAppendsOne | mcp_calendar_ops.py:74-91 | create_event appends exactly one event at the end, keeps the earlier ones in order, and the new one carries the arguments, the slug, the time stamp and mode "simulated" |
| CalendarOps.CreateOnEmptyStore | mcp_calendar_ops.py:53-59 | a store that is missing or cannot be read loads as [], so create_event leaves a one-element list |
| CalendarOps.CreatesReadBack | mcp_calendar_ops.py:74-91 | after several creates the store holds the earlier events, then the new ones in creation order |
| CalendarOps.ReadEventsResult | mcp_calendar_ops.py:97-105 | read_events returns ok, the loaded list and its length as the count |
| CalendarOps.ReadAfterCreate | mcp_calendar_ops.py:74-105 | a read right after a create counts one more event and sees the new one last |
| CalendarOps.CreateEvent | mcp_calendar_ops.py:74-94 | create_event returns ok with the new event, saves the appended list, creates Logs/ and logs the title, start and end |
| CalendarOps.ReadEvents | mcp_calendar_ops.py:97-105 | read_events leaves the store alone, creates Logs/ as its log helper does, and logs the count it returns |

Some lemmas have no row: they unfold a definition one step for the proofs of the lemmas and methods above (`WatcherManual.RunManualIs`, `ChannelWatcher.RunChannelIs`, `Approve.BatchUnfold`, `DraftText.MarkedPostText`, `PostApproved.StepIs`, `PostApproved.DispatchUnfold`, `PostApproved.StepCalls`, `PostApproved.StepDisk`, `PostApproved.RunIs`, `PostApproved.RunDiskIs`, `PostApproved.RunCallsIs`, `Agent.RunAgentIs`, `GmailWatcher.RunGmailIs`), or are small helpers of other proofs.

## Definitions

The functions that define what each script does carry no contract of their own. Each is stated by the lemmas named beside it, and the rows for those lemmas cite the same lines.

- `FileOps.WriteText` (mcp_file_ops.py:48, the scripts' `write_text` calls): `FileOps.WriteFileResult`, `FileOps.Vault.WriteTextRaw`, `FileOps.ReadAfterWrite`.
- `FileOps.ShutilMove` (mcp_file_ops.py:73, processor.py:57): `FileOps.MoveFileResult`, `FileOps.Vault.ShutilMoveRaw`.
- `FileOps.ShutilCopy` (mcp_file_ops.py:86): `FileOps.CopyFileResult`.
- `FileOps.Unlink` (watcher_inbox.py:45): `FileOps.Vault.UnlinkRaw`, `WatcherInbox.MoveOneOutcome`.
- `WatcherInbox.MoveOne`, `MoveAll`, `RunInbox` (watcher_inbox.py:42-49, 41-49, 28-51): `MoveOneOutcome`, `MoveAllOutcome`, `MoveAllMovesEach`, `RunInboxOutcome`, `EmptyInboxChangesNothing`, `OnlyMarkdownMoves`.
- `Processor.Summary` (processor.py:39-52): `SummaryEmbedsContent`, `SummaryInjective`.
- `Processor.ProcessOne`, `ProcessAll`, `RunProcessor` (processor.py:33-58, 32-60, 26-62): `ProcessOneOutcome`, `ProcessAllOutcome`, `ProcessAllMovesEach`, `RunProcessorOutcome`, `RunProcessorMovesEach`, `EmptyListingChangesNothing`.
- `WatcherManual.WriteBlocks` (watcher_manual.py:53-58): `WriteBlocksOutcome`, `WriteBlocksStoresEach`.
- `WatcherManual.IngestText`, `WriteAndClear`, `RunManual` (watcher_manual.py:47-62, 53-62, 33-64): `FinishOutcome`, `NothingWithoutInput`, `ClearedOnlyAfterAllBlocks`, `ClearedRunStoresBlocks`, `IngestCleared`.
- `ChannelWatcher.WriteTasks` (whatsapp_watcher.py:83-96, linkedin_watcher.py:83-96): `WriteTasksOutcome` (its count is `SoundCount`), `WriteTasksStoresEach`, `StoresEachBlock`.
- `ChannelWatcher.IngestText`, `WriteAndClear`, `RunChannel` (whatsapp_watcher.py:68-79, 81-107, 56-107): `SkipWithoutInput`, `ClearedAfterLoop`, `ClearOutcome`.
- `Agent.BuildPrompt` (agent.py:39-45): `PromptCarriesTask`.
- `Agent.Summarize` (agent.py:48-69): `SummarizeCases`, `PromptLogSaysFallback`.
- `Agent.Commit`, `ProcessOne` (agent.py:110-114, 93-122): `CommitOutcome`, `ProcessOneOutcome`, `ProcessedOutputIsReplaced`, `PreparedEvents`.
- `Agent.ProcessAll`, `RunAgent` (agent.py:93-124, 73-126): `ProcessAllFrame`, `ProcessAllLog`, `ProcessAllMovesEach`, `RunAgentOutcome`, `RunAgentLog`, `RunAgentMovesEach`, `NoTasksMovesNothing`.
- `AgentQueue.StripMdExt`, `Normalized` (agent_queue.py:8-16): `StripMdExtClean`, `NormalizedHasOneExtension`, `NormalizedIdempotent`, `NormalizedExamples`, and the loop `NormalizeMd`.
- `AgentQueue.PromptName`, `WritePrompt`, `RunQueue` (agent_queue.py:34-37, 34-61, 26-61): `PromptNameKeepsTask`, `WritePromptOutcome`, `RunQueueOutcome`.
- `GmailWatcher.IngestOne` (gmail_watcher.py:178-198): `IngestOneOutcome`, `WroteFresh`.
- `GmailWatcher.IngestAll`, `IngestLetters` (gmail_watcher.py:165-204, 163-207): `IngestAllFrame`, `IngestAllFromList`, `IngestAllIdsDistinct`, `IngestAllCovers`, `IngestLettersOutcome`, `IngestLettersWritesFresh`.
- `GmailWatcher.RunGmail` (gmail_watcher.py:132-209): `RunGmailEarlyExits`, `RunGmailCovers`.
- `PostApproved.Step` (post_approved.py:193-270): `StepKeepsLedger`, `StepMovesOnlyPosted`, `StepPublishes`, `StepCallsFrom`, `StepKeepsOtherDrafts`.
- `PostApproved.DispatchAll`, `Publish` (post_approved.py:183-274): `DispatchCountsEachDraftOnce`, `DispatchKeepsLedger`, `DispatchTouchesOnlyDrafts`, `DispatchMovesOnlyPosted`, `DispatchMovesPosted`, `DispatchCallsFromApproved`.
- `PostApproved.ApprovedPhase`, `PostApprovedRun` (post_approved.py:172-282, 154-282): `PhaseTouchesOnlyDrafts`, `EveryDraftCountedOnce`, `NoSecondPost`, `OnlyApprovedDraftsPosted`, `MovedOnlyWhenPosted`, `PostedIsMoved`, `PendingApprovalUntouched`, `SimulatedRunMovesNothing`.
- `CalendarOps.AfterCreate`, `AfterCreates` (mcp_calendar_ops.py:74-91): `CreateAppendsOne`, `CreatesReadBack`, `ReadAfterCreate`.

## Left out

- Network clients are not modelled; their outcomes are inputs:
  - the Gmail sign-in and API calls (gmail_watcher.py:95-125, 149-170) become the `GmailWatcher.Mailbox` input: a caught sign-in failure, a SystemExit from auth_gmail, a raising listing, or the listed messages. `maxResults=10` and a raising `messages().get` inside the loop are not modelled;
  - the LinkedIn HTTP post (mcp_linkedin_ops.py:118-142) becomes the `HttpReply` parameter;
  - the OpenAI call (agent.py:57-69) becomes the `Reply` parameter.
- Clocks (`utc_ts`, `ts_slug`, `utc_file_ts`, `datetime.now`) are parameters. The per-message or per-turn time stamps are a function `stamps(k)`, so two turns may but need not share a stamp.
- Environment variables and configuration are a `Config` value: the LinkedIn token, URN and simulated flag, the OpenAI key, whether the client libraries import, and `MAX_TASK_CHARS`.
- The evidence file that create_post writes in simulated mode (mcp_linkedin_ops.py:63-79) is not modelled.
- Log wording, time stamps and JSONL formatting are not modelled. An `Audit.Event` keeps only the facts a log line reports.
- Writing a log line never fails in the model. The scripts differ here, and the model captures none of these failures:
  - gmail_watcher.py, whatsapp_watcher.py, linkedin_watcher.py, approve.py, post_approved.py and the mcp_* modules swallow a failing log write;
  - in watcher_inbox.py the append sits inside the per-file try (watcher_inbox.py:46), so a failing append leaves the file moved but unlogged;
  - processor.py (lines 22-24, 58), watcher_manual.py (lines 28-30, 57) and agent.py (lines 35, 116-122) append with no guard, so a failing log write would end those scripts.
- The fixed headers that agent.py writes into a new run_log.md and prompt_history.md (agent.py:79-82) are not modelled, nor is the console output of any script.
- The ledger and the calendar are typed values (`JsonFile`):
  - a store that is missing, cannot be read or cannot be parsed loads as empty;
  - a parsed JSON value of the wrong shape is not modelled;
  - a failed `_save_posted_ids` or `_save_db` write (swallowed by the source) is not modelled, since saving always succeeds.
- processor.py reads its skill file at start-up (processor.py:16-20). That read and its failure are not modelled; the template is fixed text.
- The MODEL constant of agent.py (agent.py:25) and the hard-coded vault roots are not modelled. processor.py and agent_queue.py use a different root from the other scripts; the model runs every script over one `Vault`.
- Text is approximated:
  - `lower()` and the regex class `\w` are ASCII only;
  - `strip()` uses Python's whitespace set;
  - there is no encoding, no `errors="ignore"` decoding and no Unicode normalisation.
- Glob matching covers only the patterns the scripts use (`*.md`, `linkedin_draft_*.md`), as case-sensitive prefix and suffix tests. Names that start with a dot are listed like any other, as `pathlib.Path.glob` and `os.listdir` list them; only `.gitkeep` is excluded, where the scripts exclude it.
- `os.listdir` order is any order without repeats.
- A path whose unlink raises (`Disk.pinned`) is modelled only for the explicit `Path.unlink()` of watcher_inbox.py. When `shutil.move` cannot rename, it copies and then unlinks, and an unlink failure there leaves a copy at the destination. That case is not modelled for move_file, move_task, processor.py, agent.py, approve.py or post_approved.py, where a move either happens fully or not at all.
- Approve.ApproveFileResult: the name given on the command line is taken as a plain file name inside Pending_Approval/ and Approved/. Path separators and ".." in it are not resolved, so a name such as "../Approved/x.md" or "sub/x.md" is reported as not found, where the operating system would reach another folder.
- Directory creation is the folder set growing. `shutil.move`'s rename-versus-copy internals are not modelled: a move is "the destination gets the source's text, the source is removed".
- Concurrency, meaning overlapping runs of the scripts, is not modelled. Each script runs to completion on its own.
- watcher.py (the polling loop around one inbox sweep), mcp_email_ops.py, send_test_email.py and evidence_pack.py are not part of this model.
- agent.py's fixed texts (the instruction prefix, the fallback, empty and error messages) are an `Agent.Texts` parameter. `Agent.AgentTexts` holds the source's strings; `Agent.SummarizeCases` and `Agent.PromptLogSaysFallback` are stated for them. agent_queue.py's prompt text is `AgentQueue.PromptPieces` joined around the task name.
