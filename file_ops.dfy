/** The vault's task store (mcp_file_ops.py): stage folders holding named
    files, the crash-free helpers list/read/write/append/move/copy and the
    list_tasks/move_task aliases.

    The file system is a value `Disk`; the `Vault` object holds the current
    disk together with the audit log and the two JSON stores under Logs/,
    and its methods change them in place as the scripts do. */
module FileOps {
  import opened Strings
  import opened Wrappers
  import opened Audit

  /** The folders of the vault. `Base` is the vault root itself
      (manual_input.txt, whatsapp_input.txt, linkedin_input.txt live there). */
  datatype Folder = Inbox | NeedsAction | PendingApproval | Approved | Done | Logs | Prompts | Base

  datatype Path = Path(dir: Folder, name: string)

  /** The file system as the scripts see it: the contents of every file, the
      folders that exist, the paths on which the operating system raises
      (permission denied, device error, ...) when a script reads or writes,
      and the `pinned` paths, which can be read and written but whose
      Path.unlink() raises (a file in a folder the script may not delete from). */
  datatype Disk = Disk(files: map<Path, string>, dirs: set<Folder>, faulty: set<Path>, pinned: set<Path>) {
    /** Every file sits in a folder that exists. */
    ghost predicate Valid() {
      forall p :: p in files ==> p.dir in dirs
    }
  }

  /** Both disks agree on every path outside `changed`, and on the faulty paths. */
  ghost predicate SameExcept(a: Disk, b: Disk, changed: set<Path>) {
    && a.faulty == b.faulty
    && (forall p :: p !in changed && p in a.files ==> p in b.files && b.files[p] == a.files[p])
    && (forall p :: p !in changed && p in b.files ==> p in a.files)
  }

  /** What an operation returns: the new disk and the operation's bool result. */
  datatype Outcome = Outcome(disk: Disk, ok: bool)

  // ---------------------------------------------------------------------------
  // Listing
  // ---------------------------------------------------------------------------

  /** The two glob patterns the scripts list with: "*.md" and "linkedin_draft_*.md". */
  datatype Glob = AnyMd | LinkedInDraft

  const MdSuffix := ".md"
  const DraftPrefix := "linkedin_draft_"
  const GitKeep := ".gitkeep"

  predicate Matches(name: string, g: Glob) {
    match g
    case AnyMd => EndsWith(name, MdSuffix)
    case LinkedInDraft =>
      |name| >= |DraftPrefix| + |MdSuffix| && StartsWith(name, DraftPrefix) && EndsWith(name, MdSuffix)
  }

  /** The names in `folder` matching the pattern, other than ".gitkeep". */
  function FolderNames(d: Disk, folder: Folder, g: Glob): (r: set<string>)
    ensures forall n :: n in r <==> Path(folder, n) in d.files && Matches(n, g) && n != GitKeep
  {
    var names := set p | p in d.files && p.dir == folder && Matches(p.name, g) && p.name != GitKeep :: p.name;
    assert forall n :: n in names <==> Path(folder, n) in d.files && Matches(n, g) && n != GitKeep by {
      forall n ensures n in names <==> Path(folder, n) in d.files && Matches(n, g) && n != GitKeep {
        if Path(folder, n) in d.files && Matches(n, g) && n != GitKeep {
          assert Path(folder, n).name == n;
        }
      }
    }
    names
  }

  /** list_files(folder, pattern): the sorted names in `folder` matching the
      pattern, without ".gitkeep"; [] when the folder does not exist. */
  function ListFiles(d: Disk, folder: Folder, g: Glob): (r: seq<string>)
    ensures StrictlySorted(r)
    ensures forall n :: n in r <==>
      folder in d.dirs && Path(folder, n) in d.files && Matches(n, g) && n != GitKeep
    ensures folder !in d.dirs ==> r == []
    ensures folder in d.dirs ==> |r| == |FolderNames(d, folder, g)|
  {
    if folder !in d.dirs then [] else SortedSet(FolderNames(d, folder, g))
  }

  /** list_tasks(folder), the alias kept for mcp_server.py: the "*.md" listing. */
  function ListTasks(d: Disk, folder: Folder): (r: seq<string>)
    ensures StrictlySorted(r)
    ensures forall n :: n in r <==>
      folder in d.dirs && Path(folder, n) in d.files && EndsWith(n, MdSuffix) && n != GitKeep
  {
    ListFiles(d, folder, AnyMd)
  }

  // ---------------------------------------------------------------------------
  // Operating-system primitives (pathlib / shutil), which raise on failure
  // ---------------------------------------------------------------------------

  /** Path.mkdir(parents=True, exist_ok=True). */
  function MakeDir(d: Disk, f: Folder): Disk {
    d.(dirs := d.dirs + {f})
  }

  /** Path.read_text(): the contents, or None where it raises. */
  function ReadText(d: Disk, p: Path): Option<string> {
    if p in d.files && p !in d.faulty then Some(d.files[p]) else None
  }

  /** Path.write_text(c): raises (ok is false) on a faulty path or a missing folder. */
  function WriteText(d: Disk, p: Path, c: string): Outcome {
    if p in d.faulty || p.dir !in d.dirs then Outcome(d, false)
    else Outcome(d.(files := d.files[p := c]), true)
  }

  /** Opening in append mode and writing `c`; a missing file is created. */
  function AppendText(d: Disk, p: Path, c: string): Outcome {
    if p in d.faulty || p.dir !in d.dirs then Outcome(d, false)
    else Outcome(d.(files := d.files[p := (if p in d.files then d.files[p] else "") + c]), true)
  }

  /** shutil.move(src, dst) onto a file path: the destination is replaced. */
  function ShutilMove(d: Disk, src: Path, dst: Path): Outcome {
    if src !in d.files || src in d.faulty || dst in d.faulty || dst.dir !in d.dirs then Outcome(d, false)
    else Outcome(d.(files := (d.files - {src})[dst := d.files[src]]), true)
  }

  /** shutil.copy2(src, dst); copying a file onto itself raises SameFileError. */
  function ShutilCopy(d: Disk, src: Path, dst: Path): Outcome {
    if src !in d.files || src in d.faulty || dst in d.faulty || dst.dir !in d.dirs || src == dst then Outcome(d, false)
    else Outcome(d.(files := d.files[dst := d.files[src]]), true)
  }

  /** Path.unlink(). */
  function Unlink(d: Disk, p: Path): Outcome {
    if p !in d.files || p in d.faulty || p in d.pinned then Outcome(d, false)
    else Outcome(d.(files := d.files - {p}), true)
  }

  // ---------------------------------------------------------------------------
  // The crash-free helpers of mcp_file_ops.py
  // ---------------------------------------------------------------------------

  /** read_file(path): the contents, or "" on any error (missing file included). */
  function ReadFile(d: Disk, p: Path): (r: string)
    ensures p in d.files && p !in d.faulty ==> r == d.files[p]
    ensures p !in d.files || p in d.faulty ==> r == ""
  {
    ReadText(d, p).GetOr("")
  }

  /** write_file(path, content): creates the folder, then writes. */
  function WriteFileResult(d: Disk, p: Path, c: string): (r: Outcome)
    ensures r.ok <==> p !in d.faulty
    ensures r.disk.dirs == d.dirs + {p.dir}
    ensures r.ok ==> p in r.disk.files && r.disk.files[p] == c
    ensures SameExcept(d, r.disk, if r.ok then {p} else {})
  {
    WriteText(MakeDir(d, p.dir), p, c)
  }

  /** append_file(path, content): old contents (or "") followed by `content`. */
  function AppendFileResult(d: Disk, p: Path, c: string): (r: Outcome)
    ensures r.ok <==> p !in d.faulty
    ensures r.disk.dirs == d.dirs + {p.dir}
    ensures r.ok ==> p in r.disk.files && r.disk.files[p] == ReadFile(d, p) + c
    ensures SameExcept(d, r.disk, if r.ok then {p} else {})
  {
    AppendText(MakeDir(d, p.dir), p, c)
  }

  /** move_file(src, dst): False without any change when the source is
      missing; otherwise the destination folder is created and shutil.move
      runs, its exception turned into False. */
  function MoveFileResult(d: Disk, src: Path, dst: Path): (r: Outcome)
    ensures r.ok <==> src in d.files && src !in d.faulty && dst !in d.faulty
    ensures src !in d.files ==> r.disk == d
    ensures r.disk.dirs == if src in d.files then d.dirs + {dst.dir} else d.dirs
    ensures r.ok ==> dst in r.disk.files && r.disk.files[dst] == d.files[src]
    ensures r.ok && src != dst ==> src !in r.disk.files
    ensures SameExcept(d, r.disk, if r.ok then {src, dst} else {})
  {
    if src !in d.files then Outcome(d, false)
    else ShutilMove(MakeDir(d, dst.dir), src, dst)
  }

  /** copy_file(src, dst): like move_file, but the source stays, and a copy
      onto the source itself fails. */
  function CopyFileResult(d: Disk, src: Path, dst: Path): (r: Outcome)
    ensures r.ok <==> src in d.files && src !in d.faulty && dst !in d.faulty && src != dst
    ensures src !in d.files ==> r.disk == d
    ensures r.ok ==> dst in r.disk.files && r.disk.files[dst] == d.files[src]
    ensures r.ok ==> src in r.disk.files && r.disk.files[src] == d.files[src]
    ensures SameExcept(d, r.disk, if r.ok then {dst} else {})
  {
    if src !in d.files then Outcome(d, false)
    else ShutilCopy(MakeDir(d, dst.dir), src, dst)
  }

  /** move_task(src, dst), the alias kept for mcp_server.py. */
  function MoveTaskResult(d: Disk, src: Path, dst: Path): (r: Outcome)
    ensures r.ok <==> src in d.files && src !in d.faulty && dst !in d.faulty
    ensures r.ok ==> dst in r.disk.files && r.disk.files[dst] == d.files[src]
  {
    MoveFileResult(d, src, dst)
  }

  /** Reading back what write_file wrote gives exactly the written text. */
  lemma ReadAfterWrite(d: Disk, p: Path, c: string)
    requires p !in d.faulty
    ensures ReadFile(WriteFileResult(d, p, c).disk, p) == c
  {
  }

  /** Reading after append_file gives the old contents (or "") followed by the
      appended text. */
  lemma ReadAfterAppend(d: Disk, p: Path, c: string)
    requires p !in d.faulty
    ensures ReadFile(AppendFileResult(d, p, c).disk, p) == ReadFile(d, p) + c
  {
  }

  /** The helpers keep every file inside an existing folder. */
  lemma HelpersKeepValid(d: Disk, p: Path, src: Path, dst: Path, c: string)
    requires d.Valid()
    ensures WriteFileResult(d, p, c).disk.Valid()
    ensures AppendFileResult(d, p, c).disk.Valid()
    ensures MoveFileResult(d, src, dst).disk.Valid()
    ensures CopyFileResult(d, src, dst).disk.Valid()
  {
  }

  // ---------------------------------------------------------------------------
  // JSON stores under Logs/ (posted_ids.json, calendar_events.json)
  // ---------------------------------------------------------------------------

  /** A JSON file: missing, present but not loadable, or holding a value. */
  datatype JsonFile<T> = Absent | Unreadable | Stored(value: T)

  /** One record of Logs/calendar_events.json. */
  datatype CalendarEvent = CalendarEvent(
    id: string, title: string, start: string, end: string,
    description: string, createdAt: string, mode: string)

  // ---------------------------------------------------------------------------
  // The vault object
  // ---------------------------------------------------------------------------

  class Vault {
    var disk: Disk
    /** run_log.md and Logs/events_<date>.jsonl. */
    var log: seq<Event>
    /** Logs/posted_ids.json: the "posted_hashes" list. */
    var ledger: JsonFile<seq<string>>
    /** Logs/calendar_events.json. */
    var calendar: JsonFile<seq<CalendarEvent>>

    ghost predicate Valid() reads this {
      disk.Valid()
    }

    constructor (d: Disk, ledger0: JsonFile<seq<string>>, calendar0: JsonFile<seq<CalendarEvent>>)
      requires d.Valid()
      ensures Valid()
      ensures disk == d && log == [] && ledger == ledger0 && calendar == calendar0
    {
      disk, log, ledger, calendar := d, [], ledger0, calendar0;
    }

    /** Appends one entry to the audit log. */
    method Record(e: Event)
      modifies this`log
      ensures log == old(log) + [e]
    {
      log := log + [e];
    }

    method MakeFolder(f: Folder)
      requires Valid()
      modifies this`disk
      ensures Valid() && disk == MakeDir(old(disk), f)
    {
      disk := MakeDir(disk, f);
    }

    /** Path.write_text, used directly by several scripts; false if it raised. */
    method WriteTextRaw(p: Path, c: string) returns (ok: bool)
      requires Valid()
      modifies this`disk
      ensures Valid() && Outcome(disk, ok) == WriteText(old(disk), p, c)
    {
      var o := WriteText(disk, p, c);
      disk, ok := o.disk, o.ok;
    }

    /** shutil.move, used directly by processor.py; false if it raised. */
    method ShutilMoveRaw(src: Path, dst: Path) returns (ok: bool)
      requires Valid()
      modifies this`disk
      ensures Valid() && Outcome(disk, ok) == ShutilMove(old(disk), src, dst)
    {
      var o := ShutilMove(disk, src, dst);
      disk, ok := o.disk, o.ok;
    }

    /** Path.unlink, used by watcher_inbox.py; false if it raised. */
    method UnlinkRaw(p: Path) returns (ok: bool)
      requires Valid()
      modifies this`disk
      ensures Valid() && Outcome(disk, ok) == Unlink(old(disk), p)
    {
      var o := Unlink(disk, p);
      disk, ok := o.disk, o.ok;
    }

    method WriteFile(p: Path, c: string) returns (ok: bool)
      requires Valid()
      modifies this`disk
      ensures Valid() && Outcome(disk, ok) == WriteFileResult(old(disk), p, c)
    {
      MakeFolder(p.dir);
      ok := WriteTextRaw(p, c);
    }

    method AppendFile(p: Path, c: string) returns (ok: bool)
      requires Valid()
      modifies this`disk
      ensures Valid() && Outcome(disk, ok) == AppendFileResult(old(disk), p, c)
    {
      MakeFolder(p.dir);
      var o := AppendText(disk, p, c);
      disk, ok := o.disk, o.ok;
    }

    method MoveFile(src: Path, dst: Path) returns (ok: bool)
      requires Valid()
      modifies this`disk
      ensures Valid() && Outcome(disk, ok) == MoveFileResult(old(disk), src, dst)
    {
      if src !in disk.files {
        return false;
      }
      MakeFolder(dst.dir);
      ok := ShutilMoveRaw(src, dst);
    }

    method CopyFile(src: Path, dst: Path) returns (ok: bool)
      requires Valid()
      modifies this`disk
      ensures Valid() && Outcome(disk, ok) == CopyFileResult(old(disk), src, dst)
    {
      if src !in disk.files {
        return false;
      }
      MakeFolder(dst.dir);
      var o := ShutilCopy(disk, src, dst);
      disk, ok := o.disk, o.ok;
    }

    method MoveTask(src: Path, dst: Path) returns (ok: bool)
      requires Valid()
      modifies this`disk
      ensures Valid() && Outcome(disk, ok) == MoveTaskResult(old(disk), src, dst)
    {
      ok := MoveFile(src, dst);
    }
  }
}
