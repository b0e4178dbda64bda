/** approve.py: the human-in-the-loop gate. The only code that moves anything
    from Pending_Approval/ to Approved/: one named file, or every file of a
    snapshot of Pending_Approval/ taken before the first move. */
module Approve {
  import opened Strings
  import opened Audit
  import opened FileOps

  /** The folders main() creates before doing anything else. */
  function Prepared(d: Disk): Disk {
    MakeDir(MakeDir(MakeDir(d, PendingApproval), Approved), Logs)
  }

  /** The two paths approve_file(name) may touch. */
  function GatePaths(name: string): set<Path> {
    {Path(PendingApproval, name), Path(Approved, name)}
  }

  /** approve_file(name): False without change when Pending_Approval/name is
      missing; otherwise Approved/ is created and the file is moved there. */
  function ApproveFileResult(d: Disk, name: string): (r: Outcome)
    ensures r.ok <==>
      Path(PendingApproval, name) in d.files
      && Path(PendingApproval, name) !in d.faulty && Path(Approved, name) !in d.faulty
    ensures Path(PendingApproval, name) !in d.files ==> r.disk == d
    ensures r.ok ==>
      && Path(Approved, name) in r.disk.files
      && r.disk.files[Path(Approved, name)] == d.files[Path(PendingApproval, name)]
      && Path(PendingApproval, name) !in r.disk.files
  {
    var src := Path(PendingApproval, name);
    if src !in d.files then Outcome(d, false)
    else MoveFileResult(MakeDir(d, Approved), src, Path(Approved, name))
  }

  /** approve_file(name) touches no file but Pending_Approval/name and
      Approved/name, and none at all when it fails. */
  lemma ApproveFileFrame(d: Disk, name: string)
    ensures var r := ApproveFileResult(d, name);
      SameExcept(d, r.disk, if r.ok then GatePaths(name) else {})
  {
  }

  /** What approve_file logs: nothing for a missing file, else success or failure. */
  function ApproveEvents(d: Disk, name: string, ok: bool): seq<Event> {
    if Path(PendingApproval, name) !in d.files then []
    else if ok then [FileApproved(name)]
    else [ApproveFailed(name)]
  }

  method ApproveFile(v: Vault, name: string) returns (ok: bool)
    requires v.Valid()
    modifies v`disk, v`log
    ensures v.Valid()
    ensures Outcome(v.disk, ok) == ApproveFileResult(old(v.disk), name)
    ensures v.log == old(v.log) + ApproveEvents(old(v.disk), name, ok)
  {
    var src := Path(PendingApproval, name);
    if src !in v.disk.files {
      return false;
    }
    v.MakeFolder(Approved);
    ok := v.MoveTask(src, Path(Approved, name));
    if ok {
      v.Record(FileApproved(name));
    } else {
      v.Record(ApproveFailed(name));
    }
  }

  // ---------------------------------------------------------------------------
  // --all: approve every name of a snapshot
  // ---------------------------------------------------------------------------

  datatype Batch = Batch(disk: Disk, approved: nat, events: seq<Event>)

  /** The --all loop over the snapshot `names`, counting the successful calls. */
  function ApproveBatch(d: Disk, names: seq<string>): (r: Batch)
    ensures r.approved <= |names|
    decreases |names|
  {
    if names == [] then Batch(d, 0, [])
    else
      var o := ApproveFileResult(d, names[0]);
      var rest := ApproveBatch(o.disk, names[1..]);
      Batch(rest.disk, rest.approved + (if o.ok then 1 else 0),
            ApproveEvents(d, names[0], o.ok) + rest.events)
  }

  /** Every path a batch may touch: the gate paths of the snapshot's names. */
  ghost function SnapshotPaths(names: seq<string>): set<Path> {
    set n, p | n in names && p in GatePaths(n) :: p
  }

  /** The batch touches nothing but Pending_Approval/n and Approved/n for the
      names n of its snapshot: files arriving later, Done/ and every other
      folder stay as they were. */
  lemma {:induction false} BatchTouchesOnlySnapshot(d: Disk, names: seq<string>)
    ensures SameExcept(d, ApproveBatch(d, names).disk, SnapshotPaths(names))
    decreases |names|
  {
    if names != [] {
      var o := ApproveFileResult(d, names[0]);
      ApproveFileFrame(d, names[0]);
      BatchTouchesOnlySnapshot(o.disk, names[1..]);
      assert SnapshotPaths(names[1..]) <= SnapshotPaths(names) by {
        forall p | p in SnapshotPaths(names[1..]) ensures p in SnapshotPaths(names) {
          var n :| n in names[1..] && p in GatePaths(n);
          assert n in names;
        }
      }
      assert GatePaths(names[0]) <= SnapshotPaths(names);
    }
  }

  /** With an empty snapshot nothing is approved and nothing changes. */
  lemma EmptyBatch(d: Disk)
    ensures ApproveBatch(d, []) == Batch(d, 0, [])
  {
  }

  /** For a snapshot of distinct names, each present in Pending_Approval/:
      each name whose two paths are not faulty ends in Approved/ with its
      pending contents and leaves Pending_Approval/; and the others stay put. */
  lemma {:induction false} BatchMovesEachName(d: Disk, names: seq<string>, k: nat)
    requires forall i, j :: 0 <= i < j < |names| ==> names[i] != names[j]
    requires forall n :: n in names ==> Path(PendingApproval, n) in d.files
    requires k < |names|
    ensures var r := ApproveBatch(d, names).disk;
      var src, dst := Path(PendingApproval, names[k]), Path(Approved, names[k]);
      if src !in d.faulty && dst !in d.faulty then
        dst in r.files && r.files[dst] == d.files[src] && src !in r.files
      else
        src in r.files && r.files[src] == d.files[src]
    decreases |names|
  {
    if k == 0 {
      BatchMovesHead(d, names);
    } else {
      var o := ApproveFileResult(d, names[0]);
      ApproveFileFrame(d, names[0]);
      var tail := names[1..];
      assert names[k] == tail[k - 1];
      forall n | n in tail ensures Path(PendingApproval, n) in o.disk.files {
        var j :| 0 <= j < |tail| && tail[j] == n;
        assert names[j + 1] == n && names[0] != n;
        assert Path(PendingApproval, n) !in GatePaths(names[0]);
      }
      assert names[k] != names[0];
      assert Path(PendingApproval, names[k]) !in GatePaths(names[0]);
      BatchMovesEachName(o.disk, tail, k - 1);
    }
  }

  /** The first name of the snapshot: the rest of the batch leaves its two paths alone. */
  lemma BatchMovesHead(d: Disk, names: seq<string>)
    requires forall i, j :: 0 <= i < j < |names| ==> names[i] != names[j]
    requires names != [] && Path(PendingApproval, names[0]) in d.files
    ensures var r := ApproveBatch(d, names).disk;
      var src, dst := Path(PendingApproval, names[0]), Path(Approved, names[0]);
      if src !in d.faulty && dst !in d.faulty then
        dst in r.files && r.files[dst] == d.files[src] && src !in r.files
      else
        src in r.files && r.files[src] == d.files[src]
  {
    var o := ApproveFileResult(d, names[0]);
    var tail := names[1..];
    BatchTouchesOnlySnapshot(o.disk, tail);
    forall j | 0 <= j < |tail| ensures tail[j] != names[0] {
      assert tail[j] == names[j + 1];
    }
    assert Path(Approved, names[0]) !in SnapshotPaths(tail);
    assert Path(PendingApproval, names[0]) !in SnapshotPaths(tail);
  }

  /** The names of a snapshot whose two gate paths do not raise, in order:
      the names BatchMovesEachName moves. */
  function Approvable(faulty: set<Path>, names: seq<string>): (r: seq<string>)
    ensures |r| <= |names|
    ensures forall n :: n in r <==>
      n in names && Path(PendingApproval, n) !in faulty && Path(Approved, n) !in faulty
    decreases |names|
  {
    if names == [] then []
    else
      var n := names[0];
      var rest := Approvable(faulty, names[1..]);
      assert forall m :: m in names <==> m == n || m in names[1..];
      if Path(PendingApproval, n) !in faulty && Path(Approved, n) !in faulty then [n] + rest else rest
  }

  /** approved_count of --all is the number of successful approve_file
      calls: for a snapshot of distinct names, each present in
      Pending_Approval/, it counts exactly the approvable names. */
  lemma {:induction false} BatchCountsApprovals(d: Disk, names: seq<string>)
    requires Distinct(names)
    requires forall n :: n in names ==> Path(PendingApproval, n) in d.files
    ensures ApproveBatch(d, names).approved == |Approvable(d.faulty, names)|
    decreases |names|
  {
    if names != [] {
      var o := ApproveFileResult(d, names[0]);
      var tail := names[1..];
      ApproveFileFrame(d, names[0]);
      DistinctRest(names);
      forall n | n in tail ensures Path(PendingApproval, n) in o.disk.files {
        assert n in names && n != names[0];
      }
      BatchCountsApprovals(o.disk, tail);
    }
  }

  /** Each name moved by --all came from Pending_Approval/ of the snapshot:
      a file that shows up in Approved/ (or changes there) is one of the
      snapshot's names, and it was pending. */
  lemma NoApprovalWithoutSnapshot(d: Disk, names: seq<string>, p: Path)
    requires p.dir == Approved
    requires p in ApproveBatch(d, names).disk.files
    requires p !in d.files || ApproveBatch(d, names).disk.files[p] != d.files[p]
    ensures p.name in names
  {
    BatchTouchesOnlySnapshot(d, names);
    assert p in SnapshotPaths(names);
  }

  // ---------------------------------------------------------------------------
  // main()
  // ---------------------------------------------------------------------------

  datatype Command = ListPending | ApproveAll | ApproveOne(name: string)

  /** sys.argv[1:]: no argument lists, "--all" approves the snapshot, anything
      else names one file. */
  function ParseCommand(args: seq<string>): (c: Command)
    ensures args == [] <==> c == ListPending
    ensures c.ApproveOne? ==> c.name == args[0] && c.name != "--all"
  {
    if args == [] then ListPending
    else if args[0] == "--all" then ApproveAll
    else ApproveOne(args[0])
  }

  /** One entry of the list-mode output. */
  datatype Listed = Listed(name: string, linkedInTag: bool)

  /** List mode: each pending name, tagged [LINKEDIN] exactly when it starts
      with "linkedin_draft_". */
  function ListingEntries(pending: seq<string>): (r: seq<Listed>)
    ensures |r| == |pending|
    ensures forall i :: 0 <= i < |r| ==>
      r[i].name == pending[i] && (r[i].linkedInTag <==> StartsWith(pending[i], DraftPrefix))
  {
    seq(|pending|, i requires 0 <= i < |pending| => Listed(pending[i], StartsWith(pending[i], DraftPrefix)))
  }

  datatype Report =
    | PendingListing(entries: seq<Listed>)
    | NothingToApprove
    | BatchApproved(approved: nat, total: nat)
    | SingleApproval(ok: bool)

  /** One step of the --all loop: after approve_file on the head of `names`,
      the rest of the loop ends where the whole loop ends. */
  lemma BatchStep(d: Disk, names: seq<string>, log: seq<Event>, count: nat)
    requires names != []
    ensures var o := ApproveFileResult(d, names[0]);
      var rest := ApproveBatch(o.disk, names[1..]);
      var all := ApproveBatch(d, names);
      && rest.disk == all.disk
      && (count + (if o.ok then 1 else 0)) + rest.approved == count + all.approved
      && (log + ApproveEvents(d, names[0], o.ok)) + rest.events == log + all.events
  {
    var o := ApproveFileResult(d, names[0]);
    var rest := ApproveBatch(o.disk, names[1..]);
    var e := ApproveEvents(d, names[0], o.ok);
    BatchUnfold(d, names);
    LogAssoc(log, e, rest.events);
  }

  /** ApproveBatch on a non-empty snapshot, one level down. */
  lemma BatchUnfold(d: Disk, names: seq<string>)
    requires names != []
    ensures var o := ApproveFileResult(d, names[0]);
      var rest := ApproveBatch(o.disk, names[1..]);
      ApproveBatch(d, names)
        == Batch(rest.disk, rest.approved + (if o.ok then 1 else 0), ApproveEvents(d, names[0], o.ok) + rest.events)
  {
  }

  /** The --all loop: approve_file on each snapshot name in turn. */
  method ApproveEach(v: Vault, pending: seq<string>) returns (approvedCount: nat)
    requires v.Valid()
    modifies v`disk, v`log
    ensures v.Valid()
    ensures var b := ApproveBatch(old(v.disk), pending);
      v.disk == b.disk && v.log == old(v.log) + b.events && approvedCount == b.approved
  {
    ghost var d := v.disk;
    ghost var log0 := v.log;
    approvedCount := 0;
    var i := 0;
    while i < |pending|
      invariant 0 <= i <= |pending|
      invariant v.Valid()
      invariant var rest := ApproveBatch(v.disk, pending[i..]);
        var all := ApproveBatch(d, pending);
        && rest.disk == all.disk
        && approvedCount + rest.approved == all.approved
        && v.log + rest.events == log0 + all.events
    {
      BatchStep(v.disk, pending[i..], v.log, approvedCount);
      assert pending[i..][1..] == pending[i + 1..];
      var ok := ApproveFile(v, pending[i]);
      if ok {
        approvedCount := approvedCount + 1;
      }
      i := i + 1;
    }
  }

  /** main(): create the three folders, then list, approve the snapshot, or
      approve one name. */
  method Run(v: Vault, args: seq<string>) returns (report: Report)
    requires v.Valid()
    modifies v`disk, v`log
    ensures v.Valid()
    ensures var d := Prepared(old(v.disk));
      var pending := FileOps.ListTasks(d, PendingApproval);
      match ParseCommand(args)
      case ListPending =>
        v.disk == d && v.log == old(v.log) && report == PendingListing(ListingEntries(pending))
      case ApproveAll =>
        if pending == [] then v.disk == d && v.log == old(v.log) && report == NothingToApprove
        else
          var b := ApproveBatch(d, pending);
          v.disk == b.disk && v.log == old(v.log) + b.events
          && report == BatchApproved(b.approved, |pending|)
      case ApproveOne(name) =>
        var o := ApproveFileResult(d, name);
        v.disk == o.disk && v.log == old(v.log) + ApproveEvents(d, name, o.ok)
        && report == SingleApproval(o.ok)
  {
    v.MakeFolder(PendingApproval);
    v.MakeFolder(Approved);
    v.MakeFolder(Logs);
    var pending := FileOps.ListTasks(v.disk, PendingApproval);
    var cmd := ParseCommand(args);
    match cmd
    case ListPending =>
      report := PendingListing(ListingEntries(pending));
    case ApproveAll =>
      if pending == [] {
        report := NothingToApprove;
      } else {
        var n := ApproveEach(v, pending);
        report := BatchApproved(n, |pending|);
      }
    case ApproveOne(name) =>
      var ok := ApproveFile(v, name);
      report := SingleApproval(ok);
  }
}
