/** watcher_inbox.py: one sweep that moves every "*.md" file of Inbox/ to
    Needs_Action/ under the same name. Each move is the write of the bytes at
    the destination followed by the unlink of the source, inside try/except,
    so a file that cannot be moved stays where it is and the loop goes on. */
module WatcherInbox {
  import opened Strings
  import opened Wrappers
  import opened Audit
  import opened FileOps

  function Source(n: string): Path { Path(Inbox, n) }
  function Dest(n: string): Path { Path(NeedsAction, n) }

  /** The move of one file succeeds exactly when neither its source nor its
      destination raises and the source can be unlinked (the source is
      listed and Needs_Action/ exists). */
  predicate CanMove(faulty: set<Path>, pinned: set<Path>, n: string) {
    Source(n) !in faulty && Dest(n) !in faulty && Source(n) !in pinned
  }

  /** The copy of one file is written but its source cannot be unlinked: the
      except branch is taken after write_bytes, so the file is in both folders. */
  predicate CopiedOnly(faulty: set<Path>, pinned: set<Path>, n: string) {
    Source(n) !in faulty && Dest(n) !in faulty && Source(n) in pinned
  }

  /** One turn of the loop: read, write, unlink; an exception skips the file. */
  function MoveOne(d: Disk, n: string): Outcome {
    match ReadText(d, Source(n))
    case None => Outcome(d, false)
    case Some(bytes) =>
      var w := WriteText(d, Dest(n), bytes);
      if !w.ok then Outcome(d, false)
      else Unlink(w.disk, Source(n))
  }

  datatype Swept = Swept(disk: Disk, events: seq<Event>)

  /** The loop over the sorted listing. */
  function MoveAll(d: Disk, names: seq<string>): Swept
    decreases |names|
  {
    if names == [] then Swept(d, [])
    else
      var o := MoveOne(d, names[0]);
      var rest := MoveAll(o.disk, names[1..]);
      Swept(rest.disk, (if o.ok then [InboxMoved(names[0])] else []) + rest.events)
  }

  /** How main() ends. */
  datatype Exit = NoFiles | SweptAll

  datatype InboxRun = InboxRun(disk: Disk, events: seq<Event>, exit: Exit)

  /** main(): both folders are created, the "*.md" files of Inbox/ other
      than ".gitkeep" are listed in sorted order and moved one by one. */
  function RunInbox(d: Disk): InboxRun {
    var d1 := MakeDir(MakeDir(d, Inbox), NeedsAction);
    var names := ListFiles(d1, Inbox, AnyMd);
    if names == [] then InboxRun(d1, [], NoFiles)
    else
      var s := MoveAll(d1, names);
      InboxRun(s.disk, s.events, SweptAll)
  }

  // ---------------------------------------------------------------------------
  // Properties
  // ---------------------------------------------------------------------------

  /** The names the loop moves, in loop order: those whose paths do not raise. */
  function Movable(faulty: set<Path>, pinned: set<Path>, names: seq<string>): (r: seq<string>)
    ensures forall n :: n in r <==> n in names && CanMove(faulty, pinned, n)
  {
    if names == [] then []
    else (if CanMove(faulty, pinned, names[0]) then [names[0]] else []) + Movable(faulty, pinned, names[1..])
  }

  function MovedEvents(ns: seq<string>): (r: seq<Event>)
    ensures |r| == |ns|
    ensures forall k :: 0 <= k < |ns| ==> r[k] == InboxMoved(ns[k])
  {
    if ns == [] then [] else [InboxMoved(ns[0])] + MovedEvents(ns[1..])
  }

  /** The paths one name can touch. */
  ghost function Touched(names: seq<string>): set<Path> {
    (set n | n in names :: Source(n)) + (set n | n in names :: Dest(n))
  }

  ghost predicate AllListed(d: Disk, names: seq<string>) {
    forall k :: 0 <= k < |names| ==> Source(names[k]) in d.files
  }

  /** One file's move: on success the destination holds the source's bytes
      (replacing any file there) and the source is gone; when only the unlink
      raises, the destination holds the bytes and the source stays; when the
      read or the write raises, nothing changes. No other path is touched. */
  lemma MoveOneOutcome(d: Disk, n: string)
    requires NeedsAction in d.dirs && Source(n) in d.files
    ensures var o := MoveOne(d, n);
      && (o.ok <==> CanMove(d.faulty, d.pinned, n))
      && (o.ok ==> o.disk.files == (d.files - {Source(n)})[Dest(n) := d.files[Source(n)]])
      && (CopiedOnly(d.faulty, d.pinned, n) ==> o.disk.files == d.files[Dest(n) := d.files[Source(n)]])
      && (!o.ok && !CopiedOnly(d.faulty, d.pinned, n) ==> o.disk == d)
      && o.disk.dirs == d.dirs && o.disk.faulty == d.faulty && o.disk.pinned == d.pinned
  {
  }

  lemma TouchedTail(names: seq<string>)
    requires names != []
    ensures Touched(names) == Touched(names[1..]) + {Source(names[0]), Dest(names[0])}
  {
    assert forall n :: n in names <==> n == names[0] || n in names[1..];
  }

  lemma DistinctTail(d: Disk, names: seq<string>)
    requires names != [] && Distinct(names) && AllListed(d, names)
    ensures Distinct(names[1..]) && names[0] !in names[1..]
    ensures forall d': Disk :: d'.files == (d.files - {Source(names[0])})[Dest(names[0]) := d.files[Source(names[0])]] ==> AllListed(d', names[1..])
    ensures forall d': Disk :: d'.files == d.files[Dest(names[0]) := d.files[Source(names[0])]] ==> AllListed(d', names[1..])
  {
    assert forall k :: 0 <= k < |names| - 1 ==> names[1..][k] == names[k + 1];
  }

  /** The loop touches only the listed names' two paths, keeps the folders,
      never raises, and logs exactly the movable names in order. */
  lemma {:induction false} MoveAllOutcome(d: Disk, names: seq<string>)
    requires NeedsAction in d.dirs && Distinct(names) && AllListed(d, names)
    ensures var s := MoveAll(d, names);
      && SameExcept(d, s.disk, Touched(names))
      && s.disk.dirs == d.dirs
      && s.events == MovedEvents(Movable(d.faulty, d.pinned, names))
    decreases |names|
  {
    if names != [] {
      var n := names[0];
      var o := MoveOne(d, n);
      MoveOneOutcome(d, n);
      DistinctTail(d, names);
      TouchedTail(names);
      MoveAllOutcome(o.disk, names[1..]);
    }
  }

  /** Each listed name ends as its own move left it: moved with its bytes
      when its paths are sound, copied with the source kept when only the
      unlink raises, both paths untouched otherwise. */
  lemma {:induction false} MoveAllMovesEach(d: Disk, names: seq<string>, k: nat)
    requires NeedsAction in d.dirs && Distinct(names) && AllListed(d, names) && k < |names|
    ensures var s := MoveAll(d, names);
      var n := names[k];
      if CanMove(d.faulty, d.pinned, n) then
        && Source(n) !in s.disk.files
        && Dest(n) in s.disk.files && s.disk.files[Dest(n)] == d.files[Source(n)]
      else if CopiedOnly(d.faulty, d.pinned, n) then
        && Source(n) in s.disk.files && s.disk.files[Source(n)] == d.files[Source(n)]
        && Dest(n) in s.disk.files && s.disk.files[Dest(n)] == d.files[Source(n)]
      else
        && Source(n) in s.disk.files && s.disk.files[Source(n)] == d.files[Source(n)]
        && (Dest(n) in s.disk.files <==> Dest(n) in d.files)
        && (Dest(n) in d.files ==> s.disk.files[Dest(n)] == d.files[Dest(n)])
    decreases |names|
  {
    var o := MoveOne(d, names[0]);
    MoveOneOutcome(d, names[0]);
    DistinctTail(d, names);
    if k == 0 {
      MoveAllOutcome(o.disk, names[1..]);
      assert Source(names[0]) !in Touched(names[1..]) && Dest(names[0]) !in Touched(names[1..]);
    } else {
      assert names[k] == names[1..][k - 1];
      assert names[k] != names[0];
      MoveAllMovesEach(o.disk, names[1..], k - 1);
    }
  }

  /** The listing handed to the loop satisfies the loop lemmas' demands. */
  lemma ListingIsDistinct(d: Disk)
    ensures var names := ListFiles(d, Inbox, AnyMd);
      Distinct(names) && AllListed(d, names)
  {
    var names := ListFiles(d, Inbox, AnyMd);
    forall i, j | 0 <= i < j < |names| ensures names[i] != names[j] {
      SortedDistinct(names, i, j);
    }
    assert forall k :: 0 <= k < |names| ==> names[k] in names;
  }

  /** An empty Inbox/ changes nothing but the two folders, and logs nothing. */
  lemma EmptyInboxChangesNothing(d: Disk)
    requires forall p :: p in d.files && p.dir == Inbox ==> !EndsWith(p.name, MdSuffix) || p.name == GitKeep
    ensures var r := RunInbox(d);
      && r.disk == MakeDir(MakeDir(d, Inbox), NeedsAction) && r.events == [] && r.exit == NoFiles
  {
    var d1 := MakeDir(MakeDir(d, Inbox), NeedsAction);
    assert FolderNames(d1, Inbox, AnyMd) == {};
  }

  /** Over a whole run: a file that is not a listed "*.md" of Inbox/ or its
      namesake in Needs_Action/ is untouched; every listed file is moved
      with its bytes under the same name exactly when its paths are sound,
      is copied and kept when only its unlink raises, and stays in Inbox/
      otherwise; the log names the moved files in sorted order. */
  lemma RunInboxOutcome(d: Disk)
    ensures var r := RunInbox(d);
      var d1 := MakeDir(MakeDir(d, Inbox), NeedsAction);
      var names := ListFiles(d1, Inbox, AnyMd);
      && SameExcept(d1, r.disk, Touched(names))
      && r.disk.dirs == d1.dirs
      && r.events == MovedEvents(Movable(d.faulty, d.pinned, names))
      && (forall n :: n in names && CanMove(d.faulty, d.pinned, n) ==>
            Source(n) !in r.disk.files && Dest(n) in r.disk.files && r.disk.files[Dest(n)] == d.files[Source(n)])
      && (forall n :: n in names && CopiedOnly(d.faulty, d.pinned, n) ==>
            Dest(n) in r.disk.files && r.disk.files[Dest(n)] == d.files[Source(n)])
      && (forall n :: n in names && !CanMove(d.faulty, d.pinned, n) ==>
            Source(n) in r.disk.files && r.disk.files[Source(n)] == d.files[Source(n)])
  {
    var d1 := MakeDir(MakeDir(d, Inbox), NeedsAction);
    var names := ListFiles(d1, Inbox, AnyMd);
    ListingIsDistinct(d1);
    MoveAllOutcome(d1, names);
    forall n | n in names
      ensures CanMove(d.faulty, d.pinned, n) ==>
        Source(n) !in RunInbox(d).disk.files && Dest(n) in RunInbox(d).disk.files
        && RunInbox(d).disk.files[Dest(n)] == d.files[Source(n)]
      ensures CopiedOnly(d.faulty, d.pinned, n) ==>
        Dest(n) in RunInbox(d).disk.files && RunInbox(d).disk.files[Dest(n)] == d.files[Source(n)]
      ensures !CanMove(d.faulty, d.pinned, n) ==>
        Source(n) in RunInbox(d).disk.files && RunInbox(d).disk.files[Source(n)] == d.files[Source(n)]
    {
      var k :| 0 <= k < |names| && names[k] == n;
      MoveAllMovesEach(d1, names, k);
    }
  }

  /** Non-"*.md" files and files outside the two folders are never touched. */
  lemma OnlyMarkdownMoves(d: Disk, p: Path)
    requires p in d.files && ((p.dir != Inbox && p.dir != NeedsAction) || !EndsWith(p.name, MdSuffix))
    ensures p in RunInbox(d).disk.files && RunInbox(d).disk.files[p] == d.files[p]
  {
    RunInboxOutcome(d);
    var d1 := MakeDir(MakeDir(d, Inbox), NeedsAction);
    assert p !in Touched(ListFiles(d1, Inbox, AnyMd));
  }

  // ---------------------------------------------------------------------------
  // The script
  // ---------------------------------------------------------------------------

  /** One turn of the loop, then the rest of it. */
  lemma MoveStep(d: Disk, names: seq<string>, i: nat, log: seq<Event>)
    requires i < |names|
    ensures var o := MoveOne(d, names[i]);
      var here := MoveAll(d, names[i..]);
      var rest := MoveAll(o.disk, names[i + 1..]);
      var e := if o.ok then [InboxMoved(names[i])] else [];
      && rest.disk == here.disk
      && (log + e) + rest.events == log + here.events
  {
    assert names[i..][1..] == names[i + 1..];
    var o := MoveOne(d, names[i]);
    var e := if o.ok then [InboxMoved(names[i])] else [];
    LogAssoc(log, e, MoveAll(o.disk, names[i + 1..]).events);
  }

  /** The try block for one file. */
  method MoveFileOnce(v: Vault, n: string) returns (ok: bool)
    requires v.Valid()
    modifies v`disk
    ensures v.Valid() && Outcome(v.disk, ok) == MoveOne(old(v.disk), n)
  {
    var bytes := ReadText(v.disk, Source(n));
    if bytes.None? {
      return false;
    }
    ok := v.WriteTextRaw(Dest(n), bytes.value);
    if !ok {
      return false;
    }
    ok := v.UnlinkRaw(Source(n));
  }

  /** The try block and, when it succeeded, its log line. */
  method MoveAndLog(v: Vault, n: string)
    requires v.Valid()
    modifies v`disk, v`log
    ensures var o := MoveOne(old(v.disk), n);
      && v.Valid() && v.disk == o.disk
      && v.log == old(v.log) + (if o.ok then [InboxMoved(n)] else [])
  {
    var ok := MoveFileOnce(v, n);
    if ok {
      v.Record(InboxMoved(n));
    }
  }

  method MoveEach(v: Vault, names: seq<string>)
    requires v.Valid()
    modifies v`disk, v`log
    ensures v.Valid()
    ensures var s := MoveAll(old(v.disk), names);
      v.disk == s.disk && v.log == old(v.log) + s.events
  {
    ghost var d0, log0 := v.disk, v.log;
    var i := 0;
    while i < |names|
      invariant 0 <= i <= |names|
      invariant v.Valid()
      invariant var rest := MoveAll(v.disk, names[i..]);
        var all := MoveAll(d0, names);
        rest.disk == all.disk && v.log + rest.events == log0 + all.events
    {
      MoveStep(v.disk, names, i, v.log);
      MoveAndLog(v, names[i]);
      i := i + 1;
    }
  }

  method Run(v: Vault) returns (exit: Exit)
    requires v.Valid()
    modifies v`disk, v`log
    ensures v.Valid()
    ensures var r := RunInbox(old(v.disk));
      v.disk == r.disk && v.log == old(v.log) + r.events && exit == r.exit
  {
    v.MakeFolder(Inbox);
    v.MakeFolder(NeedsAction);
    var names := ListFiles(v.disk, Inbox, AnyMd);
    if names == [] {
      return NoFiles;
    }
    MoveEach(v, names);
    exit := SweptAll;
  }
}
