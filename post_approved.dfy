/** post_approved.py: publishes the LinkedIn drafts a human has moved into
    Approved/. It first reports (and never touches) the drafts still waiting
    in Pending_Approval/, then tries each linkedin_draft_*.md of Approved/
    once: a draft whose task hash is already in Logs/posted_ids.json is
    skipped, a draft that posts is moved to Done/ and its hash recorded, and
    every other draft stays in Approved/. */
module PostApproved {
  import opened Strings
  import opened Wrappers
  import opened Audit
  import opened FileOps
  import opened LinkedInOps
  import opened DraftText

  // ---------------------------------------------------------------------------
  // Logs/posted_ids.json
  // ---------------------------------------------------------------------------

  /** _load_posted_ids(): the "posted_hashes" list as a set; a missing or
      unloadable file gives the empty set. */
  function LoadPostedIds(ledger: JsonFile<seq<string>>): (r: set<string>)
    ensures !ledger.Stored? ==> r == {}
    ensures ledger.Stored? ==> forall h :: h in r <==> h in ledger.value
  {
    if ledger.Stored? then set h | h in ledger.value else {}
  }

  /** _save_posted_ids(hashes): the set as a sorted list. */
  function SavePostedIds(hashes: set<string>): (r: JsonFile<seq<string>>)
    ensures r.Stored? && StrictlySorted(r.value) && |r.value| == |hashes|
  {
    Stored(SortedSet(hashes))
  }

  /** Loading what was saved gives the saved set back. */
  lemma LedgerRoundTrip(hashes: set<string>)
    ensures LoadPostedIds(SavePostedIds(hashes)) == hashes
  {
    var l := LoadPostedIds(SavePostedIds(hashes));
    assert forall h :: h in l <==> h in hashes;
  }

  // ---------------------------------------------------------------------------
  // The HITL block: report the drafts still in Pending_Approval/
  // ---------------------------------------------------------------------------

  /** One blocked_without_approval entry per pending name, in order. */
  function BlockEvents(names: seq<string>): (r: seq<Event>)
    ensures |r| == |names|
    decreases |names|
  {
    if names == [] then [] else BlockEvents(names[..|names| - 1]) + [BlockedWithoutApproval(names[|names| - 1])]
  }

  lemma {:induction false} BlockEventsAt(names: seq<string>, k: nat)
    requires k < |names|
    ensures BlockEvents(names)[k] == BlockedWithoutApproval(names[k])
    decreases |names|
  {
    var n := |names| - 1;
    if k < n {
      BlockEventsAt(names[..n], k);
    }
  }

  /** _check_and_log_pending_blocks(): creates Pending_Approval/, logs one
      block per pending draft and returns how many there are. */
  method CheckPendingBlocks(v: Vault) returns (count: nat)
    requires v.Valid()
    modifies v`disk, v`log
    ensures v.Valid() && v.disk == MakeDir(old(v.disk), PendingApproval)
    ensures var pending := ListFiles(v.disk, PendingApproval, LinkedInDraft);
      count == |pending| && v.log == old(v.log) + BlockEvents(pending)
  {
    v.MakeFolder(PendingApproval);
    var pending := ListFiles(v.disk, PendingApproval, LinkedInDraft);
    if pending == [] {
      assert v.log + BlockEvents(pending) == v.log;
      return 0;
    }
    LogBlocks(v, pending);
    count := |pending|;
  }

  /** The for-loop of _check_and_log_pending_blocks(): one entry per name. */
  method LogBlocks(v: Vault, pending: seq<string>)
    modifies v`log
    ensures v.log == old(v.log) + BlockEvents(pending)
  {
    ghost var log0 := v.log;
    var i := 0;
    while i < |pending|
      invariant 0 <= i <= |pending|
      invariant v.log == log0 + BlockEvents(pending[..i])
    {
      assert pending[..i + 1][..i] == pending[..i];
      LogAssoc(log0, BlockEvents(pending[..i]), [BlockedWithoutApproval(pending[i])]);
      v.Record(BlockedWithoutApproval(pending[i]));
      i := i + 1;
    }
    assert pending[..i] == pending;
  }

  /** The blocked count is the number of linkedin_draft_*.md names waiting
      in Pending_Approval/. */
  lemma BlockedCountIsPendingDrafts(d: Disk)
    ensures |ListFiles(MakeDir(d, PendingApproval), PendingApproval, LinkedInDraft)|
      == |FolderNames(d, PendingApproval, LinkedInDraft)|
  {
    var d2 := MakeDir(d, PendingApproval);
    assert FolderNames(d2, PendingApproval, LinkedInDraft) == FolderNames(d, PendingApproval, LinkedInDraft);
  }

  // ---------------------------------------------------------------------------
  // One draft of the dispatch loop
  // ---------------------------------------------------------------------------

  /** How the loop body ends for one draft. `hash` is "" when the draft has
      none; `text` is the post text handed to create_post. */
  datatype Verdict =
    | ReadFailed
    | Duplicate(hash: string)
    | NoText(hash: string)
    | Published(hash: string, text: string, postId: string)
    | Kept(hash: string, text: string, reason: string)
    | Failed(hash: string, text: string, reason: string)
  {
    /** create_post was called for the draft. */
    predicate Called() { Published? || Kept? || Failed? }
  }

  /** The loop body's decision for Approved/name, given the hashes known so
      far and what the network answers if create_post calls it. */
  function Attempt(d: Disk, hashes: set<string>, name: string, cfg: Config, reply: HttpReply): (r: Verdict)
    ensures r.ReadFailed? <==> ReadText(d, Path(Approved, name)).None?
    ensures !r.ReadFailed? ==> r.hash == ExtractHash(ReadText(d, Path(Approved, name)).value)
    ensures r.Duplicate? <==> !r.ReadFailed? && r.hash != "" && r.hash in hashes
    ensures r.Called() ==>
      && (r.hash == "" || r.hash !in hashes)
      && r.text == ExtractPostText(ReadText(d, Path(Approved, name)).value) && r.text != ""
    ensures r.Published? <==> r.Called() && CreatePostResult(cfg, reply).Posted?
    ensures r.Kept? ==> r.reason in {SimulatedReason, NotConfiguredReason}
    ensures r.Failed? ==> r.reason !in {SimulatedReason, NotConfiguredReason}
  {
    match ReadText(d, Path(Approved, name))
    case None => ReadFailed
    case Some(content) =>
      var h := ExtractHash(content);
      if h != "" && h in hashes then Duplicate(h)
      else
        var text := ExtractPostText(content);
        if text == "" then NoText(h)
        else match CreatePostResult(cfg, reply)
          case Posted(id) => Published(h, text, id)
          case NotPosted(reason) =>
            if reason == SimulatedReason || reason == NotConfiguredReason then Kept(h, text, reason)
            else Failed(h, text, reason)
  }

  /** The "stats" dictionary. */
  datatype Stats = Stats(found: nat, posted: nat, duplicates: nat, notConfigured: nat, errors: nat)

  /** The number of drafts the counters account for. */
  function Counted(s: Stats): nat {
    s.posted + s.duplicates + s.notConfigured + s.errors
  }

  /** Each verdict bumps exactly one counter. */
  function Tally(s: Stats, v: Verdict): (r: Stats)
    ensures r.found == s.found && Counted(r) == Counted(s) + 1
    ensures r.posted == s.posted + (if v.Published? then 1 else 0)
    ensures r.duplicates == s.duplicates + (if v.Duplicate? then 1 else 0)
    ensures r.notConfigured == s.notConfigured + (if v.Kept? then 1 else 0)
  {
    match v
    case Published(_, _, _) => s.(posted := s.posted + 1)
    case Duplicate(_) => s.(duplicates := s.duplicates + 1)
    case Kept(_, _, _) => s.(notConfigured := s.notConfigured + 1)
    case _ => s.(errors := s.errors + 1)
  }

  /** The dispatcher's own log entry for a verdict. */
  function VerdictEntry(name: string, v: Verdict): seq<Event> {
    match v
    case ReadFailed => []
    case Duplicate(h) => [DuplicateSkipped(name, h)]
    case NoText(_) => []
    case Published(h, _, id) => [PostedAndDone(name, id, h)]
    case Kept(_, _, reason) => [KeptInApproved(name, reason)]
    case Failed(_, _, reason) => [PostApiError(name, reason)]
  }

  /** What the loop body logs: create_post's own entries, then the dispatcher's. */
  function VerdictEvents(name: string, v: Verdict, cfg: Config, reply: HttpReply): seq<Event> {
    (if v.Called() then CreatePostEvents(cfg, reply) else []) + VerdictEntry(name, v)
  }

  /** The disk after the body: only a published draft is moved to Done/. */
  function NewDisk(d: Disk, name: string, v: Verdict): (r: Disk)
    ensures !v.Published? ==> r == d
    ensures SameExcept(d, r, if v.Published? then DraftPaths(name) else {})
    ensures v.Published? && Path(Approved, name) in d.files && Path(Approved, name) !in d.faulty ==>
      if Path(Done, name) !in d.faulty then
        && Path(Approved, name) !in r.files
        && Path(Done, name) in r.files && r.files[Path(Done, name)] == d.files[Path(Approved, name)]
      else r.files == d.files
  {
    if v.Published? then MoveFileResult(d, Path(Approved, name), Path(Done, name)).disk else d
  }

  /** The two paths the body may change for a draft. */
  function DraftPaths(name: string): set<Path> {
    {Path(Approved, name), Path(Done, name)}
  }

  /** posted_hashes after the body: a published draft's non-empty hash is added. */
  function NewHashes(hashes: set<string>, v: Verdict): (r: set<string>)
    ensures hashes <= r
    ensures r == hashes + (if v.Published? && v.hash != "" then {v.hash} else {})
  {
    if v.Published? && v.hash != "" then hashes + {v.hash} else hashes
  }

  /** posted_ids.json after the body: saved right after a hash is added. */
  function NewLedger(ledger: JsonFile<seq<string>>, hashes: set<string>, v: Verdict): (r: JsonFile<seq<string>>)
    ensures v.Published? && v.hash != "" ==> LoadPostedIds(r) == hashes + {v.hash}
    ensures !(v.Published? && v.hash != "") ==> r == ledger
  {
    if v.Published? && v.hash != "" then SavePostedIds(hashes + {v.hash}) else ledger
  }

  /** One call of create_post: which draft, with what text and hash, and
      whether it posted. */
  datatype Call = Call(file: string, text: string, hash: string, posted: bool)

  function CallOf(name: string, v: Verdict): (r: seq<Call>)
    ensures |r| == (if v.Called() then 1 else 0)
  {
    if v.Called() then [Call(name, v.text, v.hash, v.Published?)] else []
  }

  /** The loop's state: disk, posted_hashes, the ledger file, stats, the new
      log entries and the create_post calls made so far. */
  datatype Dispatch = Dispatch(
    disk: Disk, hashes: set<string>, ledger: JsonFile<seq<string>>,
    stats: Stats, events: seq<Event>, calls: seq<Call>)

  function Step(st: Dispatch, name: string, cfg: Config, reply: HttpReply): Dispatch {
    var v := Attempt(st.disk, st.hashes, name, cfg, reply);
    Dispatch(
      NewDisk(st.disk, name, v), NewHashes(st.hashes, v), NewLedger(st.ledger, st.hashes, v),
      Tally(st.stats, v), st.events + VerdictEvents(name, v, cfg, reply), st.calls + CallOf(name, v))
  }

  /** The loop over `names`; `net(name)` is what the network answers to the
      post of that draft. */
  function DispatchAll(st: Dispatch, names: seq<string>, cfg: Config, net: string -> HttpReply): Dispatch
    decreases |names|
  {
    if names == [] then st
    else DispatchAll(Step(st, names[0], cfg, net(names[0])), names[1..], cfg, net)
  }

  /** One turn of the loop, as the for-loop's invariant needs it. */
  lemma DispatchStep(st: Dispatch, names: seq<string>, i: nat, cfg: Config, net: string -> HttpReply, all: Dispatch)
    requires i < |names| && DispatchAll(st, names[i..], cfg, net) == all
    ensures DispatchAll(Step(st, names[i], cfg, net(names[i])), names[i + 1..], cfg, net) == all
  {
    assert names[i..][1..] == names[i + 1..];
  }

  // ---------------------------------------------------------------------------
  // Properties of the dispatch loop
  // ---------------------------------------------------------------------------

  /** Every draft of the loop bumps exactly one counter. */
  lemma {:induction false} DispatchCountsEachDraftOnce(st: Dispatch, names: seq<string>, cfg: Config, net: string -> HttpReply)
    ensures var r := DispatchAll(st, names, cfg, net);
      r.stats.found == st.stats.found && Counted(r.stats) == Counted(st.stats) + |names|
    decreases |names|
  {
    if names != [] {
      DispatchCountsEachDraftOnce(Step(st, names[0], cfg, net(names[0])), names[1..], cfg, net);
    }
  }

  /** The non-empty hashes of the calls that posted. */
  ghost function PostedHashes(calls: seq<Call>): set<string>
    decreases |calls|
  {
    if calls == [] then {}
    else
      var c := calls[|calls| - 1];
      PostedHashes(calls[..|calls| - 1]) + (if c.posted && c.hash != "" then {c.hash} else {})
  }

  /** Every call's hash is empty, or neither known at the start nor the hash
      of an earlier call that posted. */
  ghost predicate NoRepost(calls: seq<Call>, known: set<string>)
    decreases |calls|
  {
    calls == [] ||
      var c, earlier := calls[|calls| - 1], calls[..|calls| - 1];
      NoRepost(earlier, known) && (c.hash == "" || c.hash !in known + PostedHashes(earlier))
  }

  /** NoRepost, pairwise: no call carries a known hash, and no call repeats
      the non-empty hash of an earlier call that posted. */
  lemma {:induction false} NoRepostPairwise(calls: seq<Call>, known: set<string>)
    requires NoRepost(calls, known)
    ensures forall k :: 0 <= k < |calls| && calls[k].hash != "" ==> calls[k].hash !in known
    ensures forall i, j :: 0 <= i < j < |calls| && calls[i].posted && calls[i].hash != "" ==>
      calls[j].hash != calls[i].hash
    decreases |calls|
  {
    if calls != [] {
      var n := |calls| - 1;
      var earlier := calls[..n];
      NoRepostPairwise(earlier, known);
      forall i | 0 <= i < n && calls[i].posted && calls[i].hash != ""
        ensures calls[i].hash in PostedHashes(earlier)
      {
        PostedHashesHas(earlier, i);
      }
    }
  }

  lemma {:induction false} PostedHashesHas(calls: seq<Call>, i: nat)
    requires i < |calls| && calls[i].posted && calls[i].hash != ""
    ensures calls[i].hash in PostedHashes(calls)
    decreases |calls|
  {
    var n := |calls| - 1;
    if i < n {
      assert calls[..n][i] == calls[i];
      PostedHashesHas(calls[..n], i);
    }
  }

  /** posted_hashes is what was known at the start plus the hashes posted. */
  ghost predicate LedgerConsistent(st: Dispatch, known: set<string>) {
    st.hashes == known + PostedHashes(st.calls)
  }

  /** One more create_post call keeps the ledger invariant, provided a
      called draft's hash is not already known. */
  lemma CallKeepsLedger(calls: seq<Call>, hashes: set<string>, known: set<string>, name: string, v: Verdict)
    requires hashes == known + PostedHashes(calls) && NoRepost(calls, known)
    requires v.Called() ==> v.hash == "" || v.hash !in hashes
    ensures NewHashes(hashes, v) == known + PostedHashes(calls + CallOf(name, v))
    ensures NoRepost(calls + CallOf(name, v), known)
  {
    var r := calls + CallOf(name, v);
    if v.Called() {
      assert r[..|calls|] == calls;
    } else {
      assert r == calls;
    }
  }

  lemma StepKeepsLedger(st: Dispatch, name: string, cfg: Config, reply: HttpReply, known: set<string>)
    requires LedgerConsistent(st, known) && NoRepost(st.calls, known)
    ensures var r := Step(st, name, cfg, reply);
      LedgerConsistent(r, known) && NoRepost(r.calls, known) && st.hashes <= r.hashes
  {
    var v := Attempt(st.disk, st.hashes, name, cfg, reply);
    StepIs(st, name, cfg, reply, v);
    CallKeepsLedger(st.calls, st.hashes, known, name, v);
  }

  /** Step, spelled out for a given verdict. */
  lemma StepIs(st: Dispatch, name: string, cfg: Config, reply: HttpReply, verdict: Verdict)
    requires verdict == Attempt(st.disk, st.hashes, name, cfg, reply)
    ensures Step(st, name, cfg, reply) == Dispatch(
      NewDisk(st.disk, name, verdict), NewHashes(st.hashes, verdict), NewLedger(st.ledger, st.hashes, verdict),
      Tally(st.stats, verdict), st.events + VerdictEvents(name, verdict, cfg, reply), st.calls + CallOf(name, verdict))
  {
  }

  /** The ledger invariant holds across the whole loop, and posted_hashes only grows. */
  lemma {:induction false} DispatchKeepsLedger(st: Dispatch, names: seq<string>, cfg: Config, net: string -> HttpReply, known: set<string>)
    requires LedgerConsistent(st, known) && NoRepost(st.calls, known)
    ensures var r := DispatchAll(st, names, cfg, net);
      LedgerConsistent(r, known) && NoRepost(r.calls, known) && st.hashes <= r.hashes
    decreases |names|
  {
    if names != [] {
      var s1 := Step(st, names[0], cfg, net(names[0]));
      StepKeepsLedger(st, names[0], cfg, net(names[0]), known);
      DispatchKeepsLedger(s1, names[1..], cfg, net, known);
    }
  }

  /** Every path the loop may touch: Approved/n and Done/n for its names. */
  ghost function LoopPaths(names: seq<string>): set<Path> {
    set n, p | n in names && p in DraftPaths(n) :: p
  }

  /** The loop changes nothing outside Approved/n and Done/n of its drafts:
      in particular nothing in Pending_Approval/. */
  lemma {:induction false} DispatchTouchesOnlyDrafts(st: Dispatch, names: seq<string>, cfg: Config, net: string -> HttpReply)
    ensures SameExcept(st.disk, DispatchAll(st, names, cfg, net).disk, LoopPaths(names))
    decreases |names|
  {
    if names != [] {
      var s1 := Step(st, names[0], cfg, net(names[0]));
      DispatchTouchesOnlyDrafts(s1, names[1..], cfg, net);
      assert LoopPaths(names[1..]) <= LoopPaths(names) by {
        forall p | p in LoopPaths(names[1..]) ensures p in LoopPaths(names) {
          var n :| n in names[1..] && p in DraftPaths(n);
          assert n in names;
        }
      }
      assert DraftPaths(names[0]) <= LoopPaths(names);
    }
  }

  /** A path whose presence or contents differ between two disks. */
  ghost predicate Changed(a: Disk, b: Disk, p: Path) {
    (p in a.files) != (p in b.files) || (p in a.files && p in b.files && a.files[p] != b.files[p])
  }

  /** The call index k posted the draft `name`. */
  ghost predicate PostedAt(calls: seq<Call>, k: int, name: string) {
    0 <= k < |calls| && calls[k].posted && calls[k].file == name
  }

  /** A draft leaves Approved/ (or anything changes in Done/) only for a
      draft whose create_post call posted. */
  lemma {:induction false} DispatchMovesOnlyPosted(st: Dispatch, names: seq<string>, cfg: Config, net: string -> HttpReply, p: Path)
    requires Changed(st.disk, DispatchAll(st, names, cfg, net).disk, p)
    ensures exists k :: PostedAt(DispatchAll(st, names, cfg, net).calls, k, p.name)
    decreases |names|
  {
    var r := DispatchAll(st, names, cfg, net);
    if names != [] {
      var s1 := Step(st, names[0], cfg, net(names[0]));
      DispatchUnfold(st, names, cfg, net);
      DispatchCallsGrow(s1, names[1..], cfg, net);
      if Changed(s1.disk, r.disk, p) {
        DispatchMovesOnlyPosted(s1, names[1..], cfg, net, p);
      } else {
        StepMovesOnlyPosted(st, names[0], cfg, net(names[0]), p);
        PostedAtPrefix(s1.calls, r.calls, |st.calls|, p.name);
      }
    }
  }

  /** What a posted draft leaves in `e`, measured against the disk `d0` it
      was read from: it was a readable file of Approved/; unless Done/<name>
      raises it has moved there with its contents, and otherwise the ignored
      failure of move_file leaves it in Approved/. */
  ghost predicate PostedOutcome(d0: Disk, n: string, e: Disk) {
    var a, dn := Path(Approved, n), Path(Done, n);
    && a in d0.files && a !in d0.faulty
    && (dn !in d0.faulty ==> a !in e.files && dn in e.files && e.files[dn] == d0.files[a])
    && (dn in d0.faulty ==> a in e.files && e.files[a] == d0.files[a])
  }

  /** A published step moves its draft. */
  lemma StepPublishes(st: Dispatch, n0: string, cfg: Config, reply: HttpReply)
    requires Attempt(st.disk, st.hashes, n0, cfg, reply).Published?
    ensures PostedOutcome(st.disk, n0, Step(st, n0, cfg, reply).disk)
  {
    StepDisk(st, n0, cfg, reply);
  }

  /** Changes away from a draft's two paths keep its outcome, after the
      fact and before it. */
  lemma OutcomeAfter(d0: Disk, n: string, e: Disk, e': Disk, changed: set<Path>)
    requires PostedOutcome(d0, n, e) && SameExcept(e, e', changed)
    requires Path(Approved, n) !in changed && Path(Done, n) !in changed
    ensures PostedOutcome(d0, n, e')
  {
  }

  lemma OutcomeBefore(d0: Disk, d1: Disk, n: string, e: Disk, changed: set<Path>)
    requires PostedOutcome(d1, n, e) && SameExcept(d0, d1, changed)
    requires Path(Approved, n) !in changed && Path(Done, n) !in changed
    ensures PostedOutcome(d0, n, e)
  {
    SameExceptAt(d0, d1, changed, Path(Approved, n));
  }

  /** The draft paths of a name outside the list are not loop paths. */
  lemma NotInLoopPaths(names: seq<string>, n: string)
    requires n !in names
    ensures Path(Approved, n) !in LoopPaths(names) && Path(Done, n) !in LoopPaths(names)
  {
  }

  /** A posted call appended for a verdict is that verdict's draft, published. */
  lemma HeadCall(before: seq<Call>, n0: string, v: Verdict, calls: seq<Call>, k: int, n: string)
    requires var c := before + CallOf(n0, v);
      |before| <= k < |c| <= |calls| && calls[..|c|] == c
    requires PostedAt(calls, k, n)
    ensures n == n0 && v.Published?
  {
    var c := before + CallOf(n0, v);
    assert calls[k] == c[k] == Call(n0, v.text, v.hash, v.Published?);
  }

  /** A published head draft keeps its outcome through the rest of the loop. */
  lemma HeadPosted(st: Dispatch, n0: string, tail: seq<string>, cfg: Config, net: string -> HttpReply)
    requires n0 !in tail && Attempt(st.disk, st.hashes, n0, cfg, net(n0)).Published?
    ensures var s1 := Step(st, n0, cfg, net(n0));
      PostedOutcome(st.disk, n0, DispatchAll(s1, tail, cfg, net).disk)
  {
    var s1 := Step(st, n0, cfg, net(n0));
    StepPublishes(st, n0, cfg, net(n0));
    DispatchTouchesOnlyDrafts(s1, tail, cfg, net);
    NotInLoopPaths(tail, n0);
    OutcomeAfter(st.disk, n0, s1.disk, DispatchAll(s1, tail, cfg, net).disk, LoopPaths(tail));
  }

  /** The body for another name does not disturb a draft's outcome. */
  lemma NewDiskKeepsOutcome(d: Disk, n0: string, v: Verdict, n: string, e: Disk)
    requires n != n0 && PostedOutcome(NewDisk(d, n0, v), n, e)
    ensures PostedOutcome(d, n, e)
  {
    OutcomeBefore(d, NewDisk(d, n0, v), n, e, if v.Published? then DraftPaths(n0) else {});
  }

  /** The converse of DispatchMovesOnlyPosted: for distinct names, a call
      that posted was for one of them, and the loop leaves that draft as
      PostedOutcome says. */
  lemma {:induction false} DispatchMovesPosted(st: Dispatch, names: seq<string>, cfg: Config, net: string -> HttpReply, k: int, n: string)
    requires Distinct(names)
    requires |st.calls| <= k && PostedAt(DispatchAll(st, names, cfg, net).calls, k, n)
    ensures n in names && PostedOutcome(st.disk, n, DispatchAll(st, names, cfg, net).disk)
    decreases |names|
  {
    if names != [] {
      var n0, tail := names[0], names[1..];
      var s1 := Step(st, n0, cfg, net(n0));
      var v := Attempt(st.disk, st.hashes, n0, cfg, net(n0));
      var r := DispatchAll(s1, tail, cfg, net);
      DispatchUnfold(st, names, cfg, net);
      DispatchCallsGrow(s1, tail, cfg, net);
      StepCalls(st, n0, cfg, net(n0));
      StepDisk(st, n0, cfg, net(n0));
      DistinctRest(names);
      if k < |s1.calls| {
        HeadCall(st.calls, n0, v, r.calls, k, n);
        HeadPosted(st, n0, tail, cfg, net);
      } else {
        DispatchMovesPosted(s1, tail, cfg, net, k, n);
        NewDiskKeepsOutcome(st.disk, n0, v, n, r.disk);
      }
    }
  }

  /** DispatchAll on a non-empty list, one step down. */
  lemma DispatchUnfold(st: Dispatch, names: seq<string>, cfg: Config, net: string -> HttpReply)
    requires names != []
    ensures DispatchAll(st, names, cfg, net) == DispatchAll(Step(st, names[0], cfg, net(names[0])), names[1..], cfg, net)
  {
  }

  /** A step that changes a path has just posted the draft of that name. */
  lemma StepMovesOnlyPosted(st: Dispatch, n0: string, cfg: Config, reply: HttpReply, p: Path)
    requires Changed(st.disk, Step(st, n0, cfg, reply).disk, p)
    ensures PostedAt(Step(st, n0, cfg, reply).calls, |st.calls|, p.name)
  {
    var v := Attempt(st.disk, st.hashes, n0, cfg, reply);
    StepDisk(st, n0, cfg, reply);
    StepCalls(st, n0, cfg, reply);
    NewDiskChanges(st.disk, n0, v, p);
    PublishedCall(st.calls, n0, v);
  }

  /** A published verdict's call is a posted call for its draft. */
  lemma PublishedCall(calls: seq<Call>, n0: string, v: Verdict)
    requires v.Published?
    ensures PostedAt(calls + CallOf(n0, v), |calls|, n0)
  {
    assert (calls + CallOf(n0, v))[|calls|] == Call(n0, v.text, v.hash, true);
  }

  /** The calls after one step. */
  lemma StepCalls(st: Dispatch, n0: string, cfg: Config, reply: HttpReply)
    ensures Step(st, n0, cfg, reply).calls == st.calls + CallOf(n0, Attempt(st.disk, st.hashes, n0, cfg, reply))
  {
  }

  /** Only a published draft's two paths can change. */
  lemma NewDiskChanges(d: Disk, name: string, v: Verdict, p: Path)
    requires Changed(d, NewDisk(d, name, v), p)
    ensures v.Published? && p in DraftPaths(name) && p.name == name
  {
  }

  /** A posted call stays where it is when calls are appended. */
  lemma PostedAtPrefix(a: seq<Call>, b: seq<Call>, k: int, name: string)
    requires PostedAt(a, k, name) && |a| <= |b| && b[..|a|] == a
    ensures PostedAt(b, k, name)
  {
    assert b[k] == b[..|a|][k];
  }

  /** The loop only appends calls. */
  lemma {:induction false} DispatchCallsGrow(st: Dispatch, names: seq<string>, cfg: Config, net: string -> HttpReply)
    ensures var r := DispatchAll(st, names, cfg, net);
      |st.calls| <= |r.calls| && r.calls[..|st.calls|] == st.calls
    decreases |names|
  {
    if names != [] {
      var s1 := Step(st, names[0], cfg, net(names[0]));
      DispatchCallsGrow(s1, names[1..], cfg, net);
      assert s1.calls[..|st.calls|] == st.calls;
    }
  }

  /** The call was made for a draft of `d` that was readable in Approved/,
      with that draft's post text (non-empty) and hash. */
  ghost predicate CallFrom(d: Disk, c: Call) {
    var content := ReadText(d, Path(Approved, c.file));
    content.Some? && c.text == ExtractPostText(content.value) && c.text != ""
    && c.hash == ExtractHash(content.value)
  }

  /** One step: the call it makes (if any) is for `n0` and comes from `d0`. */
  lemma StepCallsFrom(st: Dispatch, n0: string, cfg: Config, reply: HttpReply, d0: Disk)
    requires ReadText(st.disk, Path(Approved, n0)) == ReadText(d0, Path(Approved, n0))
    ensures var s1 := Step(st, n0, cfg, reply);
      && |st.calls| <= |s1.calls| && s1.calls[..|st.calls|] == st.calls
      && (forall k :: |st.calls| <= k < |s1.calls| ==> s1.calls[k].file == n0 && CallFrom(d0, s1.calls[k]))
  {
    var v := Attempt(st.disk, st.hashes, n0, cfg, reply);
    StepIs(st, n0, cfg, reply, v);
    AttemptCallFrom(st.disk, st.hashes, n0, cfg, reply, d0);
    CallsAppended(st.calls, n0, v, d0);
  }

  /** A verdict that calls create_post carries the text and hash of the draft as `d0` holds it. */
  lemma AttemptCallFrom(d: Disk, hashes: set<string>, n0: string, cfg: Config, reply: HttpReply, d0: Disk)
    requires ReadText(d, Path(Approved, n0)) == ReadText(d0, Path(Approved, n0))
    ensures var v := Attempt(d, hashes, n0, cfg, reply);
      v.Called() ==> CallFrom(d0, Call(n0, v.text, v.hash, v.Published?))
  {
  }

  /** Appending a verdict's call keeps the earlier calls and adds one for `n0`. */
  lemma CallsAppended(calls: seq<Call>, n0: string, v: Verdict, d0: Disk)
    requires v.Called() ==> CallFrom(d0, Call(n0, v.text, v.hash, v.Published?))
    ensures var c := calls + CallOf(n0, v);
      && |calls| <= |c| && c[..|calls|] == calls
      && (forall k :: |calls| <= k < |c| ==> c[k].file == n0 && CallFrom(d0, c[k]))
  {
    var c := calls + CallOf(n0, v);
    assert c[..|calls|] == calls;
    if v.Called() {
      assert c[|calls|] == Call(n0, v.text, v.hash, v.Published?);
    }
  }

  /** One step changes no other name's Approved/ file. */
  lemma StepKeepsOtherDrafts(st: Dispatch, n0: string, cfg: Config, reply: HttpReply, n: string)
    requires n != n0
    ensures ReadText(Step(st, n0, cfg, reply).disk, Path(Approved, n)) == ReadText(st.disk, Path(Approved, n))
  {
    StepDisk(st, n0, cfg, reply);
    NewDiskKeepsOthers(st.disk, n0, Attempt(st.disk, st.hashes, n0, cfg, reply), Path(Approved, n));
  }

  /** The disk after one step. */
  lemma StepDisk(st: Dispatch, n0: string, cfg: Config, reply: HttpReply)
    ensures Step(st, n0, cfg, reply).disk == NewDisk(st.disk, n0, Attempt(st.disk, st.hashes, n0, cfg, reply))
  {
  }

  lemma NewDiskKeepsOthers(d: Disk, name: string, v: Verdict, p: Path)
    requires p !in DraftPaths(name)
    ensures ReadText(NewDisk(d, name, v), p) == ReadText(d, p)
  {
    var r := NewDisk(d, name, v);
    assert SameExcept(d, r, if v.Published? then DraftPaths(name) else {});
  }

  /** Every call from index `from` on is for one of `names`. */
  ghost predicate CallsFor(calls: seq<Call>, from: nat, names: seq<string>) {
    forall k :: from <= k < |calls| ==> calls[k].file in names
  }

  /** Every call was made for a readable draft of `d0`, with its text and hash. */
  ghost predicate AllFrom(d0: Disk, calls: seq<Call>) {
    forall k :: 0 <= k < |calls| ==> CallFrom(d0, calls[k])
  }

  /** For distinct names read from the same disk `d0`, every call the loop
      makes is for one of its drafts and carries that draft's text read from
      Approved/ in `d0`. */
  lemma {:induction false} DispatchCallsFromApproved(st: Dispatch, names: seq<string>, cfg: Config, net: string -> HttpReply, d0: Disk)
    requires forall i, j :: 0 <= i < j < |names| ==> names[i] != names[j]
    requires forall n :: n in names ==> ReadText(st.disk, Path(Approved, n)) == ReadText(d0, Path(Approved, n))
    requires AllFrom(d0, st.calls)
    ensures var r := DispatchAll(st, names, cfg, net);
      CallsFor(r.calls, |st.calls|, names) && AllFrom(d0, r.calls)
    decreases |names|
  {
    if names != [] {
      var n0 := names[0];
      var tail := names[1..];
      var s1 := Step(st, n0, cfg, net(n0));
      StepCallsFrom(st, n0, cfg, net(n0), d0);
      AllFromGrow(d0, st.calls, s1.calls);
      forall n | n in tail ensures ReadText(s1.disk, Path(Approved, n)) == ReadText(d0, Path(Approved, n)) {
        var j :| 0 <= j < |tail| && tail[j] == n;
        assert names[j + 1] == n;
        StepKeepsOtherDrafts(st, n0, cfg, net(n0), n);
      }
      forall i, j | 0 <= i < j < |tail| ensures tail[i] != tail[j] {
        assert tail[i] == names[i + 1] && tail[j] == names[j + 1];
      }
      DispatchCallsFromApproved(s1, tail, cfg, net, d0);
      DispatchCallsGrow(s1, tail, cfg, net);
      DispatchUnfold(st, names, cfg, net);
      CallsForJoin(st.calls, s1.calls, DispatchAll(s1, tail, cfg, net).calls, names);
    }
  }

  /** Calls appended to calls that all come from d0, each coming from d0. */
  lemma AllFromGrow(d0: Disk, a: seq<Call>, b: seq<Call>)
    requires AllFrom(d0, a) && |a| <= |b| && b[..|a|] == a
    requires forall k :: |a| <= k < |b| ==> CallFrom(d0, b[k])
    ensures AllFrom(d0, b)
  {
    forall k | 0 <= k < |b| ensures CallFrom(d0, b[k]) {
      if k < |a| {
        assert b[k] == b[..|a|][k];
      }
    }
  }

  /** The calls of the head's step are for names[0], those of the rest for
      names[1..]: all of them are for names. */
  lemma CallsForJoin(a: seq<Call>, b: seq<Call>, c: seq<Call>, names: seq<string>)
    requires names != [] && |a| <= |b| <= |c| && c[..|b|] == b
    requires forall k :: |a| <= k < |b| ==> b[k].file == names[0]
    requires CallsFor(c, |b|, names[1..])
    ensures CallsFor(c, |a|, names)
  {
    forall k | |a| <= k < |c| ensures c[k].file in names {
      if k < |b| {
        assert c[k] == c[..|b|][k] == b[k];
      } else {
        assert c[k].file in names[1..];
      }
    }
  }

  // ---------------------------------------------------------------------------
  // The loop body and the loop, on the vault
  // ---------------------------------------------------------------------------

  /** The body of the for-loop for Approved/name. */
  method ProcessDraft(v: Vault, hashes: set<string>, stats: Stats, name: string, cfg: Config, reply: HttpReply)
    returns (verdict: Verdict, hashes': set<string>, stats': Stats)
    requires v.Valid()
    modifies v`disk, v`log, v`ledger
    ensures v.Valid()
    ensures verdict == Attempt(old(v.disk), hashes, name, cfg, reply)
    ensures v.disk == NewDisk(old(v.disk), name, verdict)
    ensures hashes' == NewHashes(hashes, verdict) && stats' == Tally(stats, verdict)
    ensures v.ledger == NewLedger(old(v.ledger), hashes, verdict)
    ensures v.log == old(v.log) + VerdictEvents(name, verdict, cfg, reply)
  {
    var path := Path(Approved, name);
    var content := ReadText(v.disk, path);
    if content.None? {
      verdict := ReadFailed;
      hashes', stats' := hashes, stats.(errors := stats.errors + 1);
      return;
    }
    var h := ExtractHash(content.value);
    if h != "" && h in hashes {
      v.Record(DuplicateSkipped(name, h));
      verdict := Duplicate(h);
      hashes', stats' := hashes, stats.(duplicates := stats.duplicates + 1);
      return;
    }
    var text := ExtractPostText(content.value);
    if text == "" {
      verdict := NoText(h);
      hashes', stats' := hashes, stats.(errors := stats.errors + 1);
      return;
    }
    ghost var log0 := v.log;
    var result := CreatePost(v, cfg, text, reply);
    verdict, hashes', stats' := Conclude(v, hashes, stats, name, h, text, result);
    LogAssoc(log0, CreatePostEvents(cfg, reply), VerdictEntry(name, verdict));
  }

  /** The rest of the body, once create_post has answered `result`. */
  method Conclude(v: Vault, hashes: set<string>, stats: Stats, name: string, h: string, text: string, result: PostResult)
    returns (verdict: Verdict, hashes': set<string>, stats': Stats)
    requires v.Valid()
    modifies v`disk, v`log, v`ledger
    ensures v.Valid()
    ensures verdict == match result
      case Posted(id) => Published(h, text, id)
      case NotPosted(reason) =>
        if reason == SimulatedReason || reason == NotConfiguredReason then Kept(h, text, reason)
        else Failed(h, text, reason)
    ensures v.disk == NewDisk(old(v.disk), name, verdict)
    ensures hashes' == NewHashes(hashes, verdict) && stats' == Tally(stats, verdict)
    ensures v.ledger == NewLedger(old(v.ledger), hashes, verdict)
    ensures v.log == old(v.log) + VerdictEntry(name, verdict)
  {
    hashes' := hashes;
    match result {
      case Posted(id) =>
        verdict := Published(h, text, id);
        hashes', stats' := MoveToDone(v, hashes, stats, name, verdict);
      case NotPosted(reason) =>
        if reason == SimulatedReason || reason == NotConfiguredReason {
          v.Record(KeptInApproved(name, reason));
          verdict := Kept(h, text, reason);
          stats' := stats.(notConfigured := stats.notConfigured + 1);
        } else {
          v.Record(PostApiError(name, reason));
          verdict := Failed(h, text, reason);
          stats' := stats.(errors := stats.errors + 1);
        }
    }
  }

  /** A successful post: the draft moves to Done/, its hash (if any) is
      added and the ledger saved at once, and the move is logged. */
  method MoveToDone(v: Vault, hashes: set<string>, stats: Stats, name: string, verdict: Verdict)
    returns (hashes': set<string>, stats': Stats)
    requires v.Valid() && verdict.Published?
    modifies v`disk, v`log, v`ledger
    ensures v.Valid()
    ensures v.disk == NewDisk(old(v.disk), name, verdict)
    ensures hashes' == NewHashes(hashes, verdict) && stats' == Tally(stats, verdict)
    ensures v.ledger == NewLedger(old(v.ledger), hashes, verdict)
    ensures v.log == old(v.log) + VerdictEntry(name, verdict)
  {
    var moved := v.MoveFile(Path(Approved, name), Path(Done, name));
    hashes' := hashes;
    if verdict.hash != "" {
      hashes' := hashes + {verdict.hash};
      v.ledger := SavePostedIds(hashes');
    }
    v.Record(PostedAndDone(name, verdict.postId, verdict.hash));
    stats' := stats.(posted := stats.posted + 1);
  }

  /** The for-loop over the approved drafts. */
  method DispatchDrafts(v: Vault, drafts: seq<string>, hashes0: set<string>, stats0: Stats, cfg: Config, net: string -> HttpReply)
    returns (hashes: set<string>, stats: Stats, calls: seq<Call>)
    requires v.Valid()
    modifies v`disk, v`log, v`ledger
    ensures v.Valid()
    ensures var r := DispatchAll(Dispatch(old(v.disk), hashes0, old(v.ledger), stats0, [], []), drafts, cfg, net);
      && v.disk == r.disk && hashes == r.hashes && v.ledger == r.ledger && stats == r.stats
      && v.log == old(v.log) + r.events && calls == r.calls
  {
    ghost var st := Dispatch(v.disk, hashes0, v.ledger, stats0, [], []);
    ghost var all := DispatchAll(st, drafts, cfg, net);
    ghost var log0 := v.log;
    hashes, stats, calls := hashes0, stats0, [];
    var i := 0;
    while i < |drafts|
      invariant 0 <= i <= |drafts|
      invariant v.Valid()
      invariant st == Dispatch(v.disk, hashes, v.ledger, stats, st.events, calls)
      invariant v.log == log0 + st.events
      invariant DispatchAll(st, drafts[i..], cfg, net) == all
    {
      DispatchStep(st, drafts, i, cfg, net, all);
      st, hashes, stats, calls := Turn(v, st, log0, hashes, stats, calls, drafts[i], cfg, net(drafts[i]));
      i := i + 1;
    }
    assert drafts[i..] == [];
  }

  /** One turn of the for-loop, tied to Step. */
  method Turn(v: Vault, ghost st: Dispatch, ghost log0: seq<Event>, hashes0: set<string>, stats0: Stats, calls0: seq<Call>,
               name: string, cfg: Config, reply: HttpReply)
    returns (ghost st': Dispatch, hashes: set<string>, stats: Stats, calls: seq<Call>)
    requires v.Valid() && st == Dispatch(v.disk, hashes0, v.ledger, stats0, st.events, calls0) && v.log == log0 + st.events
    modifies v`disk, v`log, v`ledger
    ensures v.Valid()
    ensures st' == Step(st, name, cfg, reply)
    ensures st' == Dispatch(v.disk, hashes, v.ledger, stats, st'.events, calls)
    ensures v.log == log0 + st'.events
  {
    var verdict;
    verdict, hashes, stats := ProcessDraft(v, hashes0, stats0, name, cfg, reply);
    calls := calls0 + CallOf(name, verdict);
    ghost var entries := VerdictEvents(name, verdict, cfg, reply);
    st' := Dispatch(v.disk, hashes, v.ledger, stats, st.events + entries, calls);
    StepIs(st, name, cfg, reply, verdict);
    LogAssoc(log0, st.events, entries);
  }

  // ---------------------------------------------------------------------------
  // main()
  // ---------------------------------------------------------------------------

  /** What one run leaves behind: the disk, the ledger, the log entries, the
      blocked count, the stats (None when Approved/ had no draft) and the
      create_post calls made. */
  datatype Final = Final(
    disk: Disk, ledger: JsonFile<seq<string>>, events: seq<Event>,
    blocked: nat, stats: Option<Stats>, calls: seq<Call>)

  /** The folders main() creates, Pending_Approval/ last (by the HITL check). */
  function Prepared(d: Disk): Disk {
    MakeDir(MakeDir(MakeDir(MakeDir(d, Approved), Done), Logs), PendingApproval)
  }

  /** What the HITL check logs for the drafts waiting in Pending_Approval/. */
  function HitlEvents(pending: seq<string>): seq<Event> {
    BlockEvents(pending) + (if pending == [] then [HitlCheckClear] else []) + [HitlCheckDone(|pending|)]
  }

  function DoneEvent(s: Stats): Event {
    DispatchDone(s.found, s.posted, s.duplicates, s.notConfigured, s.errors)
  }

  /** The loop from its start: posted_hashes loaded from the ledger, found
      set to the number of drafts, the other counters at zero. */
  function Publish(d: Disk, ledger: JsonFile<seq<string>>, drafts: seq<string>, cfg: Config, net: string -> HttpReply): Dispatch {
    DispatchAll(Dispatch(d, LoadPostedIds(ledger), ledger, Stats(|drafts|, 0, 0, 0, 0), [], []), drafts, cfg, net)
  }

  /** The run as a function of the disk, the ledger, the configuration and
      the network's answers. */
  function PostApprovedRun(d: Disk, ledger: JsonFile<seq<string>>, cfg: Config, net: string -> HttpReply): Final {
    var d2 := Prepared(d);
    var pending := ListFiles(d2, PendingApproval, LinkedInDraft);
    var p := ApprovedPhase(d2, ledger, cfg, net);
    Final(p.disk, p.ledger, [DispatchStarted] + HitlEvents(pending) + p.events, |pending|, p.stats, p.calls)
  }

  /** What main() leaves after the HITL check: the disk, the ledger, the new
      log entries, the stats and the create_post calls. */
  datatype Phase = Phase(
    disk: Disk, ledger: JsonFile<seq<string>>, events: seq<Event>, stats: Option<Stats>, calls: seq<Call>)

  /** The part of main() after the HITL check, on the disk `d2` it left. */
  function ApprovedPhase(d2: Disk, ledger: JsonFile<seq<string>>, cfg: Config, net: string -> HttpReply): Phase {
    var drafts := ListFiles(d2, Approved, LinkedInDraft);
    if drafts == [] then Phase(d2, ledger, [NoApprovedDrafts], None, [])
    else
      var st := Publish(d2, ledger, drafts, cfg, net);
      Phase(st.disk, SavePostedIds(st.hashes), st.events + [DoneEvent(st.stats)], Some(st.stats), st.calls)
  }

  /** The HITL block of main(): the pending drafts are reported, and the
      check's outcome logged. */
  method HitlCheck(v: Vault) returns (blocked: nat)
    requires v.Valid()
    modifies v`disk, v`log
    ensures v.Valid() && v.disk == MakeDir(old(v.disk), PendingApproval)
    ensures var pending := ListFiles(v.disk, PendingApproval, LinkedInDraft);
      blocked == |pending| && v.log == old(v.log) + HitlEvents(pending)
  {
    ghost var log0 := v.log;
    blocked := CheckPendingBlocks(v);
    ghost var pending := ListFiles(v.disk, PendingApproval, LinkedInDraft);
    assert blocked == 0 <==> pending == [];
    ghost var clear: seq<Event> := [];
    if blocked == 0 {
      v.Record(HitlCheckClear);
      clear := [HitlCheckClear];
    }
    v.Record(HitlCheckDone(blocked));
    LogAssoc(log0, BlockEvents(pending), clear);
    LogAssoc(log0, BlockEvents(pending) + clear, [HitlCheckDone(blocked)]);
    assert HitlEvents(pending) == (BlockEvents(pending) + clear) + [HitlCheckDone(blocked)];
  }

  /** main(). */
  method Run(v: Vault, cfg: Config, net: string -> HttpReply) returns (blocked: nat, stats: Option<Stats>, calls: seq<Call>)
    requires v.Valid()
    modifies v`disk, v`log, v`ledger
    ensures v.Valid()
    ensures var f := PostApprovedRun(old(v.disk), old(v.ledger), cfg, net);
      v.log == old(v.log) + f.events && f == Final(v.disk, v.ledger, f.events, blocked, stats, calls)
  {
    ghost var d0, ledger0, log0 := v.disk, v.ledger, v.log;
    blocked := StartRun(v);
    ghost var head := [DispatchStarted] + HitlEvents(ListFiles(v.disk, PendingApproval, LinkedInDraft));
    ghost var p := ApprovedPhase(v.disk, ledger0, cfg, net);
    RunIs(d0, ledger0, cfg, net);
    stats, calls := PostDrafts(v, cfg, net);
    LogAssoc(log0, head, p.events);
  }

  /** main() up to the approved drafts: the folders, the first log entry
      and the HITL check. */
  method StartRun(v: Vault) returns (blocked: nat)
    requires v.Valid()
    modifies v`disk, v`log
    ensures v.Valid() && v.disk == Prepared(old(v.disk))
    ensures var pending := ListFiles(v.disk, PendingApproval, LinkedInDraft);
      blocked == |pending| && v.log == old(v.log) + ([DispatchStarted] + HitlEvents(pending))
  {
    ghost var log0 := v.log;
    v.MakeFolder(Approved);
    v.MakeFolder(Done);
    v.MakeFolder(Logs);
    v.Record(DispatchStarted);
    blocked := HitlCheck(v);
    LogAssoc(log0, [DispatchStarted], HitlEvents(ListFiles(v.disk, PendingApproval, LinkedInDraft)));
  }

  /** PostApprovedRun, spelled out in terms of its phases. */
  lemma RunIs(d: Disk, ledger: JsonFile<seq<string>>, cfg: Config, net: string -> HttpReply)
    ensures var pending := ListFiles(Prepared(d), PendingApproval, LinkedInDraft);
      var p := ApprovedPhase(Prepared(d), ledger, cfg, net);
      PostApprovedRun(d, ledger, cfg, net)
        == Final(p.disk, p.ledger, [DispatchStarted] + HitlEvents(pending) + p.events, |pending|, p.stats, p.calls)
  {
  }

  /** main() after the HITL check: nothing to do without approved drafts,
      otherwise the loop over them. */
  method PostDrafts(v: Vault, cfg: Config, net: string -> HttpReply) returns (stats: Option<Stats>, calls: seq<Call>)
    requires v.Valid()
    modifies v`disk, v`log, v`ledger
    ensures v.Valid()
    ensures var p := ApprovedPhase(old(v.disk), old(v.ledger), cfg, net);
      v.log == old(v.log) + p.events && p == Phase(v.disk, v.ledger, p.events, stats, calls)
  {
    var drafts := ListFiles(v.disk, Approved, LinkedInDraft);
    if drafts == [] {
      v.Record(NoApprovedDrafts);
      return None, [];
    }
    var s;
    s, calls := PublishApproved(v, drafts, cfg, net);
    stats := Some(s);
  }

  /** The approved part of main(): the loop over `drafts`, then the ledger
      saved and the run's stats logged. */
  method PublishApproved(v: Vault, drafts: seq<string>, cfg: Config, net: string -> HttpReply) returns (stats: Stats, calls: seq<Call>)
    requires v.Valid()
    modifies v`disk, v`log, v`ledger
    ensures v.Valid()
    ensures var st := Publish(old(v.disk), old(v.ledger), drafts, cfg, net);
      && v.disk == st.disk && v.ledger == SavePostedIds(st.hashes)
      && v.log == old(v.log) + (st.events + [DoneEvent(st.stats)])
      && stats == st.stats && calls == st.calls
  {
    var hashes := LoadPostedIds(v.ledger);
    hashes, stats, calls := DispatchDrafts(v, drafts, hashes, Stats(|drafts|, 0, 0, 0, 0), cfg, net);
    v.ledger := SavePostedIds(hashes);
    ghost var log1 := v.log;
    v.Record(DoneEvent(stats));
    LogAssoc(old(v.log), Publish(old(v.disk), old(v.ledger), drafts, cfg, net).events, [DoneEvent(stats)]);
  }

  // ---------------------------------------------------------------------------
  // Properties of a whole run
  // ---------------------------------------------------------------------------

  /** Pending_Approval/ is never changed: every file there is still there,
      with the same contents, and none appears. */
  lemma PendingApprovalUntouched(d: Disk, ledger: JsonFile<seq<string>>, cfg: Config, net: string -> HttpReply, p: Path)
    requires p.dir == PendingApproval
    ensures var f := PostApprovedRun(d, ledger, cfg, net);
      (p in d.files <==> p in f.disk.files) && (p in d.files ==> f.disk.files[p] == d.files[p])
  {
    var d2 := Prepared(d);
    RunDiskIs(d, ledger, cfg, net);
    PhaseTouchesOnlyDrafts(d2, ledger, cfg, net);
    OutsideLoopPaths(ListFiles(d2, Approved, LinkedInDraft), p);
    SameExceptAt(d2, ApprovedPhase(d2, ledger, cfg, net).disk, LoopPaths(ListFiles(d2, Approved, LinkedInDraft)), p);
  }

  /** The disk a run leaves is the one its approved phase leaves. */
  lemma RunDiskIs(d: Disk, ledger: JsonFile<seq<string>>, cfg: Config, net: string -> HttpReply)
    ensures PostApprovedRun(d, ledger, cfg, net).disk == ApprovedPhase(Prepared(d), ledger, cfg, net).disk
    ensures Prepared(d).files == d.files
  {
  }

  /** Only Approved/ and Done/ paths are draft paths. */
  lemma OutsideLoopPaths(names: seq<string>, p: Path)
    requires p.dir != Approved && p.dir != Done
    ensures p !in LoopPaths(names)
  {
  }

  /** A path outside the changed set is where it was, with the same contents. */
  lemma SameExceptAt(a: Disk, b: Disk, changed: set<Path>, p: Path)
    requires SameExcept(a, b, changed) && p !in changed
    ensures (p in a.files <==> p in b.files) && (p in a.files ==> b.files[p] == a.files[p])
  {
  }

  /** After the HITL check, only Approved/n and Done/n of the approved drafts can change. */
  lemma PhaseTouchesOnlyDrafts(d2: Disk, ledger: JsonFile<seq<string>>, cfg: Config, net: string -> HttpReply)
    ensures SameExcept(d2, ApprovedPhase(d2, ledger, cfg, net).disk, LoopPaths(ListFiles(d2, Approved, LinkedInDraft)))
  {
    var drafts := ListFiles(d2, Approved, LinkedInDraft);
    if drafts != [] {
      var st0 := Dispatch(d2, LoadPostedIds(ledger), ledger, Stats(|drafts|, 0, 0, 0, 0), [], []);
      DispatchTouchesOnlyDrafts(st0, drafts, cfg, net);
    }
  }

  /** found is the number of approved drafts, and each is counted under
      exactly one of posted, skipped_duplicate, skipped_not_configured, errors. */
  lemma EveryDraftCountedOnce(d: Disk, ledger: JsonFile<seq<string>>, cfg: Config, net: string -> HttpReply)
    ensures var f := PostApprovedRun(d, ledger, cfg, net);
      f.stats.Some? ==>
        && f.stats.value.found == |ListFiles(Prepared(d), Approved, LinkedInDraft)|
        && f.stats.value.found == Counted(f.stats.value)
  {
    var d2 := Prepared(d);
    var drafts := ListFiles(d2, Approved, LinkedInDraft);
    if drafts != [] {
      var st0 := Dispatch(d2, LoadPostedIds(ledger), ledger, Stats(|drafts|, 0, 0, 0, 0), [], []);
      DispatchCountsEachDraftOnce(st0, drafts, cfg, net);
    }
  }

  /** No create_post call is made with a hash already in posted_ids.json, no
      two calls carry the non-empty hash of an earlier successful post, and
      the saved ledger is the loaded one plus the hashes posted. */
  lemma NoSecondPost(d: Disk, ledger: JsonFile<seq<string>>, cfg: Config, net: string -> HttpReply)
    ensures var f := PostApprovedRun(d, ledger, cfg, net);
      && NoRepost(f.calls, LoadPostedIds(ledger))
      && (f.stats.Some? ==> LoadPostedIds(f.ledger) == LoadPostedIds(ledger) + PostedHashes(f.calls))
  {
    var d2 := Prepared(d);
    var drafts := ListFiles(d2, Approved, LinkedInDraft);
    if drafts != [] {
      var known := LoadPostedIds(ledger);
      var st0 := Dispatch(d2, known, ledger, Stats(|drafts|, 0, 0, 0, 0), [], []);
      DispatchKeepsLedger(st0, drafts, cfg, net, known);
      LedgerRoundTrip(DispatchAll(st0, drafts, cfg, net).hashes);
    }
  }

  /** Only linkedin_draft_*.md files of Approved/ are ever posted: every call
      is for such a draft, readable at the start of the run, with the post
      text extracted from it. */
  lemma OnlyApprovedDraftsPosted(d: Disk, ledger: JsonFile<seq<string>>, cfg: Config, net: string -> HttpReply)
    ensures var f := PostApprovedRun(d, ledger, cfg, net);
      forall k :: 0 <= k < |f.calls| ==>
        Matches(f.calls[k].file, LinkedInDraft) && CallFrom(d, f.calls[k])
  {
    var d2 := Prepared(d);
    var drafts := ListFiles(d2, Approved, LinkedInDraft);
    RunCallsIs(d, ledger, cfg, net);
    if drafts != [] {
      var st0 := Dispatch(d2, LoadPostedIds(ledger), ledger, Stats(|drafts|, 0, 0, 0, 0), [], []);
      forall i, j | 0 <= i < j < |drafts| ensures drafts[i] != drafts[j] {
        SortedDistinct(drafts, i, j);
      }
      DispatchCallsFromApproved(st0, drafts, cfg, net, d2);
      CallsFromPrepared(d, DispatchAll(st0, drafts, cfg, net).calls, drafts);
    }
  }

  /** The calls of a run are those of its loop, or none without approved drafts. */
  lemma RunCallsIs(d: Disk, ledger: JsonFile<seq<string>>, cfg: Config, net: string -> HttpReply)
    ensures var d2 := Prepared(d);
      var drafts := ListFiles(d2, Approved, LinkedInDraft);
      var st0 := Dispatch(d2, LoadPostedIds(ledger), ledger, Stats(|drafts|, 0, 0, 0, 0), [], []);
      PostApprovedRun(d, ledger, cfg, net).calls == if drafts == [] then [] else DispatchAll(st0, drafts, cfg, net).calls
  {
  }

  /** Calls for listed drafts that come from the prepared disk come from the
      original one, whose Approved/ files are the same. */
  lemma CallsFromPrepared(d: Disk, calls: seq<Call>, drafts: seq<string>)
    requires CallsFor(calls, 0, drafts) && AllFrom(Prepared(d), calls)
    requires forall n :: n in drafts ==> Matches(n, LinkedInDraft)
    ensures forall k :: 0 <= k < |calls| ==> Matches(calls[k].file, LinkedInDraft) && CallFrom(d, calls[k])
  {
    forall k | 0 <= k < |calls| ensures Matches(calls[k].file, LinkedInDraft) && CallFrom(d, calls[k]) {
      assert ReadText(Prepared(d), Path(Approved, calls[k].file)) == ReadText(d, Path(Approved, calls[k].file));
    }
  }

  /** A draft leaves Approved/, and anything in Done/ changes, only when its
      create_post call posted; every other draft stays where it was. */
  lemma MovedOnlyWhenPosted(d: Disk, ledger: JsonFile<seq<string>>, cfg: Config, net: string -> HttpReply, p: Path)
    requires Changed(d, PostApprovedRun(d, ledger, cfg, net).disk, p)
    ensures exists k :: PostedAt(PostApprovedRun(d, ledger, cfg, net).calls, k, p.name)
  {
    var d2 := Prepared(d);
    var drafts := ListFiles(d2, Approved, LinkedInDraft);
    assert !Changed(d, d2, p);
    var st0 := Dispatch(d2, LoadPostedIds(ledger), ledger, Stats(|drafts|, 0, 0, 0, 0), [], []);
    DispatchMovesOnlyPosted(st0, drafts, cfg, net, p);
  }

  /** The converse of MovedOnlyWhenPosted: a draft whose create_post call
      posted was a readable file of Approved/, and it ends in Done/ with its
      contents, gone from Approved/; if Done/<name> raises, the ignored
      move_file failure leaves it in Approved/ although it counts as posted. */
  lemma PostedIsMoved(d: Disk, ledger: JsonFile<seq<string>>, cfg: Config, net: string -> HttpReply, k: int, n: string)
    requires PostedAt(PostApprovedRun(d, ledger, cfg, net).calls, k, n)
    ensures PostedOutcome(d, n, PostApprovedRun(d, ledger, cfg, net).disk)
  {
    var d2 := Prepared(d);
    var drafts := ListFiles(d2, Approved, LinkedInDraft);
    RunCallsIs(d, ledger, cfg, net);
    RunDiskIs(d, ledger, cfg, net);
    if drafts != [] {
      var st0 := Dispatch(d2, LoadPostedIds(ledger), ledger, Stats(|drafts|, 0, 0, 0, 0), [], []);
      forall i, j | 0 <= i < j < |drafts| ensures drafts[i] != drafts[j] {
        SortedDistinct(drafts, i, j);
      }
      DispatchMovesPosted(st0, drafts, cfg, net, k, n);
    }
  }

  /** With LinkedIn not configured (or simulated) nothing is posted and no
      file moves: every draft stays in Approved/. */
  lemma SimulatedRunMovesNothing(d: Disk, ledger: JsonFile<seq<string>>, cfg: Config, net: string -> HttpReply)
    requires !Live(cfg)
    ensures var f := PostApprovedRun(d, ledger, cfg, net);
      && (forall k :: 0 <= k < |f.calls| ==> !f.calls[k].posted)
      && f.disk == Prepared(d)
  {
    var d2 := Prepared(d);
    var drafts := ListFiles(d2, Approved, LinkedInDraft);
    var st0 := Dispatch(d2, LoadPostedIds(ledger), ledger, Stats(|drafts|, 0, 0, 0, 0), [], []);
    SimulatedDispatch(st0, drafts, cfg, net);
  }

  lemma {:induction false} SimulatedDispatch(st: Dispatch, names: seq<string>, cfg: Config, net: string -> HttpReply)
    requires !Live(cfg)
    requires forall k :: 0 <= k < |st.calls| ==> !st.calls[k].posted
    ensures var r := DispatchAll(st, names, cfg, net);
      && (forall k :: 0 <= k < |r.calls| ==> !r.calls[k].posted) && r.disk == st.disk
    decreases |names|
  {
    if names != [] {
      var s1 := Step(st, names[0], cfg, net(names[0]));
      var v := Attempt(st.disk, st.hashes, names[0], cfg, net(names[0]));
      assert !v.Published?;
      forall k | 0 <= k < |s1.calls| ensures !s1.calls[k].posted {
        if k < |st.calls| { assert s1.calls[k] == st.calls[k]; }
      }
      SimulatedDispatch(s1, names[1..], cfg, net);
    }
  }
}
