/** gmail_watcher.py: unread messages become Inbox/email_<ts>_<id>.md task
    files. A message is written only when its sender's domain is on the
    allowlist and no task file for its id exists in Inbox/ or Done/ yet.

    Signing in and the two API calls are not modelled: the listed messages
    with their headers and snippets are an input (`Mailbox`), and the file
    time stamp of message k is `stamps(k)`. */
module GmailWatcher {
  import opened Strings
  import opened Wrappers
  import opened Audit
  import opened FileOps

  const AllowedDomains: set<string> := {"google.com", "github.com", "microsoft.com", "azure.com", "anthropic.com"}

  // ---------------------------------------------------------------------------
  // extract_domain and domain_allowed
  // ---------------------------------------------------------------------------

  /** A character of the class [\w.-], with \w read as ASCII. */
  predicate DomainChar(c: char) {
    || 'a' <= c <= 'z' || 'A' <= c <= 'Z' || '0' <= c <= '9'
    || c == '_' || c == '.' || c == '-'
  }

  /** The pattern @([\w.-]+) can start at index i. */
  predicate MatchAt(s: string, i: nat) {
    i + 1 < |s| && s[i] == '@' && DomainChar(s[i + 1])
  }

  /** The leftmost index at or after i where the pattern matches (re.search). */
  function FirstMatch(s: string, i: nat): (r: Option<nat>)
    requires i <= |s|
    ensures r.Some? ==> i <= r.value && MatchAt(s, r.value) && forall j :: i <= j < r.value ==> !MatchAt(s, j)
    ensures r.None? ==> forall j :: i <= j < |s| ==> !MatchAt(s, j)
    decreases |s| - i
  {
    if i == |s| then None
    else if MatchAt(s, i) then Some(i)
    else FirstMatch(s, i + 1)
  }

  /** The end of the greedy run of [\w.-] starting at k. */
  function RunEnd(s: string, k: nat): (r: nat)
    requires k <= |s|
    ensures k <= r <= |s|
    ensures forall j :: k <= j < r ==> DomainChar(s[j])
    ensures r == |s| || !DomainChar(s[r])
    decreases |s| - k
  {
    if k < |s| && DomainChar(s[k]) then RunEnd(s, k + 1) else k
  }

  /** extract_domain: the lower-cased group of the first match, or "". It is
      "" exactly when no '@' is followed by a domain character. */
  function ExtractDomain(email: string): (r: string)
    ensures r == [] <==> forall j :: 0 <= j < |email| ==> !MatchAt(email, j)
  {
    match FirstMatch(email, 0)
    case None => ""
    case Some(i) => Lower(email[i + 1..RunEnd(email, i + 1)])
  }

  /** The allowlist's verdict on a (lower-cased) domain: an allowed domain
      or a subdomain of one. */
  predicate Listed(domain: string) {
    exists d :: d in AllowedDomains && (domain == d || EndsWith(domain, "." + d))
  }

  /** A domain as an address spells it in lower case. */
  predicate LowerDomain(domain: string) {
    domain != [] && forall k :: 0 <= k < |domain| ==> DomainChar(domain[k]) && !('A' <= domain[k] <= 'Z')
  }

  /** domain_allowed: the extracted domain is listed. An address with no
      usable '@' domain is never allowed. */
  predicate DomainAllowed(email: string): (r: bool)
    ensures (forall j :: 0 <= j < |email| ==> !MatchAt(email, j)) ==> !r
  {
    Listed(ExtractDomain(email))
  }

  /** For an address local@domain whose local part has no '@' and whose
      domain is a run of domain characters, the extracted domain is the
      lower-cased domain. */
  lemma DomainOfAddress(local: string, domain: string)
    requires '@' !in local && domain != []
    requires forall k :: 0 <= k < |domain| ==> DomainChar(domain[k])
    ensures ExtractDomain(local + "@" + domain) == Lower(domain)
  {
    var s := local + "@" + domain;
    assert MatchAt(s, |local|);
    forall j | 0 <= j < |local| ensures !MatchAt(s, j) {
      assert s[j] == local[j];
    }
    var i := FirstMatch(s, 0).value;
    assert i == |local|;
    forall j | i + 1 <= j < |s| ensures DomainChar(s[j]) {
      assert s[j] == domain[j - i - 1];
    }
    var e := RunEnd(s, i + 1);
    assert e == |s|;
    assert s[i + 1..e] == domain;
  }

  /** For a lower-case address, the allowlist accepts exactly the allowed
      domains and their subdomains. */
  lemma AllowedAddress(local: string, domain: string)
    requires '@' !in local && LowerDomain(domain)
    ensures DomainAllowed(local + "@" + domain) <==> Listed(domain)
  {
    DomainOfAddress(local, domain);
    LowerNoCapitals(domain);
  }

  /** A suffix ".<d>" puts a dot right before the last |d| characters. */
  lemma SuffixDot(e: string, d: string)
    ensures EndsWith(e, "." + d) ==> e[|e| - |d| - 1] == '.'
  {
    if |d| + 1 <= |e| {
      assert e[|e| - |d| - 1..][0] == e[|e| - |d| - 1];
    }
  }

  lemma SubdomainListed()
    ensures LowerDomain("a.github.com") && Listed("a.github.com")
  {
    var dom := "a.github.com";
    assert dom == "a" + ("." + "github.com");
    EndsWithConcat("a", "." + "github.com");
    assert "github.com" in AllowedDomains && EndsWith(dom, "." + "github.com");
  }

  /** A subdomain of an allowed domain passes, whatever the local part. */
  lemma SubdomainAllowed(local: string)
    requires '@' !in local
    ensures DomainAllowed(local + "@" + "a.github.com")
  {
    SubdomainListed();
    AllowedAddress(local, "a.github.com");
  }

  lemma AllowedLengths()
    ensures forall d :: d in AllowedDomains ==> 9 <= |d| <= 13
  {
  }

  /** A domain of 14 or more characters with no dot among the positions
      where ".<d>" would put one for an allowed d is not listed. */
  lemma NoDotNotListed(e: string)
    requires 14 <= |e| && forall k :: |e| - 14 <= k <= |e| - 10 ==> e[k] != '.'
    ensures !Listed(e)
  {
    AllowedLengths();
    forall d | d in AllowedDomains ensures !(e == d || EndsWith(e, "." + d)) {
      SuffixDot(e, d);
    }
  }

  lemma LookAlikeNotListed()
    ensures LowerDomain("evilgithub.com") && !Listed("evilgithub.com")
  {
    var e := "evilgithub.com";
    assert |e| == 14 && e[0] != '.' && e[1] != '.' && e[2] != '.' && e[3] != '.' && e[4] != '.';
    NoDotNotListed(e);
  }

  /** A look-alike that only ends in an allowed name does not pass. */
  lemma LookAlikeRejected(local: string)
    requires '@' !in local
    ensures !DomainAllowed(local + "@" + "evilgithub.com")
  {
    LookAlikeNotListed();
    AllowedAddress(local, "evilgithub.com");
  }

  // ---------------------------------------------------------------------------
  // get_header
  // ---------------------------------------------------------------------------

  /** One entry of payload.headers; a missing key reads as "". */
  datatype Header = Header(name: string, value: string)

  predicate NameIs(h: Header, name: string) {
    Lower(h.name) == Lower(name)
  }

  /** get_header: the value of the first header whose name matches without
      regard to case, else "". */
  function GetHeader(headers: seq<Header>, name: string): (r: string)
    ensures (forall i :: 0 <= i < |headers| ==> !NameIs(headers[i], name)) ==> r == ""
    ensures forall i :: 0 <= i < |headers| ==>
      (NameIs(headers[i], name) && forall j :: 0 <= j < i ==> !NameIs(headers[j], name)) ==> r == headers[i].value
    decreases |headers|
  {
    if headers == [] then ""
    else if NameIs(headers[0], name) then headers[0].value
    else
      var r := GetHeader(headers[1..], name);
      assert forall i :: 1 <= i < |headers| ==> headers[1..][i - 1] == headers[i];
      r
  }

  // ---------------------------------------------------------------------------
  // file_exists_for_id
  // ---------------------------------------------------------------------------

  function IdSuffix(id: string): string {
    "_" + id + MdSuffix
  }

  /** Some "*.md" file of `folder` has a name ending in _<id>.md. */
  predicate HasIdFile(d: Disk, folder: Folder, id: string) {
    folder in d.dirs && exists n :: n in FolderNames(d, folder, AnyMd) && EndsWith(n, IdSuffix(id))
  }

  /** file_exists_for_id: Inbox/ or Done/ holds a file for the id. */
  predicate FileExistsForId(d: Disk, id: string) {
    HasIdFile(d, Inbox, id) || HasIdFile(d, Done, id)
  }

  /** The name of the task file for message `id` written at `stamp`. */
  function EmailName(stamp: string, id: string): string {
    "email_" + stamp + IdSuffix(id)
  }

  /** The name email_<ts>_<id>.md is found by the duplicate check for its id. */
  lemma EmailNameHasId(stamp: string, id: string)
    ensures EndsWith(EmailName(stamp, id), IdSuffix(id))
    ensures Matches(EmailName(stamp, id), AnyMd) && EmailName(stamp, id) != GitKeep
  {
    assert EmailName(stamp, id) == ("email_" + stamp) + IdSuffix(id);
    EndsWithConcat("email_" + stamp, IdSuffix(id));
    assert EmailName(stamp, id) == ("email_" + stamp + "_" + id) + MdSuffix;
    EndsWithConcat("email_" + stamp + "_" + id, MdSuffix);
    assert EmailName(stamp, id)[0] == 'e';
  }

  /** Adding files, and folders, never makes the duplicate check forget an id. */
  lemma ExistsGrows(d: Disk, d': Disk, id: string)
    requires d.dirs <= d'.dirs && forall p :: p in d.files ==> p in d'.files
    ensures FileExistsForId(d, id) ==> FileExistsForId(d', id)
  {
    if HasIdFile(d, Inbox, id) {
      var n :| n in FolderNames(d, Inbox, AnyMd) && EndsWith(n, IdSuffix(id));
      assert n in FolderNames(d', Inbox, AnyMd);
    } else if HasIdFile(d, Done, id) {
      var n :| n in FolderNames(d, Done, AnyMd) && EndsWith(n, IdSuffix(id));
      assert n in FolderNames(d', Done, AnyMd);
    }
  }

  // ---------------------------------------------------------------------------
  // main
  // ---------------------------------------------------------------------------

  /** What messages().get returned for one listed message. */
  datatype Message = Message(id: string, headers: seq<Header>, snippet: string)

  /** The outcome of signing in and messages().list:
      - SignInFailed: auth_gmail raised an Exception, which main() catches;
      - SignInExited: auth_gmail raised SystemExit(1) (the Gmail libraries or
        credentials.json are missing), which `except Exception` does not catch;
      - ListingFailed: messages().list().execute(), outside the try, raised;
      - Unread: the listed messages, as messages().get returned them. */
  datatype Mailbox = SignInFailed | SignInExited | ListingFailed | Unread(messages: seq<Message>)

  /** The task file text for a message. */
  function EmailText(sender: string, subject: string, date: string, snippet: string): string {
    "# Email Task\n\n" + "From: " + sender + "\n" + "Subject: " + subject + "\n" + "Date: " + date + "\n\n"
      + "## Snippet\n\n" + snippet + "\n\n" + "Source: Gmail\n"
      + "Allowed Domain: " + ExtractDomain(sender) + "\n" + "Status: New\n"
  }

  /** What the loop needs of one message: its id and sender, whether the
      sender is allowed, and the file it would be written to. */
  datatype Letter = Letter(id: string, sender: string, allowed: bool, name: string, text: string)

  function LetterFor(m: Message, stamp: string): Letter {
    var sender := GetHeader(m.headers, "From");
    Letter(m.id, sender, DomainAllowed(sender), EmailName(stamp, m.id),
           EmailText(sender, GetHeader(m.headers, "Subject"), GetHeader(m.headers, "Date"), m.snippet))
  }

  function Letters(ms: seq<Message>, stamps: nat -> string): (r: seq<Letter>)
    ensures |r| == |ms|
    ensures forall k :: 0 <= k < |r| ==> r[k] == LetterFor(ms[k], stamps(k))
    ensures forall k :: 0 <= k < |r| ==> Named(r[k])
  {
    var r := seq(|ms|, k requires 0 <= k < |ms| => LetterFor(ms[k], stamps(k)));
    forall k | 0 <= k < |r| ensures Named(r[k]) {
      EmailNameHasId(stamps(k), ms[k].id);
    }
    r
  }

  /** The letter's file is one the duplicate check finds for its id. */
  predicate Named(l: Letter) {
    EndsWith(l.name, IdSuffix(l.id)) && Matches(l.name, AnyMd) && l.name != GitKeep
  }

  /** Once a letter's file exists in Inbox/, its id counts as seen. */
  lemma WrittenIdIsSeen(d: Disk, l: Letter)
    requires Named(l) && Inbox in d.dirs && Path(Inbox, l.name) in d.files
    ensures FileExistsForId(d, l.id)
  {
    assert l.name in FolderNames(d, Inbox, AnyMd);
  }

  /** One turn of the loop: whether the message was written, and whether the
      write raised (which ends the script). */
  datatype Turn = Turn(disk: Disk, wrote: bool, crashed: bool)

  function IngestOne(d: Disk, l: Letter): Turn {
    if !l.allowed || FileExistsForId(d, l.id) then Turn(d, false, false)
    else
      var w := WriteText(d, Path(Inbox, l.name), l.text);
      if !w.ok then Turn(d, false, true) else Turn(w.disk, true, false)
  }

  /** The loop: the letters written, in order, and whether a write raised. */
  datatype Pass = Pass(disk: Disk, written: seq<Letter>, crashed: bool)

  function IngestAll(d: Disk, ls: seq<Letter>): Pass
    decreases |ls|
  {
    if ls == [] then Pass(d, [], false)
    else
      var t := IngestOne(d, ls[0]);
      if t.crashed then Pass(d, [], true)
      else
        var rest := IngestAll(t.disk, ls[1..]);
        Pass(rest.disk, (if t.wrote then [ls[0]] else []) + rest.written, rest.crashed)
  }

  /** The log entries for the written letters. */
  function Announce(written: seq<Letter>): (r: seq<Event>)
    ensures |r| == |written|
    ensures forall k :: 0 <= k < |r| ==> r[k] == GmailIngested(written[k].name, written[k].sender)
  {
    seq(|written|, k requires 0 <= k < |written| => GmailIngested(written[k].name, written[k].sender))
  }

  /** Exited: the script ended with SystemExit(1). Crashed: an uncaught
      exception ended it. */
  datatype Exit = AuthFailed | Exited | NoUnread | Ingested(count: nat) | Crashed

  datatype GmailRun = GmailRun(disk: Disk, events: seq<Event>, exit: Exit)

  /** main(): Inbox/, Done/ and Logs/ are created and the start is logged; a
      failed sign-in and an empty list end the run; SystemExit from the
      sign-in and a raising listing end the script with nothing more
      logged; otherwise the loop runs and its count is logged, unless a
      write raised. */
  function RunGmail(d: Disk, box: Mailbox, stamps: nat -> string): GmailRun {
    var d1 := MakeDir(MakeDir(MakeDir(d, Inbox), Done), Logs);
    match box
    case SignInFailed => GmailRun(d1, [GmailStarted, GmailAuthFailed], AuthFailed)
    case SignInExited => GmailRun(d1, [GmailStarted], Exited)
    case ListingFailed => GmailRun(d1, [GmailStarted], Crashed)
    case Unread(ms) =>
      if ms == [] then GmailRun(d1, [GmailStarted, GmailNoUnread], NoUnread)
      else
        var r := IngestLetters(d1, Letters(ms, stamps));
        GmailRun(r.disk, [GmailStarted] + r.events, r.exit)
  }

  /** The loop over the letters and the closing entry, unless a write raised. */
  function IngestLetters(d1: Disk, ls: seq<Letter>): GmailRun {
    var p := IngestAll(d1, ls);
    if p.crashed then GmailRun(p.disk, Announce(p.written), Crashed)
    else GmailRun(p.disk, Announce(p.written) + [GmailDone(|p.written|)], Ingested(|p.written|))
  }

  // ---------------------------------------------------------------------------
  // Properties
  // ---------------------------------------------------------------------------

  ghost function WrittenPaths(written: seq<Letter>): set<Path> {
    set k | 0 <= k < |written| :: Path(Inbox, written[k].name)
  }

  /** One turn writes only when the sender is allowed and the id unseen, and
      then exactly its own file. */
  lemma IngestOneOutcome(d: Disk, l: Letter)
    requires Inbox in d.dirs
    ensures var t := IngestOne(d, l);
      var p := Path(Inbox, l.name);
      && t.disk.dirs == d.dirs && t.disk.faulty == d.faulty
      && (t.wrote <==> l.allowed && !FileExistsForId(d, l.id) && p !in d.faulty)
      && (t.crashed <==> l.allowed && !FileExistsForId(d, l.id) && p in d.faulty)
      && (!t.wrote ==> t.disk == d)
      && (t.wrote ==> t.disk.files == d.files[p := l.text])
  {
  }

  /** A letter is fresh on a disk: its sender is allowed, its id has no task
      file and its own file does not exist. */
  ghost predicate Fresh(d: Disk, l: Letter) {
    l.allowed && !FileExistsForId(d, l.id) && Path(Inbox, l.name) !in d.files
  }

  /** A written letter was fresh. */
  lemma WroteFresh(d: Disk, l: Letter)
    requires Inbox in d.dirs && Named(l) && IngestOne(d, l).wrote
    ensures Fresh(d, l)
  {
    assert Path(Inbox, l.name) in d.files ==> l.name in FolderNames(d, Inbox, AnyMd);
  }

  /** Fresh on a larger disk means fresh on a smaller one. */
  lemma FreshShrinks(d: Disk, d': Disk, l: Letter)
    requires d.dirs <= d'.dirs && forall p :: p in d.files ==> p in d'.files
    ensures Fresh(d', l) ==> Fresh(d, l)
  {
    ExistsGrows(d, d', l.id);
  }

  lemma WrittenPathsTail(l: Letter, rest: seq<Letter>, wrote: bool)
    ensures WrittenPaths((if wrote then [l] else []) + rest) ==
      WrittenPaths(rest) + (if wrote then {Path(Inbox, l.name)} else {})
  {
    var w := (if wrote then [l] else []) + rest;
    if wrote {
      assert forall k :: 1 <= k < |w| ==> w[k] == rest[k - 1];
      forall q | q in WrittenPaths(rest) ensures q in WrittenPaths(w) {
        var k :| 0 <= k < |rest| && q == Path(Inbox, rest[k].name);
        assert w[k + 1] == rest[k];
      }
      forall q | q in WrittenPaths(w) ensures q in WrittenPaths(rest) || q == Path(Inbox, l.name) {
        var k :| 0 <= k < |w| && q == Path(Inbox, w[k].name);
        if k > 0 {
          assert q == Path(Inbox, rest[k - 1].name);
        }
      }
      assert w[0] == l;
    } else {
      assert w == rest;
    }
  }

  /** The loop only adds files to Inbox/, only its written letters' files,
      keeps the folders, and removes nothing. */
  lemma {:induction false} IngestAllFrame(d: Disk, ls: seq<Letter>)
    requires Inbox in d.dirs
    ensures var p := IngestAll(d, ls);
      && p.disk.dirs == d.dirs
      && SameExcept(d, p.disk, WrittenPaths(p.written))
      && (forall q :: q in d.files ==> q in p.disk.files)
    decreases |ls|
  {
    if ls != [] {
      var t := IngestOne(d, ls[0]);
      IngestOneOutcome(d, ls[0]);
      if !t.crashed {
        IngestAllFrame(t.disk, ls[1..]);
        WrittenPathsTail(ls[0], IngestAll(t.disk, ls[1..]).written, t.wrote);
      }
    }
  }

  lemma NamedTail(ls: seq<Letter>)
    requires ls != [] && forall k :: 0 <= k < |ls| ==> Named(ls[k])
    ensures forall k :: 0 <= k < |ls| - 1 ==> Named(ls[1..][k])
  {
    assert forall k :: 0 <= k < |ls| - 1 ==> ls[1..][k] == ls[k + 1];
  }

  /** Every written letter came from the list. */
  lemma {:induction false} IngestAllFromList(d: Disk, ls: seq<Letter>)
    requires Inbox in d.dirs
    ensures forall k :: 0 <= k < |IngestAll(d, ls).written| ==> IngestAll(d, ls).written[k] in ls
    decreases |ls|
  {
    if ls != [] {
      var t := IngestOne(d, ls[0]);
      IngestOneOutcome(d, ls[0]);
      if !t.crashed {
        var rest := IngestAll(t.disk, ls[1..]);
        IngestAllFromList(t.disk, ls[1..]);
        var w := (if t.wrote then [ls[0]] else []) + rest.written;
        assert forall k :: 0 <= k < |rest.written| ==> rest.written[k] in ls;
        if t.wrote {
          assert forall k :: 1 <= k < |w| ==> w[k] == rest.written[k - 1];
        } else {
          assert w == rest.written;
        }
      }
    }
  }

  /** Every written letter was fresh at the start: allowed sender, no task
      file for its id, its own file new. */
  lemma {:induction false} IngestAllFresh(d: Disk, ls: seq<Letter>)
    requires Inbox in d.dirs && forall k :: 0 <= k < |ls| ==> Named(ls[k])
    ensures forall k :: 0 <= k < |IngestAll(d, ls).written| ==> Fresh(d, IngestAll(d, ls).written[k])
    decreases |ls|
  {
    if ls != [] {
      var t := IngestOne(d, ls[0]);
      IngestOneOutcome(d, ls[0]);
      if !t.crashed {
        var rest := IngestAll(t.disk, ls[1..]);
        NamedTail(ls);
        IngestAllFresh(t.disk, ls[1..]);
        forall k | 0 <= k < |rest.written| ensures Fresh(d, rest.written[k]) {
          FreshShrinks(d, t.disk, rest.written[k]);
        }
        var w := (if t.wrote then [ls[0]] else []) + rest.written;
        if t.wrote {
          WroteFresh(d, ls[0]);
          assert forall k :: 1 <= k < |w| ==> w[k] == rest.written[k - 1];
        } else {
          assert w == rest.written;
        }
      }
    }
  }

  /** Every written letter's file is there at the end. */
  lemma {:induction false} IngestAllPresent(d: Disk, ls: seq<Letter>)
    requires Inbox in d.dirs
    ensures forall k :: 0 <= k < |IngestAll(d, ls).written| ==>
      Path(Inbox, IngestAll(d, ls).written[k].name) in IngestAll(d, ls).disk.files
    decreases |ls|
  {
    if ls != [] {
      var t := IngestOne(d, ls[0]);
      IngestOneOutcome(d, ls[0]);
      if !t.crashed {
        var rest := IngestAll(t.disk, ls[1..]);
        IngestAllPresent(t.disk, ls[1..]);
        IngestAllFrame(t.disk, ls[1..]);
        var w := (if t.wrote then [ls[0]] else []) + rest.written;
        if t.wrote {
          assert forall k :: 1 <= k < |w| ==> w[k] == rest.written[k - 1];
        } else {
          assert w == rest.written;
        }
      }
    }
  }

  /** No id is written twice in a run, even when the list names it twice:
      once its file exists, the duplicate check skips it. */
  lemma {:induction false} IngestAllIdsDistinct(d: Disk, ls: seq<Letter>)
    requires Inbox in d.dirs && forall k :: 0 <= k < |ls| ==> Named(ls[k])
    ensures forall i, j :: 0 <= i < j < |IngestAll(d, ls).written| ==>
      IngestAll(d, ls).written[i].id != IngestAll(d, ls).written[j].id
    decreases |ls|
  {
    if ls != [] {
      var t := IngestOne(d, ls[0]);
      IngestOneOutcome(d, ls[0]);
      if !t.crashed {
        var rest := IngestAll(t.disk, ls[1..]);
        NamedTail(ls);
        IngestAllIdsDistinct(t.disk, ls[1..]);
        var w := (if t.wrote then [ls[0]] else []) + rest.written;
        if t.wrote {
          IngestAllFresh(t.disk, ls[1..]);
          WrittenIdIsSeen(t.disk, ls[0]);
          assert forall k :: 1 <= k < |w| ==> w[k] == rest.written[k - 1];
          assert FileExistsForId(t.disk, ls[0].id);
          forall i, j | 0 <= i < j < |w| ensures w[i].id != w[j].id {
            assert !Fresh(t.disk, ls[0]);
            if i == 0 {
              assert Fresh(t.disk, rest.written[j - 1]);
            }
          }
        } else {
          assert w == rest.written;
        }
      }
    }
  }

  /** Letters whose sender is allowed end the loop with their id seen:
      either a file for it existed (and stays), or the loop wrote one. */
  lemma {:induction false} IngestAllCovers(d: Disk, ls: seq<Letter>)
    requires Inbox in d.dirs && forall k :: 0 <= k < |ls| ==> Named(ls[k])
    ensures !IngestAll(d, ls).crashed ==>
      forall k :: 0 <= k < |ls| && ls[k].allowed ==> FileExistsForId(IngestAll(d, ls).disk, ls[k].id)
    decreases |ls|
  {
    if ls != [] {
      var t := IngestOne(d, ls[0]);
      IngestOneOutcome(d, ls[0]);
      if !t.crashed {
        var rest := IngestAll(t.disk, ls[1..]);
        NamedTail(ls);
        IngestAllCovers(t.disk, ls[1..]);
        IngestAllFrame(t.disk, ls[1..]);
        if t.wrote {
          WrittenIdIsSeen(t.disk, ls[0]);
        }
        ExistsGrows(t.disk, rest.disk, ls[0].id);
        assert forall k :: 1 <= k < |ls| ==> ls[k] == ls[1..][k - 1];
      }
    }
  }

  /** The first entry of a run is always the start; a failed sign-in, a
      SystemExit from the sign-in, a raising listing and an empty list
      change no file beyond creating the folders. Only a caught sign-in
      failure logs auth_failed and ends with AuthFailed; only SystemExit
      ends with Exited, after the start entry alone. */
  lemma RunGmailEarlyExits(d: Disk, box: Mailbox, stamps: nat -> string)
    ensures var r := RunGmail(d, box, stamps);
      var d1 := MakeDir(MakeDir(MakeDir(d, Inbox), Done), Logs);
      && r.events != [] && r.events[0] == GmailStarted
      && (box == SignInFailed ==> r == GmailRun(d1, [GmailStarted, GmailAuthFailed], AuthFailed))
      && (box == SignInExited ==> r == GmailRun(d1, [GmailStarted], Exited))
      && (box == ListingFailed ==> r == GmailRun(d1, [GmailStarted], Crashed))
      && (box == Unread([]) ==> r == GmailRun(d1, [GmailStarted, GmailNoUnread], NoUnread))
      && (r.exit == AuthFailed <==> box == SignInFailed)
      && (r.exit == Exited <==> box == SignInExited)
  {
  }

  /** RunGmail on a non-empty list is the loop over its letters. */
  lemma RunGmailIs(d: Disk, ms: seq<Message>, stamps: nat -> string)
    requires ms != []
    ensures var r := IngestLetters(MakeDir(MakeDir(MakeDir(d, Inbox), Done), Logs), Letters(ms, stamps));
      RunGmail(d, Unread(ms), stamps) == GmailRun(r.disk, [GmailStarted] + r.events, r.exit)
  {
  }

  /** A run over listed messages: ingested counts the files written, one
      log entry each; nothing outside those files changes. */
  lemma IngestLettersOutcome(d1: Disk, ls: seq<Letter>)
    requires Inbox in d1.dirs
    ensures var p := IngestAll(d1, ls);
      var r := IngestLetters(d1, ls);
      && r.disk.dirs == d1.dirs
      && SameExcept(d1, r.disk, WrittenPaths(p.written))
      && (r.exit.Ingested? ==> r.exit.count == |p.written| && r.events[|r.events| - 1] == GmailDone(r.exit.count))
      && (r.exit == Crashed <==> p.crashed)
      && |r.events| == |p.written| + (if p.crashed then 0 else 1)
      && (forall k :: 0 <= k < |p.written| ==> r.events[k] == GmailIngested(p.written[k].name, p.written[k].sender))
  {
    IngestAllFrame(d1, ls);
  }

  /** Every written file belongs to one of the letters, whose sender was
      allowed and whose id had no task file in Inbox/ or Done/; the file is
      new and stays; no id is written twice. */
  lemma IngestLettersWritesFresh(d1: Disk, ls: seq<Letter>)
    requires Inbox in d1.dirs && forall k :: 0 <= k < |ls| ==> Named(ls[k])
    ensures var w := IngestAll(d1, ls).written;
      && (forall k :: 0 <= k < |w| ==> w[k] in ls)
      && (forall k :: 0 <= k < |w| ==> Fresh(d1, w[k]))
      && (forall k :: 0 <= k < |w| ==> Path(Inbox, w[k].name) in IngestLetters(d1, ls).disk.files)
      && (forall i, j :: 0 <= i < j < |w| ==> w[i].id != w[j].id)
  {
    IngestAllFromList(d1, ls);
    IngestAllFresh(d1, ls);
    IngestAllPresent(d1, ls);
    IngestAllIdsDistinct(d1, ls);
  }

  /** After a run that did not crash, every listed message with an allowed
      sender has a task file for its id: a second run ingests none of them. */
  lemma RunGmailCovers(d: Disk, ms: seq<Message>, stamps: nat -> string)
    requires ms != []
    ensures var r := RunGmail(d, Unread(ms), stamps);
      r.exit.Ingested? ==>
        forall k :: 0 <= k < |ms| && DomainAllowed(GetHeader(ms[k].headers, "From")) ==> FileExistsForId(r.disk, ms[k].id)
  {
    var d1 := MakeDir(MakeDir(MakeDir(d, Inbox), Done), Logs);
    var ls := Letters(ms, stamps);
    RunGmailIs(d, ms, stamps);
    IngestAllCovers(d1, ls);
  }

  // ---------------------------------------------------------------------------
  // The script
  // ---------------------------------------------------------------------------

  lemma AnnounceConcat(a: seq<Letter>, b: seq<Letter>)
    ensures Announce(a + b) == Announce(a) + Announce(b)
  {
    assert forall k :: 0 <= k < |a| ==> (a + b)[k] == a[k];
    assert forall k :: |a| <= k < |a| + |b| ==> (a + b)[k] == b[k - |a|];
  }

  /** One turn of the loop, then the rest of it. */
  lemma IngestStep(d: Disk, ls: seq<Letter>, i: nat)
    requires i < |ls|
    ensures var t := IngestOne(d, ls[i]);
      var here := IngestAll(d, ls[i..]);
      if t.crashed then here == Pass(d, [], true)
      else
        var rest := IngestAll(t.disk, ls[i + 1..]);
        && rest.disk == here.disk && rest.crashed == here.crashed
        && here.written == (if t.wrote then [ls[i]] else []) + rest.written
  {
    assert ls[i..][1..] == ls[i + 1..];
  }

  /** The log and the count after one turn, then the rest. */
  lemma AnnounceStep(log: seq<Event>, count: nat, first: seq<Letter>, rest: seq<Letter>)
    ensures (log + Announce(first)) + Announce(rest) == log + Announce(first + rest)
    ensures (count + |first|) + |rest| == count + |first + rest|
  {
    AnnounceConcat(first, rest);
    LogAssoc(log, Announce(first), Announce(rest));
  }

  /** One turn of the loop body. */
  method IngestLetter(v: Vault, l: Letter) returns (wrote: bool, crashed: bool)
    requires v.Valid()
    modifies v`disk, v`log
    ensures v.Valid()
    ensures var t := IngestOne(old(v.disk), l);
      && v.disk == t.disk && wrote == t.wrote && crashed == t.crashed
      && v.log == old(v.log) + (if t.wrote then [GmailIngested(l.name, l.sender)] else [])
  {
    wrote, crashed := false, false;
    if !l.allowed || FileExistsForId(v.disk, l.id) {
      return;
    }
    var ok := v.WriteTextRaw(Path(Inbox, l.name), l.text);
    if !ok {
      crashed := true;
      return;
    }
    v.Record(GmailIngested(l.name, l.sender));
    wrote := true;
  }

  /** Turn i of the loop, stated against the rest of the loop from here. */
  method IngestTurn(v: Vault, ls: seq<Letter>, i: nat, count: nat) returns (crashed: bool, count': nat)
    requires v.Valid() && i < |ls|
    modifies v`disk, v`log
    ensures v.Valid()
    ensures var here := IngestAll(old(v.disk), ls[i..]);
      if crashed then here == Pass(v.disk, [], true) && v.log == old(v.log) && count' == count
      else
        var rest := IngestAll(v.disk, ls[i + 1..]);
        && rest.disk == here.disk && rest.crashed == here.crashed
        && v.log + Announce(rest.written) == old(v.log) + Announce(here.written)
        && count' + |rest.written| == count + |here.written|
  {
    IngestStep(v.disk, ls, i);
    var wrote;
    wrote, crashed := IngestLetter(v, ls[i]);
    count' := if wrote then count + 1 else count;
    if !crashed {
      ghost var first := if wrote then [ls[i]] else [];
      ghost var rest := IngestAll(v.disk, ls[i + 1..]);
      assert v.log == old(v.log) + Announce(first);
      AnnounceStep(old(v.log), count, first, rest.written);
    }
  }

  method IngestEach(v: Vault, ls: seq<Letter>) returns (crashed: bool, ingested: nat)
    requires v.Valid()
    modifies v`disk, v`log
    ensures v.Valid()
    ensures var p := IngestAll(old(v.disk), ls);
      && v.disk == p.disk && v.log == old(v.log) + Announce(p.written)
      && crashed == p.crashed && ingested == |p.written|
  {
    ghost var d0, log0 := v.disk, v.log;
    ingested := 0;
    var i := 0;
    while i < |ls|
      invariant 0 <= i <= |ls|
      invariant v.Valid()
      invariant var rest := IngestAll(v.disk, ls[i..]);
        var all := IngestAll(d0, ls);
        && rest.disk == all.disk && rest.crashed == all.crashed
        && v.log + Announce(rest.written) == log0 + Announce(all.written)
        && ingested + |rest.written| == |all.written|
    {
      crashed, ingested := IngestTurn(v, ls, i, ingested);
      if crashed {
        return;
      }
      i := i + 1;
    }
    crashed := false;
  }

  /** main(), given what signing in and the listing returned. */
  method Run(v: Vault, box: Mailbox, stamps: nat -> string) returns (exit: Exit)
    requires v.Valid()
    modifies v`disk, v`log
    ensures v.Valid()
    ensures var r := RunGmail(old(v.disk), box, stamps);
      v.disk == r.disk && v.log == old(v.log) + r.events && exit == r.exit
  {
    v.MakeFolder(Inbox);
    v.MakeFolder(Done);
    v.MakeFolder(Logs);
    v.Record(GmailStarted);
    if box.SignInFailed? {
      v.Record(GmailAuthFailed);
      return AuthFailed;
    }
    if box.SignInExited? {
      return Exited;
    }
    if box.ListingFailed? {
      return Crashed;
    }
    if box.messages == [] {
      v.Record(GmailNoUnread);
      return NoUnread;
    }
    ghost var log1 := v.log;
    exit := Finish(v, Letters(box.messages, stamps));
    LogAssoc(old(v.log), [GmailStarted], v.log[|log1|..]);
  }

  /** The loop and the closing entry. */
  method Finish(v: Vault, ls: seq<Letter>) returns (exit: Exit)
    requires v.Valid()
    modifies v`disk, v`log
    ensures v.Valid()
    ensures var r := IngestLetters(old(v.disk), ls);
      v.disk == r.disk && v.log == old(v.log) + r.events && exit == r.exit
  {
    var crashed, ingested := IngestEach(v, ls);
    if crashed {
      return Crashed;
    }
    v.Record(GmailDone(ingested));
    exit := Ingested(ingested);
  }
}
