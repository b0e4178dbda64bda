/** The audit trail: one entry per line the scripts append to run_log.md
    (and, where they also write one, the matching JSON event in
    Logs/events_<date>.jsonl). Timestamps and the exact log wording are not
    part of the model; an entry keeps the facts the line reports. */
module Audit {

  datatype Event =
    // approve.py
    | FileApproved(file: string)
    | ApproveFailed(file: string)
    // post_approved.py
    | DispatchStarted
    | BlockedWithoutApproval(file: string)
    | HitlCheckClear
    | HitlCheckDone(blocked: nat)
    | NoApprovedDrafts
    | DuplicateSkipped(file: string, hash: string)
    | PostedAndDone(file: string, postId: string, hash: string)
    | KeptInApproved(file: string, reason: string)
    | PostApiError(file: string, reason: string)
    | DispatchDone(found: nat, posted: nat, duplicates: nat, notConfigured: nat, errors: nat)
    // mcp_linkedin_ops.py
    | LinkedInAttempt(mode: string, reason: string)
    | LinkedInError(reason: string)
    | LinkedInApiError(httpStatus: nat, body: string)
    | LinkedInSuccess(postId: string)
    // agent.py (run_log.md and prompt_history.md)
    | NoTasksFound
    | TaskProcessed(file: string, status: string)
    | PromptRecorded(file: string, status: string, prompt: string)
    // watcher_inbox.py and watcher_manual.py
    | InboxMoved(file: string)
    | ManualIngested(file: string)
    // whatsapp_watcher.py and linkedin_watcher.py
    | ChannelSkipped(channel: string, reason: string)
    | ChannelIngested(channel: string, file: string)
    | ChannelDone(channel: string, ingested: nat)
    // gmail_watcher.py
    | GmailStarted
    | GmailAuthFailed
    | GmailNoUnread
    | GmailIngested(file: string, sender: string)
    | GmailDone(ingested: nat)
    // processor.py
    | SkillExecuted(file: string)
    // mcp_calendar_ops.py
    | CalendarEventCreated(title: string, start: string, end: string)
    | CalendarEventsRead(count: nat)

  /** Appending to the log regroups freely; stated once so that proofs can
      name the regrouping instead of searching for it. */
  lemma LogAssoc(a: seq<Event>, b: seq<Event>, c: seq<Event>)
    ensures a + (b + c) == (a + b) + c
  {
  }
}
