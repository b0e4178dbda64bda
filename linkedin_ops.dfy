/** mcp_linkedin_ops.py: create_post's decision between simulated mode, a
    missing HTTP library and a live UGC post, and the classification of the
    live call's outcome. The HTTP call is a parameter `reply`: what
    requests.post would have returned or raised. */
module LinkedInOps {
  import opened Strings
  import opened Wrappers
  import opened Audit
  import opened FileOps

  /** The environment create_post reads. An unset variable is None;
      `requestsInstalled` says whether `import requests` succeeded. */
  datatype Config = Config(
    accessToken: Option<string>,
    personUrn: Option<string>,
    simulated: Option<string>,
    requestsInstalled: bool)

  /** The outcome of requests.post: a response, or the message of the
      exception it raised (timeouts and connection errors included). */
  datatype HttpReply =
    | Response(status: nat, restliId: Option<string>, text: string)
    | Raised(message: string)

  /** create_post's dictionary: ok with a post id, or not ok with a reason. */
  datatype PostResult = Posted(postId: string) | NotPosted(reason: string)

  const SimulatedReason := "simulated_mode"
  const NotConfiguredReason := "not_configured"
  const NoRequestsReason := "requests_not_installed"
  const ApiErrorPrefix := "api_error_"
  const UnknownPostId := "unknown"
  /** How much of an error response's body is kept. */
  const BodyPreviewLength := 300

  function Token(cfg: Config): string { Strip(cfg.accessToken.GetOr("")) }
  function PersonUrn(cfg: Config): string { Strip(cfg.personUrn.GetOr("")) }

  /** LINKEDIN_SIMULATED, stripped and lower-cased, is "true", "1" or "yes";
      unset counts as "true". */
  function SimulatedFlag(cfg: Config): (r: bool)
    ensures cfg.simulated.None? ==> r
  {
    StripOfStripped("true");
    LowerNoCapitals("true");
    Lower(Strip(cfg.simulated.GetOr("true"))) in {"true", "1", "yes"}
  }

  /** The live branch is taken only with both credentials and the flag off. */
  predicate Live(cfg: Config) {
    Token(cfg) != "" && PersonUrn(cfg) != "" && !SimulatedFlag(cfg)
  }

  /** Python's text[:n] for n >= 0. */
  function Prefix(s: string, n: nat): (r: string)
    ensures |r| <= n && StartsWith(s, r)
    ensures |s| <= n ==> r == s
  {
    if |s| <= n then s else s[..n]
  }

  /** The decision table of create_post. */
  function CreatePostResult(cfg: Config, reply: HttpReply): (r: PostResult)
    ensures !Live(cfg) ==>
      r == NotPosted(if SimulatedFlag(cfg) then SimulatedReason else NotConfiguredReason)
    ensures Live(cfg) && !cfg.requestsInstalled ==> r == NotPosted(NoRequestsReason)
    ensures r.Posted? <==>
      Live(cfg) && cfg.requestsInstalled && reply.Response? && reply.status in {200, 201}
    ensures r.Posted? ==> r.postId == reply.restliId.GetOr(UnknownPostId)
    ensures Live(cfg) && cfg.requestsInstalled && reply.Response? && reply.status !in {200, 201} ==>
      r == NotPosted(ApiErrorPrefix + NatToString(reply.status))
    ensures Live(cfg) && cfg.requestsInstalled && reply.Raised? ==> r == NotPosted(reply.message)
  {
    if !Live(cfg) then
      NotPosted(if SimulatedFlag(cfg) then SimulatedReason else NotConfiguredReason)
    else if !cfg.requestsInstalled then NotPosted(NoRequestsReason)
    else ReplyResult(reply)
  }

  /** The live branch of the decision table: what the POST's answer makes of the call. */
  function ReplyResult(reply: HttpReply): PostResult {
    match reply
    case Response(status, restliId, text) =>
      if status == 200 || status == 201 then Posted(restliId.GetOr(UnknownPostId))
      else NotPosted(ApiErrorPrefix + NatToString(status))
    case Raised(message) => NotPosted(message)
  }

  /** What create_post appends to the audit log. */
  function CreatePostEvents(cfg: Config, reply: HttpReply): (r: seq<Event>)
    ensures !Live(cfg) ==> |r| == 1 && r[0].LinkedInAttempt? && r[0].mode == "simulated"
    ensures Live(cfg) && !cfg.requestsInstalled ==> |r| == 1 && r[0].LinkedInError?
    ensures Live(cfg) && cfg.requestsInstalled ==>
      |r| == 2 && r[0] == LinkedInAttempt("live", "")
  {
    if !Live(cfg) then
      [LinkedInAttempt("simulated", if SimulatedFlag(cfg) then SimulatedReason else NotConfiguredReason)]
    else if !cfg.requestsInstalled then [LinkedInError(NoRequestsReason)]
    else [LinkedInAttempt("live", "")] + ReplyEvents(reply)
  }

  /** The entry logged for the POST's answer. */
  function ReplyEvents(reply: HttpReply): seq<Event> {
    match reply
    case Response(status, restliId, text) =>
      if status == 200 || status == 201 then [LinkedInSuccess(restliId.GetOr(UnknownPostId))]
      else [LinkedInApiError(status, Prefix(text, BodyPreviewLength))]
    case Raised(message) => [LinkedInError(message)]
  }

  /** An API error is logged with at most the first 300 characters of the
      response body, and exactly the body when it is that short. */
  lemma ApiErrorBodyBounded(cfg: Config, reply: HttpReply)
    ensures forall e :: e in CreatePostEvents(cfg, reply) && e.LinkedInApiError? ==>
      reply.Response? && |e.body| <= BodyPreviewLength && StartsWith(reply.text, e.body)
      && (|reply.text| <= BodyPreviewLength ==> e.body == reply.text)
  {
    var r := CreatePostEvents(cfg, reply);
    if Live(cfg) && cfg.requestsInstalled {
      assert r == [LinkedInAttempt("live", "")] + ReplyEvents(reply);
      ReplyBodyBounded(reply);
    } else {
      assert forall e :: e in r ==> !e.LinkedInApiError?;
    }
  }

  lemma ReplyBodyBounded(reply: HttpReply)
    ensures forall e :: e in ReplyEvents(reply) && e.LinkedInApiError? ==>
      reply.Response? && |e.body| <= BodyPreviewLength && StartsWith(reply.text, e.body)
      && (|reply.text| <= BodyPreviewLength ==> e.body == reply.text)
  {
  }

  /** create_post(text): never raises; the evidence file of simulated mode is
      not part of the model. */
  method CreatePost(v: Vault, cfg: Config, text: string, reply: HttpReply) returns (r: PostResult)
    modifies v`log
    ensures r == CreatePostResult(cfg, reply)
    ensures v.log == old(v.log) + CreatePostEvents(cfg, reply)
  {
    if !Live(cfg) {
      var reason := if SimulatedFlag(cfg) then SimulatedReason else NotConfiguredReason;
      v.Record(LinkedInAttempt("simulated", reason));
      return NotPosted(reason);
    }
    if !cfg.requestsInstalled {
      v.Record(LinkedInError(NoRequestsReason));
      return NotPosted(NoRequestsReason);
    }
    v.Record(LinkedInAttempt("live", ""));
    r := SendPost(v, reply);
    LogAssoc(old(v.log), [LinkedInAttempt("live", "")], ReplyEvents(reply));
  }

  /** The requests.post call and what the function does with its answer. */
  method SendPost(v: Vault, reply: HttpReply) returns (r: PostResult)
    modifies v`log
    ensures r == ReplyResult(reply)
    ensures v.log == old(v.log) + ReplyEvents(reply)
  {
    match reply {
      case Response(status, restliId, body) =>
        if status == 200 || status == 201 {
          var postId := restliId.GetOr(UnknownPostId);
          v.Record(LinkedInSuccess(postId));
          r := Posted(postId);
        } else {
          v.Record(LinkedInApiError(status, Prefix(body, BodyPreviewLength)));
          r := NotPosted(ApiErrorPrefix + NatToString(status));
        }
      case Raised(message) =>
        v.Record(LinkedInError(message));
        r := NotPosted(message);
    }
  }

  /** The two "kept for later" reasons come exactly from the simulated branch
      whenever the live call got an HTTP response: an api_error_<status>
      reason is neither of them. */
  lemma KeptReasonsMeanSimulated(cfg: Config, reply: HttpReply)
    requires reply.Response?
    ensures var r := CreatePostResult(cfg, reply);
      (r.NotPosted? && r.reason in {SimulatedReason, NotConfiguredReason}) <==> !Live(cfg)
  {
    var r := CreatePostResult(cfg, reply);
    if Live(cfg) && r.NotPosted? {
      assert r.reason[0] != SimulatedReason[0] && r.reason[0] != NotConfiguredReason[0] by {
        if cfg.requestsInstalled {
          assert r.reason == ApiErrorPrefix + NatToString(reply.status);
          assert r.reason[0] == 'a';
        } else {
          assert r.reason[0] == 'r';
        }
      }
    }
  }

  /** Without both credentials nothing is ever posted, whatever the flag says
      and whatever the network would answer. */
  lemma NoCredentialsNoPost(cfg: Config, reply: HttpReply)
    requires Token(cfg) == "" || PersonUrn(cfg) == ""
    ensures CreatePostResult(cfg, reply).NotPosted?
    ensures CreatePostResult(cfg, reply).reason in {SimulatedReason, NotConfiguredReason}
  {
  }

  /** With LINKEDIN_SIMULATED unset the call is always simulated. */
  lemma DefaultIsSimulated(cfg: Config, reply: HttpReply)
    requires cfg.simulated.None?
    ensures CreatePostResult(cfg, reply) == NotPosted(SimulatedReason)
  {
  }

  /** The flag is read whitespace-insensitively and lower-cased: padding
      around the value does not matter, and only its lower-case form is compared. */
  lemma FlagIgnoresPadding(cfg: Config, a: string, t: string, b: string)
    requires cfg.simulated == Some(a + t + b)
    requires IsBlank(a) && IsBlank(b) && IsStripped(t)
    ensures SimulatedFlag(cfg) <==> Lower(t) in {"true", "1", "yes"}
  {
    StripAround(a, t, b);
  }

}
