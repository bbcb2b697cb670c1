/**
 * The outcome rules of the three audit endpoints: the current handler
 * (which answers before doing any work, leaving its pipeline unreachable),
 * the earlier handler (which stops after the rate check), and the
 * manual-fetch handler (which audits fetched page HTML and maps failures
 * to 500). The browser, the language model, JSON parsing and the report
 * renderer are parameters: what they return is given, not computed.
 */
module Handlers {
  import opened Wrappers
  import opened RateLimit
  import opened Report
  import opened Notify

  const ReceivedMessage: string := "Audit request received!"
  const RateLimitedError: string := "Rate limit exceeded"
  const ModelFailedError: string := "OpenAI model failed or returned invalid JSON"
  const InternalError: string := "Internal server error"
  const AuditFailedError: string := "Audit failed"
  const PdfDisposition: string := "attachment; filename=audit.pdf"

  datatype Body =
    | MessageBody(message: string)
    | ErrorBody(error: string)
    | PdfBody(disposition: string)
    | EmptyBody

  datatype Response = Response(status: int, body: Body)

  /** The fields of the request body the handlers read. */
  datatype AuditRequest = AuditRequest(url: string, email: Option<string>)

  /**
   * What `JSON.parse` makes of the model's content: not JSON at all, a
   * falsy value (`null`, `0`, `false`, `""`), an object with the audit's
   * shape, or something else, on which reading `blockers.length` or
   * `recommendations.join` throws.
   */
  datatype Parsed = NotJson | FalsyJson | Shaped(audit: ParsedAudit) | IllShaped

  /** The model call: it throws, or answers with `choices[0].message.content` when present. */
  datatype LlmReply = ApiError | Reply(content: Option<string>)

  /**
   * What an `audit` function hands back to its caller: it throws, returns
   * something falsy (null on a caught failure), or returns the parsed value.
   */
  datatype AuditValue = AuditThrew | NoAudit | Audit(audit: ParsedAudit) | Malformed

  // ---------------------------------------------------------------------
  // The audit functions
  // ---------------------------------------------------------------------

  /**
   * The manual-fetch `audit(url)`: a failed page fetch or client
   * construction is rethrown; a failed call, missing or empty content, or
   * content that does not parse makes it return null; otherwise it returns
   * whatever the content parses to.
   */
  function ManualAudit(page: Result<string>, clientOk: bool, reply: LlmReply,
                       parse: string -> Parsed): (v: AuditValue)
    ensures v.AuditThrew? <==> page.Err? || !clientOk
    ensures v.NoAudit? <==>
      page.Ok? && clientOk &&
      (reply.ApiError? || !Truthy(reply.content)
       || parse(reply.content.value).NotJson? || parse(reply.content.value).FalsyJson?)
    ensures v.Audit? <==>
      page.Ok? && clientOk && reply.Reply? && Truthy(reply.content)
      && parse(reply.content.value).Shaped?
    ensures v.Audit? ==> parse(reply.content.value) == Shaped(v.audit)
  {
    if page.Err? || !clientOk then AuditThrew
    else if reply.ApiError? || !Truthy(reply.content) then NoAudit
    else
      match parse(reply.content.value)
      case NotJson => NoAudit
      case FalsyJson => NoAudit
      case Shaped(a) => Audit(a)
      case IllShaped => Malformed
  }

  /**
   * The current handler's `audit(url)`. Building the client lies outside
   * the guarded block, so its failure propagates; anything else that goes
   * wrong, including missing or unparsable content, yields null.
   */
  function RouteAudit(clientOk: bool, reply: LlmReply, parse: string -> Parsed): (v: AuditValue)
    ensures !clientOk ==> v == AuditThrew
    ensures v.Audit? ==> reply.Reply? && reply.content.Some? && parse(reply.content.value) == Shaped(v.audit)
  {
    if !clientOk then AuditThrew
    else
      match reply
      case ApiError => NoAudit
      case Reply(None) => NoAudit
      case Reply(Some(content)) =>
        if content == "" then NoAudit
        else
          match parse(content)
          case NotJson => NoAudit
          case FalsyJson => NoAudit
          case Shaped(a) => Audit(a)
          case IllShaped => Malformed
  }

  /** The two audit functions agree once the page has been fetched. */
  lemma RouteAuditAgreesWithManual(page: string, clientOk: bool, reply: LlmReply, parse: string -> Parsed)
    ensures RouteAudit(clientOk, reply, parse) == ManualAudit(Ok(page), clientOk, reply, parse)
  {
  }

  // ---------------------------------------------------------------------
  // The current handler
  // ---------------------------------------------------------------------

  /** A step of the audit pipeline, in the order the pipeline runs them. */
  datatype Step =
    | RateChecked(verdict: Verdict)
    | Audited
    | Rendered(blockers: string, recommendations: string)
    | Emailed(delivery: Delivery)

  datatype Outcome = Outcome(response: Response, db: Db, steps: seq<Step>)

  /**
   * The current `POST` as written: it answers 200 with the receipt message
   * before reading the request, so it neither consults nor writes the
   * limiter and runs no step of the pipeline.
   */
  function LivePost(db: Db): (o: Outcome)
    ensures o.response.status == 200 && o.response.body == MessageBody(ReceivedMessage)
    ensures o.db == db && |o.steps| == 0
  {
    Outcome(Response(200, MessageBody(ReceivedMessage)), db, [])
  }

  /**
   * The pipeline after the early return, which no request reaches. `body`
   * is `None` when the request is not JSON; `generate` stands for the
   * report renderer and yields the report HTML, or `None` when it throws.
   */
  function RoutePipeline(db: Db, body: Option<AuditRequest>, now: int, fault: Fault, audit: AuditValue,
                         generate: (string, string, string) -> Option<string>,
                         apiKey: Option<string>, hostname: string -> Option<string>, accepted: bool): (o: Outcome)
    ensures body.None? ==> o == Outcome(Response(500, ErrorBody(InternalError)), db, [])
    ensures body.Some? ==> o.db == Check(db, body.value.email, now, fault).db
    ensures body.Some? ==> |o.steps| > 0 && o.steps[0] == RateChecked(Check(db, body.value.email, now, fault).verdict)
    ensures o.response.status == 429 <==> body.Some? && Check(db, body.value.email, now, fault).verdict.Blocked?
    ensures o.response.status == 429 ==> |o.steps| == 1 && o.response.body == ErrorBody(RateLimitedError)
    ensures o.response.body == ErrorBody(ModelFailedError) <==>
      body.Some? && !Check(db, body.value.email, now, fault).verdict.Blocked? && audit.NoAudit?
    ensures o.response.status == 200 <==>
      body.Some? && !Check(db, body.value.email, now, fault).verdict.Blocked? && audit.Audit?
      && generate(body.value.url, BlockersText(audit.audit.blockers), RecommendationsText(audit.audit.recommendations)).Some?
    ensures o.response.status == 200 ==>
      o.response.body == PdfBody(PdfDisposition) && |o.steps| == 4
      && o.steps[2] == Rendered(BlockersText(audit.audit.blockers), RecommendationsText(audit.audit.recommendations))
    ensures o.response.status in {200, 429, 500}
  {
    match body
    case None => Outcome(Response(500, ErrorBody(InternalError)), db, [])
    case Some(req) =>
      var checked := Check(db, req.email, now, fault);
      var steps := [RateChecked(checked.verdict)];
      if checked.verdict.Blocked? then Outcome(Response(429, ErrorBody(RateLimitedError)), checked.db, steps)
      else
        var steps := steps + [Audited];
        match audit
        case AuditThrew => Outcome(Response(500, ErrorBody(InternalError)), checked.db, steps)
        case NoAudit => Outcome(Response(500, ErrorBody(ModelFailedError)), checked.db, steps)
        case Malformed => Outcome(Response(500, ErrorBody(InternalError)), checked.db, steps)
        case Audit(a) =>
          var blockers := BlockersText(a.blockers);
          var recommendations := RecommendationsText(a.recommendations);
          var steps := steps + [Rendered(blockers, recommendations)];
          match generate(req.url, blockers, recommendations)
          case None => Outcome(Response(500, ErrorBody(InternalError)), checked.db, steps)
          case Some(html) =>
            var delivery := SendEmail(apiKey, req.email, html, req.url, hostname, accepted);
            Outcome(Response(200, PdfBody(PdfDisposition)), checked.db, steps + [Emailed(delivery)])
  }

  /** Whether the email goes out or fails, the pipeline's response is the same. */
  lemma EmailFailureIsSwallowed(db: Db, body: Option<AuditRequest>, now: int, fault: Fault, audit: AuditValue,
                                generate: (string, string, string) -> Option<string>,
                                hostname: string -> Option<string>,
                                apiKey1: Option<string>, accepted1: bool,
                                apiKey2: Option<string>, accepted2: bool)
    ensures RoutePipeline(db, body, now, fault, audit, generate, apiKey1, hostname, accepted1).response
         == RoutePipeline(db, body, now, fault, audit, generate, apiKey2, hostname, accepted2).response
  {
  }

  /** The pipeline emails the report only after it is rendered, and only to the requester. */
  lemma EmailFollowsRendering(db: Db, body: Option<AuditRequest>, now: int, fault: Fault, audit: AuditValue,
                              generate: (string, string, string) -> Option<string>,
                              apiKey: Option<string>, hostname: string -> Option<string>, accepted: bool)
    ensures var o := RoutePipeline(db, body, now, fault, audit, generate, apiKey, hostname, accepted);
      forall k :: 0 <= k < |o.steps| && o.steps[k].Emailed? ==>
        k == 3 && o.steps[2].Rendered? && o.response.status == 200
        && (o.steps[k].delivery.request.Some? ==> o.steps[k].delivery.request.value.to == body.value.email)
  {
  }

  // ---------------------------------------------------------------------
  // The earlier handler
  // ---------------------------------------------------------------------

  /**
   * The earlier `handler(req, res)`: any method but POST gets 405. A POST
   * whose parsed body is `null` throws while its fields are read, outside
   * any guarded block, and the framework answers 500 with its own error
   * page. A rate-limited POST gets 429 with an error body; any other POST
   * ends with status 255 and an empty body, before the audit. `body` is
   * `None` for a `null` body.
   */
  function LegacyHandle(httpMethod: string, db: Db, body: Option<AuditRequest>, now: int, fault: Fault): (o: Outcome)
    ensures o.response.status in {405, 500, 429, 255}
    ensures o.response.status == 405 <==> httpMethod != "POST"
    ensures o.response.status == 500 <==> httpMethod == "POST" && body.None?
    ensures o.response.status in {405, 500} ==> o.db == db && |o.steps| == 0
    ensures o.response.status == 429 <==>
      httpMethod == "POST" && body.Some? && Check(db, body.value.email, now, fault).verdict.Blocked?
    ensures o.response.status == 429 ==> o.response.body == ErrorBody(RateLimitedError) && o.db == db
    ensures httpMethod == "POST" && body.Some? ==> o.db == Check(db, body.value.email, now, fault).db
    ensures forall k :: 0 <= k < |o.steps| ==> o.steps[k].RateChecked?
  {
    if httpMethod != "POST" then Outcome(Response(405, EmptyBody), db, [])
    else if body.None? then Outcome(Response(500, EmptyBody), db, [])
    else
      var checked := Check(db, body.value.email, now, fault);
      if checked.verdict.Blocked? then
        Outcome(Response(429, ErrorBody(RateLimitedError)), checked.db, [RateChecked(checked.verdict)])
      else Outcome(Response(255, EmptyBody), checked.db, [RateChecked(checked.verdict)])
  }

  /**
   * An admitted POST to the earlier handler is answered 255. It is logged
   * once under its document key, unless the SDK rejects the email as a
   * document id, in which case nothing is logged.
   */
  lemma LegacyAdmittedIsLogged(db: Db, url: string, email: string, now: int)
    requires db.Ready?
    requires Key(email).Some? ==> !ThreeRecent(LogOf(db.store, Key(email).value), now - DayMs)
    ensures var o := LegacyHandle("POST", db, Some(AuditRequest(url, Some(email))), now, NoFault);
      o.response == Response(255, EmptyBody)
      && o.db.Ready?
      && (Key(email).Some? ==> LogOf(o.db.store, Key(email).value) == LogOf(db.store, Key(email).value) + [now])
      && (Key(email).None? ==> o.db == db)
  {
  }

  // ---------------------------------------------------------------------
  // The manual-fetch handler
  // ---------------------------------------------------------------------

  /** The manual-fetch response and, on success, the compact texts it computed. */
  datatype ManualOutcome = ManualOutcome(response: Response, texts: Option<(string, string)>)

  /**
   * The manual-fetch `POST`: an unreadable body or a thrown audit gives 500
   * "Internal server error"; a falsy audit gives 500 "Audit failed"; a
   * result without the audit's shape throws while being flattened and gives
   * 500 "Internal server error"; otherwise the result is flattened into
   * the compact texts and the answer is the receipt message.
   */
  function ManualPost(body: Option<AuditRequest>, audit: AuditValue): (o: ManualOutcome)
    ensures o.response.status == 200 <==> body.Some? && audit.Audit?
    ensures o.response.status != 200 ==> o.response.status == 500 && o.texts.None?
    ensures o.response.status == 200 ==>
      o.response.body == MessageBody(ReceivedMessage)
      && o.texts == Some((CompactBlockersText(audit.audit.blockers),
                          CompactRecommendationsText(audit.audit.recommendations)))
    ensures o.response.body == ErrorBody(AuditFailedError) <==> body.Some? && audit.NoAudit?
    ensures o.response.body == ErrorBody(InternalError) <==>
      body.None? || audit.AuditThrew? || audit.Malformed?
  {
    if body.None? then ManualOutcome(Response(500, ErrorBody(InternalError)), None)
    else
      match audit
      case AuditThrew => ManualOutcome(Response(500, ErrorBody(InternalError)), None)
      case NoAudit => ManualOutcome(Response(500, ErrorBody(AuditFailedError)), None)
      case Malformed => ManualOutcome(Response(500, ErrorBody(InternalError)), None)
      case Audit(a) =>
        ManualOutcome(Response(200, MessageBody(ReceivedMessage)),
                      Some((CompactBlockersText(a.blockers), CompactRecommendationsText(a.recommendations))))
  }

  /**
   * End to end: a failed page fetch is an internal error; a reply without
   * content is a failed audit; the success message does not depend on
   * what the texts say.
   */
  lemma ManualFailureModes(req: AuditRequest, page: Result<string>, clientOk: bool, reply: LlmReply,
                           parse: string -> Parsed)
    ensures page.Err? ==>
      ManualPost(Some(req), ManualAudit(page, clientOk, reply, parse)).response == Response(500, ErrorBody(InternalError))
    ensures page.Ok? && clientOk && reply.Reply? && !Truthy(reply.content) ==>
      ManualPost(Some(req), ManualAudit(page, clientOk, reply, parse)).response == Response(500, ErrorBody(AuditFailedError))
    ensures page.Ok? && clientOk && reply.Reply? && Truthy(reply.content) && parse(reply.content.value).Shaped? ==>
      ManualPost(Some(req), ManualAudit(page, clientOk, reply, parse)).response == Response(200, MessageBody(ReceivedMessage))
  {
  }
}
