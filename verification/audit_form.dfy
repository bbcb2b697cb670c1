/**
 * The landing-page audit form: field limits, the submit guard, how the
 * server's reply is classified, the download file name, and the state
 * the form keeps between submissions (`sent`, `isSubmitting`, the object
 * URL of the last download and its file name).
 */
module AuditForm {
  import opened Wrappers
  import opened Text
  import opened Urls
  import RateLimit
  import Handlers

  /** Both fields are limited to this many UTF-16 code units. */
  const MaxFieldLength: nat := 255

  const JsonContentType: string := "application/json"
  const SendFailedMessage: string := "Failed to send data"

  /**
   * The schema check: a syntactically valid URL and email (the syntax
   * checks are parameters), each at most 255 UTF-16 code units long, the
   * unit of JavaScript's `length`.
   */
  function Validate(url: string, email: string, isUrl: string -> bool, isEmail: string -> bool): (ok: bool)
    ensures ok ==> |url| <= MaxFieldLength && |email| <= MaxFieldLength
    ensures ok <==>
      isUrl(url) && isEmail(email) && Utf16Length(url) <= MaxFieldLength && Utf16Length(email) <= MaxFieldLength
  {
    isUrl(url) && Utf16Length(url) <= MaxFieldLength && isEmail(email) && Utf16Length(email) <= MaxFieldLength
  }

  /**
   * The limit counts code units, not characters: for a text without astral
   * characters it is 255 characters, for one made of astral characters only
   * (emoji, say) it is 127.
   */
  lemma LimitInCodeUnits(url: string, email: string, isUrl: string -> bool, isEmail: string -> bool)
    requires isUrl(url) && isEmail(email) && |email| <= MaxFieldLength
    requires forall i :: 0 <= i < |email| ==> !Astral(email[i])
    ensures (forall i :: 0 <= i < |url| ==> !Astral(url[i])) ==>
      (Validate(url, email, isUrl, isEmail) <==> |url| <= MaxFieldLength)
    ensures (forall i :: 0 <= i < |url| ==> Astral(url[i])) ==>
      (Validate(url, email, isUrl, isEmail) <==> |url| <= MaxFieldLength / 2)
  {
    Utf16LengthOfBmp(email);
    if forall i :: 0 <= i < |url| ==> !Astral(url[i]) {
      Utf16LengthOfBmp(url);
    }
    if forall i :: 0 <= i < |url| ==> Astral(url[i]) {
      Utf16LengthOfAstral(url);
    }
  }

  // ---------------------------------------------------------------------
  // The downloaded file's name
  // ---------------------------------------------------------------------

  /**
   * `audit-${url.replace(/https?:\/\//, "").replace(/\//g, "-")}.pdf`:
   * the URL without its first scheme, every slash turned into a dash.
   */
  function PdfFilename(url: string): (r: string)
    ensures |r| == |StripScheme(url)| + 10
    ensures r[..6] == "audit-" && r[|r| - 4..] == ".pdf"
    ensures forall i :: 0 <= i < |StripScheme(url)| ==>
      r[6 + i] == (if StripScheme(url)[i] == '/' then '-' else StripScheme(url)[i])
    ensures '/' !in r
  {
    var s := StripScheme(url);
    ReplaceAllChar(s, '/', '-');
    var middle := ReplaceAll(s, "/", "-");
    var r := "audit-" + middle + ".pdf";
    assert forall i :: 0 <= i < |middle| ==> r[6 + i] == middle[i];
    assert forall i :: 0 <= i < |middle| ==> middle[i] != '/';
    assert forall i :: 0 <= i < |r| ==> r[i] != '/' by {
      forall i | 0 <= i < |r|
        ensures r[i] != '/'
      {
        if 6 <= i < 6 + |middle| {
          assert r[i] == middle[i - 6];
        }
      }
    }
    r
  }

  /** A URL that is a scheme followed by a bare host downloads as `audit-<host>.pdf`. */
  lemma FilenameOfSchemeHost(scheme: string, host: string)
    requires scheme == "http://" || scheme == "https://"
    requires '/' !in host
    ensures PdfFilename(scheme + host) == "audit-" + host + ".pdf"
  {
    StripLeadingScheme(scheme, host);
    AbsentWithoutFirstChar(host, "/");
    ReplaceAllAbsent(host, "/", "-");
  }

  // ---------------------------------------------------------------------
  // Classifying the server's reply
  // ---------------------------------------------------------------------

  /**
   * What the form sees of the reply: the content type header, `ok`, and,
   * for a JSON reply, its `error` field (`Err` when the body does not parse
   * as JSON, carrying the parser's message).
   */
  datatype Reply = Reply(contentType: Option<string>, ok: bool, errorField: Result<Option<string>>)

  /** The reply announces JSON: its content type contains `application/json`. */
  predicate IsJson(reply: Reply)
  {
    reply.contentType.Some? && Contains(reply.contentType.value, JsonContentType)
  }

  /**
   * The message of the `TypeError` that `response.blob()` rejects with
   * once `response.json()` has consumed the body. The exact wording is the
   * browser's.
   */
  const BodyUsedMessage: string := "body stream already read"

  /**
   * How the submission's promise settles. A JSON reply reads the body to
   * look at `error`: a parse failure or a truthy `error` is thrown, and
   * otherwise the download that follows reads the consumed body again and
   * rejects. A reply that is not JSON fails with the generic message when
   * not ok, and otherwise its body becomes the download. So a submission
   * succeeds exactly on an ok reply that is not JSON.
   */
  function Classify(reply: Reply): (r: Result<()>)
    ensures r.Ok? <==> !IsJson(reply) && reply.ok
    ensures IsJson(reply) && reply.errorField.Err? ==> r == Err(reply.errorField.message)
    ensures IsJson(reply) && reply.errorField.Ok? ==>
      r == Err(if Truthy(reply.errorField.value) then reply.errorField.value.value else BodyUsedMessage)
    ensures !IsJson(reply) && !reply.ok ==> r == Err(SendFailedMessage)
  {
    if IsJson(reply) then
      match reply.errorField
      case Err(m) => Err(m)
      case Ok(e) => if Truthy(e) then Err(e.value) else Err(BodyUsedMessage)
    else if !reply.ok then Err(SendFailedMessage)
    else Ok(())
  }

  /** The reply a handler response produces in the browser. */
  function ReplyOf(response: Handlers.Response): Reply
  {
    var ok := 200 <= response.status <= 299;
    if response.body.MessageBody? then Reply(Some(JsonContentType), ok, Ok(None))
    else if response.body.ErrorBody? then Reply(Some(JsonContentType), ok, Ok(Some(response.body.error)))
    else if response.body.PdfBody? then Reply(Some("application/pdf"), ok, Ok(None))
    else Reply(None, ok, Ok(None))
  }

  lemma JsonIsJson()
    ensures Contains(JsonContentType, JsonContentType)
  {
    assert JsonContentType[0..0 + |JsonContentType|] == JsonContentType;
    assert OccursAt(JsonContentType, JsonContentType, 0);
  }

  /** The PDF content type is shorter than the JSON one, so it cannot contain it. */
  lemma PdfIsNotJson()
    ensures !Contains("application/pdf", JsonContentType)
  {
    assert |"application/pdf"| < |JsonContentType|;
  }

  /**
   * For any handler response, the form's submission succeeds exactly when
   * the status lies in 200-299 and the body is not JSON: the PDF download
   * or an empty answer. A JSON message or error never completes one.
   */
  lemma HandlerReplySucceeds(response: Handlers.Response)
    ensures Classify(ReplyOf(response)).Ok? <==>
      200 <= response.status <= 299 && (response.body.PdfBody? || response.body.EmptyBody?)
    ensures response.body.ErrorBody? && |response.body.error| > 0 ==>
      Classify(ReplyOf(response)) == Err(response.body.error)
  {
    JsonIsJson();
    PdfIsNotJson();
  }

  /**
   * Against the current handler every submission fails: its receipt
   * message is JSON without an error, so the download rejects. The earlier
   * handler's empty status-255 answer succeeds, since 255 lies in the ok
   * range and the answer is not JSON. Error answers show their error.
   */
  lemma ClassifyHandlerReplies(db: RateLimit.Db)
    ensures Classify(ReplyOf(Handlers.LivePost(db).response)) == Err(BodyUsedMessage)
    ensures Classify(ReplyOf(Handlers.Response(429, Handlers.ErrorBody(Handlers.RateLimitedError))))
      == Err(Handlers.RateLimitedError)
    ensures Classify(ReplyOf(Handlers.Response(255, Handlers.EmptyBody))).Ok?
    ensures Classify(ReplyOf(Handlers.Response(500, Handlers.ErrorBody(Handlers.InternalError))))
      == Err(Handlers.InternalError)
  {
    JsonIsJson();
  }

  // ---------------------------------------------------------------------
  // Form state
  // ---------------------------------------------------------------------

  datatype FormState = FormState(sent: bool, isSubmitting: bool, downloadUrl: Option<string>, filename: string)

  const Initial: FormState := FormState(false, false, None, "")

  /** The submit button is disabled once sent or while a submission runs. */
  predicate SubmitDisabled(s: FormState)
  {
    s.sent || s.isSubmitting
  }

  /** The state after a submission starts, and the object URL it revokes. */
  datatype Started = Started(state: FormState, revoked: Option<string>, proceeds: bool)

  /**
   * A press of the submit button. While a submission runs, the form's own
   * handler stops it before the form library sees it. Otherwise the
   * library's `handleSubmit` checks the schema; `valid` is its verdict. An
   * invalid form only shows field errors, so nothing here changes. A valid
   * one reaches the submit handler: the form is marked submitting and any
   * previous download URL is revoked and cleared.
   */
  function BeginSubmit(s: FormState, valid: bool): (r: Started)
    ensures s.isSubmitting ==> r == Started(s, None, false)
    ensures !s.isSubmitting && !valid ==> r == Started(s, None, false)
    ensures r.proceeds <==> !s.isSubmitting && valid
    ensures !s.isSubmitting && valid ==>
      r.proceeds && r.state.isSubmitting && r.state.downloadUrl.None?
      && r.state.sent == s.sent && r.state.filename == s.filename
      && (r.revoked.Some? <==> Truthy(s.downloadUrl))
      && (r.revoked.Some? ==> r.revoked == s.downloadUrl)
  {
    if s.isSubmitting || !valid then Started(s, None, false)
    else
      var revoked := if Truthy(s.downloadUrl) then s.downloadUrl else None;
      Started(s.(isSubmitting := true, downloadUrl := None), revoked, true)
  }

  /**
   * The end of a submission for `url`, given the reply and the object URL
   * made from the downloaded body: on success the form is marked sent and
   * offers the download under its file name; either way it stops
   * submitting.
   */
  function FinishSubmit(s: FormState, url: string, reply: Reply, objectUrl: string): (r: FormState)
    ensures !r.isSubmitting
    ensures Classify(reply).Ok? ==>
      r.sent && r.downloadUrl == Some(objectUrl) && r.filename == PdfFilename(url)
    ensures Classify(reply).Err? ==> r == s.(isSubmitting := false)
  {
    if Classify(reply).Ok? then FormState(true, false, Some(objectUrl), PdfFilename(url))
    else s.(isSubmitting := false)
  }

  /** Any edit of the form clears `sent`, and nothing else. */
  function OnChange(s: FormState): (r: FormState)
    ensures !r.sent && r.isSubmitting == s.isSubmitting
    ensures r.downloadUrl == s.downloadUrl && r.filename == s.filename
  {
    s.(sent := false)
  }

  /** The object URL released when the form goes away. */
  function CleanupOnUnmount(s: FormState): (revoked: Option<string>)
    ensures revoked.Some? <==> Truthy(s.downloadUrl)
  {
    if Truthy(s.downloadUrl) then s.downloadUrl else None
  }

  /**
   * A submit from an idle form with the fields `url` and `email`. It goes
   * ahead exactly when the schema accepts them. A rejected form keeps its
   * state, download included. An accepted one ends idle again, the button
   * disabled exactly when the reply was a success, and a failure leaves no
   * stale download behind.
   */
  lemma SubmissionRoundTrip(s: FormState, url: string, email: string, isUrl: string -> bool, isEmail: string -> bool,
                            reply: Reply, objectUrl: string)
    requires !s.isSubmitting && !s.sent
    ensures var b := BeginSubmit(s, Validate(url, email, isUrl, isEmail));
      (b.proceeds <==>
        (isUrl(url) && isEmail(email) && Utf16Length(url) <= MaxFieldLength && Utf16Length(email) <= MaxFieldLength))
      && (!b.proceeds ==> b.state == s && b.revoked.None?)
      && (b.proceeds ==>
        var r := FinishSubmit(b.state, url, reply, objectUrl);
        !r.isSubmitting
        && (SubmitDisabled(r) <==> Classify(reply).Ok?)
        && (Classify(reply).Err? ==> r.downloadUrl.None?))
  {
  }

  /**
   * A submit the schema rejects, such as one of the empty defaults, keeps
   * the form idle and its previous download offered.
   */
  lemma InvalidSubmitKeepsDownload(s: FormState, url: string, email: string, isUrl: string -> bool, isEmail: string -> bool)
    requires !Validate(url, email, isUrl, isEmail)
    ensures var b := BeginSubmit(s, Validate(url, email, isUrl, isEmail));
      !b.proceeds && b.state.isSubmitting == s.isSubmitting
      && b.state.downloadUrl == s.downloadUrl && b.revoked.None?
  {
  }

  /**
   * Against the current handler a submission the schema accepts, from an
   * idle form, ends idle, not sent and without a download, whatever the
   * form held before.
   */
  lemma LiveSubmissionNeverSent(s: FormState, url: string, db: RateLimit.Db, objectUrl: string)
    requires !s.isSubmitting && !s.sent
    ensures var r := FinishSubmit(BeginSubmit(s, true).state, url, ReplyOf(Handlers.LivePost(db).response), objectUrl);
      !r.sent && !r.isSubmitting && r.downloadUrl.None? && !SubmitDisabled(r)
  {
    ClassifyHandlerReplies(db);
  }

  /** While a submission runs, further submits change nothing and the button stays disabled. */
  lemma SubmitWhileSubmittingIgnored(s: FormState)
    requires s.isSubmitting
    ensures forall valid: bool :: BeginSubmit(s, valid).state == s && !BeginSubmit(s, valid).proceeds
    ensures SubmitDisabled(s) && SubmitDisabled(OnChange(s))
  {
  }
}
