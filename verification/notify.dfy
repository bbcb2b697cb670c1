/**
 * The report email: the Brevo transactional request that carries a
 * rendered report to the requester. The API key comes from the
 * environment; the HTTP exchange is reduced to whether the service
 * accepted the request.
 */
module Notify {
  import opened Wrappers
  import opened Text
  import opened Urls

  const SenderName: string := "PageSense"
  const SenderAddress: string := "info@pagesense.co"
  const ConfigErrorMessage: string := "[sendEmail] Email service configuration error"
  const DeliveryErrorMessage: string := "Failed to send email"

  /** The subject is built around the display domain: "🚀 Your <domain> audit is ready!". */
  const SubjectPrefix: string := "\U{1F680} Your "
  const SubjectSuffix: string := " audit is ready!"

  /**
   * The body of the POST to the transactional email endpoint, with its key
   * header. A recipient without an address (`None`) is serialised as an
   * empty recipient object.
   */
  datatype EmailRequest = EmailRequest(
    apiKey: string,
    senderName: string,
    senderAddress: string,
    to: Option<string>,
    subject: string,
    htmlContent: string)

  /** The request that was sent, if any, and whether sending threw. */
  datatype Delivery = Delivery(request: Option<EmailRequest>, outcome: Result<()>)

  function Subject(domain: string): string
  {
    SubjectPrefix + domain + SubjectSuffix
  }

  /**
   * `sendEmail(email, htmlContent, url)`: with no (or an empty) API key it
   * throws before sending anything; otherwise it sends one request and
   * throws when the service rejects it.
   */
  function SendEmail(apiKey: Option<string>, email: Option<string>, htmlContent: string, url: string,
                     hostname: string -> Option<string>, accepted: bool): (d: Delivery)
    ensures d.request.None? <==> !Truthy(apiKey)
    ensures d.outcome.Ok? <==> Truthy(apiKey) && accepted
    ensures !Truthy(apiKey) ==> d.outcome == Err(ConfigErrorMessage)
    ensures Truthy(apiKey) && !accepted ==> d.outcome == Err(DeliveryErrorMessage)
    ensures d.request.Some? ==>
      var q := d.request.value;
      q.apiKey == apiKey.value && q.to == email && q.htmlContent == htmlContent
      && q.senderName == SenderName && q.senderAddress == SenderAddress
      && |q.subject| == |SubjectPrefix| + |DomainName(url, hostname)| + |SubjectSuffix|
      && StartsWith(q.subject, SubjectPrefix)
      && q.subject[|q.subject| - |SubjectSuffix|..] == SubjectSuffix
      && q.subject[|SubjectPrefix|..|q.subject| - |SubjectSuffix|] == DomainName(url, hostname)
  {
    if !Truthy(apiKey) then Delivery(None, Err(ConfigErrorMessage))
    else
      var domain := DomainName(url, hostname);
      var subject := Subject(domain);
      assert subject[..|SubjectPrefix|] == SubjectPrefix;
      assert subject[|SubjectPrefix|..|subject| - |SubjectSuffix|] == domain;
      assert subject[|subject| - |SubjectSuffix|..] == SubjectSuffix;
      var request := EmailRequest(apiKey.value, SenderName, SenderAddress, email, subject, htmlContent);
      Delivery(Some(request), if accepted then Ok(()) else Err(DeliveryErrorMessage))
  }

  /**
   * For an address that does not parse, a URL with an explicit scheme and
   * a slash-free host names that host in the subject.
   */
  lemma SubjectNamesFallbackHost(apiKey: string, email: Option<string>, html: string,
                                 scheme: string, host: string, path: string,
                                 hostname: string -> Option<string>, accepted: bool)
    requires |apiKey| > 0
    requires scheme == "http://" || scheme == "https://"
    requires '/' !in host
    requires hostname(scheme + host + "/" + path).None?
    ensures SendEmail(Some(apiKey), email, html, scheme + host + "/" + path, hostname, accepted)
      .request == Some(EmailRequest(apiKey, SenderName, SenderAddress, email, Subject(host), html))
  {
    FallbackOfSchemeUrl(scheme, host, path);
  }
}
