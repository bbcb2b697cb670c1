# PageSense audit core in Dafny

PageSense is a landing-page audit service. A visitor submits a URL and an
email address through the audit form. The server does four things:

- checks a per-email rate limit kept in Firestore;
- asks a language model for conversion blockers and recommendations;
- flattens the answer into text and renders it into a PDF report;
- emails the report through Brevo and returns the PDF as a download.

The site also has a few pure helpers around that pipeline:

- SEO metadata and JSON-LD builders;
- an HTML formatter for the dashboard preview;
- a password-reset form;
- a route guard for signed-in pages.

This project models that core as pure Dafny functions over immutable data
and proves properties about them:

- `wrappers.dfy`: `Option`, `Result` and JavaScript truthiness of optional strings.
- `text.dfy`: the string operations the code uses, each with its own lemmas. These are `includes`, `indexOf`, a non-global `replace`, a global `replace`, `join`, `split("/")[0]`, ASCII case mapping and capitalisation.
- `urls.dfy`: the display domain, which is the parsed hostname or the fallback that strips the first `http://`/`https://` match and cuts at the first `/`.
- `report.dfy`:
  - the two serialisations of the audit result: blank-line paragraphs in the audit handlers, a compact comma form in the manual-fetch handler;
  - the bolding of the `Issue:`/`Suggestions:` labels;
  - the logo base URL and the values the report template interpolates.
- `rate_limit.dfy`: the rate limiter as a state machine over per-identity timestamp logs. Includes the fail-open paths and the "at most three logged requests per 24 hours" invariant over any run of sequential requests.
- `notify.dfy`: the Brevo request `sendEmail` builds and its error paths.
- `handlers.dfy`: the outcome rules of the three audit endpoints:
  - the current `POST`, which answers before doing any work, together with the pipeline it leaves unreachable;
  - the earlier `handler`;
  - the manual-fetch `POST` and its `audit`.
- `audit_form.dfy`: the audit form's schema check, reply classification, download file name and form state.
- `json.dfy` and `seo.dfy`:
  - JSON values with ordered fields and object spread;
  - `getBaseUrl`, `generateJSONLD`, `generateBreadcrumbJSONLD`, `generateBreadcrumbSchema` and `getMetadata`.
- `format_html.dfy`: `formatHTML`, with the injected style block character for character.
- `reset_password.dfy`: the reset form's error mapping and state.
- `protected_route.dfy`: the `ProtectedRoute` gate.

Where the model could not compute something, it takes that thing as a
parameter. These are:

- the browser;
- the language model's reply, and what `JSON.parse` makes of it;
- `new URL(...)`, the report renderer and the Brevo HTTP answer;
- environment variables, the clock and the store faults.

A few things the code does differ from what one might expect of the
system. The model follows the code:

- The current `POST` (app/api/audit/route.ts:451) returns 200 with `{ message: "Audit request received!" }` before reading the request. It never consults the limiter and never audits, renders or emails. `Handlers.LivePost` models this reply. `Handlers.RoutePipeline` models the unreachable code after it, so its properties are stated too.
- The earlier handler (api/audit.ts:387-390) answers every admitted POST with status 255 and an empty body before auditing. The form puts 255 in the ok range and the body is not JSON, so the form treats it as a success.
- The form can never complete a submission on a JSON reply. It reads a JSON body to look at `error` (components/audit-form/AuditForm.tsx:69-76). When `error` is falsy it goes on to read the same body again as the download (:83), and that read rejects. The current receipt message is such a reply, so against the current handler every submission ends in an error and the form is never marked sent. `AuditForm.ClassifyHandlerReplies` and `AuditForm.LiveSubmissionNeverSent` prove this.
- JavaScript enumerates an object's array-index keys (`"0"`, `"1"`, …) before all others. The JSON-LD header therefore leads the serialised object only when the spread data has no such key; the model states the order of the other keys.
- Both limiters use the lower-cased email as a Firestore document id under `users` (app/api/audit/route.ts:409-412, api/audit.ts:329-332). The Admin SDK throws for an id that names no document, such as an empty one or `a/b`. The throw lands in the limiter's `catch`, so such an email is never blocked and never logged (`RateLimit.RejectedIdNeverLimited`).
- Both forms submit through the form library's `handleSubmit`, which calls the submit handler only when the schema accepts the fields. A rejected audit form therefore keeps its state and its previous download (`AuditForm.InvalidSubmitKeepsDownload`).
- On the reset page, the form library's `handleSubmit` replaces the form errors with the schema's verdict before it calls the submit handler. That drops an error left by an earlier attempt, so a new submit never shows a stale error (`ResetPassword.RetryClearsOldError`).
- The scheme pattern `/https?:\/\//` is not anchored. It removes the first scheme wherever it occurs, not only at the start.
- The breadcrumb schema numbers and links its crumbs off by one; see Findings.

## Model

| member | source | states |
|---|---|---|
| Json.PutLookup | lib/seo.ts:46-51 | Writing a property in an object literal makes that key read as the new value and leaves every other key reading as before |
| Json.SpreadLookup | lib/seo.ts:46-51 | After `{ ...base, ...data }` a key supplied by `data` reads as its last binding in `data`; any other key reads as in `base` |
| Json.SpreadKeepsBaseKeys | lib/seo.ts:46-51 | Spreading never moves or drops a base key: in insertion order the base keys stay in front, in their order |
| Json.SpreadKeepsNamedBaseKeys | lib/seo.ts:46-51 | Among the keys that are not array indices, which enumeration lists in insertion order after the indices, the base's keys stay in front, in their order |
| Seo.BaseUrl | lib/seo.ts:27-34 | The public URL if set and non-empty, else the Vercel URL behind `https://`, else `https://pagesense.co`; never empty |
| Seo.JsonLdKeyOrder | lib/seo.ts:37-54 | `@context`, `@type`, `url` are written first and lead the keys that are not array indices, whatever the data holds; when the data has no array-index key, they lead the whole serialised object |
| Seo.JsonLdLookup | lib/seo.ts:37-54 | A data key overrides even a header key; a header key the data lacks keeps its header value |
| Seo.Numbered | lib/seo.ts:66-71 | The list items keep input order and are numbered consecutively from 1, with names and URLs copied |
| Seo.BreadcrumbJsonLdShape | lib/seo.ts:60-74 | The breadcrumb JSON-LD is typed `BreadcrumbList`, carries the base URL, and lists the links as positions 1..n in input order |
| Seo.BreadcrumbCrumbs | lib/seo.ts:94-100 | The breadcrumb list has one crumb per segment plus Home, and Home (position 1, base URL) comes first |
| Seo.BreadcrumbQuirks | lib/seo.ts:81-107 | As written, for every non-empty path the first segment's crumb also has position 1. A single segment links to itself. With two or more segments the first links to two segments and the last two crumbs both link to the whole path |
| Seo.FirstSegmentSharesHomePosition | lib/seo.ts:82-100 | As written, for every non-empty path, including the one-segment paths most pages pass, Home and the first segment both have position 1 |
| Seo.SingleSegmentLinksItself | lib/seo.ts:94-100 | For a one-segment path, the segment's crumb has position 1 and links to base URL plus that segment |
| Seo.IntendedBreadcrumbTrail | lib/seo.ts:81-107 | The corrected list is a trail: Home first, positions 1..n+1, each crumb linking to its parent's URL plus its own segment and named after it |
| Seo.Dedup | lib/seo.ts:121 | `[...new Set(xs)]` has no repeats and exactly the values of `xs` |
| Seo.DedupPrefix | lib/seo.ts:121 | Adding values after a list never reorders or drops what the set already kept |
| Seo.DedupDistinct | lib/seo.ts:121 | A list without repeats passes through the set unchanged |
| Seo.Keywords | lib/seo.ts:120-121 | All base keywords come first in order, then the page keywords not already present, each once, and nothing is dropped |
| Seo.GetMetadata | lib/seo.ts:109-168 | The canonical URL and Open Graph URL are base URL plus path; titles, description, locale, languages and keywords follow the props or their defaults; robots allow everything |
| Seo.TemplateMatchesDefault | lib/seo.ts:124-127 | A page title put through the `%s | Pagesense` template gives exactly the default title |
| FormatHtml.Insert | lib/formatHTML.ts:52-59 | Empty in, empty out; otherwise the output is longer by the style, or by a whole wrapped head when the input has no `<head>` |
| FormatHtml.InsertIntoHead | lib/formatHTML.ts:53-54 | With a `<head>`, the style is spliced in directly after the first one and the rest is untouched |
| FormatHtml.InsertIntoHtml | lib/formatHTML.ts:55-56 | Without `<head>` but with `<html>`, a whole head is spliced in directly after the first `<html>` |
| FormatHtml.InsertInFront | lib/formatHTML.ts:57-58 | With neither tag, a whole head is put in front of the document |
| FormatHtml.StyleFollowsFirstHead | lib/formatHTML.ts:52-59 | Whatever the branch, the output's first `<head>` is directly followed by the style |
| FormatHtml.InsertsOneBlock | lib/formatHTML.ts:52-59 | The output is the input with exactly one block inserted, either the style or the wrapped head |
| FormatHtml.InsertTwiceAddsStyleAgain | lib/formatHTML.ts:52-59 | Inserting is not idempotent: a second pass adds the style again |
| FormatHtml.FormatPlacesStyle | lib/formatHTML.ts:2-62 | `formatHTML` keeps empty input empty and otherwise puts the responsive block right after the first `<head>` |
| FormatHtml.FormatTwiceAddsStyleAgain | lib/formatHTML.ts:2-62 | Formatting an already formatted document adds the block a second time |
| Urls.StripScheme | app/api/audit/route.ts:165 | Text without a scheme is unchanged; otherwise at most 8 characters are removed |
| Urls.StripLeftmost | app/api/audit/route.ts:165 | Exactly the leftmost `http://` or `https://` match is cut out, wherever it is, and the text around it kept |
| Urls.StripLeadingScheme | app/api/audit/route.ts:165 | A text starting with a scheme loses exactly that scheme |
| Urls.FallbackDomain | app/api/audit/route.ts:165 | The fallback is the scheme-stripped text up to, not including, its first `/` |
| Urls.DomainName | app/api/audit/route.ts:158-167 | The parsed hostname when the URL parses; otherwise a slash-free prefix of the scheme-stripped URL |
| Urls.FallbackOfSchemeUrl | app/api/audit/route.ts:163-166 | For `scheme + host + "/" + path` with a slash-free host, the fallback is the host |
| Urls.FallbackKeepsSlashFreeText | app/api/audit/route.ts:163-166 | Any text without a `/` (so without a scheme) is used whole by the fallback |
| Report.SerializeBlockers | app/api/audit/route.ts:484-492 | The handler loop yields the blocker paragraphs joined by single newlines, and empty text for no blockers |
| Report.SerializeBlockersCompact | app/api/manuelfetchaudit/route.ts:156-164 | The manual-fetch loop yields the compact paragraphs back to back, starting with `Issue: ` when there is any blocker |
| Report.BoldAppend | app/api/audit/route.ts:153-156 | Bolding distributes over a concatenation whose seam is a space or newline |
| Report.BoldPlain | app/api/audit/route.ts:153-156 | Text mentioning neither label is unchanged by bolding |
| Report.BoldNoCapitals | app/api/audit/route.ts:153-156 | Text without `I` or `S` is unchanged by bolding |
| Report.BoldIssueLead | app/api/audit/route.ts:153-156 | The paragraph lead `Issue: ` becomes `<b>Issue:</b> ` |
| Report.BoldAroundSuggestions | app/api/audit/route.ts:153-156 | A lone `Suggestions:` label between label-free text is bolded and nothing else changes |
| Report.BoldJoinPlain | app/api/audit/route.ts:153-156 | Label-free suggestions joined by blank lines are unchanged by bolding |
| Report.BoldParagraphOf | app/api/audit/route.ts:153-156 | A serialised paragraph of a label-free blocker gets exactly its two labels bolded |
| Report.BoldBlockersText | app/api/audit/route.ts:153-156 | Bolding the whole blocker text of label-free blockers bolds exactly the two labels of every paragraph |
| Report.ReportBaseUrl | app/api/audit/route.ts:137-147 | The logo base is the production URL, else the deployment URL, each behind `https://`, else `http://localhost:3000` |
| Report.LegacyReportBaseUrl | api/audit.ts:100-102 | The earlier handler's logo base agrees with the current one when no production URL is set |
| Report.RenderSlots | app/api/audit/route.ts:149-195 | The template gets the logo under the base URL, the display domain, the bolded blocker text and the recommendations as given |
| RateLimit.CountIsThreeRecent | app/api/audit/route.ts:417-423 | The query size reaches 3 exactly when three distinct logged requests are newer than a day before now |
| RateLimit.Check | app/api/audit/route.ts:395-446 | Blocked exactly when the store is ready, the email is present and names a document, the query succeeds and three recent requests exist. Otherwise it allows, recording `now` under the document's key only when nothing fails. Every non-recording path leaves the store unchanged |
| RateLimit.SplitSlashJoin | app/api/audit/route.ts:409-412 | The parts of a document path, split at every slash, join back into the path |
| RateLimit.PlainIdIsItsOwnKey | app/api/audit/route.ts:409-412 | A non-empty id without a slash names the document of that id |
| RateLimit.TwoPartIdRejected | app/api/audit/route.ts:409-412 | An id of two slash-free parts, such as `a/b`, names a collection, so `doc` throws |
| RateLimit.RejectedIdNeverLimited | app/api/audit/route.ts:407-446 | An email the SDK rejects as a document id is let through whatever its history, and nothing is logged |
| RateLimit.CaseVariantsShareQuota | app/api/audit/route.ts:409-412 | Emails that differ only in ASCII case get the same verdict and the same store |
| RateLimit.RecordedAddsOneEntry | app/api/audit/route.ts:430-432 | A recorded request appends exactly one entry, stamped `now`, to its own identity's log only |
| RateLimit.CheckKeepsInv | app/api/audit/route.ts:395-446 | A check no earlier than the store's entries keeps every log sorted and spaced a day per three entries |
| RateLimit.RunKeepsInv | app/api/audit/route.ts:395-446 | Sequential checks with a clock that never goes back keep that invariant |
| RateLimit.AtMostThreePerWindow | app/api/audit/route.ts:404-427 | A sorted, spaced log has at most three entries in any 24-hour window |
| RateLimit.AtMostThreeLoggedPerDay | app/api/audit/route.ts:395-446 | From an empty store, sequential requests leave at most three logged requests per email in any 24-hour window |
| Notify.SendEmail | app/api/audit/route.ts:342-390 | With no API key it throws the configuration error before sending; otherwise it sends one request, to the requester, with the fixed sender, the report as body and the domain framed by the subject's prefix and suffix. It throws when the service rejects it |
| Notify.SubjectNamesFallbackHost | app/api/audit/route.ts:356-380 | When the URL does not parse, a scheme-plus-host URL puts that host in the subject |
| Handlers.ManualAudit | app/api/manuelfetchaudit/route.ts:44-133 | Fetch or client failures are rethrown; a failed call, missing content or unparsable or falsy JSON gives null; otherwise the parsed value |
| Handlers.RouteAudit | app/api/audit/route.ts:269-327 | A client failure propagates; an audit is returned only from present content that parses to one |
| Handlers.RouteAuditAgreesWithManual | app/api/audit/route.ts:269-327 | Once the page is fetched, the current `audit` and the manual-fetch `audit` return the same thing |
| Handlers.LivePost | app/api/audit/route.ts:449-451 | The current POST answers 200 with the receipt message, touches no store and runs no step |
| Handlers.RoutePipeline | app/api/audit/route.ts:453-530 | The code after the early return:<br>- a body that is not JSON gives 500 with no rate check;<br>- 429 exactly when the limiter blocks;<br>- the model-failure 500 exactly for a falsy audit;<br>- 200 with the PDF exactly when audit and render succeed, after rate check, audit, render and email in that order |
| Handlers.EmailFailureIsSwallowed | app/api/audit/route.ts:504-510 | The response does not depend on whether the email is configured or delivered |
| Handlers.EmailFollowsRendering | app/api/audit/route.ts:498-525 | Any email step is the fourth, comes after rendering, belongs to a 200 answer and is addressed to the requester |
| Handlers.LegacyHandle | api/audit.ts:364-446 | Non-POST gives 405; a POST with a `null` body throws while reading its fields and gets the framework's 500; neither touches the store. 429 exactly when the limiter blocks; any other POST gives 255 with an empty body; the store is what the limiter leaves |
| Handlers.LegacyAdmittedIsLogged | api/audit.ts:376-390 | An admitted POST with a healthy store is answered 255. It is logged once under its document key, and not at all when the SDK rejects its email as a document id |
| Handlers.ManualPost | app/api/manuelfetchaudit/route.ts:135-177 | 200 with the receipt message exactly for a readable body and an audit; `Audit failed` exactly for a falsy audit; otherwise `Internal server error` |
| Handlers.ManualFailureModes | app/api/manuelfetchaudit/route.ts:44-177 | End to end: a failed fetch is an internal error, a reply without content a failed audit, and a parsed audit the receipt message |
| AuditForm.Validate | components/audit-form/AuditForm.tsx:24-27 | The form accepts exactly a valid URL and a valid email, each at most 255 UTF-16 code units long |
| AuditForm.LimitInCodeUnits | components/audit-form/AuditForm.tsx:24-27 | The limit is 255 characters for text without astral characters, but only 127 for text made of astral characters such as emoji |
| AuditForm.PdfFilename | components/audit-form/AuditForm.tsx:87-89 | The file name is `audit-`, then the scheme-stripped URL with each `/` turned into `-`, then `.pdf`; it has no slash |
| AuditForm.FilenameOfSchemeHost | components/audit-form/AuditForm.tsx:87-89 | `https://host` downloads as `audit-host.pdf` |
| AuditForm.Classify | components/audit-form/AuditForm.tsx:67-96 | A submission succeeds exactly on an ok reply that is not JSON. A JSON reply fails with its parse error or its truthy `error`, and otherwise with the error of re-reading the consumed body. A non-JSON reply that is not ok fails with `Failed to send data` |
| AuditForm.HandlerReplySucceeds | components/audit-form/AuditForm.tsx:67-96 | For any handler response, the submission succeeds exactly when the status is in 200-299 and the body is the PDF or empty; an error body shows its error |
| AuditForm.ClassifyHandlerReplies | components/audit-form/AuditForm.tsx:67-96 | The current receipt message fails with the consumed-body error; the earlier 255 answer succeeds; 429 and 500 show their error |
| AuditForm.LiveSubmissionNeverSent | components/audit-form/AuditForm.tsx:43-99 | Against the current handler, a submission the schema accepts ends idle, not sent and with no download |
| AuditForm.BeginSubmit | components/audit-form/AuditForm.tsx:35-51 | A submit while submitting, or one the schema rejects, changes nothing. Otherwise the form starts submitting and revokes and clears a previous download URL |
| AuditForm.InvalidSubmitKeepsDownload | components/audit-form/AuditForm.tsx:133-140 | A submit the schema rejects keeps the form idle and its previous download offered |
| AuditForm.FinishSubmit | components/audit-form/AuditForm.tsx:82-99 | Submitting always stops; a success marks the form sent and offers the download under its file name; a failure changes nothing else |
| AuditForm.OnChange | components/audit-form/AuditForm.tsx:142-144 | Any edit clears `sent` and nothing else |
| AuditForm.CleanupOnUnmount | components/audit-form/AuditForm.tsx:119-125 | The download URL is revoked on unmount exactly when one is held |
| AuditForm.SubmissionRoundTrip | components/audit-form/AuditForm.tsx:24-140 | A submit from an idle form goes ahead exactly when the schema accepts the fields, and otherwise keeps the form as it was. An accepted submission ends idle, the button disabled exactly on success, and a failure leaves no download |
| AuditForm.SubmitWhileSubmittingIgnored | components/audit-form/AuditForm.tsx:133-144 | While submitting, a submit changes nothing and the button stays disabled, even after an edit |
| ResetPassword.ErrorMessage | app/auth/reset-password/page.tsx:47-62 | The first known code in the message, in checking order, picks its text; an error without one shows its own message; a non-error shows the generic text |
| ResetPassword.FirstCodeWins | app/auth/reset-password/page.tsx:51-57 | A message naming both user-not-found and the network code shows the user-not-found text |
| ResetPassword.ErrorMessageOrigin | app/auth/reset-password/page.tsx:47-62 | The shown message is one of the four fixed texts or the error's own message |
| ResetPassword.BeginSubmit | app/auth/reset-password/page.tsx:40-117 | A submit while submitting is ignored. Otherwise the form-level error is dropped, and submitting starts exactly when the email is valid |
| ResetPassword.FinishSubmit | app/auth/reset-password/page.tsx:44-65 | Submitting always stops; success shows the confirmation; a failure sets the mapped root error |
| ResetPassword.SendAnother | app/auth/reset-password/page.tsx:102 | "Send another email" hides the confirmation and changes nothing else |
| ResetPassword.SubmissionEndsIdle | app/auth/reset-password/page.tsx:40-66 | A submission from an idle page ends with the button enabled. It shows the confirmation exactly on success and the mapped error exactly on failure |
| ResetPassword.RetryClearsOldError | app/auth/reset-password/page.tsx:40-117 | Failing, retrying successfully and pressing "Send another email" leaves the form idle with no error shown |
| ProtectedRoute.RedirectTarget | components/ProtectedRoute.tsx:13-16 | The redirect goes to `redirectTo` when given, else `/auth/login` |
| ProtectedRoute.Decide | components/ProtectedRoute.tsx:20-34 | Loading shows the loader; no user renders nothing and redirects; a user renders the page |
| ProtectedRoute.ChildrenOnlyForUsers | components/ProtectedRoute.tsx:20-34 | The page renders exactly when loading is over with a user, a redirect happens exactly when loading is over without one, and never both |

## Left out

- Browser automation (Puppeteer/Chromium launch, page fetch, PDF printing): I/O. Page HTML and the renderer's result are parameters.
- The OpenAI call and its prompts: foreign calls. The reply and its `JSON.parse` outcome are parameters.
- The Brevo HTTP exchange: I/O. It is reduced to whether the service accepted the request.
- Firestore I/O: the store is a map from document key (the lower-cased email, as the SDK resolves it to a path) to a timestamp log. The server timestamp is the `now` parameter.
- Concurrency: concurrent requests can race between the query and the write; the model checks requests one at a time.
- `new URL(...)`, the zod `url()`/`email()` checks and `request.json()`: parsing is outside the model, so these are parameters or `Option`s.
- The report's HTML template and the React markup, styling, toasts and icons: presentation only. `Report.RenderSlots` covers the interpolated values.
- The dashboard, the `src/` variant of the form, the other pages and the configs: outside the audit core.
- Case mapping is ASCII only: JavaScript's full Unicode `toLowerCase`/`toUpperCase` is not modelled.
- Json.NamedKeys: the model records which keys are array indices and that all other keys keep insertion order. It does not model the ascending numeric order in which enumeration lists the array-index keys themselves.
- AuditForm.Classify: the exact text of the error thrown when the consumed body is read again is the browser's. `BodyUsedMessage` stands for it. A `fetch` that rejects (network failure) is not modelled.
- Handlers.LegacyHandle: the 500 for a `null` body is the framework's own error page. It is modelled as status 500 with an empty body, which the form reads as a failed, non-JSON reply.
- RateLimit.DocumentKey: only the SDK's own checks on the id are modelled. The service also refuses some names, such as `.`, `..`, ids of the form `__x__` and names over 1500 bytes. Those refusals are covered only by the `fault` parameter.
- ResetPassword.BeginSubmit: the field error the schema shows for an invalid email is not modelled. The schema's verdict is the `emailValid` parameter.
- AuditForm.BeginSubmit: the field errors the schema shows for a rejected form are not modelled. The schema's verdict is the `valid` parameter, which `AuditForm.SubmissionRoundTrip` ties to `AuditForm.Validate`.
- Seo.GetMetadata: `metadataBase` is kept as the base URL text, without `new URL` normalisation or its failure on a malformed base URL.
- Report.RenderSlots: states the bolded blocker text only for label-free text. The general bolding of serialised blockers is stated by `Report.BoldBlockersText`, for blockers whose own text mentions no label.
- Urls.StripScheme: its own contract gives only the no-match case and length bounds. `Urls.StripLeftmost` states the match case exactly.
- FormatHtml.Insert: its own contract gives lengths only. The shape lemmas state where the block goes.
- Handlers.RouteAudit: its own contract is one-directional. `Handlers.RouteAuditAgreesWithManual` ties it to `Handlers.ManualAudit`, whose contract is the full if-and-only-if.
- The MailerLite subscription and the `subscribe` field: the source leaves them as a TODO.
- Log lines: side effects only.

## Findings

| source | as written | input that shows it | evidently intended | confidence | as-written member | corrected member |
|---|---|---|---|---|---|---|
| lib/seo.ts:82-100 | A segment's position is `index + 1` and its link is `path.slice(0, position + 1)`, while Home is put in front at position 1 | `["blog", "post"]`: Home and "Blog" both have position 1, and "Blog" and "Post" both link to `<base>/blog/post`. Already `["auth"]` gives Home and "Auth" the same position | Home at position 1, segment `i` at position `i + 2`, linking to `path.slice(0, i + 1)` | not executed | Seo.BreadcrumbQuirks | Seo.IntendedBreadcrumbTrail |
