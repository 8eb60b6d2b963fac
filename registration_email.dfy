/**
 * The confirmation-email edge function of
 * `supabase/functions/send-registration-email/index.ts`.
 *
 * The environment, the parsed request body, the email provider's answer
 * and the current year are parameters; the handler itself is a pure
 * function from them to the response and the (at most one) send request.
 */
module RegistrationEmail {
  import opened Results

  const DefaultFromEmail: string := "ENGG Reunion <reunion@engg2006.com>"
  const DefaultSiteUrl: string := "https://niteshchand.github.io/engg-2002-2006-reunion"

  /** The environment variables the function reads; `None` when unset. */
  datatype Env = Env(fromEmail: Option<string>, siteUrl: Option<string>)

  /** `Deno.env.get(name) || fallback` */
  function EnvOr(value: Option<string>, fallback: string): (r: string)
    ensures fallback != "" ==> r != ""
    ensures value.Some? && value.value != "" ==> r == value.value
    ensures value.None? || value.value == "" ==> r == fallback
  {
    match value
    case Some(v) => if v != "" then v else fallback
    case None => fallback
  }

  /** `FROM_EMAIL` */
  function FromEmail(env: Env): string {
    EnvOr(env.fromEmail, DefaultFromEmail)
  }

  /** `SITE_URL` */
  function SiteUrl(env: Env): string {
    EnvOr(env.siteUrl, DefaultSiteUrl)
  }

  /** Both settings are never empty, and each is the default exactly when
      its variable is unset or empty. */
  lemma SettingsFallBack(env: Env)
    ensures FromEmail(env) != "" && SiteUrl(env) != ""
    ensures env.fromEmail.None? || env.fromEmail.value == "" ==> FromEmail(env) == DefaultFromEmail
    ensures env.siteUrl.None? || env.siteUrl.value == "" ==> SiteUrl(env) == DefaultSiteUrl
    ensures env.siteUrl.Some? && env.siteUrl.value != "" ==> SiteUrl(env) == env.siteUrl.value
  {
  }

  /** The `record` of the webhook payload. */
  datatype RegistrationRecord = RegistrationRecord(
    id: string, fullName: string, email: string, phone: string, branch: string,
    city: string, country: string, referralCode: string,
    referralCodeUsed: Option<string>, createdAt: string)

  /** `fullName.split(" ")[0]`: everything before the first space. */
  function FirstName(fullName: string): (r: string)
    ensures |r| <= |fullName| && r == fullName[..|r|]
    ensures ' ' !in r
    ensures |r| < |fullName| ==> fullName[|r|] == ' '
  {
    if fullName == [] || fullName[0] == ' ' then ""
    else [fullName[0]] + FirstName(fullName[1..])
  }

  /** A name without a space is its own first name; a name that starts
      with a space has an empty one. */
  lemma FirstNameCases(fullName: string)
    ensures ' ' !in fullName ==> FirstName(fullName) == fullName
    ensures fullName != [] && fullName[0] == ' ' ==> FirstName(fullName) == ""
  {
  }

  const RefPath: string := "/register?ref="

  /** `${SITE_URL}/register?ref=${referral_code}` */
  function ShareLink(siteUrl: string, code: string): (r: string)
    ensures |r| == |siteUrl| + |RefPath| + |code|
    ensures r[..|siteUrl|] == siteUrl
    ensures r[|siteUrl|..|siteUrl| + |RefPath|] == RefPath
    ensures r[|siteUrl| + |RefPath|..] == code
  {
    siteUrl + RefPath + code
  }

  /** The `n` characters of `s` from index `i`. */
  function Window(s: string, i: nat, n: nat): string
    requires i + n <= |s|
  {
    s[i..i + n]
  }

  /** `t` occurs in `s`. */
  ghost predicate Occurs(t: string, s: string) {
    exists i: nat | i + |t| <= |s| :: Window(s, i, |t|) == t
  }

  /** The concatenation of the pieces of a template. */
  function Concat(parts: seq<string>): string {
    if parts == [] then "" else parts[0] + Concat(parts[1..])
  }

  /** Every piece of a template occurs in its concatenation. */
  lemma {:induction false} PartOccurs(parts: seq<string>, k: nat)
    requires k < |parts|
    ensures Occurs(parts[k], Concat(parts))
  {
    var s := Concat(parts);
    if k == 0 {
      assert Window(s, 0, |parts[0]|) == parts[0];
    } else {
      PartOccurs(parts[1..], k - 1);
      var rest := Concat(parts[1..]);
      var i: nat :| i + |parts[k]| <= |rest| && Window(rest, i, |parts[k]|) == parts[k];
      var j := |parts[0]| + i;
      assert Window(s, j, |parts[k]|) == Window(rest, i, |parts[k]|);
    }
  }

  /** The greeting line of the body. */
  function Greeting(firstName: string): string {
    "Welcome aboard, " + firstName + "! \U{1F389}"
  }

  /** The subject line of the send request. */
  function Subject(firstName: string): string {
    "\U{1F393} You're in, " + firstName + "! ENGG Reunion Registration Confirmed"
  }

  /* The fixed markup between the interpolated values, abbreviated: the
     inline styles and decorative elements are dropped. */
  const HtmlHead: string := "<!DOCTYPE html><html lang=\"en\"><body><h1>ENGG 2002\U{2013}2006 Reunion</h1><h2>"
  const HtmlName: string := "</h2><table><tr><td>Name</td><td>"
  const HtmlBranch: string := "</td></tr><tr><td>Branch</td><td>"
  const HtmlLocation: string := "</td></tr><tr><td>Location</td><td>"
  const HtmlComma: string := ", "
  const HtmlCode: string := "</td></tr></table><p>Your Referral Code</p><div>"
  const HtmlShare: string := "</div><a href=\""
  const HtmlCopy: string := "\">\U{1F517} Share Registration Link</a><p>Or copy this link: <a href=\""
  const HtmlHrefEnd: string := "\">"
  const HtmlYear: string := "</a></p><p>&copy; "
  const HtmlFooter: string := " ENGG 2002\U{2013}2006 Reunion. All rights reserved.</p><p>You received this email because you registered at <a href=\""
  const HtmlEnd: string := "</a></p></body></html>"

  /** The pieces of `buildEmailHtml(record)`, in order: fixed markup
      alternating with the interpolated values. */
  function EmailParts(record: RegistrationRecord, siteUrl: string, year: string): seq<string> {
    var firstName := FirstName(record.fullName);
    var link := ShareLink(siteUrl, record.referralCode);
    [ HtmlHead, Greeting(firstName),
      HtmlName, record.fullName,
      HtmlBranch, record.branch,
      HtmlLocation, record.city, HtmlComma, record.country,
      HtmlCode, record.referralCode,
      HtmlShare, link, HtmlCopy, link, HtmlHrefEnd, link,
      HtmlYear, year, HtmlFooter, siteUrl, HtmlHrefEnd, siteUrl, HtmlEnd ]
  }

  /** `buildEmailHtml(record)` */
  function BuildEmailHtml(record: RegistrationRecord, siteUrl: string, year: string): string {
    Concat(EmailParts(record, siteUrl, year))
  }

  /** The body greets the registrant by first name and carries the
      referral code and the share link. */
  lemma EmailHtmlContents(record: RegistrationRecord, siteUrl: string, year: string)
    ensures var html := BuildEmailHtml(record, siteUrl, year);
      && Occurs(Greeting(FirstName(record.fullName)), html)
      && Occurs(record.referralCode, html)
      && Occurs(ShareLink(siteUrl, record.referralCode), html)
  {
    var parts := EmailParts(record, siteUrl, year);
    PartOccurs(parts, 1);
    PartOccurs(parts, 11);
    PartOccurs(parts, 13);
  }

  /* ── The request handler ───────────────────────────────── */

  /** The webhook payload (only what the handler reads). */
  datatype WebhookPayload = WebhookPayload(eventType: string, table: string, record: RegistrationRecord)

  /** The incoming request: its method and the outcome of `req.json()`. */
  datatype Request = Request(httpMethod: string, body: Result<WebhookPayload>)

  /** The JSON body of the call to the email provider. */
  datatype EmailRequest = EmailRequest(from: string, to: seq<string>, subject: string, html: string)

  /** The provider's answer: accepted with an id, a non-ok status with the
      response text, or an exception (network, bad JSON). */
  datatype ProviderReply = Accepted(id: string) | Rejected(status: int, text: string) | ProviderThrew(message: string)

  /** The JSON bodies the handler answers with. */
  datatype ResponseBody =
    | MethodNotAllowed                 // { error: "Method not allowed" }
    | Ignored                          // { message: "Ignored — not an INSERT on registrations" }
    | ConfirmationSent(emailId: string) // { message: "Confirmation email sent", emailId }
    | SendFailed(details: string)      // { error: "Failed to send email", details }
    | InternalError(message: string)   // { error: "Internal server error", message }

  datatype Response = Response(status: int, body: ResponseBody)

  /** What one invocation does: its response and the send request it
      made, if any. */
  datatype Handled = Handled(response: Response, sent: Option<EmailRequest>)

  /** The send request for a newly inserted registration. */
  function ConfirmationRequest(record: RegistrationRecord, env: Env, year: string): EmailRequest {
    EmailRequest(FromEmail(env), [record.email], Subject(FirstName(record.fullName)),
      BuildEmailHtml(record, SiteUrl(env), year))
  }

  /** A webhook delivery of an insert into `registrations`. */
  predicate IsRegistrationInsert(req: Request) {
    && req.httpMethod == "POST" && req.body.Ok?
    && req.body.value.eventType == "INSERT" && req.body.value.table == "registrations"
  }

  /** The `serve` handler. */
  function Serve(req: Request, env: Env, year: string, send: EmailRequest -> ProviderReply): (h: Handled)
    ensures h.sent.Some? <==> IsRegistrationInsert(req)
    ensures h.response.status in {200, 405, 500}
  {
    if req.httpMethod != "POST" then Handled(Response(405, MethodNotAllowed), None)
    else match req.body
      case Err(m) => Handled(Response(500, InternalError(m)), None)
      case Ok(payload) =>
        if payload.eventType != "INSERT" || payload.table != "registrations" then
          Handled(Response(200, Ignored), None)
        else
          var email := ConfirmationRequest(payload.record, env, year);
          var reply := send(email);
          match reply
          case Rejected(_, text) => Handled(Response(500, SendFailed(text)), Some(email))
          case Accepted(id) => Handled(Response(200, ConfirmationSent(id)), Some(email))
          case ProviderThrew(m) => Handled(Response(500, InternalError(m)), Some(email))
  }

  /** Requests that are not webhook inserts never reach the provider:
      a method other than POST gets 405, another event or table gets the
      200 "ignored" answer, an unreadable body gets 500. */
  lemma ServeFiltersRequests(req: Request, env: Env, year: string, send: EmailRequest -> ProviderReply)
    ensures var h := Serve(req, env, year, send);
      && (req.httpMethod != "POST" <==> h.response == Response(405, MethodNotAllowed))
      && (req.httpMethod == "POST" && req.body.Ok? && !IsRegistrationInsert(req) ==> h == Handled(Response(200, Ignored), None))
      && (req.httpMethod == "POST" && req.body.Err? ==> h == Handled(Response(500, InternalError(req.body.message)), None))
  {
  }

  /** A webhook insert produces exactly one send request, addressed to the
      registrant alone, whose subject names the same first name as the
      greeting of its body, and the response follows the provider. */
  lemma ServeSendsConfirmation(req: Request, env: Env, year: string, send: EmailRequest -> ProviderReply)
    requires IsRegistrationInsert(req)
    ensures var h, record := Serve(req, env, year, send), req.body.value.record;
      && h.sent == Some(ConfirmationRequest(record, env, year))
      && h.sent.value.to == [record.email]
      && h.sent.value.from == FromEmail(env)
      && (exists first :: h.sent.value.subject == Subject(first) && Occurs(Greeting(first), h.sent.value.html))
      && Occurs(record.referralCode, h.sent.value.html)
      && Occurs(ShareLink(SiteUrl(env), record.referralCode), h.sent.value.html)
      && match send(h.sent.value)
         case Accepted(id) => h.response == Response(200, ConfirmationSent(id))
         case Rejected(_, text) => h.response == Response(500, SendFailed(text))
         case ProviderThrew(m) => h.response == Response(500, InternalError(m))
  {
    var record := req.body.value.record;
    EmailHtmlContents(record, SiteUrl(env), year);
    var first := FirstName(record.fullName);
    assert Serve(req, env, year, send).sent.value.subject == Subject(first);
  }
}
