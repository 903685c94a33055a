/**
 * The e-mail library: whether sending is configured, the bulk send that
 * mails every recipient separately and counts the rejected sends, and the
 * two HTML templates. The Resend client is represented by the API key it is
 * built from, and the outcome of each send by a predicate on its position.
 */
module Email {
  import opened Options
  import opened JsStrings

  /** The site owner's name and the site's base URL, as the site's resources define them. */
  datatype Site = Site(personName: string, baseUrl: string)

  /** One call of `emails.send`. */
  datatype SendRequest = SendRequest(from: string, to: seq<string>, subject: string, html: string)

  /** The value `sendBulkEmails` resolves to. */
  datatype BulkResult =
    | Unconfigured(error: string)
    | Settled(success: bool, sent: nat, total: nat)

  /** The result together with every send that was started. */
  datatype BulkSend = BulkSend(result: BulkResult, requests: seq<SendRequest>)

  const DefaultFromAddress: string := "onboarding@resend.dev"

  /** A client is built exactly when the API key is truthy. */
  predicate HasClient(apiKey: Option<string>) {
    Truthy(apiKey)
  }

  /** `isEmailConfigured`: the key is set and the client exists. */
  function IsEmailConfigured(apiKey: Option<string>): (r: bool)
    ensures r <==> Truthy(apiKey)
    ensures r ==> HasClient(apiKey)
  {
    Truthy(apiKey) && HasClient(apiKey)
  }

  /** The sender address: the configured one, or Resend's onboarding address. */
  function FromAddress(configured: Option<string>): (r: string)
    ensures r != ""
    ensures Truthy(configured) ==> r == configured.value
    ensures !Truthy(configured) ==> r == DefaultFromAddress
  {
    Or(configured, Some(DefaultFromAddress)).value
  }

  /** The `from` header: "Name <address>". */
  function FromHeader(site: Site, configured: Option<string>): string {
    site.personName + " <" + FromAddress(configured) + ">"
  }

  /** How many of the first `n` sends were rejected. */
  function Rejections(n: nat, rejected: nat -> bool): (k: nat)
    ensures k <= n
  {
    if n == 0 then 0 else Rejections(n - 1, rejected) + (if rejected(n - 1) then 1 else 0)
  }

  /** No send was rejected exactly when the count of rejections is zero. */
  lemma {:induction false} NoRejectionsIff(n: nat, rejected: nat -> bool)
    ensures Rejections(n, rejected) == 0 <==> forall i :: 0 <= i < n ==> !rejected(i)
  {
    if n > 0 {
      NoRejectionsIff(n - 1, rejected);
    }
  }

  /**
   * `sendBulkEmails`: one send per recipient, each to that recipient alone;
   * `rejected(i)` says whether the send to `to[i]` was rejected.
   */
  function SendBulkEmails(apiKey: Option<string>, site: Site, fromAddress: Option<string>,
                          to: seq<string>, subject: string, html: string,
                          rejected: nat -> bool): (r: BulkSend)
    ensures !HasClient(apiKey) ==> r.result.Unconfigured? && r.requests == []
    ensures !HasClient(apiKey) ==> r == BulkSend(Unconfigured("Email service not configured (RESEND_API_KEY)."), [])
    ensures HasClient(apiKey) ==>
              |r.requests| == |to|
              && forall i :: 0 <= i < |to| ==>
                   r.requests[i] == SendRequest(FromHeader(site, fromAddress), [to[i]], subject, html)
    ensures HasClient(apiKey) ==>
              r.result.Settled? && r.result.total == |to|
              && r.result.sent == |to| - Rejections(|to|, rejected) && r.result.sent <= r.result.total
    ensures r.result.Settled? ==> (r.result.success <==> forall i :: 0 <= i < |to| ==> !rejected(i))
  {
    if !HasClient(apiKey) then
      BulkSend(Unconfigured("Email service not configured (RESEND_API_KEY)."), [])
    else
      var from := FromHeader(site, fromAddress);
      var requests := seq(|to|, i requires 0 <= i < |to| => SendRequest(from, [to[i]], subject, html));
      var failed := Rejections(|to|, rejected);
      NoRejectionsIff(|to|, rejected);
      BulkSend(Settled(failed == 0, |to| - failed, |to|), requests)
  }

  const HighlightsHeading: string := "<p><strong>This week's highlights</strong></p>"
  const NewsFallback: string := "<p>Check the latest updates on the News page.</p>"
  const Footer: string :=
    "\n      <hr style=\"border: none; border-top: 1px solid #eee;\" />"
    + "\n      <p style=\"color: #888; font-size: 12px;\">You received this because you subscribed at "
  const OpenDiv: string := "\n    <div style=\"font-family: sans-serif; max-width: 600px; margin: 0 auto;\">"

  /** The summary paragraph, or the line sending readers to the News page when there is no summary. */
  function NewsSection(summary: Option<string>): string {
    if Truthy(summary) then HighlightsHeading + "<p>" + summary.value + "</p>" else NewsFallback
  }

  function DigestHead(site: Site): string {
    OpenDiv
    + "\n      <h1>Weekly update from " + site.personName + "</h1>"
    + "\n      <p>Here's your weekly digest.</p>"
    + "\n      "
  }

  function DigestTail(site: Site): string {
    "\n      <p><a href=\"" + site.baseUrl + "/news\">Read the full news</a></p>"
    + "\n      <p><a href=\"" + site.baseUrl + "/blog\">Visit the blog</a></p>"
    + Footer + site.baseUrl + "/blog</p>"
    + "\n    </div>\n  "
  }

  /** `buildWeeklyDigestHtml`. */
  function WeeklyDigestHtml(site: Site, summary: Option<string>): string {
    DigestHead(site) + NewsSection(summary) + DigestTail(site)
  }

  /** The link to a post, as the new-post mail shows it. */
  function PostLink(title: string, url: string): string {
    "<a href=\"" + url + "\">" + title + "</a>"
  }

  function NewPostHead(site: Site): string {
    OpenDiv
    + "\n      <h1>New blog post</h1>"
    + "\n      <p>" + site.personName + " published a new post:</p>"
    + "\n      <p><strong>"
  }

  function NewPostTail(site: Site): string {
    "</strong></p>"
    + "\n      <p><a href=\"" + site.baseUrl + "/blog\">See all posts</a></p>"
    + Footer + site.baseUrl + "/blog</p>"
    + "\n    </div>\n  "
  }

  /** `buildNewPostHtml`. */
  function NewPostHtml(site: Site, title: string, url: string): string {
    NewPostHead(site) + PostLink(title, url) + NewPostTail(site)
  }

  /** A truthy summary appears in the digest under the highlights heading. */
  lemma DigestShowsSummary(site: Site, summary: Option<string>)
    requires Truthy(summary)
    ensures Contains(WeeklyDigestHtml(site, summary), HighlightsHeading + "<p>" + summary.value + "</p>")
  {
    ContainsInfix(DigestHead(site), NewsSection(summary), DigestTail(site));
  }

  /** Without a summary the digest carries the fallback paragraph. */
  lemma DigestFallsBack(site: Site, summary: Option<string>)
    requires !Truthy(summary)
    ensures Contains(WeeklyDigestHtml(site, summary), NewsFallback)
  {
    ContainsInfix(DigestHead(site), NewsSection(summary), DigestTail(site));
  }

  /** The new-post mail links the given URL under the given title, both verbatim. */
  lemma NewPostLinksPost(site: Site, title: string, url: string)
    ensures Contains(NewPostHtml(site, title, url), "<a href=\"" + url + "\">" + title + "</a>")
  {
    ContainsInfix(NewPostHead(site), PostLink(title, url), NewPostTail(site));
  }
}
