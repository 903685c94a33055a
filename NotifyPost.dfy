/**
 * `POST /api/newsletter/notify-post`: after the cron authorization, the
 * JSON body names a post by URL or by slug; with e-mail and the database
 * configured, every subscriber with an address is mailed a link to it.
 */
module NotifyPost {
  import opened Options
  import opened JsStrings
  import opened Email
  import opened Newsletter

  /** The request body: not JSON, the JSON `null`, or an object with optional fields. */
  datatype Body = BadJson | NullJson | Json(title: Option<string>, url: Option<string>, slug: Option<string>)

  const DefaultTitle: string := "New blog post"

  /** `body.url || (body.slug ? baseURL + "/blog/" + slug : null)`. */
  function PostUrl(baseUrl: string, url: Option<string>, slug: Option<string>): (r: Option<string>)
    ensures Truthy(url) ==> r == url
    ensures !Truthy(url) && Truthy(slug) ==> r == Some(baseUrl + "/blog/" + slug.value)
    ensures r.None? <==> !Truthy(url) && !Truthy(slug)
    ensures r.Some? ==> r.value != ""
  {
    Or(url, if Truthy(slug) then Some(baseUrl + "/blog/" + slug.value) else None)
  }

  /** `body.title || "New blog post"`. */
  function PostTitle(title: Option<string>): (r: string)
    ensures r != ""
    ensures Truthy(title) ==> r == title.value
    ensures !Truthy(title) ==> r == DefaultTitle
  {
    Or(title, Some(DefaultTitle)).value
  }

  /** The subject line with the en dash the template means. */
  function Subject(title: string, personName: string): string {
    "New post: " + title + " \U{2013} " + personName
  }

  /** The subject line as the source text spells it: three characters where the dash belongs. */
  function SubjectAsWritten(title: string, personName: string): string {
    "New post: " + title + " \U{00E2}\U{20AC}\U{201C} " + personName
  }

  /** The Windows-1252 reading of the three bytes that encode U+2013 in UTF-8. */
  function Windows1252(b: nat): char {
    if b == 0xE2 then '\U{00E2}' else if b == 0x80 then '\U{20AC}' else if b == 0x93 then '\U{201C}' else '?'
  }

  const EnDashUtf8: seq<nat> := [0xE2, 0x80, 0x93]

  /**
   * The subject as written differs from the intended one for every title and
   * name, and the characters in place of the dash are exactly the UTF-8
   * bytes of U+2013 read as Windows-1252.
   */
  lemma SubjectIsMojibake(title: string, personName: string)
    ensures SubjectAsWritten(title, personName) != Subject(title, personName)
    ensures |SubjectAsWritten(title, personName)| == |Subject(title, personName)| + 2
    ensures [Windows1252(EnDashUtf8[0]), Windows1252(EnDashUtf8[1]), Windows1252(EnDashUtf8[2])]
            == "\U{00E2}\U{20AC}\U{201C}"
  {
  }

  /** The last step: the new-post mail to every subscriber with an address, and the report of the send. */
  function Announce(env: Env, site: Site, postTitle: string, postUrl: string,
                    rows: seq<Option<string>>, rejected: nat -> bool): (r: Handled)
    requires IsEmailConfigured(env.resendApiKey)
    ensures r.reply.Report?
    ensures var to := Recipients(rows);
            |r.sends| == |to|
            && (forall i :: 0 <= i < |to| ==>
                  r.sends[i].to == [to[i]]
                  && r.sends[i].subject == Subject(postTitle, site.personName)
                  && r.sends[i].html == NewPostHtml(site, postTitle, postUrl))
            && r.reply.total == Some(|to|)
            && r.reply.sent.Some? && r.reply.sent.value <= |to|
            && (r.reply.success <==> forall i :: 0 <= i < |to| ==> !rejected(i))
  {
    var emails := Recipients(rows);
    var subject := Subject(postTitle, site.personName);
    var html := NewPostHtml(site, postTitle, postUrl);
    var bulk := SendBulkEmails(env.resendApiKey, site, env.fromEmail, emails, subject, html, rejected);
    Handled(ReportOf(bulk.result), bulk.requests)
  }

  /** The reported count of delivered mails is the number of recipients less the rejected sends. */
  lemma AnnounceSentCount(env: Env, site: Site, postTitle: string, postUrl: string,
                          rows: seq<Option<string>>, rejected: nat -> bool)
    requires IsEmailConfigured(env.resendApiKey)
    ensures var to := Recipients(rows);
            Announce(env, site, postTitle, postUrl, rows, rejected).reply.sent == Some(|to| - Rejections(|to|, rejected))
  {
  }

  /** After the request is authorized and names a post: the configuration checks, the query, the send. */
  function Deliver(env: Env, site: Site, postTitle: string, postUrl: string,
                   subscribers: Subscribers, rejected: nat -> bool): (r: Handled)
    ensures Status(r.reply) in {200, 503}
    ensures !IsEmailConfigured(env.resendApiKey) ==> r == Handled(Failure(503, "Email not configured (RESEND_API_KEY)."), [])
    ensures IsEmailConfigured(env.resendApiKey) && !env.adminClientConfigured ==>
              r == Handled(Failure(503, "Database not configured (SUPABASE_SERVICE_ROLE_KEY)."), [])
    ensures r.sends != [] || r.reply.Report? ==>
              IsEmailConfigured(env.resendApiKey) && env.adminClientConfigured
              && subscribers.Rows? && subscribers.emails != []
              && r == Announce(env, site, postTitle, postUrl, subscribers.emails, rejected)
    ensures IsEmailConfigured(env.resendApiKey) && env.adminClientConfigured && subscribers.QueryFailed? ==>
              r == Handled(NothingSent("Database error"), [])
    ensures IsEmailConfigured(env.resendApiKey) && env.adminClientConfigured && subscribers == Rows([]) ==>
              r == Handled(NothingSent("No subscribers."), [])
    ensures IsEmailConfigured(env.resendApiKey) && env.adminClientConfigured
            && subscribers.Rows? && subscribers.emails != [] ==>
              r == Announce(env, site, postTitle, postUrl, subscribers.emails, rejected)
  {
    if !IsEmailConfigured(env.resendApiKey) then
      Handled(Failure(503, "Email not configured (RESEND_API_KEY)."), [])
    else if !env.adminClientConfigured then
      Handled(Failure(503, "Database not configured (SUPABASE_SERVICE_ROLE_KEY)."), [])
    else if subscribers.QueryFailed? then
      Handled(NothingSent("Database error"), [])
    else if subscribers.emails == [] then
      Handled(NothingSent("No subscribers."), [])
    else
      Announce(env, site, postTitle, postUrl, subscribers.emails, rejected)
  }

  /** The handler. `rejected` says which sends the mail service rejects, by position. */
  function Post(env: Env, site: Site, headers: Headers, body: Body,
                subscribers: Subscribers, rejected: nat -> bool): (r: Handled)
    ensures Status(r.reply) == 401 <==> !IsAuthorized(CronSecret(env), headers)
    ensures !IsAuthorized(CronSecret(env), headers) ==> r == Handled(Failure(401, "Unauthorized"), [])
    ensures IsAuthorized(CronSecret(env), headers) && body.BadJson? ==>
              r == Handled(Failure(400, "Invalid JSON body. Use { title, url } or { slug }."), [])
    ensures (IsAuthorized(CronSecret(env), headers) && body.Json?
             && PostUrl(site.baseUrl, body.url, body.slug).None?) ==>
              r == Handled(Failure(400, "Provide post url or slug in body."), [])
    ensures IsAuthorized(CronSecret(env), headers) && body.BadJson? ==> Status(r.reply) == 400
    ensures (IsAuthorized(CronSecret(env), headers) && body.Json?
             && PostUrl(site.baseUrl, body.url, body.slug).None?) ==> Status(r.reply) == 400
    ensures r.sends != [] || r.reply.Report? ==>
              IsAuthorized(CronSecret(env), headers) && body.Json?
              && PostUrl(site.baseUrl, body.url, body.slug).Some?
              && r == Deliver(env, site, PostTitle(body.title), PostUrl(site.baseUrl, body.url, body.slug).value,
                              subscribers, rejected)
    ensures (IsAuthorized(CronSecret(env), headers) && body.Json?
             && PostUrl(site.baseUrl, body.url, body.slug).Some?) ==>
              r == Deliver(env, site, PostTitle(body.title), PostUrl(site.baseUrl, body.url, body.slug).value,
                           subscribers, rejected)
    ensures IsAuthorized(CronSecret(env), headers) && body.NullJson? ==> r == Handled(Crash, [])
  {
    if !IsAuthorized(CronSecret(env), headers) then
      Handled(Failure(401, "Unauthorized"), [])
    else if body.BadJson? then
      Handled(Failure(400, "Invalid JSON body. Use { title, url } or { slug }."), [])
    else if body.NullJson? then
      Handled(Crash, [])
    else
      var postUrl := PostUrl(site.baseUrl, body.url, body.slug);
      var postTitle := PostTitle(body.title);
      if postUrl.None? then Handled(Failure(400, "Provide post url or slug in body."), [])
      else Deliver(env, site, postTitle, postUrl.value, subscribers, rejected)
  }

  /** A post named by slug alone is announced with the link under the site's blog path. */
  lemma SlugLinksIntoBlog(env: Env, site: Site, headers: Headers, title: Option<string>, slug: string,
                          subscribers: Subscribers, rejected: nat -> bool)
    requires slug != ""
    ensures var r := Post(env, site, headers, Json(title, None, Some(slug)), subscribers, rejected);
            forall i :: 0 <= i < |r.sends| ==>
              Contains(r.sends[i].html, PostLink(PostTitle(title), site.baseUrl + "/blog/" + slug))
  {
    var r := Post(env, site, headers, Json(title, None, Some(slug)), subscribers, rejected);
    if r.sends != [] {
      NewPostLinksPost(site, PostTitle(title), site.baseUrl + "/blog/" + slug);
    }
  }
}
