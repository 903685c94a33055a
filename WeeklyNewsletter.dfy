/**
 * `GET /api/newsletter/weekly`: after the cron authorization, with e-mail
 * and the database configured, every subscriber with an address is sent
 * the weekly digest, built without a news summary.
 */
module WeeklyNewsletter {
  import opened Options
  import opened JsStrings
  import opened Email
  import opened Newsletter

  function Subject(personName: string): string {
    "Weekly update from " + personName
  }

  /** The digest to every subscriber with an address, and the report of the send. */
  function SendDigest(env: Env, site: Site, rows: seq<Option<string>>, rejected: nat -> bool): (r: Handled)
    requires IsEmailConfigured(env.resendApiKey)
    ensures r.reply.Report?
    ensures var to := Recipients(rows);
            |r.sends| == |to|
            && (forall i :: 0 <= i < |to| ==>
                  r.sends[i].to == [to[i]]
                  && r.sends[i].subject == Subject(site.personName)
                  && r.sends[i].html == WeeklyDigestHtml(site, None))
            && r.reply.total == Some(|to|)
            && r.reply.sent.Some? && r.reply.sent.value <= |to|
            && (r.reply.success <==> forall i :: 0 <= i < |to| ==> !rejected(i))
  {
    var emails := Recipients(rows);
    var bulk := SendBulkEmails(env.resendApiKey, site, env.fromEmail, emails,
                               Subject(site.personName), WeeklyDigestHtml(site, None), rejected);
    Handled(ReportOf(bulk.result), bulk.requests)
  }

  /** The reported count of delivered mails is the number of recipients less the rejected sends. */
  lemma SendDigestSentCount(env: Env, site: Site, rows: seq<Option<string>>, rejected: nat -> bool)
    requires IsEmailConfigured(env.resendApiKey)
    ensures var to := Recipients(rows);
            SendDigest(env, site, rows, rejected).reply.sent == Some(|to| - Rejections(|to|, rejected))
  {
  }

  /** The handler. `rejected` says which sends the mail service rejects, by position. */
  function Get(env: Env, site: Site, headers: Headers, subscribers: Subscribers,
               rejected: nat -> bool): (r: Handled)
    ensures Status(r.reply) == 401 <==> !IsAuthorized(CronSecret(env), headers)
    ensures !IsAuthorized(CronSecret(env), headers) ==> r == Handled(Failure(401, "Unauthorized"), [])
    ensures Status(r.reply) in {200, 401, 503}
    ensures IsAuthorized(CronSecret(env), headers) && !IsEmailConfigured(env.resendApiKey) ==>
              r == Handled(Failure(503, "Email not configured (RESEND_API_KEY)."), [])
    ensures IsAuthorized(CronSecret(env), headers) && IsEmailConfigured(env.resendApiKey)
            && !env.adminClientConfigured ==>
              r == Handled(Failure(503, "Database not configured (SUPABASE_SERVICE_ROLE_KEY)."), [])
    ensures r.sends != [] || r.reply.Report? ==>
              IsAuthorized(CronSecret(env), headers) && IsEmailConfigured(env.resendApiKey)
              && env.adminClientConfigured && subscribers.Rows? && subscribers.emails != []
              && r == SendDigest(env, site, subscribers.emails, rejected)
    ensures IsAuthorized(CronSecret(env), headers) && IsEmailConfigured(env.resendApiKey)
            && env.adminClientConfigured && subscribers.QueryFailed? ==>
              r == Handled(NothingSent("Database error"), [])
    ensures IsAuthorized(CronSecret(env), headers) && IsEmailConfigured(env.resendApiKey)
            && env.adminClientConfigured && subscribers == Rows([]) ==>
              r == Handled(NothingSent("No subscribers."), [])
    ensures IsAuthorized(CronSecret(env), headers) && IsEmailConfigured(env.resendApiKey)
            && env.adminClientConfigured && subscribers.Rows? && subscribers.emails != [] ==>
              r == SendDigest(env, site, subscribers.emails, rejected)
  {
    if !IsAuthorized(CronSecret(env), headers) then
      Handled(Failure(401, "Unauthorized"), [])
    else if !IsEmailConfigured(env.resendApiKey) then
      Handled(Failure(503, "Email not configured (RESEND_API_KEY)."), [])
    else if !env.adminClientConfigured then
      Handled(Failure(503, "Database not configured (SUPABASE_SERVICE_ROLE_KEY)."), [])
    else if subscribers.QueryFailed? then
      Handled(NothingSent("Database error"), [])
    else if subscribers.emails == [] then
      Handled(NothingSent("No subscribers."), [])
    else
      SendDigest(env, site, subscribers.emails, rejected)
  }

  /**
   * The digest sent each week is the one built without a news summary, so
   * every mail carries the fallback paragraph in place of the highlights.
   */
  lemma DigestHasNoHighlights(env: Env, site: Site, headers: Headers, subscribers: Subscribers,
                              rejected: nat -> bool)
    ensures var r := Get(env, site, headers, subscribers, rejected);
            forall i :: 0 <= i < |r.sends| ==> r.sends[i].html == WeeklyDigestHtml(site, None)
    ensures var r := Get(env, site, headers, subscribers, rejected);
            forall i :: 0 <= i < |r.sends| ==> Contains(r.sends[i].html, NewsFallback)
  {
    DigestFallsBack(site, None);
  }

  /** A database that holds only empty or missing addresses leads to a send to nobody, reported as a success. */
  lemma BlankAddressesSendNothing(env: Env, site: Site, headers: Headers, rows: seq<Option<string>>,
                                  rejected: nat -> bool)
    requires IsAuthorized(CronSecret(env), headers) && IsEmailConfigured(env.resendApiKey)
    requires env.adminClientConfigured && rows != []
    requires forall i :: 0 <= i < |rows| ==> !Truthy(rows[i])
    ensures Get(env, site, headers, Rows(rows), rejected).reply == Report(true, Some(0), Some(0))
  {
    NoAddressNoRecipient(rows);
  }
}
