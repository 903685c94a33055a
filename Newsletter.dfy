/**
 * What the two newsletter routes share: the cron secret and the rule that
 * authorizes a request, the subscriber list as the database returns it,
 * the filtering of its addresses, and the shape of a reply.
 */
module Newsletter {
  import opened Options
  import opened JsStrings
  import opened Email

  /** The environment both routes read. */
  datatype Env = Env(
    cronSecret: Option<string>,            // CRON_SECRET
    newsletterCronSecret: Option<string>,  // NEWSLETTER_CRON_SECRET
    resendApiKey: Option<string>,          // RESEND_API_KEY
    fromEmail: Option<string>,             // NEWSLETTER_FROM_EMAIL
    adminClientConfigured: bool)           // whether getSupabaseAdmin returns a client

  /** The request headers the routes look at. */
  datatype Headers = Headers(authorization: Option<string>, xCronSecret: Option<string>)

  /** The `select("email")` of the subscriptions table: an error, or the rows' addresses. */
  datatype Subscribers = QueryFailed | Rows(emails: seq<Option<string>>)

  /** The JSON reply of a route. */
  datatype Reply =
    | Failure(status: nat, error: string)                         // { error }, with that status
    | NothingSent(message: string)                                // 200 { sent: 0, message }
    | Report(success: bool, sent: Option<nat>, total: Option<nat>) // 200 { success, sent, total }
    | Crash                                                       // an uncaught exception: 500

  /** A handled request: the reply and the sends it started. */
  datatype Handled = Handled(reply: Reply, sends: seq<SendRequest>)

  function Status(r: Reply): nat {
    match r
    case Failure(status, _) => status
    case NothingSent(_) => 200
    case Report(_, _, _) => 200
    case Crash => 500
  }

  const BearerPrefix: string := "Bearer "

  /** `CRON_SECRET || NEWSLETTER_CRON_SECRET`. */
  function CronSecret(env: Env): (r: Option<string>)
    ensures Truthy(r) <==> Truthy(env.cronSecret) || Truthy(env.newsletterCronSecret)
    ensures Truthy(env.cronSecret) ==> r == env.cronSecret
    ensures !Truthy(env.cronSecret) ==> r == env.newsletterCronSecret
  {
    Or(env.cronSecret, env.newsletterCronSecret)
  }

  /** The text after a case-sensitive "Bearer " prefix, or nothing when the header lacks the prefix. */
  function BearerToken(authorization: Option<string>): (r: Option<string>)
    ensures r.Some? <==> authorization.Some? && StartsWith(authorization.value, BearerPrefix)
    ensures r.Some? ==> authorization.value == BearerPrefix + r.value
  {
    match authorization
    case None => None
    case Some(h) =>
      if StartsWith(h, BearerPrefix) then
        assert h == h[..7] + h[7..];
        Some(h[7..])
      else None
  }

  /** `isAuthorized`: a secret is set, and the bearer token or the x-cron-secret header equals it. */
  predicate IsAuthorized(secret: Option<string>, headers: Headers) {
    Truthy(secret) && (BearerToken(headers.authorization) == secret || headers.xCronSecret == secret)
  }

  /** Authorization in terms of the raw headers: "Bearer " followed by the secret, or the secret itself. */
  lemma AuthorizedIff(secret: Option<string>, headers: Headers)
    ensures IsAuthorized(secret, headers) <==>
              Truthy(secret)
              && (headers.authorization == Some(BearerPrefix + secret.value) || headers.xCronSecret == secret)
  {
    if Truthy(secret) && headers.authorization == Some(BearerPrefix + secret.value) {
      var h := headers.authorization.value;
      assert h[..7] == BearerPrefix && h[7..] == secret.value;
    }
  }

  /** `map(s => s.email).filter(Boolean)`: the non-empty addresses, in row order. */
  function Recipients(rows: seq<Option<string>>): (r: seq<string>)
    ensures forall e :: e in r <==> e != "" && Some(e) in rows
    ensures |r| <= |rows|
  {
    if rows == [] then []
    else
      var rest := Recipients(rows[1..]);
      assert forall e :: Some(e) in rows <==> Some(e) == rows[0] || Some(e) in rows[1..];
      if Truthy(rows[0]) then [rows[0].value] + rest else rest
  }

  /** Each non-empty address is mailed as many times as rows hold it, and the empty one never. */
  lemma {:induction false} RecipientsMultiplicity(rows: seq<Option<string>>)
    ensures forall e :: e != "" ==> multiset(Recipients(rows))[e] == multiset(rows)[Some(e)]
    ensures "" !in multiset(Recipients(rows))
  {
    if rows != [] {
      RecipientsMultiplicity(rows[1..]);
      assert rows == [rows[0]] + rows[1..];
      assert multiset(rows) == multiset([rows[0]]) + multiset(rows[1..]);
    }
  }

  /**
   * The filter keeps row order: the recipients of two batches of rows are
   * those of the first followed by those of the second. With the
   * multiplicities above this pins the result to the in-order filter.
   */
  lemma {:induction false} RecipientsAppend(a: seq<Option<string>>, b: seq<Option<string>>)
    ensures Recipients(a + b) == Recipients(a) + Recipients(b)
  {
    if a == [] {
      assert a + b == b;
    } else {
      assert (a + b)[0] == a[0];
      assert (a + b)[1..] == a[1..] + b;
      RecipientsAppend(a[1..], b);
    }
  }

  /** Rows without a usable address leave nobody to mail. */
  lemma {:induction false} NoAddressNoRecipient(rows: seq<Option<string>>)
    requires forall i :: 0 <= i < |rows| ==> !Truthy(rows[i])
    ensures Recipients(rows) == []
  {
    if rows != [] {
      NoAddressNoRecipient(rows[1..]);
    }
  }

  /** The reply that passes the bulk send's result through. */
  function ReportOf(result: BulkResult): (r: Reply)
    ensures r.Report?
    ensures result.Settled? ==> r == Report(result.success, Some(result.sent), Some(result.total))
    ensures result.Unconfigured? ==> r == Report(false, None, None)
  {
    match result
    case Unconfigured(_) => Report(false, None, None)
    case Settled(success, sent, total) => Report(success, Some(sent), Some(total))
  }
}
