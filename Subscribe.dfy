/**
 * `POST /api/subscribe`: the e-mail address of the JSON body is trimmed and
 * lower-cased, checked against `^[^\s@]+@[^\s@]+\.[^\s@]+$`, and stored
 * with the source "blog". The database is reached through two inputs:
 * whether a client is configured, and the outcome of the insert.
 */
module Subscribe {
  import opened Options
  import opened JsStrings

  /** `body.email`: a string, or anything else (missing, a number, an object). */
  datatype EmailField = Text(s: string) | NotText

  /** The request body: JSON that would not parse, or a parsed value. */
  datatype Body = Unparseable | Parsed(email: EmailField)

  /** The result of `insert`: no error, or an error with its code. */
  datatype InsertResult = Inserted | InsertFailed(code: Option<string>)

  /** A row of the `subscriptions` table. */
  datatype Row = Row(email: string, source: string)

  /** The JSON reply: `{ success: true }` or `{ error: message }`, with the status. */
  datatype Payload = SuccessTrue | Error(message: string)
  datatype Reply = Reply(status: nat, payload: Payload)

  /** What one request does: its reply, and the row it asked the database to insert, if any. */
  datatype Outcome = Outcome(reply: Reply, insertAttempt: Option<Row>)

  /** SQLSTATE of a unique-constraint violation in PostgreSQL. */
  const UniqueViolation: string := "23505"
  const SourceBlog: string := "blog"

  /** The normalised address: trimmed and lower-cased, or "" when the field is not a string. */
  function NormalizeEmail(field: EmailField): (r: string)
    ensures field.NotText? ==> r == ""
    ensures field.Text? ==> |r| == |Trim(field.s)| && forall i :: 0 <= i < |r| ==> r[i] == LowerChar(Trim(field.s)[i])
    ensures r == [] || (!IsWhitespace(r[0]) && !IsWhitespace(r[|r| - 1]))
  {
    if field.NotText? then ""
    else
      var t := Trim(field.s);
      LowerKeepsEnds(t);
      Lower(t)
  }

  /** Normalising an address that is already normalised changes nothing. */
  lemma NormalizeIdempotent(field: EmailField)
    ensures NormalizeEmail(Text(NormalizeEmail(field))) == NormalizeEmail(field)
  {
    var r := NormalizeEmail(field);
    TrimOfTrimmed(r);
    if field.Text? {
      LowerIdempotent(Trim(field.s));
    }
  }

  /** A character allowed by `[^\s@]`. */
  predicate Plain(c: char) {
    !IsWhitespace(c) && c != '@'
  }

  predicate AllPlain(s: string) {
    forall i :: 0 <= i < |s| ==> Plain(s[i])
  }

  /** Index of the first '@', or the length when there is none. */
  function AtIndex(s: string): (k: nat)
    ensures k <= |s|
    ensures forall i :: 0 <= i < k ==> s[i] != '@'
    ensures k < |s| ==> s[k] == '@'
  {
    if s == [] || s[0] == '@' then 0 else 1 + AtIndex(s[1..])
  }

  /** The address test as a scanner runs it: split at the '@', then look for an inner dot in the domain. */
  predicate ValidEmail(e: string) {
    var at := AtIndex(e);
    0 < at < |e|
    && AllPlain(e[..at]) && AllPlain(e[at + 1..])
    && |e| - at - 1 >= 3 && Contains(e[at + 2..|e| - 1], ".")
  }

  /**
   * The pattern `^[^\s@]+@[^\s@]+\.[^\s@]+$` read directly: a non-empty
   * local part, '@', a non-empty run, '.', a non-empty run, and nothing
   * else, none of the runs holding white space or '@'.
   */
  ghost predicate MatchesEmailPattern(e: string) {
    exists at, dot :: 0 < at && at + 1 < dot && dot + 1 < |e| && e[at] == '@' && e[dot] == '.'
      && AllPlain(e[..at]) && AllPlain(e[at + 1..dot]) && AllPlain(e[dot + 1..])
  }

  lemma AllPlainSlice(s: string, i: nat, j: nat)
    requires i <= j <= |s| && AllPlain(s)
    ensures AllPlain(s[i..j])
  {
    assert forall k :: 0 <= k < j - i ==> s[i..j][k] == s[i + k];
  }

  lemma AllPlainJoin(x: string, c: char, y: string)
    requires AllPlain(x) && Plain(c) && AllPlain(y)
    ensures AllPlain(x + [c] + y)
  {
  }

  /** What the scanner accepts, the pattern matches. */
  lemma ValidEmailMatches(e: string)
    requires ValidEmail(e)
    ensures MatchesEmailPattern(e)
  {
    var at := AtIndex(e);
    var domain := e[at + 1..];
    var inner := e[at + 2..|e| - 1];
    ContainsIff(inner, ".");
    var p :| OccursAt(inner, ".", p);
    var dot := at + 2 + p;
    assert inner[p] == e[dot];
    AllPlainSlice(domain, 0, dot - at - 1);
    AllPlainSlice(domain, dot - at, |domain|);
    assert domain[0..dot - at - 1] == e[at + 1..dot];
    assert domain[dot - at..|domain|] == e[dot + 1..];
  }

  lemma AtIndexAt(e: string, at: nat)
    requires at < |e| && e[at] == '@' && AllPlain(e[..at])
    ensures AtIndex(e) == at
  {
    assert forall i :: 0 <= i < at ==> e[..at][i] == e[i];
  }

  lemma DomainPlain(e: string, at: nat, dot: nat)
    requires at < dot < |e| && e[dot] == '.'
    requires AllPlain(e[at + 1..dot]) && AllPlain(e[dot + 1..])
    ensures AllPlain(e[at + 1..])
  {
    AllPlainJoin(e[at + 1..dot], e[dot], e[dot + 1..]);
    assert e[at + 1..] == e[at + 1..dot] + [e[dot]] + e[dot + 1..];
  }

  lemma InnerDot(e: string, at: nat, dot: nat)
    requires at + 1 < dot && dot + 1 < |e| && e[dot] == '.'
    ensures Contains(e[at + 2..|e| - 1], ".")
  {
    var inner := e[at + 2..|e| - 1];
    assert OccursAt(inner, ".", dot - at - 2) by {
      assert inner[dot - at - 2] == e[dot];
      assert inner[dot - at - 2..dot - at - 1] == [e[dot]];
    }
    ContainsIff(inner, ".");
  }

  /** What the pattern matches, the scanner accepts. */
  lemma MatchesAreValid(e: string, at: nat, dot: nat)
    requires 0 < at && at + 1 < dot && dot + 1 < |e| && e[at] == '@' && e[dot] == '.'
    requires AllPlain(e[..at]) && AllPlain(e[at + 1..dot]) && AllPlain(e[dot + 1..])
    ensures ValidEmail(e)
  {
    AtIndexAt(e, at);
    DomainPlain(e, at, dot);
    InnerDot(e, at, dot);
  }

  /** The scanner accepts exactly the strings the pattern matches. */
  lemma ValidEmailIff(e: string)
    ensures ValidEmail(e) <==> MatchesEmailPattern(e)
  {
    if ValidEmail(e) {
      ValidEmailMatches(e);
    }
    if MatchesEmailPattern(e) {
      var at, dot :| 0 < at && at + 1 < dot && dot + 1 < |e| && e[at] == '@' && e[dot] == '.'
        && AllPlain(e[..at]) && AllPlain(e[at + 1..dot]) && AllPlain(e[dot + 1..]);
      MatchesAreValid(e, at, dot);
    }
  }

  /** The handler, from the parsed body to the reply. */
  function Post(body: Body, clientConfigured: bool, insert: Row -> InsertResult): (r: Outcome)
    ensures body.Unparseable? ==> r == Outcome(Reply(500, Error("Something went wrong. Please try again.")), None)
    ensures body.Parsed? && !ValidEmail(NormalizeEmail(body.email)) ==>
              r == Outcome(Reply(400, Error("Please enter a valid email address.")), None)
    ensures body.Parsed? && ValidEmail(NormalizeEmail(body.email)) && !clientConfigured ==>
              r == Outcome(Reply(503, Error("Subscription service is not configured.")), None)
    ensures r.insertAttempt.Some? <==>
              body.Parsed? && ValidEmail(NormalizeEmail(body.email)) && clientConfigured
    ensures r.insertAttempt.Some? ==>
              r.insertAttempt.value == Row(NormalizeEmail(body.email), SourceBlog)
              && (r.reply.status == 200 <==> insert(r.insertAttempt.value).Inserted?)
              && (r.reply.status == 409 <==> insert(r.insertAttempt.value) == InsertFailed(Some(UniqueViolation)))
              && (r.reply.status == 500 <==>
                    insert(r.insertAttempt.value).InsertFailed? && insert(r.insertAttempt.value).code != Some(UniqueViolation))
              && (r.reply.status == 409 ==> r.reply.payload == Error("This email is already subscribed."))
              && (r.reply.status == 500 ==> r.reply.payload == Error("Could not subscribe. Please try again."))
    ensures r.reply.status == 200 <==> r.reply.payload == SuccessTrue
    ensures r.reply.status in {200, 400, 409, 500, 503}
  {
    if body.Unparseable? then Outcome(Reply(500, Error("Something went wrong. Please try again.")), None)
    else
      var email := NormalizeEmail(body.email);
      if email == "" || !ValidEmail(email) then
        Outcome(Reply(400, Error("Please enter a valid email address.")), None)
      else if !clientConfigured then
        Outcome(Reply(503, Error("Subscription service is not configured.")), None)
      else
        var row := Row(email, SourceBlog);
        var result := insert(row);
        if result.Inserted? then Outcome(Reply(200, SuccessTrue), Some(row))
        else if result.code == Some(UniqueViolation) then
          Outcome(Reply(409, Error("This email is already subscribed.")), Some(row))
        else
          Outcome(Reply(500, Error("Could not subscribe. Please try again.")), Some(row))
  }

  /** Every row the handler asks to store is a valid address, in the normal form the handler itself produces. */
  lemma StoredAddressIsCanonical(body: Body, clientConfigured: bool, insert: Row -> InsertResult)
    ensures var r := Post(body, clientConfigured, insert);
            r.insertAttempt.Some? ==>
              var email := r.insertAttempt.value.email;
              MatchesEmailPattern(email) && NormalizeEmail(Text(email)) == email
  {
    var r := Post(body, clientConfigured, insert);
    if r.insertAttempt.Some? {
      ValidEmailIff(r.insertAttempt.value.email);
      NormalizeIdempotent(body.email);
    }
  }

  /** Submitting the same address twice, the second time against a table that already holds it, gives 409. */
  lemma ResubmissionConflicts(field: EmailField, insert: Row -> InsertResult)
    requires ValidEmail(NormalizeEmail(field))
    requires insert(Row(NormalizeEmail(field), SourceBlog)) == InsertFailed(Some(UniqueViolation))
    ensures Post(Parsed(Text(NormalizeEmail(field))), true, insert).reply.status == 409
  {
    NormalizeIdempotent(field);
  }
}
