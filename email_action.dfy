/** The send-email action (app/actions/emails.ts): the checks before
    anything is sent, the HTML body, the choice of error message when the
    mail service refuses, and the email-log and activity records written
    after a send. The signed-in user, the configured keys, the lead's email
    lookup, the mail service's answer and the log insert's error are
    parameters; the effects are returned in the order the action makes them. */
module EmailAction {
  import opened Common

  // ---------------------------------------------------------------------------
  // The HTML body

  const Break := "<br/>"

  /** `body.replace(/\n/g, '<br/>')`. */
  function NewlinesToBreaks(s: string): (r: string)
    ensures '\n' !in r
  {
    if s == [] then []
    else (if s[0] == '\n' then Break else [s[0]]) + NewlinesToBreaks(s[1..])
  }

  /** The `html` field of the request: the text in one paragraph, one line break per newline. */
  function HtmlBody(body: string): (r: string)
    ensures '\n' !in r
    ensures |r| >= 7 && r[..3] == "<p>" && r[|r| - 4..] == "</p>"
  {
    "<p>" + NewlinesToBreaks(body) + "</p>"
  }

  /** Each newline grows into five characters; everything else is kept. */
  lemma {:induction false} BreaksLength(s: string)
    ensures |NewlinesToBreaks(s)| == |s| + 4 * CountChar(s, '\n')
  {
    if s != [] {
      BreaksLength(s[1..]);
    }
  }

  /** A body without newlines is wrapped as it is. */
  lemma {:induction false} NoNewlineKept(s: string)
    requires '\n' !in s
    ensures NewlinesToBreaks(s) == s
    ensures HtmlBody(s) == "<p>" + s + "</p>"
  {
    if s != [] {
      NoNewlineKept(s[1..]);
      assert [s[0]] + s[1..] == s;
    }
  }

  /** Reading `<br/>` back as a newline. */
  function BreaksToNewlines(s: string): string {
    if s == [] then []
    else if StartsWith(s, Break) then "\n" + BreaksToNewlines(s[5..])
    else [s[0]] + BreaksToNewlines(s[1..])
  }

  /** For a body without `<`, whose text cannot hold a `<br/>` of its own,
      the line breaks can be read back into exactly the original newlines. */
  lemma {:induction false} BreaksRoundTrip(s: string)
    requires '<' !in s
    ensures BreaksToNewlines(NewlinesToBreaks(s)) == s
  {
    if s != [] {
      var rest := NewlinesToBreaks(s[1..]);
      BreaksRoundTrip(s[1..]);
      if s[0] == '\n' {
        var r := Break + rest;
        assert NewlinesToBreaks(s) == r;
        assert r[..5] == Break && r[5..] == rest;
      } else {
        var r := [s[0]] + rest;
        assert NewlinesToBreaks(s) == r;
        assert !StartsWith(r, Break) by { assert r[0] != '<'; }
        assert r[1..] == rest;
      }
    }
  }

  // ---------------------------------------------------------------------------
  // The error message

  /** `JSON.parse` of the refused request's body: it fails, yields `null`
      (whose `.message` throws), or yields a value whose `message` and
      `name` string properties may be missing. */
  datatype ErrorBody = Unparsable | ParsedNull | Parsed(message: Option<string>, name: Option<string>)

  /** The mail service's answer: accepted, refused, or the request failed. */
  datatype SendOutcome =
    | Delivered
    | Refused(status: nat, statusText: string, errorText: string, parsed: ErrorBody)
    | RequestFailed(message: string)

  const ResendErrorPrefix := "Resend Error: "
  const ResendStatusPrefix := "Failed to send email via Resend: "
  const SendFailedPrefix := "Failed to send email: "

  /** The message for a refused request. The two kinds of message can be told
      apart by their prefix. */
  function RefusalMessage(status: nat, statusText: string, errorText: string, parsed: ErrorBody): (r: string)
    ensures StartsWith(r, ResendErrorPrefix) <==> parsed.Parsed?
  {
    if parsed.Parsed? then
      ResendErrorPrefix + (if Truthy(parsed.message) then parsed.message.value
                           else if Truthy(parsed.name) then parsed.name.value
                           else errorText)
    else
      var m := ResendStatusPrefix + NatToString(status) + " " + statusText;
      assert m[0] == 'F' && ResendErrorPrefix[0] == 'R';
      m
  }

  /** The message is chosen in order: the JSON `message`, then its `name`,
      then the raw text; a body that does not parse to an object gives the
      status line. */
  lemma RefusalMessageOrder(status: nat, statusText: string, errorText: string, parsed: ErrorBody)
    ensures parsed.Parsed? && Truthy(parsed.message) ==>
              RefusalMessage(status, statusText, errorText, parsed) == ResendErrorPrefix + parsed.message.value
    ensures parsed.Parsed? && !Truthy(parsed.message) && Truthy(parsed.name) ==>
              RefusalMessage(status, statusText, errorText, parsed) == ResendErrorPrefix + parsed.name.value
    ensures parsed.Parsed? && !Truthy(parsed.message) && !Truthy(parsed.name) ==>
              RefusalMessage(status, statusText, errorText, parsed) == ResendErrorPrefix + errorText
    ensures !parsed.Parsed? ==>
              RefusalMessage(status, statusText, errorText, parsed) ==
              ResendStatusPrefix + NatToString(status) + " " + statusText
  {
  }

  // ---------------------------------------------------------------------------
  // The action

  /** What the action sends or writes. */
  datatype Effect =
    | PostEmail(apiKey: string, from: string, to: string, subject: string, html: string)
    | InsertEmailLog(logLeadId: string, logSubject: string, logBody: string, sentBy: string)
    | InsertActivity(activityLeadId: string, kind: string, notes: string)

  datatype EmailResult = Thrown(message: string) | Failure(error: string) | Sent

  const NotSignedIn := "Unauthorized"
  const NoApiKey := "Resend API key not configured."
  const NoLeadEmail := "Lead does not have an email address."
  const DefaultFrom := "onboarding@resend.dev"
  const ActivityPrefix := "Sent Email: "

  /** The environment: the server key, the public key and the sender address. */
  datatype Config = Config(resendKey: Option<string>, publicKey: Option<string>, fromEmail: Option<string>)

  /** `RESEND_API_KEY || NEXT_PUBLIC_RESEND_API_KEY`. */
  function ApiKey(config: Config): (r: Option<string>)
    ensures Truthy(r) <==> Truthy(config.resendKey) || Truthy(config.publicKey)
    ensures Truthy(config.resendKey) ==> r == config.resendKey
  {
    if Truthy(config.resendKey) then config.resendKey else config.publicKey
  }

  /** `sendEmail`: `userId` is the signed-in user, `leadEmail` the email of
      the lead row (`None` when there is no row), `send` the mail service's
      answer and `logError` the error of the email-log insert. The answer of
      the activity insert is not looked at. */
  method SendEmail(userId: Option<string>, config: Config, leadId: string, subject: string, body: string,
                   leadEmail: Option<string>, send: SendOutcome, logError: Option<string>)
    returns (result: EmailResult, effects: seq<Effect>)
    ensures userId.None? ==> result == Thrown(NotSignedIn) && effects == []
    // nothing is sent without a key or a recipient
    ensures userId.Some? && !Truthy(ApiKey(config)) ==> result == Failure(NoApiKey) && effects == []
    ensures userId.Some? && Truthy(ApiKey(config)) && !Truthy(leadEmail) ==>
              result == Failure(NoLeadEmail) && effects == []
    ensures userId.Some? && Truthy(ApiKey(config)) && Truthy(leadEmail) ==>
              var post := PostEmail(ApiKey(config).value, OrElse(config.fromEmail, DefaultFrom),
                                    leadEmail.value, subject, HtmlBody(body));
              var log := InsertEmailLog(leadId, subject, body, userId.value);
              var activity := InsertActivity(leadId, "Email", ActivityPrefix + subject);
              (send.RequestFailed? ==>
                 result == Failure(SendFailedPrefix + send.message) && effects == [post]) &&
              (send.Refused? ==>
                 result == Failure(RefusalMessage(send.status, send.statusText, send.errorText, send.parsed)) &&
                 effects == [post]) &&
              // the log comes first; when it fails no activity is recorded
              (send.Delivered? && logError.Some? ==>
                 result == Failure(logError.value) && effects == [post, log]) &&
              (send.Delivered? && logError.None? ==>
                 result == Sent && effects == [post, log, activity])
  {
    if userId.None? {
      return Thrown(NotSignedIn), [];
    }
    var resendApiKey := if Truthy(config.resendKey) then config.resendKey else config.publicKey;
    var resendFromEmail := OrElse(config.fromEmail, DefaultFrom);
    if !Truthy(resendApiKey) {
      return Failure(NoApiKey), [];
    }
    if !Truthy(leadEmail) {
      return Failure(NoLeadEmail), [];
    }
    effects := [PostEmail(resendApiKey.value, resendFromEmail, leadEmail.value, subject,
                          "<p>" + NewlinesToBreaks(body) + "</p>")];
    match send {
      case RequestFailed(message) =>
        return Failure(SendFailedPrefix + message), effects;
      case Refused(status, statusText, errorText, parsed) =>
        if parsed.Parsed? {
          var shown := if Truthy(parsed.message) then parsed.message.value
                       else if Truthy(parsed.name) then parsed.name.value
                       else errorText;
          return Failure(ResendErrorPrefix + shown), effects;
        }
        return Failure(ResendStatusPrefix + NatToString(status) + " " + statusText), effects;
      case Delivered =>
    }

    effects := effects + [InsertEmailLog(leadId, subject, body, userId.value)];
    if logError.Some? {
      return Failure(logError.value), effects;
    }
    effects := effects + [InsertActivity(leadId, "Email", ActivityPrefix + subject)];
    result := Sent;
  }
}
