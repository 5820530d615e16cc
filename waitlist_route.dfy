/** `POST /api/waitlist`: validate the submitted address, optionally add it as
    a contact of the configured audience, notify the team by email, and answer
    200, 400 or 500. The mail provider is an outside service: each call to it is
    appended to a call log, and `succeeds` holds of a call exactly when the
    awaited call resolves without throwing (what it resolves to is never read). */
module WaitlistRoute {
  import opened Js
  import EmailPattern

  const InvalidEmailMessage := "Please enter a valid email address."
  const GenericErrorMessage := "Something went wrong. Please try again."
  const PlaceholderApiKey := "placeholder"
  const DefaultFrom := "noreply@giglocal.co"
  const DefaultNotify := "heatherbarryv@gmail.com"
  const SubjectPrefix := "New GigLocal waitlist signup: "

  /** The environment variables the handler reads; `None` is an unset variable. */
  datatype Env = Env(
    apiKey: Option<string>,       // RESEND_API_KEY
    audienceId: Option<string>,   // RESEND_AUDIENCE_ID
    fromEmail: Option<string>,    // RESEND_FROM_EMAIL
    notifyEmail: Option<string>)  // NOTIFY_EMAIL

  /** A request to the provider. The address goes to contact creation as the
      body held it; the notification carries it in its subject and its HTML
      body (`bodyEmail`, the one part of that template modelled here). */
  datatype Request =
    | CreateContact(email: Value, audienceId: string, unsubscribed: bool)
    | SendEmail(from: string, to: string, subject: string, bodyEmail: string)

  /** A request made through a client built with `apiKey`. */
  datatype Call = Call(apiKey: string, request: Request)

  datatype Body = Succeeded | Failed(error: string)
  datatype Response = Response(status: int, body: Body)

  const BadRequest := Response(400, Failed(InvalidEmailMessage))
  const ServerError := Response(500, Failed(GenericErrorMessage))
  const Ok := Response(200, Succeeded)

  /** The guard of the handler: `email` is truthy and its string form matches. */
  predicate Accepts(email: Value) {
    Truthy(email) && EmailPattern.IsValidEmail(ToText(email))
  }

  predicate AudienceConfigured(env: Env) {
    EnvTruthy(env.audienceId)
  }

  /** The key the per-request provider client is built with. */
  function ClientKey(env: Env): string {
    Coalesce(env.apiKey, PlaceholderApiKey)
  }

  function ContactCall(email: Value, env: Env): Call
    requires AudienceConfigured(env)
  {
    Call(ClientKey(env), CreateContact(email, env.audienceId.value, false))
  }

  function NotifyCall(email: Value, env: Env): Call {
    var text := ToText(email);
    Call(ClientKey(env), SendEmail(Coalesce(env.fromEmail, DefaultFrom),
                                   Coalesce(env.notifyEmail, DefaultNotify),
                                   SubjectPrefix + text, text))
  }

  /** The provider calls one request makes, in order: none for a rejected
      address; otherwise contact creation when an audience is configured,
      then the notification unless contact creation failed. */
  ghost function Attempted(email: Value, env: Env, succeeds: Call -> bool): seq<Call> {
    if !Accepts(email) then []
    else if AudienceConfigured(env) then
      var contact := ContactCall(email, env);
      if succeeds(contact) then [contact, NotifyCall(email, env)] else [contact]
    else [NotifyCall(email, env)]
  }

  /** One awaited provider call: it is logged whether or not it throws, and
      `ok` says whether it resolved without throwing. */
  method Dispatch(succeeds: Call -> bool, call: Call, log: seq<Call>) returns (ok: bool, log': seq<Call>)
    ensures log' == log + [call]
    ensures ok <==> succeeds(call)
  {
    log' := log + [call];
    ok := succeeds(call);
  }

  /** The route handler. `email` is the `email` property of the parsed body,
      `log` the provider calls made before, `log'` those made after. A call for
      which `succeeds` is false throws into the handler's `catch`. */
  method Post(email: Value, env: Env, succeeds: Call -> bool, log: seq<Call>) returns (r: Response, log': seq<Call>)
    ensures log' == log + Attempted(email, env, succeeds)
    ensures r == Ok || r == BadRequest || r == ServerError
    ensures r == BadRequest <==> !Accepts(email)
    ensures r == Ok <==> Accepts(email) && forall c :: c in Attempted(email, env, succeeds) ==> succeeds(c)
    ensures r == Ok ==> |log'| > |log| && log'[|log'| - 1] == NotifyCall(email, env)
  {
    if !Accepts(email) {
      return BadRequest, log;
    }
    log' := log;
    var ok: bool;
    if AudienceConfigured(env) {
      ok, log' := Dispatch(succeeds, ContactCall(email, env), log');
      if !ok {
        return ServerError, log';
      }
    }
    ok, log' := Dispatch(succeeds, NotifyCall(email, env), log');
    if !ok {
      return ServerError, log';
    }
    r := Ok;
  }

  /** A rejected request reaches no provider, whatever the environment. */
  lemma RejectedMakesNoCall(email: Value, env: Env, succeeds: Call -> bool)
    requires !Accepts(email)
    ensures Attempted(email, env, succeeds) == []
  {
  }

  /** A missing or empty address, or one the pattern refuses, is rejected;
      for a string every rejection is one of these, since the pattern never
      matches the empty string. */
  lemma RejectionCases(email: Value)
    ensures !Accepts(email) <==> !Truthy(email) || !EmailPattern.MatchesPattern(ToText(email))
    ensures email.Str? ==> (Accepts(email) <==> EmailPattern.MatchesPattern(email.s))
  {
    EmailPattern.PatternCharacterisation(ToText(email));
  }

  /** Contact creation is attempted exactly for an accepted address with a
      configured audience, with that audience, the address as given, and
      `unsubscribed` false. */
  lemma ContactAttemptedIff(email: Value, env: Env, succeeds: Call -> bool)
    ensures (exists c :: c in Attempted(email, env, succeeds) && c.request.CreateContact?)
            <==> Accepts(email) && AudienceConfigured(env)
    ensures forall c :: c in Attempted(email, env, succeeds) && c.request.CreateContact? ==>
              c.request == CreateContact(email, env.audienceId.value, false)
  {
    var calls := Attempted(email, env, succeeds);
    if Accepts(email) && AudienceConfigured(env) {
      assert calls[0] == ContactCall(email, env);
    }
  }

  /** Contact creation comes before the notification, and a failed contact
      creation means no notification is sent. */
  lemma ContactPrecedesSend(email: Value, env: Env, succeeds: Call -> bool)
    ensures var calls := Attempted(email, env, succeeds);
            forall i, j ::
              (0 <= i < |calls| && 0 <= j < |calls| &&
               calls[i].request.CreateContact? && calls[j].request.SendEmail?) ==> i < j
    ensures var calls := Attempted(email, env, succeeds);
            forall c :: c in calls && c.request.CreateContact? && !succeeds(c) ==>
              forall d :: d in calls ==> !d.request.SendEmail?
  {
  }

  /** The notification is attempted exactly when the address is accepted and
      no contact creation failed; it carries the address unchanged, and falls
      back to the built-in sender and recipient only for unset variables. */
  lemma NotificationContents(email: Value, env: Env, succeeds: Call -> bool)
    ensures (exists c :: c in Attempted(email, env, succeeds) && c.request.SendEmail?) <==>
              Accepts(email) && (AudienceConfigured(env) ==> succeeds(ContactCall(email, env)))
    ensures forall c :: c in Attempted(email, env, succeeds) && c.request.SendEmail? ==>
              c.request.subject == SubjectPrefix + ToText(email) &&
              c.request.bodyEmail == ToText(email) &&
              (env.fromEmail.None? ==> c.request.from == DefaultFrom) &&
              (env.fromEmail.Some? ==> c.request.from == env.fromEmail.value) &&
              (env.notifyEmail.None? ==> c.request.to == DefaultNotify) &&
              (env.notifyEmail.Some? ==> c.request.to == env.notifyEmail.value)
    ensures forall c :: c in Attempted(email, env, succeeds) ==>
              c.apiKey == if env.apiKey.Some? then env.apiKey.value else PlaceholderApiKey
  {
    var calls := Attempted(email, env, succeeds);
    if Accepts(email) && (AudienceConfigured(env) ==> succeeds(ContactCall(email, env))) {
      assert calls[|calls| - 1] == NotifyCall(email, env);
    }
  }

  /** An address without `@`, such as `not-an-email`, is rejected. */
  lemma NoAtRejected(email: Value)
    requires '@' !in ToText(email)
    ensures !Accepts(email)
  {
  }

  predicate LowerCase(s: string) {
    forall k :: 0 <= k < |s| ==> 'a' <= s[k] <= 'z'
  }

  /** An address of three non-empty lower-case words, such as
      `artist@example.com`, is accepted. */
  lemma PlainAddressAccepted(local: string, host: string, tld: string)
    requires local != [] && host != [] && tld != []
    requires LowerCase(local) && LowerCase(host) && LowerCase(tld)
    ensures Accepts(Str(local + "@" + host + "." + tld))
  {
    var s := local + "@" + host + "." + tld;
    var at, dot := |local|, |local| + 1 + |host|;
    assert s[at] == '@' && s[dot] == '.';
    forall k | 0 <= k < |s| && k != at && k != dot
      ensures EmailPattern.IsAtom(s[k])
    {
      assert 'a' <= s[k] <= 'z' by {
        if k < at {
          assert s[k] == local[k];
        } else if k < dot {
          assert s[k] == host[k - at - 1];
        } else {
          assert s[k] == tld[k - dot - 1];
        }
      }
    }
    EmailPattern.MatchImpliesValid(s, at, dot);
  }
}
