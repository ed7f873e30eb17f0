/** What the endpoints tell their callers, and whom they let in. */
module GrantAnswers {
  import opened Clock
  import opened Wrappers
  import opened Claims
  import opened GrantTypes
  import opened GrantSpec
  import opened GrantRuns
  import opened GrantEffects
  import opened GrantTrace
  import opened GrantOrigins
  import opened GrantTheorems
  import Tokens
  import Cipher

  // ---------- The callback's redirect ----------

  /** On the tables: the redirect names the code just stored, and the session's redirect URI and state. */
  lemma CallbackRedirects(env: Env, t: Tables, now: Instant, op: Op)
    requires op.Callback?
    ensures var o := HandleCallback(env, t, now, op);
      && (o.r.RedirectWithCode? ==>
            && op.state in t.sessions && o.r.code !in t.codes && o.r.code in o.t.codes
            && o.r.redirectURI == t.sessions[op.state].redirectURI == o.t.codes[o.r.code].redirectURI
            && o.r.state == t.sessions[op.state].originalState)
      && (forall k | k in o.t.codes && k !in t.codes && env.parses(o.t.codes[k].redirectURI) ::
            o.r.RedirectWithCode? && o.r.code == k)
      && (o.r.RedirectWithError? ==>
            && op.state in t.sessions && op.upstreamError != "" && o.r.error == op.upstreamError
            && o.r.redirectURI == t.sessions[op.state].redirectURI && o.r.state == t.sessions[op.state].originalState
            && o.t == WithoutSession(t, op.io, op.state))
  {
    var v := CallbackVerdict(env, Find(t.sessions, op.state), now, op);
    CallbackMakes(env, Find(t.sessions, op.state), now, op);
    CallbackApplied(t, op, v);
  }

  /** An authorize event of the run that made this session, and the record of it. */
  ghost predicate MadeBy(env: Env, evs: seq<Event>, s: State, l: Lineage) {
    l in s.h.authorized && exists i :: 0 <= i < |evs| && AuthorizedBy(env, evs[i], l, s.h.authorized[l])
  }

  /** In every run: a callback that redirects with a code has stored exactly that code, under the redirect
      URI of the authorize request its session came from, and sends it there with that request's `state`;
      and a callback that stores a code under a parsable redirect URI gives that answer. */
  lemma CallbackAnswersTheRequest(env: Env, clock: Instant, evs: seq<Event>, s: State, ev: Event)
    requires Reaches(env, clock, evs, s) && Enabled(env, s, ev) && ev.op.Callback?
    ensures var o := HandleCallback(env, s.t, ev.now, ev.op);
      && (o.r.RedirectWithCode? || o.r.RedirectWithError? ==>
            MadeBy(env, evs, s, ev.op.state) &&
            o.r.redirectURI == s.h.authorized[ev.op.state].redirectURI && o.r.state == s.h.authorized[ev.op.state].state)
      && (o.r.RedirectWithCode? ==>
            o.r.code !in s.t.codes && o.r.code in o.t.codes && o.t.codes[o.r.code].redirectURI == o.r.redirectURI)
      && (o.r.RedirectWithError? ==> o.r.error == ev.op.upstreamError)
      && (forall k | k in o.t.codes && k !in s.t.codes && env.parses(o.t.codes[k].redirectURI) ::
            o.r.RedirectWithCode? && o.r.code == k)
  {
    ReachedTrail(env, clock, evs, s);
    RunIsAccounted(env, Initial(clock), evs);
    CallbackRedirects(env, s.t, ev.now, ev.op);
  }

  /** The state sent upstream is the key of the session just stored, which says what was asked; and a
      stored session is always announced when the provider's endpoint parses. */
  lemma AuthorizeAnswersWithSession(env: Env, t: Tables, now: Instant, op: Op)
    requires op.Authorize?
    ensures var o := HandleAuthorize(env, t, now, op);
      && (o.r.RedirectUpstream? ==>
            && o.r.state !in t.sessions && o.r.state in o.t.sessions && op.clientID in t.clients
            && FromAuthorize(o.t.sessions[o.r.state], Asked(env, op, now, t.clients[op.clientID].redirectURIs)))
      && (op.endpointParses ==>
            forall k | k in o.t.sessions && k !in t.sessions :: o.r == RedirectUpstream(k))
  {
    AuthorizeChange(env, t, now, op);
  }

  // ---------- Client authentication ----------

  /** The hash function never yields the empty string, which stands for a client without a secret. */
  ghost predicate HashLaw(env: Env) {
    forall s :: env.hash(s) != ""
  }

  /** In every run: a live client authenticates exactly with a non-empty secret whose hash is that of the
      secret its registration was answered with. */
  lemma SecretsDecide(env: Env, clock: Instant, evs: seq<Event>, s: State, io: Io, creds: Credentials, id: string, secret: string)
    requires Reaches(env, clock, evs, s) && HashLaw(env) && io.client
    requires Extracted(creds) == Some((id, secret)) && id in s.t.clients
    ensures id in s.h.registrations
    ensures exists i :: 0 <= i < |evs| && RegisteredBy(evs[i], id, s.h.registrations[id])
    ensures Authenticate(env, s.t, io, creds) ==
      if secret != "" && env.hash(secret) == env.hash(s.h.registrations[id].secret)
      then Ok(id) else Err(Error(401, InvalidClient))
  {
    ReachedTrail(env, clock, evs, s);
    RunIsAccounted(env, Initial(clock), evs);
  }

  /** A registration answers with the credentials on record, so what was handed out works from then on. */
  lemma RegistrationHandsOutCredentials(env: Env, s: State, ev: Event)
    requires ev.op.Register? && Step(env, s, ev).t != s.t
    ensures var r, s' := HandleRegister(env, s.t, ev.now, ev.op).r, Step(env, s, ev);
      && r == Created(ev.op.clientID, ev.op.secret)
      && r.clientID in s'.h.registrations && s'.h.registrations[r.clientID].secret == r.secret
      && r.clientID in s'.t.clients
      && (r.clientID != "" && r.secret != "" ==>
            Authenticate(env, s'.t, Io(true, true, true, true, true), Credentials(r.clientID, r.secret, None))
              == Ok(r.clientID))
  {
    assert Handle(env, s.t, ev.now, ev.op) == HandleRegister(env, s.t, ev.now, ev.op);
  }

  /** Form credentials win; Basic ones count exactly like them when the form has no client id. */
  lemma CredentialsAgree(env: Env, t: Tables, io: Io, id: string, secret: string, ignored: string, basic: Option<(string, string)>)
    requires id != ""
    ensures Authenticate(env, t, io, Credentials(id, secret, basic))
         == Authenticate(env, t, io, Credentials("", ignored, Some((id, secret))))
  {}

  /** Failed authentication leaves sessions, codes and refresh tokens alone, at every endpoint. */
  lemma RefusedClientsChangeNothing(env: Env, t: Tables, now: Instant, op: Op)
    requires op.ExchangeCode? || op.ExchangeRefresh? || op.Revoke? || op.Introspect?
    requires Authenticate(env, t, op.io, op.creds).Err?
    ensures var o := Handle(env, t, now, op);
      && o.r == Authenticate(env, t, op.io, op.creds).error && o.r.Error?
      && o.t.sessions == t.sessions && o.t.codes == t.codes && o.t.refreshes == t.refreshes
  {
    TouchKeepsRest(t, op.io, op.creds, now);
  }

  // ---------- Refusals ----------

  /** The status of an error answer follows from its reason (section 5.2 of RFC 6749): 401 for client
      authentication, 5xx for the server's own failures, 400 for everything else. */
  predicate Standard(r: Response) {
    r.Error? ==>
      match r.reason
      case InvalidClient => r.status == 401
      case ServerError => r.status == 500 || r.status == 502
      case _ => r.status == 400
  }

  lemma ErrorsAreStandard(env: Env, t: Tables, now: Instant, op: Op)
    ensures Standard(Handle(env, t, now, op).r)
  {
    if op.Callback? { CallbackErrors(env, t, now, op); }
    else if op.ExchangeCode? || op.ExchangeRefresh? { TokenErrors(env, t, now, op); }
  }

  lemma CallbackErrors(env: Env, t: Tables, now: Instant, op: Op)
    requires op.Callback?
    ensures Standard(HandleCallback(env, t, now, op).r)
  {}

  lemma TokenErrors(env: Env, t: Tables, now: Instant, op: Op)
    requires op.ExchangeCode? || op.ExchangeRefresh?
    ensures Standard(HandleToken(env, t, now, op).r)
  {
    var t1 := TouchedBy(t, op.io, op.creds, now);
    var who := Authenticate(env, t, op.io, op.creds);
    if who.Ok? && op.ExchangeCode? { RedeemErrors(env, t1, now, op, who.value); }
    else if who.Ok? { RotateErrors(env, t1, now, op, who.value); }
  }

  lemma RedeemErrors(env: Env, t: Tables, now: Instant, op: Op, client: string)
    requires op.ExchangeCode?
    ensures Standard(RedeemCode(env, t, now, op, client).r)
  {}

  lemma RotateErrors(env: Env, t: Tables, now: Instant, op: Op, client: string)
    requires op.ExchangeRefresh?
    ensures Standard(RotateRefresh(env, t, now, op, client).r)
  {}

  /** The upstream refresh is the only other thing that can refuse an acceptable refresh exchange, and it
      does so exactly in strict mode, when the stored blob is readable and the provider fails. */
  lemma StrictModeRefuses(env: Env, t: Tables, now: Instant, op: Op)
    requires op.ExchangeRefresh? && op.token != "" && Authenticate(env, t, op.io, op.creds).Ok?
    requires op.io.lookup && op.io.insert && op.minted && op.refresh.Some?
    requires env.hash(op.token) in t.refreshes && env.hash(op.refresh.value) !in t.refreshes
    requires RefreshAccepts(t.refreshes[env.hash(op.token)], Authenticate(env, t, op.io, op.creds).value, now)
    ensures var blob := t.refreshes[env.hash(op.token)].upstreamEnc;
      HandleToken(env, t, now, op).r.Granted? <==>
        !(env.strictUpstream && blob != [] && Cipher.Decrypt(env.aead, env.cipher, blob).Ok? && !op.call.Answered?)
  {
    TouchKeepsRest(t, op.io, op.creds, now);
  }

  // ---------- Subjects and redirect URIs ----------

  /** A non-empty text subject is kept, so different ones stay different; anything else is "unknown". */
  lemma SubjectsAreKept(identity: Claims, other: Claims)
    ensures "sub" in identity && identity["sub"].Str? && identity["sub"].text != "" ==> SubOf(identity) == identity["sub"].text
    ensures SubOf(identity) != ""
    ensures SubOf(identity) != "unknown" ==> "sub" in identity && identity["sub"] == Str(SubOf(identity))
    ensures var a, b := Tokens.TextOf(identity, "sub"), Tokens.TextOf(other, "sub");
      a != "" && b != "" && a != b ==> SubOf(identity) != SubOf(other)
  {}

  /** What registration lets through: an absolute URI with a host, never a script, data or file URI, and
      plain HTTP only to this machine. Any host is fine for `https` and `mcp`. */
  lemma RedirectsAreSafe(env: Env, raw: string)
    requires env.parseRequestURI(raw).Some?
    ensures var u := env.parseRequestURI(raw).value;
      && (ValidRedirect(env, raw) ==>
            && u.scheme != "" && u.host != ""
            && u.scheme != "javascript" && u.scheme != "data" && u.scheme != "file"
            && u.scheme != "vbscript" && u.scheme != "blob" && u.scheme != "about"
            && (u.scheme == "http" ==> u.hostname == "localhost" || u.hostname == "127.0.0.1"))
      && (u.host != "" && (u.scheme == "https" || u.scheme == "mcp") ==> ValidRedirect(env, raw))
      && (u.host != "" && u.scheme == "http" ==>
            (ValidRedirect(env, raw) <==> u.hostname == "localhost" || u.hostname == "127.0.0.1"))
  {
    assert "https"[0] == 'h' && "mcp"[0] == 'm' && "http"[0] == 'h';
  }

  // ---------- Sessions, revocation, introspection ----------

  /** A callback that comes too late is refused and removes the session. */
  lemma LateCallbackDropsSession(env: Env, t: Tables, now: Instant, op: Op)
    requires op.Callback? && op.upstreamError == "" && op.code != "" && op.state != "" && op.io.lookup && op.io.delete
    requires op.state in t.sessions && now > Seconds(t.sessions[op.state].expiresAt)
    ensures HandleCallback(env, t, now, op) == Outcome(t.(sessions := t.sessions - {op.state}), Error(400, InvalidRequest))
  {}

  /** A revoke removes the presented token exactly when it is the owner's and not hinted to be an access
      token, and otherwise nothing; an authenticated client with a token always gets the same answer. */
  lemma RevokesExactly(env: Env, t: Tables, op: Op)
    requires op.Revoke?
    ensures HandleRevoke(env, t, op).t ==
      if OwnerRevokes(env, t, op) then t.(refreshes := t.refreshes - {env.hash(op.token)}) else t
    ensures Authenticate(env, t, op.io, op.creds).Ok? && op.token != "" ==> HandleRevoke(env, t, op).r == Done
  {}

  /** Hints are obeyed: a token hinted to be an access token is never reported as a refresh token, one hinted
      to be a refresh token never as an access token, and introspection changes nothing. */
  lemma HintsAreObeyed(env: Env, t: Tables, now: Instant, op: Op)
    requires op.Introspect?
    ensures var o := HandleIntrospect(env, t, now, op);
      && o.t == t
      && (op.hint == "access_token" ==> !o.r.ActiveRefresh?) && (op.hint == "refresh_token" ==> !o.r.ActiveAccess?)
      && (op.token == "" ==> !o.r.ActiveRefresh? && !o.r.ActiveAccess?)
  {}
}
