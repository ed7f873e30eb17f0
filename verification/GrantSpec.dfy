/** What each endpoint does to the tables and answers, as functions of the request and the tables. */
module GrantSpec {
  import opened Clock
  import opened Wrappers
  import opened Claims
  import opened GrantTypes
  import Tokens
  import Cipher

  datatype Outcome = Outcome(t: Tables, r: Response)

  function After(now: Instant, expiresAt: int): bool {
    now > Seconds(expiresAt)
  }

  // ---------- Clients ----------

  const DENIED_SCHEMES: set<string> := {"javascript", "data", "file", "vbscript", "blob", "about"}

  /** `^[a-z][a-z0-9+.\-]*$` */
  predicate SchemeSyntax(scheme: string) {
    |scheme| > 0 && 'a' <= scheme[0] <= 'z' &&
    forall i | 1 <= i < |scheme| ::
      'a' <= scheme[i] <= 'z' || '0' <= scheme[i] <= '9' || scheme[i] in ['+', '.', '-']
  }

  /** `validateRedirectURI` returned no objection. */
  predicate ValidRedirect(env: Env, raw: string) {
    match env.parseRequestURI(raw)
    case None => false
    case Some(u) =>
      && u.scheme != "" && u.host != ""
      && u.scheme !in DENIED_SCHEMES
      && (if u.scheme == "https" || u.scheme == "mcp" then true
          else if u.scheme == "http" then u.hostname == "localhost" || u.hostname == "127.0.0.1"
          else SchemeSyntax(u.scheme))
  }

  function HandleRegister(env: Env, t: Tables, now: Instant, op: Op): Outcome
    requires op.Register?
  {
    if op.redirectURIs == [] then Outcome(t, Error(400, InvalidRedirectURI))
    else if exists u | u in op.redirectURIs :: !ValidRedirect(env, u) then
      Outcome(t, Error(400, InvalidRedirectURI))
    else if !op.io.insert || op.clientID in t.clients then Outcome(t, Error(500, ServerError))
    else
      var row := Client(env.hash(op.secret), op.redirectURIs, Unix(now), Unix(now));
      Outcome(t.(clients := t.clients[op.clientID := row]), Created(op.clientID, op.secret))
  }

  function Touched(t: Tables, io: Io, id: string, now: Instant): Tables {
    if io.touch && id in t.clients
    then t.(clients := t.clients[id := t.clients[id].(lastUsedAt := Unix(now))]) else t
  }

  /** `extractClientCredentials` */
  function Extracted(creds: Credentials): Option<(string, string)> {
    if creds.formID != "" then Some((creds.formID, creds.formSecret))
    else if creds.basic.Some? && creds.basic.value.0 != "" then creds.basic
    else None
  }

  predicate SecretOk(env: Env, c: Client, secret: string) {
    c.secretHash == "" || (secret != "" && env.hash(secret) == c.secretHash)
  }

  /** Client authentication: the authenticated id, or the error response. */
  function Authenticate(env: Env, t: Tables, io: Io, creds: Credentials): Result<string, Response> {
    match Extracted(creds)
    case None => Err(Error(401, InvalidClient))
    case Some((id, secret)) =>
      if !io.client then Err(Error(500, ServerError))
      else if id !in t.clients then Err(Error(401, InvalidClient))
      else if !SecretOk(env, t.clients[id], secret) then Err(Error(401, InvalidClient))
      else Ok(id)
  }

  /** The token endpoint touches the client as soon as it is found, before its secret is checked. */
  function TouchedBy(t: Tables, io: Io, creds: Credentials, now: Instant): Tables {
    match Extracted(creds)
    case Some((id, _)) => if io.client then Touched(t, io, id, now) else t
    case None => t
  }

  // ---------- Authorize and callback ----------

  /** The checks on the request alone. */
  function AuthorizeObjection(op: Op): Option<Response>
    requires op.Authorize?
  {
    if op.responseType != "code" then Some(Error(400, UnsupportedResponseType))
    else if op.clientID == "" || op.redirectURI == "" || op.codeChallenge == "" then Some(Error(400, InvalidRequest))
    else if op.challengeMethod != "S256" then Some(Error(400, InvalidRequest))
    else None
  }

  /** The session to store for a known client, under the state drawn for it. */
  function AuthorizeSession(env: Env, client: Client, now: Instant, op: Op): Result<(string, Session), Response>
    requires op.Authorize?
  {
    if op.redirectURI !in client.redirectURIs then Err(Error(400, InvalidRequest))
    else if !op.discovered then Err(Error(502, ServerError))
    else if op.upstreamState.None? then Err(Error(500, ServerError))
    else
      Ok((op.upstreamState.value,
          Session(op.clientID, op.redirectURI, op.codeChallenge, op.challengeMethod,
                  if op.scope == "" then env.scopes else op.scope, env.resource, op.state,
                  Unix(now + Seconds(600)))))
  }

  function HandleAuthorize(env: Env, t: Tables, now: Instant, op: Op): Outcome
    requires op.Authorize?
  {
    if AuthorizeObjection(op).Some? then Outcome(t, AuthorizeObjection(op).value)
    else if !op.io.client then Outcome(t, Error(500, ServerError))
    else if op.clientID !in t.clients then Outcome(t, Error(401, InvalidClient))
    else
      AuthorizeTables(Touched(t, op.io, op.clientID, now), op, AuthorizeSession(env, t.clients[op.clientID], now, op))
  }

  function AuthorizeTables(t: Tables, op: Op, made: Result<(string, Session), Response>): Outcome
    requires op.Authorize?
  {
    match made
    case Err(r) => Outcome(t, r)
    case Ok((state, row)) =>
      if !op.io.insert || state in t.sessions then Outcome(t, Error(500, ServerError))
      else
        Outcome(t.(sessions := t.sessions[state := row]),
                if op.endpointParses then RedirectUpstream(state) else Error(500, ServerError))
  }

  /** What a handler does with the row it looked up: leave it, delete it, or turn it into another row. */
  datatype Verdict<V> = Leave(r: Response) | Drop(r: Response) | Make(row: V, r: Response)

  function Find<V>(m: map<string, V>, k: string): Option<V> {
    if k in m then Some(m[k]) else None
  }

  function WithoutSession(t: Tables, io: Io, state: string): Tables {
    if io.delete then t.(sessions := t.sessions - {state}) else t
  }

  /** `cipher.Encrypt` under a fresh nonce; `None` when it fails. */
  function Sealed(env: Env, nonce: Option<Bytes>, plain: Bytes): Option<Bytes> {
    if nonce.None? then None
    else match Cipher.Encrypt(env.aead, env.cipher, nonce.value, plain)
      case Ok(blob) => Some(blob)
      case Err(_) => None
  }

  function SubOf(identity: Claims): string {
    if Tokens.TextOf(identity, "sub") == "" then "unknown" else Tokens.TextOf(identity, "sub")
  }

  /** The code row the callback inserts for a session; its lifetime starts at the callback's second
      clock reading. */
  function CodeFor(env: Env, sess: Session, up: Upstream, enc: Bytes, later: Instant): Code {
    Code(sess.clientID, sess.resource, SubOf(up.identity), Only(up.identity, ALLOWED), enc, sess.scopes,
         sess.redirectURI, sess.codeChallenge, sess.challengeMethod, Unix(later + Seconds(60)))
  }

  function CallbackVerdict(env: Env, found: Option<Session>, now: Instant, op: Op): Verdict<Code>
    requires op.Callback?
  {
    if op.upstreamError != "" then
      if op.state != "" && op.io.lookup && found.Some? then
        Drop(if env.parses(found.value.redirectURI)
             then RedirectWithError(found.value.redirectURI, op.upstreamError, found.value.originalState)
             else Error(400, FromUpstream(op.upstreamError)))
      else Leave(Error(400, FromUpstream(op.upstreamError)))
    else if op.code == "" || op.state == "" then Leave(Error(400, InvalidRequest))
    else if !op.io.lookup then Leave(Error(500, ServerError))
    else if found.None? then Leave(Error(400, InvalidRequest))
    else if After(now, found.value.expiresAt) then Drop(Error(400, InvalidRequest))
    else if !op.call.Answered? then Leave(Error(502, ServerError))
    else
      var up := op.call.answer;
      var enc := if up.refreshToken == [] then Some([]) else Sealed(env, op.nonce, up.refreshToken);
      if enc.None? || op.localCode.None? then Leave(Error(500, ServerError))
      else Make(CodeFor(env, found.value, up, enc.value, now + op.elapsed), WithCode(env, found.value, op.localCode.value))
  }

  /** The redirect back to the client. */
  function WithCode(env: Env, sess: Session, code: string): Response {
    if env.parses(sess.redirectURI) then RedirectWithCode(sess.redirectURI, code, sess.originalState)
    else Error(500, ServerError)
  }

  function CallbackTables(t: Tables, op: Op, v: Verdict<Code>): Outcome
    requires op.Callback? && (v.Make? ==> op.localCode.Some?)
  {
    match v
    case Leave(r) => Outcome(t, r)
    case Drop(r) => Outcome(WithoutSession(t, op.io, op.state), r)
    case Make(row, r) =>
      if !op.io.insert || op.localCode.value in t.codes then Outcome(t, Error(500, ServerError))
      else Outcome(WithoutSession(t.(codes := t.codes[op.localCode.value := row]), op.io, op.state), r)
  }

  function HandleCallback(env: Env, t: Tables, now: Instant, op: Op): Outcome
    requires op.Callback?
  {
    CallbackTables(t, op, CallbackVerdict(env, Find(t.sessions, op.state), now, op))
  }

  // ---------- Token endpoint ----------

  /** The token response, once both tokens are minted. */
  function Minted(minted: bool, refresh: Option<string>, row: Refresh): Verdict<Refresh> {
    if !minted || refresh.None? then Drop(Error(500, ServerError))
    else Make(row, Granted(RefreshGrantee(row), refresh.value, row.scopes))
  }

  function Stored(t: Tables, io: Io, hash: string, row: Refresh, r: Response): Outcome {
    if !io.insert || hash in t.refreshes then Outcome(t, Error(500, ServerError))
    else Outcome(t.(refreshes := t.refreshes[hash := row]), r)
  }

  function NewHash(env: Env, refresh: Option<string>): string {
    if refresh.Some? then env.hash(refresh.value) else ""
  }

  function CodeGrantee(row: Code): Tokens.Grantee {
    Tokens.Grantee(row.sub, row.scopes, row.clientID, row.claims)
  }

  function RefreshGrantee(row: Refresh): Tokens.Grantee {
    Tokens.Grantee(row.sub, row.scopes, row.clientID, row.claims)
  }

  /** The conditions on a found code row, in the order they are checked; all answer `invalid_grant`. */
  predicate CodeAccepts(env: Env, row: Code, client: string, redirectURI: string, verifier: string, now: Instant) {
    && row.clientID == client
    && row.redirectURI == redirectURI
    && !After(now, row.expiresAt)
    && row.challengeMethod == "S256"
    && env.s256(verifier) == row.codeChallenge
  }

  function CodeVerdict(env: Env, found: Option<Code>, now: Instant, op: Op, client: string): Verdict<Refresh>
    requires op.ExchangeCode?
  {
    if op.code == "" || op.redirectURI == "" || op.verifier == "" then Leave(Error(400, InvalidRequest))
    else if !op.io.lookup then Leave(Error(500, ServerError))
    else if found.None? then Leave(Error(400, InvalidGrant))
    else
      var row := found.value;
      if !CodeAccepts(env, row, client, op.redirectURI, op.verifier, now) then Drop(Error(400, InvalidGrant))
      else
        Minted(op.minted, op.refresh,
               Refresh(row.sub, row.resource, row.clientID, row.claims, row.upstreamEnc, row.scopes,
                       Unix(now + env.refreshTTL)))
  }

  function CodeTables(t: Tables, op: Op, v: Verdict<Refresh>, hash: string): Outcome
    requires op.ExchangeCode?
  {
    var t1 := if op.io.delete then t.(codes := t.codes - {op.code}) else t;
    match v
    case Leave(r) => Outcome(t, r)
    case Drop(r) => Outcome(t1, r)
    case Make(row, r) => Stored(t1, op.io, hash, row, r)
  }

  function RedeemCode(env: Env, t: Tables, now: Instant, op: Op, client: string): Outcome
    requires op.ExchangeCode?
  {
    CodeTables(t, op, CodeVerdict(env, Find(t.codes, op.code), now, op, client), NewHash(env, op.refresh))
  }

  /** The upstream refresh attempt: the blob to store next, or `None` when strict mode refuses. */
  function UpstreamRefreshed(env: Env, enc: Bytes, call: UpstreamCall, nonce: Option<Bytes>): Option<Bytes> {
    if enc == [] || Cipher.Decrypt(env.aead, env.cipher, enc).Err? then Some(enc)
    else
      match call
      case Answered(up) =>
        if up.refreshToken == [] then Some(enc)
        else (match Sealed(env, nonce, up.refreshToken)
              case Some(blob) => Some(blob)
              case None => Some(enc))
      case _ => if env.strictUpstream then None else Some(enc)
  }

  predicate RefreshAccepts(row: Refresh, client: string, now: Instant) {
    row.clientID == client && !After(now, row.expiresAt)
  }

  function RefreshVerdict(env: Env, found: Option<Refresh>, now: Instant, op: Op, client: string): Verdict<Refresh>
    requires op.ExchangeRefresh?
  {
    if op.token == "" then Leave(Error(400, InvalidRequest))
    else if !op.io.lookup then Leave(Error(500, ServerError))
    else if found.None? then Leave(Error(400, InvalidGrant))
    else
      var row := found.value;
      if !RefreshAccepts(row, client, now) then Drop(Error(400, InvalidGrant))
      else
        match UpstreamRefreshed(env, row.upstreamEnc, op.call, op.nonce)
        case None => Drop(Error(400, InvalidGrant))
        case Some(enc) =>
          Minted(op.minted, op.refresh,
                 row.(upstreamEnc := enc, expiresAt := Unix(now + op.elapsed + env.refreshTTL)))
  }

  function RefreshTables(t: Tables, op: Op, v: Verdict<Refresh>, spent: string, hash: string): Outcome
    requires op.ExchangeRefresh?
  {
    var t1 := if op.io.delete then t.(refreshes := t.refreshes - {spent}) else t;
    match v
    case Leave(r) => Outcome(t, r)
    case Drop(r) => Outcome(t1, r)
    case Make(row, r) => Stored(t1, op.io, hash, row, r)
  }

  function RotateRefresh(env: Env, t: Tables, now: Instant, op: Op, client: string): Outcome
    requires op.ExchangeRefresh?
  {
    var spent := env.hash(op.token);
    RefreshTables(t, op, RefreshVerdict(env, Find(t.refreshes, spent), now, op, client), spent, NewHash(env, op.refresh))
  }

  function HandleToken(env: Env, t: Tables, now: Instant, op: Op): Outcome
    requires op.ExchangeCode? || op.ExchangeRefresh?
  {
    var t1 := TouchedBy(t, op.io, op.creds, now);
    match Authenticate(env, t, op.io, op.creds)
    case Err(e) => Outcome(t1, e)
    case Ok(client) =>
      if op.ExchangeCode? then RedeemCode(env, t1, now, op, client) else RotateRefresh(env, t1, now, op, client)
  }

  // ---------- Revocation and introspection ----------

  function HandleRevoke(env: Env, t: Tables, op: Op): Outcome
    requires op.Revoke?
  {
    match Authenticate(env, t, op.io, op.creds)
    case Err(e) => Outcome(t, e)
    case Ok(client) =>
      var hash := env.hash(op.token);
      if op.token == "" then Outcome(t, Error(400, InvalidRequest))
      else if op.hint == "access_token" || !op.io.lookup || hash !in t.refreshes then Outcome(t, Done)
      else if t.refreshes[hash].clientID != client then Outcome(t, Done)
      else Outcome(if op.io.delete then t.(refreshes := t.refreshes - {hash}) else t, Done)
  }

  const FIELDS: seq<string> := ["sub", "client_id", "scope", "exp", "iat", "iss", "jti"]

  const REPORTED: set<string> := (set f | f in FIELDS) + {"aud"}

  /** `jwt` is what verifying the text as an access token yields. */
  function HandleIntrospect(env: Env, t: Tables, now: Instant, op: Op): Outcome
    requires op.Introspect?
  {
    match Authenticate(env, t, op.io, op.creds)
    case Err(e) => Outcome(t, e)
    case Ok(client) =>
      var hash := env.hash(op.token);
      if op.token == "" then Outcome(t, Inactive)
      else if op.hint != "access_token" && op.io.lookup && hash in t.refreshes then
        var row := t.refreshes[hash];
        if After(now, row.expiresAt) || row.clientID != client then Outcome(t, Inactive)
        else Outcome(t, ActiveRefresh(row.sub, row.clientID, row.scopes, row.expiresAt))
      else if op.hint == "refresh_token" then Outcome(t, Inactive)
      else
        match op.jwt
        case None => Outcome(t, Inactive)
        case Some(claims) =>
          if Tokens.TextOf(claims, "client_id") != client then Outcome(t, Inactive)
          else Outcome(t, ActiveAccess(Only(claims, REPORTED)))
  }

  // ---------- Janitor ----------

  predicate Gone(expiresAt: int, now: Instant) {
    expiresAt <= Unix(now)
  }

  function StaleSince(c: Client): int {
    if c.lastUsedAt == 0 then c.createdAt else c.lastUsedAt
  }

  function Clean(t: Tables, now: Instant, op: Op): Tables {
    match op
    case CleanSessions => t.(sessions := map k | k in t.sessions && !Gone(t.sessions[k].expiresAt, now) :: t.sessions[k])
    case CleanCodes => t.(codes := map k | k in t.codes && !Gone(t.codes[k].expiresAt, now) :: t.codes[k])
    case CleanRefreshes =>
      t.(refreshes := map k | k in t.refreshes && !Gone(t.refreshes[k].expiresAt, now) :: t.refreshes[k])
    case CleanClients(olderThan) =>
      t.(clients := map k | k in t.clients && StaleSince(t.clients[k]) >= Unix(now - olderThan) :: t.clients[k])
    case _ => t
  }

  function Handle(env: Env, t: Tables, now: Instant, op: Op): Outcome {
    match op
    case Register(_, _, _, _) => HandleRegister(env, t, now, op)
    case Authorize(_, _, _, _, _, _, _, _, _, _, _) => HandleAuthorize(env, t, now, op)
    case Callback(_, _, _, _, _, _, _, _) => HandleCallback(env, t, now, op)
    case ExchangeCode(_, _, _, _, _, _, _) => HandleToken(env, t, now, op)
    case ExchangeRefresh(_, _, _, _, _, _, _, _) => HandleToken(env, t, now, op)
    case Revoke(_, _, _, _) => HandleRevoke(env, t, op)
    case Introspect(_, _, _, _, _) => HandleIntrospect(env, t, now, op)
    case _ => Outcome(Clean(t, now, op), Done)
  }
}
