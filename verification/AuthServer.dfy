/** The authorization server's handlers as they run: statement by statement on the store's tables.
    Each is proved to leave the tables and give the answer its specification says. */
module AuthServer {
  import opened Clock
  import opened Wrappers
  import opened Claims
  import opened GrantTypes
  import opened GrantSpec
  import Tokens
  import Cipher
  import KP = KeyProtocol

  /** `DELETE … WHERE`, if the statement succeeds. */
  function Cleaned(t: Tables, ok: bool, now: Instant, op: Op): Tables {
    if ok then Clean(t, now, op) else t
  }

  method ValidateAll(env: Env, uris: seq<string>) returns (ok: bool)
    ensures ok <==> forall u | u in uris :: ValidRedirect(env, u)
  {
    for i := 0 to |uris|
      invariant forall j | 0 <= j < i :: ValidRedirect(env, uris[j])
    {
      if !ValidRedirect(env, uris[i]) { return false; }
    }
    return true;
  }

  method ContainsString(list: seq<string>, s: string) returns (found: bool)
    ensures found <==> s in list
  {
    for i := 0 to |list|
      invariant s !in list[..i]
    {
      if list[i] == s { return true; }
    }
    return false;
  }

  /** The claims introspection reports of an access token. */
  method Report(claims: Claims) returns (resp: Claims)
    ensures resp == Only(claims, REPORTED)
  {
    resp := map[];
    for i := 0 to |FIELDS|
      invariant resp == Only(claims, set f | f in FIELDS[..i])
    {
      if FIELDS[i] in claims { resp := resp[FIELDS[i] := claims[FIELDS[i]]]; }
      assert FIELDS[..i + 1] == FIELDS[..i] + [FIELDS[i]];
    }
    if "aud" in claims { resp := resp["aud" := claims["aud"]]; }
    assert FIELDS[..|FIELDS|] == FIELDS;
  }

  /** The upstream refresh inside a refresh exchange: the blob to store next, or `None` when strict mode
      refuses the exchange. */
  method RefreshUpstream(env: Env, stored: Bytes, call: UpstreamCall, nonce: Option<Bytes>) returns (next: Option<Bytes>)
    ensures next == UpstreamRefreshed(env, stored, call, nonce)
  {
    var enc := stored;
    if enc != [] && Cipher.Decrypt(env.aead, env.cipher, enc).Ok? {
      if !call.Answered? {
        if env.strictUpstream { return None; }
      } else if call.answer.refreshToken != [] {
        var sealed := Sealed(env, nonce, call.answer.refreshToken);
        if sealed.Some? { enc := sealed.value; }
      }
    }
    return Some(enc);
  }

  class Server {
    var clients: map<string, Client>
    var sessions: map<string, Session>
    var codes: map<string, Code>
    var refreshes: map<string, Refresh>
    var signingKeys: KP.Table

    /** The tables of the authorization server; the signing keys belong to the key protocol. */
    ghost function Contents(): Tables
      reads this
    {
      Tables(clients, sessions, codes, refreshes)
    }

    constructor ()
      ensures Contents() == Tables(map[], map[], map[], map[]) && signingKeys == map[]
    {
      clients, sessions, codes, refreshes, signingKeys := map[], map[], map[], map[], map[];
    }

    // ---------- Store statements ----------

    method InsertClient(id: string, row: Client, io: bool) returns (ok: bool)
      modifies this`clients
      ensures ok == (io && id !in old(clients))
      ensures clients == if ok then old(clients)[id := row] else old(clients)
    {
      ok := io && id !in clients;
      if ok { clients := clients[id := row]; }
    }

    method TouchClient(id: string, now: Instant, io: Io)
      modifies this`clients
      ensures Contents() == Touched(old(Contents()), io, id, now)
    {
      if io.touch && id in clients { clients := clients[id := clients[id].(lastUsedAt := Unix(now))]; }
    }

    method InsertSession(state: string, row: Session, io: bool) returns (ok: bool)
      modifies this`sessions
      ensures ok == (io && state !in old(sessions))
      ensures sessions == if ok then old(sessions)[state := row] else old(sessions)
    {
      ok := io && state !in sessions;
      if ok { sessions := sessions[state := row]; }
    }

    method DeleteSession(state: string, io: Io)
      modifies this`sessions
      ensures Contents() == WithoutSession(old(Contents()), io, state)
    {
      if io.delete { sessions := sessions - {state}; }
    }

    method InsertCode(code: string, row: Code, io: bool) returns (ok: bool)
      modifies this`codes
      ensures ok == (io && code !in old(codes))
      ensures codes == if ok then old(codes)[code := row] else old(codes)
    {
      ok := io && code !in codes;
      if ok { codes := codes[code := row]; }
    }

    method InsertRefresh(hash: string, row: Refresh, io: bool) returns (ok: bool)
      modifies this`refreshes
      ensures ok == (io && hash !in old(refreshes))
      ensures refreshes == if ok then old(refreshes)[hash := row] else old(refreshes)
    {
      ok := io && hash !in refreshes;
      if ok { refreshes := refreshes[hash := row]; }
    }

    method DeleteExpiredSessions(now: Instant, ok: bool)
      modifies this`sessions
      ensures Contents() == Cleaned(old(Contents()), ok, now, CleanSessions)
    {
      if ok { sessions := map k | k in sessions && !Gone(sessions[k].expiresAt, now) :: sessions[k]; }
    }

    method DeleteExpiredCodes(now: Instant, ok: bool)
      modifies this`codes
      ensures Contents() == Cleaned(old(Contents()), ok, now, CleanCodes)
    {
      if ok { codes := map k | k in codes && !Gone(codes[k].expiresAt, now) :: codes[k]; }
    }

    method DeleteExpiredRefreshes(now: Instant, ok: bool)
      modifies this`refreshes
      ensures Contents() == Cleaned(old(Contents()), ok, now, CleanRefreshes)
    {
      if ok { refreshes := map k | k in refreshes && !Gone(refreshes[k].expiresAt, now) :: refreshes[k]; }
    }

    method DeleteStaleClients(now: Instant, ok: bool, olderThan: Duration)
      modifies this`clients
      ensures Contents() == Cleaned(old(Contents()), ok, now, CleanClients(olderThan))
    {
      var cutoff := Unix(now - olderThan);
      if ok { clients := map k | k in clients && StaleSince(clients[k]) >= cutoff :: clients[k]; }
    }

    method DeleteExpiredSigningKeys(now: Instant, ok: bool)
      modifies this`signingKeys
      ensures signingKeys == if ok then KP.Cleaned(old(signingKeys), now) else old(signingKeys)
    {
      if ok { signingKeys := map kid | kid in signingKeys && !KP.Expired(signingKeys[kid], now) :: signingKeys[kid]; }
    }

    /** One janitor tick: five sweeps in this order, each reading the clock for itself and free to fail
        on its own. */
    method Tick(now1: Instant, now2: Instant, now3: Instant, now4: Instant, now5: Instant, clientTTL: Duration,
                ok1: bool, ok2: bool, ok3: bool, ok4: bool, ok5: bool)
      modifies this
      ensures Contents() ==
        Cleaned(Cleaned(Cleaned(Cleaned(old(Contents()), ok1, now1, CleanSessions), ok2, now2, CleanCodes),
                        ok3, now3, CleanRefreshes), ok5, now5, CleanClients(clientTTL))
      ensures signingKeys == if ok4 then KP.Cleaned(old(signingKeys), now4) else old(signingKeys)
    {
      DeleteExpiredSessions(now1, ok1);
      DeleteExpiredCodes(now2, ok2);
      DeleteExpiredRefreshes(now3, ok3);
      DeleteExpiredSigningKeys(now4, ok4);
      DeleteStaleClients(now5, ok5, clientTTL);
    }

    // ---------- Registration and authorization ----------

    method Register(env: Env, now: Instant, op: Op) returns (r: Response)
      requires op.Register?
      modifies this`clients
      ensures Outcome(Contents(), r) == HandleRegister(env, old(Contents()), now, op)
    {
      if |op.redirectURIs| == 0 { return Error(400, InvalidRedirectURI); }
      var valid := ValidateAll(env, op.redirectURIs);
      if !valid { return Error(400, InvalidRedirectURI); }
      var row := Client(env.hash(op.secret), op.redirectURIs, Unix(now), Unix(now));
      var ok := InsertClient(op.clientID, row, op.io.insert);
      if !ok { return Error(500, ServerError); }
      return Created(op.clientID, op.secret);
    }

    method Authorize(env: Env, now: Instant, op: Op) returns (r: Response)
      requires op.Authorize?
      modifies this`clients, this`sessions
      ensures Outcome(Contents(), r) == HandleAuthorize(env, old(Contents()), now, op)
    {
      if op.responseType != "code" { return Error(400, UnsupportedResponseType); }
      if op.clientID == "" || op.redirectURI == "" || op.codeChallenge == "" { return Error(400, InvalidRequest); }
      if op.challengeMethod != "S256" { return Error(400, InvalidRequest); }
      if !op.io.client { return Error(500, ServerError); }
      if op.clientID !in clients { return Error(401, InvalidClient); }
      var client := clients[op.clientID];
      TouchClient(op.clientID, now, op.io);
      var registered := ContainsString(client.redirectURIs, op.redirectURI);
      if !registered { return Error(400, InvalidRequest); }
      if !op.discovered { return Error(502, ServerError); }
      if op.upstreamState.None? { return Error(500, ServerError); }
      var scope := op.scope;
      if scope == "" { scope := env.scopes; }
      var row := Session(op.clientID, op.redirectURI, op.codeChallenge, op.challengeMethod, scope, env.resource,
                         op.state, Unix(now + Seconds(600)));
      var ok := InsertSession(op.upstreamState.value, row, op.io.insert);
      if !ok { return Error(500, ServerError); }
      if !op.endpointParses { return Error(500, ServerError); }
      return RedirectUpstream(op.upstreamState.value);
    }

    /** Session to code. The session row goes only after the code row is stored. */
    method Callback(env: Env, now: Instant, op: Op) returns (r: Response)
      requires op.Callback?
      modifies this`sessions, this`codes
      ensures Outcome(Contents(), r) == HandleCallback(env, old(Contents()), now, op)
    {
      if op.upstreamError != "" {
        if op.state != "" && op.io.lookup && op.state in sessions {
          var sess := sessions[op.state];
          DeleteSession(op.state, op.io);
          if env.parses(sess.redirectURI) {
            return RedirectWithError(sess.redirectURI, op.upstreamError, sess.originalState);
          }
        }
        return Error(400, FromUpstream(op.upstreamError));
      }
      if op.code == "" || op.state == "" { return Error(400, InvalidRequest); }
      if !op.io.lookup { return Error(500, ServerError); }
      if op.state !in sessions { return Error(400, InvalidRequest); }
      var sess := sessions[op.state];
      if After(now, sess.expiresAt) {
        DeleteSession(op.state, op.io);
        return Error(400, InvalidRequest);
      }
      if !op.call.Answered? { return Error(502, ServerError); }
      var up := op.call.answer;
      var sub := Tokens.TextOf(up.identity, "sub");
      if sub == "" { sub := "unknown"; }
      var claims := KeepAllowed(up.identity);
      var enc: Bytes := [];
      if up.refreshToken != [] {
        var sealed := Sealed(env, op.nonce, up.refreshToken);
        if sealed.None? { return Error(500, ServerError); }
        enc := sealed.value;
      }
      if op.localCode.None? { return Error(500, ServerError); }
      var row := Code(sess.clientID, sess.resource, sub, claims, enc, sess.scopes, sess.redirectURI,
                      sess.codeChallenge, sess.challengeMethod, Unix(now + op.elapsed + Seconds(60)));
      var ok := InsertCode(op.localCode.value, row, op.io.insert);
      if !ok { return Error(500, ServerError); }
      DeleteSession(op.state, op.io);
      if !env.parses(sess.redirectURI) { return Error(500, ServerError); }
      return RedirectWithCode(sess.redirectURI, op.localCode.value, sess.originalState);
    }

    // ---------- Token endpoint ----------

    /** Client authentication, as the token endpoint does it: the client is touched before its secret is checked. */
    method Identify(env: Env, now: Instant, io: Io, creds: Credentials, touch: bool) returns (who: Result<string, Response>)
      modifies this`clients
      ensures who == Authenticate(env, old(Contents()), io, creds)
      ensures Contents() == if touch then TouchedBy(old(Contents()), io, creds, now) else old(Contents())
    {
      var id, secret := creds.formID, creds.formSecret;
      if id == "" {
        if creds.basic.None? || creds.basic.value.0 == "" { return Err(Error(401, InvalidClient)); }
        id, secret := creds.basic.value.0, creds.basic.value.1;
      }
      if !io.client { return Err(Error(500, ServerError)); }
      if id !in clients { return Err(Error(401, InvalidClient)); }
      var client := clients[id];
      if touch { TouchClient(id, now, io); }
      if client.secretHash != "" {
        if secret == "" { return Err(Error(401, InvalidClient)); }
        if env.hash(secret) != client.secretHash { return Err(Error(401, InvalidClient)); }
      }
      return Ok(id);
    }

    method ExchangeCode(env: Env, now: Instant, op: Op) returns (r: Response)
      requires op.ExchangeCode?
      modifies this`clients, this`codes, this`refreshes
      ensures Outcome(Contents(), r) == HandleToken(env, old(Contents()), now, op)
    {
      var who := Identify(env, now, op.io, op.creds, true);
      if who.Err? { return who.error; }
      if op.code == "" || op.redirectURI == "" || op.verifier == "" { return Error(400, InvalidRequest); }
      if !op.io.lookup { return Error(500, ServerError); }
      if op.code !in codes { return Error(400, InvalidGrant); }
      var row := codes[op.code];
      if op.io.delete { codes := codes - {op.code}; }
      if row.clientID != who.value { return Error(400, InvalidGrant); }
      if row.redirectURI != op.redirectURI { return Error(400, InvalidGrant); }
      if After(now, row.expiresAt) { return Error(400, InvalidGrant); }
      if row.challengeMethod != "S256" { return Error(400, InvalidGrant); }
      if env.s256(op.verifier) != row.codeChallenge { return Error(400, InvalidGrant); }
      if !op.minted { return Error(500, ServerError); }
      if op.refresh.None? { return Error(500, ServerError); }
      var next := Refresh(row.sub, row.resource, row.clientID, row.claims, row.upstreamEnc, row.scopes,
                          Unix(now + env.refreshTTL));
      var ok := InsertRefresh(env.hash(op.refresh.value), next, op.io.insert);
      if !ok { return Error(500, ServerError); }
      return Granted(CodeGrantee(row), op.refresh.value, row.scopes);
    }

    method ExchangeRefresh(env: Env, now: Instant, op: Op) returns (r: Response)
      requires op.ExchangeRefresh?
      modifies this`clients, this`refreshes
      ensures Outcome(Contents(), r) == HandleToken(env, old(Contents()), now, op)
    {
      var who := Identify(env, now, op.io, op.creds, true);
      if who.Err? { return who.error; }
      if op.token == "" { return Error(400, InvalidRequest); }
      if !op.io.lookup { return Error(500, ServerError); }
      var hash := env.hash(op.token);
      if hash !in refreshes { return Error(400, InvalidGrant); }
      var row := refreshes[hash];
      if op.io.delete { refreshes := refreshes - {hash}; }
      if row.clientID != who.value { return Error(400, InvalidGrant); }
      if After(now, row.expiresAt) { return Error(400, InvalidGrant); }
      var refreshed := RefreshUpstream(env, row.upstreamEnc, op.call, op.nonce);
      if refreshed.None? { return Error(400, InvalidGrant); }
      if !op.minted { return Error(500, ServerError); }
      if op.refresh.None? { return Error(500, ServerError); }
      var next := Refresh(row.sub, row.resource, row.clientID, row.claims, refreshed.value, row.scopes,
                          Unix(now + op.elapsed + env.refreshTTL));
      var ok := InsertRefresh(env.hash(op.refresh.value), next, op.io.insert);
      if !ok { return Error(500, ServerError); }
      return Granted(RefreshGrantee(row), op.refresh.value, row.scopes);
    }

    // ---------- Revocation and introspection ----------

    method Revoke(env: Env, now: Instant, op: Op) returns (r: Response)
      requires op.Revoke?
      modifies this`clients, this`refreshes
      ensures Outcome(Contents(), r) == HandleRevoke(env, old(Contents()), op)
    {
      var who := Identify(env, now, op.io, op.creds, false);
      if who.Err? { return who.error; }
      if op.token == "" { return Error(400, InvalidRequest); }
      if op.hint == "access_token" { return Done; }
      if !op.io.lookup { return Done; }
      var hash := env.hash(op.token);
      if hash !in refreshes { return Done; }
      if refreshes[hash].clientID != who.value { return Done; }
      if op.io.delete { refreshes := refreshes - {hash}; }
      return Done;
    }

    method Introspect(env: Env, now: Instant, op: Op) returns (r: Response)
      requires op.Introspect?
      modifies this`clients
      ensures Outcome(Contents(), r) == HandleIntrospect(env, old(Contents()), now, op)
    {
      var who := Identify(env, now, op.io, op.creds, false);
      if who.Err? { return who.error; }
      if op.token == "" { return Inactive; }
      if op.hint != "access_token" {
        var hash := env.hash(op.token);
        if op.io.lookup && hash in refreshes {
          var row := refreshes[hash];
          if After(now, row.expiresAt) { return Inactive; }
          if row.clientID != who.value { return Inactive; }
          return ActiveRefresh(row.sub, row.clientID, row.scopes, row.expiresAt);
        }
        if op.hint == "refresh_token" { return Inactive; }
      }
      if op.jwt.None? { return Inactive; }
      if Tokens.TextOf(op.jwt.value, "client_id") != who.value { return Inactive; }
      var resp := Report(op.jwt.value);
      return ActiveAccess(resp);
    }
  }
}
