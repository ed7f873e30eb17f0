/** The whole system at once: what a client experiences with a token from the token endpoint. */
module EndToEnd {
  import opened Clock
  import opened Wrappers
  import opened Claims
  import opened Tokens
  import opened Plugin
  import opened Sidecar
  import opened IssueAccept
  import JC = JwksCache
  import KP = KeyProtocol
  import KI = KeyInvariant
  import KT = KeyTheorems
  import CP = CacheProtocol
  import GT = GrantTypes
  import GS = GrantSpec
  import GR = GrantRuns
  import GO = GrantTrace
  import GrantOrigins

  // ---------- Plugin ----------

  /** `Get`, with a fetch that takes no time. */
  function GetAnswer(ttl: Duration, cache: JC.Cache, kid: string, now: Instant, response: Option<seq<JC.JwkEntry>>): JC.Answer {
    match JC.FastPath(ttl, cache, kid, now)
    case Some(pk) => JC.Answer.Ok(pk)
    case None => JC.SlowPath(cache, kid, now, response, now).1
  }

  /** Whatever key `Get` answers is the right one. */
  lemma AnswersAreAuthentic(pub: CP.PublicHalf, t: KP.Table, ttl: Duration, cache: JC.Cache, kid: string, now: Instant,
                            body: seq<JC.JwkEntry>)
    requires forall k :: |pub(k)| == 32
    requires CP.Authentic(pub, cache.keys) && CP.Publishes(pub, body, t)
    ensures var a := GetAnswer(ttl, cache, kid, now, Some(body)); a.Err? || a == JC.Answer.Ok(CP.KeyOf(pub, kid))
  {
    CP.ParseOfPublished(pub, body, t);
  }

  /** A token whose key is not found is refused. */
  lemma NoKeyNoEntry(c: Crypto, j: Json, pathPrefix: string, r: Request, kid: Kid, claims: Claims,
                     getKey: string -> JC.Answer, now: Instant)
    requires Laws(c, j) && getKey(kid).Err?
    ensures !Decide(c, j, pathPrefix, "", false, r, Some(Signed(c, j, kid, claims)), getKey, now).ForwardToBackend?
  {
    TokenDecodes(c, j, kid, claims);
  }

  /** A world some run of the sidecar, followed by moves of sidecar and plugin, leads to. */
  ghost predicate Reached(kc: KP.Config, pub: CP.PublicHalf, latency: Duration, start: Instant,
                          steps: seq<KP.Step>, ms: seq<CP.Move>, w: CP.World) {
    && KP.Runs(kc, KP.Initial(start), steps)
    && CP.MovesRun(kc, pub, latency, CP.Begin(KP.After(kc, KP.Initial(start), steps)), ms)
    && w == CP.WorldAfter(kc, pub, latency, CP.Begin(KP.After(kc, KP.Initial(start), steps)), ms)
  }

  /** The token was signed at most 3539 s after the clock reading of the rotation that retired its key. */
  ghost predicate SignedInTime(s: KP.State, tok: KP.Token) {
    tok.kid in s.retiredAt ==> tok.signedAt - s.retiredAt[tok.kid] <= Seconds(3539)
  }

  lemma ReachedIsOk(kc: KP.Config, pub: CP.PublicHalf, latency: Duration, start: Instant,
                    steps: seq<KP.Step>, ms: seq<CP.Move>, w: CP.World)
    requires (forall k :: |pub(k)| == 32) && Reached(kc, pub, latency, start, steps, ms, w)
    ensures CP.WorldOk(kc, pub, latency, w)
  {
    KI.RunKeepsInv(kc, KP.Initial(start), steps);
    CP.MovesKeep(kc, pub, latency, CP.Begin(KP.After(kc, KP.Initial(start), steps)), ms);
  }

  lemma KeyIsFound(kc: KP.Config, pub: CP.PublicHalf, latency: Duration, start: Instant, steps: seq<KP.Step>,
                   ms: seq<CP.Move>, w: CP.World, tok: KP.Token, ttl: Duration, body: seq<JC.JwkEntry>)
    requires (forall k :: |pub(k)| == 32) && Reached(kc, pub, latency, start, steps, ms, w)
    requires kc.overlap >= Seconds(6) + latency && CP.Publishes(pub, body, w.sidecar.table)
    requires tok in w.sidecar.tokens && SignedInTime(w.sidecar, tok) && KT.InWindow(kc, tok, w.sidecar.clock)
    ensures GetAnswer(ttl, w.cache, tok.kid, w.sidecar.clock, Some(body)) == JC.Answer.Ok(CP.KeyOf(pub, tok.kid))
  {
    ReachedIsOk(kc, pub, latency, start, steps, ms, w);
    CP.GetFindsTheKey(kc, pub, latency, start, steps, ms, tok, Some(body));
  }

  /** End to end: take any interleaving of boots, rotations, janitor, mints and fetches within one
      sidecar lifetime, and any token signed in it for a grantee. If the overlap exceeds the guard, the
      fetch latency and a second, and the JWKS endpoint answers, the plugin forwards the token on every
      path that is not an OAuth endpoint, as that grantee, exactly until 60 s after `exp`. */
  lemma TokenWorksUntilItExpires(c: Crypto, j: Json, kc: KP.Config, latency: Duration, start: Instant,
                                 steps: seq<KP.Step>, ms: seq<CP.Move>, w: CP.World, tok: KP.Token, g: Grantee, jti: string,
                                 pathPrefix: string, tokenRequest: Request, r: Request, ttl: Duration, body: seq<JC.JwkEntry>)
    requires Laws(c, j) && forall k :: |c.pub(k)| == 32
    requires Reached(kc, c.pub, latency, start, steps, ms, w) && kc.overlap >= Seconds(6) + latency
    requires tok in w.sidecar.tokens && SignedInTime(w.sidecar, tok) && CP.Publishes(c.pub, body, w.sidecar.table)
    requires pathPrefix != "*" && Origin(r) == Origin(tokenRequest) && MatchOAuthSuffix(r.path).None?
    ensures var now := w.sidecar.clock;
      var getKey := kid => GetAnswer(ttl, w.cache, kid, now, Some(body));
      var text := Signed(c, j, tok.kid, AccessClaims(PublicBase(pathPrefix, tokenRequest), g, jti, tok.signedAt, kc.accessTTL));
      Decide(c, j, pathPrefix, "", false, r, Some(text), getKey, now) == ForwardToBackend(g.sub, g.scopes) <==>
      Unix(now) <= Unix(tok.signedAt + kc.accessTTL) + 60
  {
    var now := w.sidecar.clock;
    var getKey := kid => GetAnswer(ttl, w.cache, kid, now, Some(body));
    var claims := AccessClaims(PublicBase(pathPrefix, tokenRequest), g, jti, tok.signedAt, kc.accessTTL);
    ReachedIsOk(kc, c.pub, latency, start, steps, ms, w);
    UnixMonotone(tok.signedAt, now);
    AnswersAreAuthentic(c.pub, w.sidecar.table, ttl, w.cache, tok.kid, now, body);
    if KT.InWindow(kc, tok, now) {
      KeyIsFound(kc, c.pub, latency, start, steps, ms, w, tok, ttl, body);
    }
    if getKey(tok.kid).Err? {
      NoKeyNoEntry(c, j, pathPrefix, r, tok.kid, claims, getKey, now);
    } else {
      PluginAcceptsOnEveryPath(c, j, pathPrefix, tokenRequest, r, tok.kid, g, jti, tok.signedAt, kc.accessTTL, now, getKey);
    }
  }

  // ---------- The sidecar's own verifiers ----------

  /** What the sidecar verifies against: the public half of every key in its table. */
  function PublishedKeys(c: Crypto, s: KP.State): Published {
    map kid | kid in s.table :: c.pub(kid)
  }

  /** A token signed in a run of the key protocol that leads to `s`. */
  ghost predicate SignedInRun(kc: KP.Config, start: Instant, steps: seq<KP.Step>, s: KP.State, tok: KP.Token) {
    && KP.Runs(kc, KP.Initial(start), steps) && s == KP.After(kc, KP.Initial(start), steps)
    && tok in s.tokens && SignedInTime(s, tok)
  }

  /** Until it expires, a signed token has its key in the table, and it was signed in the past. */
  lemma KeyIsPublished(kc: KP.Config, start: Instant, steps: seq<KP.Step>, s: KP.State, tok: KP.Token)
    requires SignedInRun(kc, start, steps, s, tok)
    ensures Unix(tok.signedAt) <= Unix(s.clock)
    ensures Unix(s.clock) <= Unix(tok.signedAt + kc.accessTTL) ==> tok.kid in s.table
  {
    KI.RunKeepsInv(kc, KP.Initial(start), steps);
    UnixMonotone(tok.signedAt, s.clock);
    if Unix(s.clock) <= Unix(tok.signedAt + kc.accessTTL) {
      KT.KeyContinuity(kc, start, steps, tok);
    }
  }

  /** Without its key a token fails in both of the sidecar's verifiers. */
  lemma NoKeyNoClaims(c: Crypto, j: Json, kid: Kid, claims: Claims, key: Kid -> Option<Bytes>)
    requires Laws(c, j) && key(kid).None?
    ensures VerifiedClaims(c, j, Signed(c, j, kid, claims), key).Err?
  {
    TokenDecodes(c, j, kid, claims);
  }

  /** The text of a signed token. */
  function TextOfToken(c: Crypto, j: Json, kc: KP.Config, tok: KP.Token, publicBase: string, g: Grantee, jti: string): string {
    Signed(c, j, tok.kid, AccessClaims(publicBase, g, jti, tok.signedAt, kc.accessTTL))
  }

  lemma UserinfoUntilExpiry(kc: KP.Config, start: Instant, steps: seq<KP.Step>, s: KP.State, tok: KP.Token,
                            c: Crypto, j: Json, publicBase: string, g: Grantee, upstream: Claims, jti: string,
                            active: Option<Kid>)
    requires Laws(c, j) && SignedInRun(kc, start, steps, s, tok) && tok.kid != ""
    requires g.extra == Only(upstream, ALLOWED)
    ensures var r := UserinfoAnswer(c, j, TextOfToken(c, j, kc, tok, publicBase, g, jti), PublishedKeys(c, s), active,
                                    publicBase, Unix(s.clock));
      && (r.Ok? <==> Unix(s.clock) <= Unix(tok.signedAt + kc.accessTTL))
      && (r.Ok? ==> r.value == Only(upstream, ALLOWED)["sub" := Str(g.sub)])
  {
    var keys := PublishedKeys(c, s);
    KeyIsPublished(kc, start, steps, s, tok);
    if tok.kid in keys {
      UserinfoReturnsIdentity(c, j, publicBase, tok.kid, g, upstream, jti, tok.signedAt, kc.accessTTL, keys, active,
                              Unix(s.clock));
    } else {
      NoKeyNoClaims(c, j, tok.kid, AccessClaims(publicBase, g, jti, tok.signedAt, kc.accessTTL),
                    kid => UserinfoKey(keys, active, kid));
    }
  }

  // ---------- Identity ----------

  /** The identity round trip: take any run of the authorization server, whichever statements failed, and
      any run of the key protocol. For every grant, at code redemption or after any number of refreshes,
      userinfo on the token signed for it answers, exactly until `exp`, with the allowed claims of the
      upstream identity that the callback issuing the originating code received, plus its subject. */
  lemma IdentityRoundTrip(env: GT.Env, clock: Instant, evs: seq<GR.Event>, s: GR.State, n: nat,
                          kc: KP.Config, start: Instant, steps: seq<KP.Step>, ks: KP.State, tok: KP.Token,
                          c: Crypto, j: Json, publicBase: string, jti: string, active: Option<Kid>)
    requires GO.Reaches(env, clock, evs, s) && n < |s.h.grants|
    requires Laws(c, j) && SignedInRun(kc, start, steps, ks, tok) && tok.kid != ""
    ensures var g := s.h.grants[n];
      GrantOrigins.IssuedInRun(evs, s, g.origin.code) &&
      var identity := s.h.issued[g.origin.code].identity;
      var r := UserinfoAnswer(c, j, TextOfToken(c, j, kc, tok, publicBase, g.access, jti), PublishedKeys(c, ks), active,
                              publicBase, Unix(ks.clock));
      && (r.Ok? <==> Unix(ks.clock) <= Unix(tok.signedAt + kc.accessTTL))
      && (r.Ok? ==> r.value == Only(identity, ALLOWED)["sub" := Str(GS.SubOf(identity))])
  {
    GrantOrigins.RefreshChainConstancy(env, clock, evs, s);
    var g := s.h.grants[n];
    assert GrantOrigins.IssuedInRun(evs, s, g.origin.code);
    UserinfoUntilExpiry(kc, start, steps, ks, tok, c, j, publicBase, g.access, s.h.issued[g.origin.code].identity, jti, active);
  }

  // ---------- Introspection ----------

  /** What verifying a text as an access token hands to introspection. */
  function AsAccessToken(c: Crypto, j: Json, token: string, keys: Published, publicBase: string, now: int): Option<Claims> {
    match VerifyAccessJWT(c, j, token, keys, publicBase, now)
    case Ok(claims) => Some(claims)
    case Err(_) => None
  }

  lemma VerifiedUntilExpiry(kc: KP.Config, start: Instant, steps: seq<KP.Step>, s: KP.State, tok: KP.Token,
                            c: Crypto, j: Json, publicBase: string, g: Grantee, jti: string)
    requires Laws(c, j) && SignedInRun(kc, start, steps, s, tok)
    ensures AsAccessToken(c, j, TextOfToken(c, j, kc, tok, publicBase, g, jti), PublishedKeys(c, s), publicBase, Unix(s.clock))
      == if Unix(s.clock) <= Unix(tok.signedAt + kc.accessTTL)
         then Some(AccessClaims(publicBase, g, jti, tok.signedAt, kc.accessTTL)) else None
  {
    var keys := PublishedKeys(c, s);
    KeyIsPublished(kc, start, steps, s, tok);
    if tok.kid in keys {
      SidecarAcceptsExactly(c, j, publicBase, tok.kid, g, jti, tok.signedAt, kc.accessTTL, keys, Unix(s.clock));
    } else {
      NoKeyNoClaims(c, j, tok.kid, AccessClaims(publicBase, g, jti, tok.signedAt, kc.accessTTL), kid => Lookup(keys, kid));
    }
  }

  /** Introspection of a text that is no refresh token rests on what it verifies to. */
  lemma IntrospectsClaims(env: GT.Env, t: GT.Tables, now: Instant, op: GT.Op, client: string)
    requires op.Introspect? && op.hint != "refresh_token" && op.token != "" && env.hash(op.token) !in t.refreshes
    requires GS.Authenticate(env, t, op.io, op.creds) == Result.Ok(client)
    ensures GS.HandleIntrospect(env, t, now, op).r ==
      if op.jwt.Some? && TextOf(op.jwt.value, "client_id") == client
      then GT.ActiveAccess(Only(op.jwt.value, GS.REPORTED)) else GT.Inactive
  {}

  lemma MintedClient(c: Crypto, j: Json, kc: KP.Config, tok: KP.Token, publicBase: string, g: Grantee, jti: string)
    ensures TextOf(AccessClaims(publicBase, g, jti, tok.signedAt, kc.accessTTL), "client_id") == g.clientID
    ensures TextOfToken(c, j, kc, tok, publicBase, g, jti) != ""
  {
    ReservedClaims(publicBase, g, jti, tok.signedAt, kc.accessTTL);
    SignedIsNotEmpty(c, j, tok.kid, AccessClaims(publicBase, g, jti, tok.signedAt, kc.accessTTL));
  }

  lemma ReportOfMinted(publicBase: string, g: Grantee, jti: string, at: Instant, ttl: Duration)
    ensures Only(AccessClaims(publicBase, g, jti, at, ttl), GS.REPORTED)
      == Base(publicBase, g, jti, Unix(at), Unix(at + ttl)) - {"nbf"}
  {
    ReportedIsReserved(Base(publicBase, g, jti, Unix(at), Unix(at + ttl)), g.extra);
  }

  lemma MintedReport(c: Crypto, j: Json, kc: KP.Config, tok: KP.Token, publicBase: string, g: Grantee, jti: string)
    ensures var claims := AccessClaims(publicBase, g, jti, tok.signedAt, kc.accessTTL);
      && TextOf(claims, "client_id") == g.clientID && TextOfToken(c, j, kc, tok, publicBase, g, jti) != ""
      && Only(claims, GS.REPORTED) ==
           Base(publicBase, g, jti, Unix(tok.signedAt), Unix(tok.signedAt + kc.accessTTL)) - {"nbf"}
  {
    MintedClient(c, j, kc, tok, publicBase, g, jti);
    ReportOfMinted(publicBase, g, jti, tok.signedAt, kc.accessTTL);
  }

  /** Introspecting a signed access token, which is no refresh token: in every run of the key protocol the
      client it was minted for, and no other, sees it active, exactly until `exp`, and is told the reserved
      claims but nbf and none of the identity. */
  lemma IntrospectionOfMinted(env: GT.Env, t: GT.Tables, io: GT.Io, creds: GT.Credentials, hint: string, client: string,
                              kc: KP.Config, start: Instant, steps: seq<KP.Step>, s: KP.State, tok: KP.Token,
                              c: Crypto, j: Json, publicBase: string, g: Grantee, jti: string)
    requires Laws(c, j) && SignedInRun(kc, start, steps, s, tok) && hint != "refresh_token"
    requires env.hash(TextOfToken(c, j, kc, tok, publicBase, g, jti)) !in t.refreshes
    requires GS.Authenticate(env, t, io, creds) == Result.Ok(client)
    ensures var text := TextOfToken(c, j, kc, tok, publicBase, g, jti);
      var verified := AsAccessToken(c, j, text, PublishedKeys(c, s), publicBase, Unix(s.clock));
      GS.HandleIntrospect(env, t, s.clock, GT.Introspect(io, creds, text, hint, verified)).r ==
      if client == g.clientID && Unix(s.clock) <= Unix(tok.signedAt + kc.accessTTL)
      then GT.ActiveAccess(Base(publicBase, g, jti, Unix(tok.signedAt), Unix(tok.signedAt + kc.accessTTL)) - {"nbf"})
      else GT.Inactive
  {
    var text := TextOfToken(c, j, kc, tok, publicBase, g, jti);
    var verified := AsAccessToken(c, j, text, PublishedKeys(c, s), publicBase, Unix(s.clock));
    VerifiedUntilExpiry(kc, start, steps, s, tok, c, j, publicBase, g, jti);
    MintedReport(c, j, kc, tok, publicBase, g, jti);
    IntrospectsClaims(env, t, s.clock, GT.Introspect(io, creds, text, hint, verified), client);
  }

  lemma ReportedIsReserved(base: Claims, extra: Claims)
    requires base.Keys == RESERVED
    ensures Only(Merged(base, extra), GS.REPORTED) == base - {"nbf"}
  {
    assert GS.REPORTED == RESERVED - {"nbf"} by {
      var f := GS.FIELDS;
      assert f[0] == "sub" && f[1] == "client_id" && f[2] == "scope" && f[3] == "exp";
      assert f[4] == "iat" && f[5] == "iss" && f[6] == "jti";
    }
  }
}
