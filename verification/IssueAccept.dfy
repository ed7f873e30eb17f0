/** What the issuer mints, the plugin and the sidecar accept: each exactly in its own clock window. */
module IssueAccept {
  import opened Clock
  import opened Wrappers
  import opened Claims
  import opened Tokens
  import opened Plugin
  import opened Sidecar
  import JC = JwksCache

  ghost predicate Laws(c: Crypto, j: Json) {
    SignatureLaw(c) && JsonLaw(j)
  }

  /** What an access token says, whatever its extra claims: the nine reserved ones. */
  lemma ReservedClaims(publicBase: string, g: Grantee, jti: string, now: Instant, ttl: Duration)
    ensures var cs := AccessClaims(publicBase, g, jti, now, ttl);
      && TextOf(cs, "iss") == publicBase && TextOf(cs, "sub") == g.sub && TextOf(cs, "jti") == jti
      && TextOf(cs, "scope") == g.scopes && TextOf(cs, "client_id") == g.clientID
      && AudContains(Claim(cs, "aud"), publicBase + "/")
      && IntClaim(cs, "exp") == Some(Unix(now + ttl)) && IntClaim(cs, "nbf") == Some(Unix(now))
      && IntClaim(cs, "iat") == Some(Unix(now))
  {}

  /** The plugin's verification of a minted token yields its claims, given its key from the cache. */
  lemma PluginReads(c: Crypto, j: Json, kid: Kid, claims: Claims, getKey: string -> JC.Answer)
    requires Laws(c, j)
    requires getKey(kid) == JC.Answer.Ok(JC.PublicKey(kid, "EdDSA", JC.Ed25519(c.pub(kid))))
    ensures ParseAndVerifyJWT(c, j, Signed(c, j, kid, claims), getKey) == Result.Ok(claims)
  {
    TokenDecodes(c, j, kid, claims);
  }

  /** The claim checks, on a minted token and any request: the issuer's public base must be the
      request's, and then only the clock decides. */
  lemma CheckClaimsExact(minted: string, wanted: string, g: Grantee, jti: string, at: Instant, ttl: Duration, now: int)
    ensures CheckClaims(AccessClaims(minted, g, jti, at, ttl), wanted, now).None? <==>
      minted == wanted && Unix(at) - 60 <= now <= Unix(at + ttl) + 60
  {
    ReservedClaims(minted, g, jti, at, ttl);
  }

  lemma SameOriginCancels(a: string, b: string, c: string)
    ensures a + b == a + c <==> b == c
  {
    assert (a + b)[|a|..] == b && (a + c)[|a|..] == c;
  }

  /** Issue, then accept: a token minted for the public base of a request to the token endpoint is
      forwarded, on a non-OAuth path of the same origin and with no required scopes, exactly when the
      two requests have the same base path and nbf - 60 <= now <= exp + 60. */
  lemma PluginAcceptsExactly(c: Crypto, j: Json, pathPrefix: string, tokenRequest: Request, r: Request, kid: Kid,
                             g: Grantee, jti: string, at: Instant, ttl: Duration, now: Instant,
                             getKey: string -> JC.Answer)
    requires Laws(c, j)
    requires getKey(kid) == JC.Answer.Ok(JC.PublicKey(kid, "EdDSA", JC.Ed25519(c.pub(kid))))
    requires Origin(r) == Origin(tokenRequest) && MatchOAuthSuffix(r.path).None?
    ensures var token := Signed(c, j, kid, AccessClaims(PublicBase(pathPrefix, tokenRequest), g, jti, at, ttl));
      var d := Decide(c, j, pathPrefix, "", false, r, Some(token), getKey, now);
      && (d == ForwardToBackend(g.sub, g.scopes) || d == Unauthorized)
      && (d.ForwardToBackend? <==>
            BasePath(pathPrefix, tokenRequest.path) == BasePath(pathPrefix, r.path) &&
            Unix(at) - 60 <= Unix(now) <= Unix(at + ttl) + 60)
  {
    var minted, wanted := PublicBase(pathPrefix, tokenRequest), PublicBase(pathPrefix, r);
    var claims := AccessClaims(minted, g, jti, at, ttl);
    PluginReads(c, j, kid, claims, getKey);
    CheckClaimsExact(minted, wanted, g, jti, at, ttl, Unix(now));
    ReservedClaims(minted, g, jti, at, ttl);
    SameOriginCancels(Origin(r), BasePath(pathPrefix, tokenRequest.path), BasePath(pathPrefix, r.path));
    assert Fields("") == [];
    SignedIsNotEmpty(c, j, kid, claims);
  }

  lemma SignedIsNotEmpty(c: Crypto, j: Json, kid: Kid, claims: Claims)
    ensures Signed(c, j, kid, claims) != ""
  {}

  /** With an explicit prefix the base path is the same for every path, so only the clock decides. */
  lemma PluginAcceptsOnEveryPath(c: Crypto, j: Json, pathPrefix: string, tokenRequest: Request, r: Request, kid: Kid,
                                 g: Grantee, jti: string, at: Instant, ttl: Duration, now: Instant,
                                 getKey: string -> JC.Answer)
    requires Laws(c, j) && pathPrefix != "*"
    requires getKey(kid) == JC.Answer.Ok(JC.PublicKey(kid, "EdDSA", JC.Ed25519(c.pub(kid))))
    requires Origin(r) == Origin(tokenRequest) && MatchOAuthSuffix(r.path).None?
    ensures var token := Signed(c, j, kid, AccessClaims(PublicBase(pathPrefix, tokenRequest), g, jti, at, ttl));
      Decide(c, j, pathPrefix, "", false, r, Some(token), getKey, now) == ForwardToBackend(g.sub, g.scopes) <==>
      Unix(at) - 60 <= Unix(now) <= Unix(at + ttl) + 60
  {
    PluginAcceptsExactly(c, j, pathPrefix, tokenRequest, r, kid, g, jti, at, ttl, now, getKey);
  }

  /** In automatic mode a token from `prefix/oauth/token` is forwarded, inside its window, on exactly
      those paths that equal the prefix up to trailing slashes: a deeper path under the prefix refuses it. */
  lemma AutomaticPrefixBinds(c: Crypto, j: Json, prefix: string, tokenRequest: Request, r: Request, kid: Kid,
                             g: Grantee, jti: string, at: Instant, ttl: Duration, now: Instant,
                             getKey: string -> JC.Answer)
    requires Laws(c, j) && tokenRequest.path == prefix + "/oauth/token"
    requires getKey(kid) == JC.Answer.Ok(JC.PublicKey(kid, "EdDSA", JC.Ed25519(c.pub(kid))))
    requires Origin(r) == Origin(tokenRequest) && MatchOAuthSuffix(r.path).None?
    ensures var token := Signed(c, j, kid, AccessClaims(PublicBase("*", tokenRequest), g, jti, at, ttl));
      Decide(c, j, "*", "", false, r, Some(token), getKey, now) == ForwardToBackend(g.sub, g.scopes) <==>
      TrimRight(prefix) == TrimRight(r.path) && Unix(at) - 60 <= Unix(now) <= Unix(at + ttl) + 60
  {
    TokenPathMatches(prefix);
    PluginAcceptsExactly(c, j, "*", tokenRequest, r, kid, g, jti, at, ttl, now, getKey);
  }

  /** Routing in general: a match is one of the known suffixes with what precedes it, and a path matches
      exactly when it ends in one of them. */
  lemma RoutesExactly(path: string)
    ensures MatchOAuthSuffix(path).Some? ==>
      var m := MatchOAuthSuffix(path).value; m.suffix in OAUTH_SUFFIXES && path == m.prefix + m.suffix
    ensures MatchOAuthSuffix(path).Some? <==> exists s :: s in OAUTH_SUFFIXES && HasSuffix(path, s)
  {
    FirstOf(path, OAUTH_SUFFIXES);
  }

  lemma {:induction false} FirstOf(path: string, suffixes: seq<string>)
    ensures FirstSuffix(path, suffixes).Some? ==>
      var m := FirstSuffix(path, suffixes).value; m.suffix in suffixes && path == m.prefix + m.suffix
    ensures FirstSuffix(path, suffixes).Some? <==> exists s :: s in suffixes && HasSuffix(path, s)
  {
    if suffixes != [] {
      FirstOf(path, suffixes[1..]);
      assert suffixes == [suffixes[0]] + suffixes[1..];
    }
  }

  /** The token endpoint's path always matches its own suffix and leaves the prefix. */
  lemma TokenPathMatches(prefix: string)
    ensures MatchOAuthSuffix(prefix + "/oauth/token") == Some(Match("/oauth/token", prefix))
  {
    var path := prefix + "/oauth/token";
    var t := "/oauth/token";
    assert path[|path| - |t|..] == t && path[..|path| - |t|] == prefix;
    assert path[|path| - 1] == 'n' && path[|path| - 2] == 'e';
    DifferentEnd(path, OAUTH_SUFFIXES[0]);
    DifferentEnd(path, OAUTH_SUFFIXES[1]);
    DifferentEnd(path, OAUTH_SUFFIXES[2]);
    DifferentEnd(path, OAUTH_SUFFIXES[3]);
    var rest := OAUTH_SUFFIXES;
    SkipSuffix(path, rest);
    SkipSuffix(path, rest[1..]);
    SkipSuffix(path, rest[2..]);
    SkipSuffix(path, rest[3..]);
    assert rest[1..][1..] == rest[2..] && rest[2..][1..] == rest[3..] && rest[3..][1..] == rest[4..];
    assert rest[4..][0] == t;
  }

  lemma SkipSuffix(path: string, suffixes: seq<string>)
    requires suffixes != [] && !HasSuffix(path, suffixes[0])
    ensures FirstSuffix(path, suffixes) == FirstSuffix(path, suffixes[1..])
  {}

  lemma DifferentEnd(path: string, suffix: string)
    requires |path| > 1 && |suffix| > 1
    requires path[|path| - 1] != suffix[|suffix| - 1] || path[|path| - 2] != suffix[|suffix| - 2]
    ensures !HasSuffix(path, suffix)
  {
    if |suffix| <= |path| {
      assert path[|path| - |suffix|..][|suffix| - 1] == path[|path| - 1];
      assert path[|path| - |suffix|..][|suffix| - 2] == path[|path| - 2];
    }
  }

  // ---------- The sidecar's verifiers ----------

  lemma SidecarClock(publicBase: string, g: Grantee, jti: string, at: Instant, ttl: Duration, now: int)
    ensures var cs := AccessClaims(publicBase, g, jti, at, ttl);
      (PastExp(cs, now) <==> Unix(at + ttl) < now) && (BeforeNbf(cs, now) <==> now < Unix(at))
  {
    ReservedClaims(publicBase, g, jti, at, ttl);
  }

  lemma MintedIssuer(publicBase: string, g: Grantee, jti: string, at: Instant, ttl: Duration)
    ensures Claim(AccessClaims(publicBase, g, jti, at, ttl), "iss") == Some(Str(publicBase))
  {}

  lemma SidecarReads(c: Crypto, j: Json, kid: Kid, claims: Claims, key: Kid -> Option<Bytes>)
    requires Laws(c, j) && key(kid) == Some(c.pub(kid))
    ensures VerifiedClaims(c, j, Signed(c, j, kid, claims), key) == Result.Ok(claims)
  {
    TokenDecodes(c, j, kid, claims);
  }

  /** Introspection accepts a minted token exactly for nbf <= now <= exp, and returns its claims. */
  lemma SidecarAcceptsExactly(c: Crypto, j: Json, publicBase: string, kid: Kid, g: Grantee, jti: string,
                              at: Instant, ttl: Duration, keys: Published, now: int)
    requires Laws(c, j) && kid in keys && keys[kid] == c.pub(kid)
    ensures var claims := AccessClaims(publicBase, g, jti, at, ttl);
      var r := VerifyAccessJWT(c, j, Signed(c, j, kid, claims), keys, publicBase, now);
      (r.Ok? <==> Unix(at) <= now <= Unix(at + ttl)) && (r.Ok? ==> r.value == claims)
  {
    var claims := AccessClaims(publicBase, g, jti, at, ttl);
    SidecarReads(c, j, kid, claims, k => Lookup(keys, k));
    SidecarClock(publicBase, g, jti, at, ttl, now);
    ReservedClaims(publicBase, g, jti, at, ttl);
  }

  /** The two verifiers agree up to the plugin's skew: introspection accepts a minted token at a
      second exactly when the plugin's claim checks pass both a minute before and a minute after. */
  lemma VerifiersAgree(c: Crypto, j: Json, publicBase: string, kid: Kid, g: Grantee, jti: string,
                       at: Instant, ttl: Duration, keys: Published, now: int)
    requires Laws(c, j) && kid in keys && keys[kid] == c.pub(kid)
    ensures var claims := AccessClaims(publicBase, g, jti, at, ttl);
      VerifyAccessJWT(c, j, Signed(c, j, kid, claims), keys, publicBase, now).Ok? <==>
        CheckClaims(claims, publicBase, now - 60).None? && CheckClaims(claims, publicBase, now + 60).None?
  {
    SidecarAcceptsExactly(c, j, publicBase, kid, g, jti, at, ttl, keys, now);
    CheckClaimsExact(publicBase, publicBase, g, jti, at, ttl, now - 60);
    CheckClaimsExact(publicBase, publicBase, g, jti, at, ttl, now + 60);
  }

  /** Userinfo on a minted token: inside nbf <= now <= exp it answers exactly the callback-filtered
      upstream claims plus the subject. */
  lemma UserinfoReturnsIdentity(c: Crypto, j: Json, publicBase: string, kid: Kid, g: Grantee, upstream: Claims,
                                jti: string, at: Instant, ttl: Duration, keys: Published, active: Option<Kid>, now: int)
    requires Laws(c, j) && kid != "" && kid in keys && keys[kid] == c.pub(kid)
    requires g.extra == Only(upstream, ALLOWED)
    ensures var token := Signed(c, j, kid, AccessClaims(publicBase, g, jti, at, ttl));
      var r := UserinfoAnswer(c, j, token, keys, active, publicBase, now);
      && (r.Ok? <==> Unix(at) <= now <= Unix(at + ttl))
      && (r.Ok? ==> r.value == Only(upstream, ALLOWED)["sub" := Str(g.sub)])
  {
    var base := Base(publicBase, g, jti, Unix(at), Unix(at + ttl));
    SidecarReads(c, j, kid, AccessClaims(publicBase, g, jti, at, ttl), k => UserinfoKey(keys, active, k));
    SidecarClock(publicBase, g, jti, at, ttl, now);
    MintedIssuer(publicBase, g, jti, at, ttl);
    ProfileOfMerged(base, upstream);
  }
}
