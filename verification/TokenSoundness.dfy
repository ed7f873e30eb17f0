/** Only genuine tokens pass: whatever the plugin forwards, and whatever the sidecar's verifiers accept,
    carries a signature by the key its header names. */
module TokenSoundness {
  import opened Clock
  import opened Wrappers
  import opened Base64Url
  import opened Claims
  import opened Tokens
  import opened Plugin
  import opened Sidecar
  import JC = JwksCache
  import KP = KeyProtocol
  import KI = KeyInvariant
  import CP = CacheProtocol
  import EndToEnd

  // ---------- What a compact token says ----------

  /** Three parts, of which the first and second decode to these claim sets and the third to this signature. */
  ghost predicate Reads(j: Json, text: string, header: Claims, claims: Claims, sig: Bytes) {
    var parts := Split(text);
    && |parts| == 3
    && Decode(parts[0]).Some? && j.unmarshal(Decode(parts[0]).value) == Some(header)
    && Decode(parts[1]).Some? && j.unmarshal(Decode(parts[1]).value) == Some(claims)
    && Decode(parts[2]) == Some(sig)
  }

  /** The text the signature is over. */
  function Input(text: string): string
    requires |Split(text)| == 3
  {
    Split(text)[0] + "." + Split(text)[1]
  }

  /** A signature that verifies under this key, by the algorithm of the key. */
  predicate Verifies(c: Crypto, key: JC.KeyMaterial, header: Claims, input: string, sig: Bytes) {
    match key
    case Ed25519(pub) => TextOf(header, "alg") == "EdDSA" && c.verifyEd25519(pub, input, sig)
    case Rsa(n, e) => TextOf(header, "alg") == "RS256" && c.verifyRsa(n, e, input, sig)
  }

  // ---------- The plugin ----------

  /** What `ParseAndVerifyJWT` accepts, exactly: the claims of a readable token whose signature verifies
      under the key the cache answers for the kid in its header. */
  lemma ParsedIsVerified(c: Crypto, j: Json, token: string, getKey: string -> JC.Answer, claims: Claims)
    ensures ParseAndVerifyJWT(c, j, token, getKey) == Result.Ok(claims) <==>
      exists header, sig ::
        Reads(j, token, header, claims, sig) && getKey(TextOf(header, "kid")).Ok? &&
        Verifies(c, getKey(TextOf(header, "kid")).value.key, header, Input(token), sig)
  {
    var parts := Split(token);
    if ParseAndVerifyJWT(c, j, token, getKey) == Result.Ok(claims) {
      var header, sig := j.unmarshal(Decode(parts[0]).value).value, Decode(parts[2]).value;
      assert Reads(j, token, header, claims, sig);
    }
    if header, sig :|
        Reads(j, token, header, claims, sig) && getKey(TextOf(header, "kid")).Ok? &&
        Verifies(c, getKey(TextOf(header, "kid")).value.key, header, Input(token), sig) {
      assert ParseJWTHeader(j, parts[0]) == Result.Ok((TextOf(header, "alg"), TextOf(header, "kid")));
    }
  }

  /** The claim checks on arbitrary claims: issuer and audience are this resource's, and the clock is at
      most 60 s after a numeric `exp` and at most 60 s before `nbf`, if that is numeric. */
  ghost predicate ForThisResource(claims: Claims, publicBase: string, now: int) {
    && TextOf(claims, "iss") == publicBase
    && (AudContains(Claim(claims, "aud"), publicBase) || AudContains(Claim(claims, "aud"), publicBase + "/"))
    && "exp" in claims && claims["exp"].Num? && now <= Truncated(claims["exp"]) + 60
    && ("nbf" in claims && claims["nbf"].Num? ==> Truncated(claims["nbf"]) - 60 <= now)
  }

  /** A request is forwarded to the backend exactly when it is no preflight, not for an OAuth endpoint, and
      brings a token that reads, verifies under the key answered for its kid, is for this resource now, and
      grants every required scope; it is forwarded as the subject and scope of that token's claims. */
  lemma ForwardsExactlyVerified(c: Crypto, j: Json, pathPrefix: string, required: string, options: bool, r: Request,
                                bearer: Option<string>, getKey: string -> JC.Answer, now: Instant, sub: string, scope: string)
    ensures Decide(c, j, pathPrefix, required, options, r, bearer, getKey, now) == ForwardToBackend(sub, scope) <==>
      && !options && MatchOAuthSuffix(r.path).None? && bearer.Some? && bearer.value != ""
      && exists header, claims, sig ::
           && Reads(j, bearer.value, header, claims, sig) && getKey(TextOf(header, "kid")).Ok?
           && Verifies(c, getKey(TextOf(header, "kid")).value.key, header, Input(bearer.value), sig)
           && ForThisResource(claims, PublicBase(pathPrefix, r), Unix(now))
           && Grants(TextOf(claims, "scope"), required)
           && sub == TextOf(claims, "sub") && scope == TextOf(claims, "scope")
  {
    if bearer.Some? {
      var verified := ParseAndVerifyJWT(c, j, bearer.value, getKey);
      if verified.Ok? { ParsedIsVerified(c, j, bearer.value, getKey, verified.value); }
      forall header, claims, sig |
        Reads(j, bearer.value, header, claims, sig) && getKey(TextOf(header, "kid")).Ok? &&
        Verifies(c, getKey(TextOf(header, "kid")).value.key, header, Input(bearer.value), sig)
        ensures verified == Result.Ok(claims)
      {
        ParsedIsVerified(c, j, bearer.value, getKey, claims);
      }
    }
  }

  // ---------- Over the runs of sidecar and plugin ----------

  /** A signature that verifies under a key's public half was made with that key. */
  ghost predicate OnlySigned(c: Crypto) {
    forall kid, m, s :: c.verifyEd25519(c.pub(kid), m, s) ==> s == c.sign(kid, m)
  }

  /** Whatever the fetch returned, a key that is handed out was once in the table, and is the right one. */
  lemma AnswersAreKnown(kc: KP.Config, pub: CP.PublicHalf, latency: Duration, w: CP.World, ttl: Duration, kid: string,
                        response: Option<seq<JC.JwkEntry>>)
    requires forall k :: |pub(k)| == 32
    requires CP.WorldOk(kc, pub, latency, w) && CP.Known(w)
    requires response.Some? ==> CP.Publishes(pub, response.value, w.sidecar.table)
    ensures var a := EndToEnd.GetAnswer(ttl, w.cache, kid, w.sidecar.clock, response);
      a.Ok? ==> a.value == CP.KeyOf(pub, kid) && kid in w.sidecar.used
  {
    if response.Some? { CP.ParseOfPublished(pub, response.value, w.sidecar.table); }
  }

  lemma ReachedIsKnown(kc: KP.Config, pub: CP.PublicHalf, latency: Duration, start: Instant, steps: seq<KP.Step>,
                       ms: seq<CP.Move>, w: CP.World)
    requires (forall k :: |pub(k)| == 32) && EndToEnd.Reached(kc, pub, latency, start, steps, ms, w)
    ensures CP.WorldOk(kc, pub, latency, w) && CP.Known(w)
  {
    KI.RunKeepsInv(kc, KP.Initial(start), steps);
    CP.MovesKeep(kc, pub, latency, CP.Begin(KP.After(kc, KP.Initial(start), steps)), ms);
    CP.MovesKeepKnown(kc, pub, latency, CP.Begin(KP.After(kc, KP.Initial(start), steps)), ms);
  }

  /** The token's signature was made, over its first two parts, with the key of this kid. */
  ghost predicate SignedWith(c: Crypto, text: string, kid: Kid) {
    |Split(text)| == 3 && Decode(Split(text)[2]) == Some(c.sign(kid, Input(text)))
  }

  /** In every reachable state of sidecar and plugin, whether fetches succeed or fail: a request is forwarded
      only with a token signed by a key that has been in the sidecar's table. */
  lemma NothingUnsignedIsForwarded(c: Crypto, j: Json, kc: KP.Config, latency: Duration, start: Instant,
                                   steps: seq<KP.Step>, ms: seq<CP.Move>, w: CP.World, ttl: Duration,
                                   response: Option<seq<JC.JwkEntry>>, pathPrefix: string, required: string,
                                   options: bool, r: Request, bearer: Option<string>)
    requires OnlySigned(c) && forall k :: |c.pub(k)| == 32
    requires EndToEnd.Reached(kc, c.pub, latency, start, steps, ms, w)
    requires response.Some? ==> CP.Publishes(c.pub, response.value, w.sidecar.table)
    ensures var getKey := kid => EndToEnd.GetAnswer(ttl, w.cache, kid, w.sidecar.clock, response);
      Decide(c, j, pathPrefix, required, options, r, bearer, getKey, w.sidecar.clock).ForwardToBackend? ==>
        bearer.Some? && exists kid :: kid in w.sidecar.used && SignedWith(c, bearer.value, kid)
  {
    var getKey := kid => EndToEnd.GetAnswer(ttl, w.cache, kid, w.sidecar.clock, response);
    ReachedIsKnown(kc, c.pub, latency, start, steps, ms, w);
    var d := Decide(c, j, pathPrefix, required, options, r, bearer, getKey, w.sidecar.clock);
    if d.ForwardToBackend? {
      ForwardsExactlyVerified(c, j, pathPrefix, required, options, r, bearer, getKey, w.sidecar.clock, d.sub, d.scope);
      var header, claims, sig :|
        Reads(j, bearer.value, header, claims, sig) && getKey(TextOf(header, "kid")).Ok? &&
        Verifies(c, getKey(TextOf(header, "kid")).value.key, header, Input(bearer.value), sig);
      var kid := TextOf(header, "kid");
      AnswersAreKnown(kc, c.pub, latency, w, ttl, kid, response);
      assert SignedWith(c, bearer.value, kid);
    }
  }

  // ---------- The sidecar ----------

  /** What both of the sidecar's verifiers accept, exactly. */
  lemma SidecarVerifiesExactly(c: Crypto, j: Json, token: string, key: Kid -> Option<Bytes>, claims: Claims)
    ensures VerifiedClaims(c, j, token, key) == Result.Ok(claims) <==>
      exists header, sig ::
        Reads(j, token, header, claims, sig) && TextOf(header, "alg") == "EdDSA" &&
        key(TextOf(header, "kid")).Some? && c.verifyEd25519(key(TextOf(header, "kid")).value, Input(token), sig)
  {
    var parts := Split(token);
    if VerifiedClaims(c, j, token, key) == Result.Ok(claims) {
      var header, sig := j.unmarshal(Decode(parts[0]).value).value, Decode(parts[2]).value;
      assert Reads(j, token, header, claims, sig);
    }
  }

  /** Introspection accepts exactly verified claims of this issuer and audience inside their strict window. */
  lemma IntrospectionAcceptsExactly(c: Crypto, j: Json, token: string, keys: Published, publicBase: string, now: int,
                                    claims: Claims)
    ensures VerifyAccessJWT(c, j, token, keys, publicBase, now) == Result.Ok(claims) <==>
      && VerifiedClaims(c, j, token, kid => Lookup(keys, kid)) == Result.Ok(claims)
      && TextOf(claims, "iss") == publicBase && AudContains(Claim(claims, "aud"), publicBase + "/")
      && ("exp" in claims && claims["exp"].Num? ==> now <= Truncated(claims["exp"]))
      && ("nbf" in claims && claims["nbf"].Num? ==> Truncated(claims["nbf"]) <= now)
  {}

  lemma VerifiedIsSigned(c: Crypto, j: Json, s: KP.State, token: string, key: Kid -> Option<Bytes>)
    requires OnlySigned(c) && VerifiedClaims(c, j, token, key).Ok?
    requires forall kid | key(kid).Some? :: exists k :: k in s.table && key(kid).value == c.pub(k)
    ensures exists k :: k in s.table && SignedWith(c, token, k)
  {
    var claims := VerifiedClaims(c, j, token, key).value;
    SidecarVerifiesExactly(c, j, token, key, claims);
    var header, sig :| Reads(j, token, header, claims, sig) && key(TextOf(header, "kid")).Some? &&
      c.verifyEd25519(key(TextOf(header, "kid")).value, Input(token), sig);
    var k :| k in s.table && key(TextOf(header, "kid")).value == c.pub(k);
    assert SignedWith(c, token, k);
  }

  /** Userinfo and introspection accept only tokens signed by a key now in the table; userinfo answers with
      nothing but the profile claims of such a token. */
  lemma NothingUnsignedIsAccepted(c: Crypto, j: Json, s: KP.State, token: string, active: Option<Kid>, publicBase: string,
                                  now: int)
    requires OnlySigned(c)
    ensures VerifyAccessJWT(c, j, token, EndToEnd.PublishedKeys(c, s), publicBase, now).Ok? ==>
      exists k :: k in s.table && SignedWith(c, token, k)
    ensures UserinfoAnswer(c, j, token, EndToEnd.PublishedKeys(c, s), active, publicBase, now).Ok? ==>
      exists k :: k in s.table && SignedWith(c, token, k)
  {
    var keys := EndToEnd.PublishedKeys(c, s);
    if VerifyAccessJWT(c, j, token, keys, publicBase, now).Ok? {
      VerifiedIsSigned(c, j, s, token, kid => Lookup(keys, kid));
    }
    if UserinfoAnswer(c, j, token, keys, active, publicBase, now).Ok? {
      VerifiedIsSigned(c, j, s, token, kid => UserinfoKey(keys, active, kid));
    }
  }
}
