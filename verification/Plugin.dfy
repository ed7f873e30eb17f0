/** The plugin's decision on a request: routing, public base, token verification and claim checks. */
module Plugin {
  import opened Clock
  import opened Wrappers
  import opened Base64Url
  import opened Claims
  import opened Tokens
  import JC = JwksCache

  // ---------- Routing ----------

  const OAUTH_SUFFIXES: seq<string> := [
    "/.well-known/oauth-protected-resource",
    "/.well-known/oauth-authorization-server",
    "/.well-known/openid-configuration",
    "/oauth/authorize",
    "/oauth/token",
    "/oauth/register",
    "/oauth/callback",
    "/oauth/jwks.json"]

  predicate HasSuffix(path: string, suffix: string) {
    |suffix| <= |path| && path[|path| - |suffix|..] == suffix
  }

  datatype Match = Match(suffix: string, prefix: string)

  function FirstSuffix(path: string, suffixes: seq<string>): Option<Match> {
    if suffixes == [] then None
    else if HasSuffix(path, suffixes[0]) then Some(Match(suffixes[0], path[..|path| - |suffixes[0]|]))
    else FirstSuffix(path, suffixes[1..])
  }

  function MatchOAuthSuffix(path: string): Option<Match> {
    FirstSuffix(path, OAUTH_SUFFIXES)
  }

  /** `strings.TrimRight(s, "/")` */
  function TrimRight(s: string): string {
    if s != "" && s[|s| - 1] == '/' then TrimRight(s[..|s| - 1]) else s
  }

  /** The parts of a request the public base is built from. */
  datatype Request = Request(forwardedProto: string, forwardedHost: string, host: string, path: string)

  function Origin(r: Request): string {
    (if r.forwardedProto == "" then "https" else r.forwardedProto) + "://" +
    (if r.forwardedHost == "" then r.host else r.forwardedHost)
  }

  /** The path part of the public base: the configured prefix, or in automatic mode the request path
      without its OAuth suffix. */
  function BasePath(pathPrefix: string, path: string): string {
    if pathPrefix != "*" then TrimRight(pathPrefix)
    else
      match MatchOAuthSuffix(path)
      case Some(m) => TrimRight(m.prefix)
      case None => TrimRight(path)
  }

  function PublicBase(pathPrefix: string, r: Request): string {
    Origin(r) + BasePath(pathPrefix, r.path)
  }

  // ---------- Token verification ----------

  datatype Rejection =
    | Malformed | BadHeader | MissingAlg | AlgNone | UnsupportedAlg | KeyLookup | BadSignature | BadPayload
    | IssMismatch | AudMismatch | ExpMissing | ExpExpired | NbfFuture | MissingScope

  /** `parseJWTHeader`: the algorithm and the kid. */
  function ParseJWTHeader(j: Json, part: string): Result<(string, string), Rejection> {
    match Decode(part)
    case None => Err(BadHeader)
    case Some(bytes) =>
      match j.unmarshal(bytes)
      case None => Err(BadHeader)
      case Some(header) =>
        var alg := TextOf(header, "alg");
        if alg == "" then Err(MissingAlg)
        else if alg == "none" then Err(AlgNone)
        else if alg == "EdDSA" || alg == "RS256" then Ok((alg, TextOf(header, "kid")))
        else Err(UnsupportedAlg)
  }

  predicate VerifyJWTSignature(c: Crypto, alg: string, key: JC.KeyMaterial, input: string, sig: Bytes) {
    match key
    case Ed25519(pub) => alg == "EdDSA" && c.verifyEd25519(pub, input, sig)
    case Rsa(n, e) => alg == "RS256" && c.verifyRsa(n, e, input, sig)
  }

  /** `ParseAndVerifyJWT`; `getKey` answers for a kid what the cache answers. */
  function ParseAndVerifyJWT(c: Crypto, j: Json, token: string, getKey: string -> JC.Answer): Result<Claims, Rejection> {
    var parts := Split(token);
    if |parts| != 3 then Err(Malformed)
    else
      match ParseJWTHeader(j, parts[0])
      case Err(e) => Err(e)
      case Ok((alg, kid)) =>
        match getKey(kid)
        case Err(_) => Err(KeyLookup)
        case Ok(pk) =>
          match Decode(parts[2])
          case None => Err(BadSignature)
          case Some(sig) =>
            if !VerifyJWTSignature(c, alg, pk.key, parts[0] + "." + parts[1], sig) then Err(BadSignature)
            else
              match Decode(parts[1])
              case None => Err(BadPayload)
              case Some(payload) =>
                match j.unmarshal(payload)
                case None => Err(BadPayload)
                case Some(claims) => Ok(claims)
  }

  // ---------- Claims ----------

  function IntClaim(c: Claims, name: string): Option<int> {
    if name in c && c[name].Num? then Some(Truncated(c[name])) else None
  }

  /** `unicode.IsSpace` */
  predicate IsSpace(ch: char) {
    var u := ch as int;
    9 <= u <= 13 || u == 32 || u == 0x85 || u == 0xA0 || u == 0x1680 || 0x2000 <= u <= 0x200A ||
    u == 0x2028 || u == 0x2029 || u == 0x202F || u == 0x205F || u == 0x3000
  }

  /** `strings.Fields`: the maximal runs of non-space characters; `word` is the run being read. */
  function FieldsFrom(s: string, word: string): seq<string> {
    if s == "" then (if word == "" then [] else [word])
    else if IsSpace(s[0]) then (if word == "" then [] else [word]) + FieldsFrom(s[1..], "")
    else FieldsFrom(s[1..], word + [s[0]])
  }

  function Fields(s: string): seq<string> { FieldsFrom(s, "") }

  ghost predicate Grants(scope: string, required: string) {
    forall f | f in Fields(required) :: f in Fields(scope)
  }

  /** `checkRequiredScopes`: every required scope is among the granted ones. */
  method CheckRequiredScopes(claims: Claims, required: string) returns (ok: bool)
    ensures ok == Grants(TextOf(claims, "scope"), required)
  {
    if required == "" { return true; }
    var granted: set<string> := {};
    var have := Fields(TextOf(claims, "scope"));
    for i := 0 to |have|
      invariant forall f :: f in granted <==> f in have[..i]
    {
      granted := granted + {have[i]};
      assert have[..i + 1] == have[..i] + [have[i]];
    }
    assert have[..|have|] == have;
    var need := Fields(required);
    for i := 0 to |need|
      invariant forall k | 0 <= k < i :: need[k] in have
    {
      if need[i] !in granted { return false; }
    }
    ok := true;
  }

  /** `checkClaims`, except for the scopes, with 60 s of clock skew. */
  function CheckClaims(claims: Claims, publicBase: string, now: int): Option<Rejection> {
    if TextOf(claims, "iss") != publicBase then Some(IssMismatch)
    else if !AudContains(Claim(claims, "aud"), publicBase) && !AudContains(Claim(claims, "aud"), publicBase + "/")
    then Some(AudMismatch)
    else
      match IntClaim(claims, "exp")
      case None => Some(ExpMissing)
      case Some(exp) =>
        if exp + 60 < now then Some(ExpExpired)
        else
          match IntClaim(claims, "nbf")
          case Some(nbf) => if nbf - 60 > now then Some(NbfFuture) else None
          case None => None
  }

  datatype Decision = Preflight | ProxyToSidecar | Unauthorized | ForwardToBackend(sub: string, scope: string)

  /** `ServeHTTP` and `validateAndForward`: what becomes of a request with this bearer token. */
  ghost function Decide(c: Crypto, j: Json, pathPrefix: string, required: string, options: bool, r: Request,
                        bearer: Option<string>, getKey: string -> JC.Answer, now: Instant): Decision
  {
    if options then Preflight
    else if MatchOAuthSuffix(r.path).Some? then ProxyToSidecar
    else if bearer.None? || bearer.value == "" then Unauthorized
    else
      match ParseAndVerifyJWT(c, j, bearer.value, getKey)
      case Err(_) => Unauthorized
      case Ok(claims) =>
        if CheckClaims(claims, PublicBase(pathPrefix, r), Unix(now)).Some? then Unauthorized
        else if !Grants(TextOf(claims, "scope"), required) then Unauthorized
        else ForwardToBackend(TextOf(claims, "sub"), TextOf(claims, "scope"))
  }
}
