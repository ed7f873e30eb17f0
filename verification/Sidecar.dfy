/** The sidecar's own two readings of an access token: introspection's strict check and userinfo. */
module Sidecar {
  import opened Wrappers
  import opened Base64Url
  import opened Claims
  import opened Tokens

  datatype Refusal =
    | Malformed | BadHeader | UnsupportedAlg | UnknownKid | BadSignature | BadPayload
    | Expired | NotYetValid | IssMismatch | AudMismatch | NoKey

  /** Both verifiers look keys up among the publishable ones by kid. */
  type Published = map<Kid, Bytes>

  function UnmarshalPart(j: Json, part: string): Option<Claims> {
    match Decode(part)
    case Some(bytes) => j.unmarshal(bytes)
    case None => None
  }

  /** The common core: three parts, an EdDSA header, a known kid, a good signature, a readable payload. */
  function VerifiedClaims(c: Crypto, j: Json, token: string, key: Kid -> Option<Bytes>): Result<Claims, Refusal> {
    var parts := Split(token);
    if |parts| != 3 then Err(Malformed)
    else
      match UnmarshalPart(j, parts[0])
      case None => Err(BadHeader)
      case Some(header) =>
        if TextOf(header, "alg") != "EdDSA" then Err(UnsupportedAlg)
        else
          match key(TextOf(header, "kid"))
          case None => Err(UnknownKid)
          case Some(pub) =>
            match Decode(parts[2])
            case None => Err(BadSignature)
            case Some(sig) =>
              if !c.verifyEd25519(pub, parts[0] + "." + parts[1], sig) then Err(BadSignature)
              else
                match UnmarshalPart(j, parts[1])
                case None => Err(BadPayload)
                case Some(claims) => Ok(claims)
  }

  function Lookup(keys: Published, kid: Kid): Option<Bytes> {
    if kid in keys then Some(keys[kid]) else None
  }

  predicate PastExp(claims: Claims, now: int) {
    "exp" in claims && claims["exp"].Num? && Truncated(claims["exp"]) < now
  }

  predicate BeforeNbf(claims: Claims, now: int) {
    "nbf" in claims && claims["nbf"].Num? && now < Truncated(claims["nbf"])
  }

  /** `verifyAccessJWT`, with no clock skew. */
  function VerifyAccessJWT(c: Crypto, j: Json, token: string, keys: Published, publicBase: string, now: int)
    : Result<Claims, Refusal>
  {
    match VerifiedClaims(c, j, token, kid => Lookup(keys, kid))
    case Err(e) => Err(e)
    case Ok(claims) =>
      if PastExp(claims, now) then Err(Expired)
      else if BeforeNbf(claims, now) then Err(NotYetValid)
      else if TextOf(claims, "iss") != publicBase then Err(IssMismatch)
      else if !AudContains(Claim(claims, "aud"), publicBase + "/") then Err(AudMismatch)
      else Ok(claims)
  }

  /** Userinfo's key lookup: a token without a kid is tried against the active key. */
  function UserinfoKey(keys: Published, active: Option<Kid>, kid: Kid): Option<Bytes> {
    if kid != "" then Lookup(keys, kid)
    else if active.Some? then Lookup(keys, active.value) else None
  }

  /** `HandleUserinfo`: the profile, or the reason it answers 401. An issuer claim is compared only
      when it is present as a string. */
  method Userinfo(c: Crypto, j: Json, token: string, keys: Published, active: Option<Kid>, publicBase: string, now: int)
    returns (r: Result<Claims, Refusal>)
    ensures r == UserinfoAnswer(c, j, token, keys, active, publicBase, now)
  {
    var verified := VerifiedClaims(c, j, token, kid => UserinfoKey(keys, active, kid));
    if verified.Err? { return Err(verified.error); }
    var claims := verified.value;
    if PastExp(claims, now) { return Err(Expired); }
    if BeforeNbf(claims, now) { return Err(NotYetValid); }
    if "iss" in claims && claims["iss"].Str? && claims["iss"].text != publicBase { return Err(IssMismatch); }
    var profile := SelectProfile(claims);
    r := Ok(profile);
  }

  function UserinfoAnswer(c: Crypto, j: Json, token: string, keys: Published, active: Option<Kid>, publicBase: string, now: int)
    : Result<Claims, Refusal>
  {
    match VerifiedClaims(c, j, token, kid => UserinfoKey(keys, active, kid))
    case Err(e) => Err(e)
    case Ok(claims) =>
      if PastExp(claims, now) then Err(Expired)
      else if BeforeNbf(claims, now) then Err(NotYetValid)
      else if "iss" in claims && claims["iss"].Str? && claims["iss"].text != publicBase then Err(IssMismatch)
      else Ok(Only(claims, PROFILE))
  }
}
