/** Access tokens as the issuer mints them: the claim set, and the compact serialisation of header,
    claims and signature. JSON and Ed25519 are parameters known only by their laws. */
module Tokens {
  import opened Clock
  import opened Wrappers
  import opened Base64Url
  import opened Claims

  type Bytes = seq<byte>
  type Kid = string

  /** `sign` and `pub` name a key pair by its kid; `verify` takes the public half. */
  datatype Crypto = Crypto(
    sign: (Kid, string) -> Bytes,
    pub: Kid -> Bytes,
    verifyEd25519: (Bytes, string, Bytes) -> bool,
    verifyRsa: (nat, nat, string, Bytes) -> bool)

  ghost predicate SignatureLaw(c: Crypto) {
    forall kid, m :: c.verifyEd25519(c.pub(kid), m, c.sign(kid, m))
  }

  datatype Json = Json(marshal: Claims -> Bytes, unmarshal: Bytes -> Option<Claims>)

  /** JSON is a lossless codec of claim sets. */
  ghost predicate JsonLaw(j: Json) {
    forall c :: j.unmarshal(j.marshal(c)) == Some(c)
  }

  datatype Grantee = Grantee(sub: string, scopes: string, clientID: string, extra: Claims)

  function Header(kid: Kid): Claims {
    map["alg" := Str("EdDSA"), "typ" := Str("at+jwt"), "kid" := Str(kid)]
  }

  function Base(publicBase: string, g: Grantee, jti: string, iat: int, exp: int): (c: Claims)
    ensures c.Keys == RESERVED
  {
    map["iss" := Str(publicBase),
        "aud" := Arr([Str(publicBase + "/")]),
        "sub" := Str(g.sub),
        "client_id" := Str(g.clientID),
        "scope" := Str(g.scopes),
        "iat" := Num(iat, 0),
        "nbf" := Num(iat, 0),
        "exp" := Num(exp, 0),
        "jti" := Str(jti)]
  }

  /** The claims of a token signed at `now`. */
  function AccessClaims(publicBase: string, g: Grantee, jti: string, now: Instant, accessTTL: Duration): Claims {
    Merged(Base(publicBase, g, jti, Unix(now), Unix(now + accessTTL)), g.extra)
  }

  function SigningInput(j: Json, kid: Kid, claims: Claims): string {
    Encode(j.marshal(Header(kid))) + "." + Encode(j.marshal(claims))
  }

  function Signed(c: Crypto, j: Json, kid: Kid, claims: Claims): string {
    SigningInput(j, kid, claims) + "." + Encode(c.sign(kid, SigningInput(j, kid, claims)))
  }

  /** `MintAccessToken`: the active key was read before the clock; `activeKey` is `None` when the
      lookup fails or no key is active. */
  method MintAccessToken(c: Crypto, j: Json, activeKey: Option<Kid>, now: Instant, accessTTL: Duration,
                         publicBase: string, g: Grantee, jti: Option<string>)
    returns (token: Option<string>, expiresAt: Instant)
    ensures token.Some? <==> activeKey.Some? && jti.Some?
    ensures token.Some? ==>
      token.value == Signed(c, j, activeKey.value, AccessClaims(publicBase, g, jti.value, now, accessTTL)) &&
      expiresAt == now + accessTTL
  {
    token, expiresAt := None, 0;
    if activeKey.None? { return; }
    var exp := now + accessTTL;
    if jti.None? { return; }
    var claims := Base(publicBase, g, jti.value, Unix(now), Unix(exp));
    claims := Merge(claims, g.extra);
    assert claims == AccessClaims(publicBase, g, jti.value, now, accessTTL);
    var headerEnc := Encode(j.marshal(Header(activeKey.value)));
    var claimsEnc := Encode(j.marshal(claims));
    var signingInput := headerEnc + "." + claimsEnc;
    var sigEnc := Encode(c.sign(activeKey.value, signingInput));
    token, expiresAt := Some(signingInput + "." + sigEnc), exp;
  }

  /** Every minted token splits and decodes back to its header, its claims and its signature. */
  lemma TokenDecodes(c: Crypto, j: Json, kid: Kid, claims: Claims)
    requires JsonLaw(j)
    ensures var parts := Split(Signed(c, j, kid, claims));
      && |parts| == 3
      && parts[0] + "." + parts[1] == SigningInput(j, kid, claims)
      && Decode(parts[0]).Some? && j.unmarshal(Decode(parts[0]).value) == Some(Header(kid))
      && Decode(parts[1]).Some? && j.unmarshal(Decode(parts[1]).value) == Some(claims)
      && Decode(parts[2]) == Some(c.sign(kid, SigningInput(j, kid, claims)))
  {
    var h, p, s := j.marshal(Header(kid)), j.marshal(claims), c.sign(kid, SigningInput(j, kid, claims));
    NoDot(h);
    NoDot(p);
    NoDot(s);
    SplitCompact(Encode(h), Encode(p), Encode(s));
    assert Signed(c, j, kid, claims) == Compact(Encode(h), Encode(p), Encode(s));
    DecodeInverts(h);
    DecodeInverts(p);
    DecodeInverts(s);
  }

  function TextOf(c: Claims, name: string): string {
    if name in c && c[name].Str? then c[name].text else ""
  }

  function Pow10(n: nat): (p: nat)
    ensures p > 0
  {
    if n == 0 then 1 else 10 * Pow10(n - 1)
  }

  /** Division that cuts toward zero. */
  function Cut(m: int, p: nat): int
    requires p > 0
  {
    if m >= 0 then m / p else -(-m / p)
  }

  /** A JSON number as `int64(float64)`: truncation toward zero. */
  function Truncated(v: Value): int
    requires v.Num?
  {
    if v.exponent >= 0 then v.mantissa * Pow10(v.exponent) else Cut(v.mantissa, Pow10(-v.exponent))
  }

  /** `audContains`: the audience claim is the target or an array holding it. */
  predicate AudContains(aud: Option<Value>, target: string) {
    aud.Some? &&
    match aud.value
    case Str(text) => text == target
    case Arr(items) => Str(target) in items
    case _ => false
  }

  function Claim(c: Claims, name: string): Option<Value> {
    if name in c then Some(c[name]) else None
  }
}
