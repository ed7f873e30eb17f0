/** Claim sets: the JSON objects carried in tokens, how the issuer merges identity claims under its own
    reserved ones, and how callback and userinfo select the identity claims. */
module Claims {

  /** A decoded JSON value; a number is the decimal `mantissa * 10^exponent`. */
  datatype Value =
    | Str(text: string)
    | Num(mantissa: int, exponent: int)
    | Bool(flag: bool)
    | Null
    | Arr(items: seq<Value>)
    | Obj(fields: map<string, Value>)

  type Claims = map<string, Value>

  const RESERVED: set<string> :=
    {"iss", "aud", "sub", "client_id", "scope", "iat", "nbf", "exp", "jti"}

  /** The profile claims the callback keeps from the upstream identity. */
  const ALLOWED: set<string> :=
    {"email", "email_verified", "name", "given_name", "family_name", "picture", "locale", "hd", "preferred_username"}

  /** The claims userinfo echoes back. */
  const PROFILE: set<string> :=
    {"sub", "email", "email_verified", "name", "given_name", "family_name", "picture", "locale",
     "preferred_username", "hd"}

  function Only(c: Claims, names: set<string>): Claims {
    map k | k in c && k in names :: c[k]
  }

  /** Extra claims fill in what the base claims leave free. */
  function Merged(base: Claims, extra: Claims): Claims {
    map k | k in base.Keys + extra.Keys :: if k in base then base[k] else extra[k]
  }

  /** The callback's loop: every claim that is not allowed is deleted. */
  method KeepAllowed(upstream: Claims) returns (kept: Claims)
    ensures kept == Only(upstream, ALLOWED)
  {
    kept := upstream;
    var rest := upstream.Keys;
    while rest != {}
      invariant rest <= upstream.Keys
      invariant kept == map k | k in upstream && (k in rest || k in ALLOWED) :: upstream[k]
    {
      var k :| k in rest;
      if k !in ALLOWED { kept := kept - {k}; }
      rest := rest - {k};
    }
  }

  /** The issuer's loop: an extra claim is added only under a name still free. */
  method Merge(base: Claims, extra: Claims) returns (claims: Claims)
    ensures claims == Merged(base, extra)
  {
    claims := base;
    var rest := extra.Keys;
    while rest != {}
      invariant rest <= extra.Keys
      invariant claims == Merged(base, map k | k in extra && k !in rest :: extra[k])
    {
      var k :| k in rest;
      if k !in claims { claims := claims[k := extra[k]]; }
      rest := rest - {k};
    }
    assert (map k | k in extra && k !in rest :: extra[k]) == extra;
  }

  /** Userinfo's loop: profile claims are copied into the response. */
  method SelectProfile(claims: Claims) returns (profile: Claims)
    ensures profile == Only(claims, PROFILE)
  {
    profile := map[];
    var rest := claims.Keys;
    while rest != {}
      invariant rest <= claims.Keys
      invariant profile == map k | k in claims && k !in rest && k in PROFILE :: claims[k]
    {
      var k :| k in rest;
      if k in PROFILE { profile := profile[k := claims[k]]; }
      rest := rest - {k};
    }
  }

  /** No extra claim overrides a base claim, and no name comes from nowhere. */
  lemma ExtraNeverOverrides(base: Claims, extra: Claims)
    ensures Only(Merged(base, extra), base.Keys) == base
    ensures Merged(base, extra).Keys == base.Keys + extra.Keys
  {}

  /** The three lists fit together: merging callback-filtered claims under reserved ones and then
      selecting the profile gives back exactly the filtered claims plus the subject. */
  lemma ProfileOfMerged(base: Claims, upstream: Claims)
    requires base.Keys == RESERVED
    ensures Only(Merged(base, Only(upstream, ALLOWED)), PROFILE) == Only(upstream, ALLOWED)["sub" := base["sub"]]
  {
    assert PROFILE == ALLOWED + {"sub"};
    assert forall k | k in ALLOWED :: k !in RESERVED;
    assert RESERVED * PROFILE == {"sub"};
  }
}
