/** The rows, requests and responses of the authorization server. */
module GrantTypes {
  import opened Clock
  import opened Wrappers
  import opened Claims
  import Tokens
  import Cipher

  type Bytes = Cipher.Bytes

  // ---------- Tables ----------

  datatype Client = Client(secretHash: string, redirectURIs: seq<string>, createdAt: int, lastUsedAt: int)

  datatype Session = Session(
    clientID: string, redirectURI: string, codeChallenge: string, challengeMethod: string,
    scopes: string, resource: string, originalState: string, expiresAt: int)

  datatype Code = Code(
    clientID: string, resource: string, sub: string, claims: Claims, upstreamEnc: Bytes, scopes: string,
    redirectURI: string, codeChallenge: string, challengeMethod: string, expiresAt: int)

  datatype Refresh = Refresh(
    sub: string, resource: string, clientID: string, claims: Claims, upstreamEnc: Bytes, scopes: string,
    expiresAt: int)

  datatype Tables = Tables(
    clients: map<string, Client>, sessions: map<string, Session>,
    codes: map<string, Code>, refreshes: map<string, Refresh>)

  // ---------- Environment ----------

  datatype Uri = Uri(scheme: string, host: string, hostname: string)

  /** What stays fixed over a run: the hash functions, URL parsing, the loaded cipher, and the
      resource configuration. */
  datatype Env = Env(
    s256: string -> string,
    hash: string -> string,
    parseRequestURI: string -> Option<Uri>,
    parses: string -> bool,
    aead: Cipher.Aead,
    cipher: Cipher.Cipher,
    refreshTTL: Duration,
    strictUpstream: bool,
    resource: string,
    scopes: string)

  // ---------- Requests ----------

  /** Which store statements of a request succeed. */
  datatype Io = Io(client: bool, touch: bool, lookup: bool, delete: bool, insert: bool)

  /** `client_id` and `client_secret` from the form, and the Basic credentials if any. */
  datatype Credentials = Credentials(formID: string, formSecret: string, basic: Option<(string, string)>)

  /** The upstream token response, reduced to what the callback uses. */
  datatype Upstream = Upstream(identity: Claims, refreshToken: Bytes)

  datatype UpstreamCall = DiscoverFailed | CallFailed | Answered(answer: Upstream)

  /** Requests carry the random values drawn for them; `None` stands for a failed draw or, for
      nonces, a failed encryption. */
  datatype Op =
    | Register(io: Io, redirectURIs: seq<string>, clientID: string, secret: string)
    | Authorize(io: Io, responseType: string, clientID: string, redirectURI: string, codeChallenge: string,
                challengeMethod: string, state: string, scope: string, discovered: bool,
                upstreamState: Option<string>, endpointParses: bool)
    | Callback(io: Io, upstreamError: string, code: string, state: string, call: UpstreamCall,
               nonce: Option<Bytes>, localCode: Option<string>, elapsed: nat)
    | ExchangeCode(io: Io, creds: Credentials, code: string, redirectURI: string, verifier: string,
                   minted: bool, refresh: Option<string>)
    | ExchangeRefresh(io: Io, creds: Credentials, token: string, call: UpstreamCall, nonce: Option<Bytes>,
                      minted: bool, refresh: Option<string>, elapsed: nat)
    | Revoke(io: Io, creds: Credentials, token: string, hint: string)
    | Introspect(io: Io, creds: Credentials, token: string, hint: string, jwt: Option<Claims>)
    | CleanSessions
    | CleanCodes
    | CleanRefreshes
    | CleanClients(olderThan: Duration)

  /** The `error` field of an error response; the callback passes on what the provider sent. */
  datatype Reason =
    | InvalidRequest | InvalidClient | InvalidGrant | InvalidRedirectURI | UnsupportedResponseType | ServerError
    | FromUpstream(text: string)

  datatype Response =
    | Error(status: int, reason: Reason)
    | Created(clientID: string, secret: string)
    | RedirectUpstream(state: string)
    | RedirectWithCode(redirectURI: string, code: string, state: string)
    | RedirectWithError(redirectURI: string, error: string, state: string)
    | Granted(access: Tokens.Grantee, refresh: string, scope: string)
    | Done
    | Inactive
    | ActiveRefresh(sub: string, clientID: string, scope: string, exp: int)
    | ActiveAccess(claims: Claims)
}
