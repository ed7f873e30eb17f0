# MCPBouncer, verified

MCPBouncer puts OAuth 2.1 in front of MCP servers. A sidecar registers clients, runs the
authorization-code flow against an upstream identity provider, mints EdDSA access tokens and rotates
its signing keys; a Traefik plugin checks every request's token against the sidecar's published keys.
This project models the five stateful cores of that system in Dafny and proves what they promise over
whole runs.

| files | what they model |
|---|---|
| `Clock`, `Wrappers` | nanosecond instants, timestamps floored to seconds; `Option` and `Result` |
| `KeyProtocol`, `KeyInvariant`, `KeyTheorems`, `KeyWitness`, `Rotator` | signing-key rotation, minting and cleanup as one interleaved protocol; the rotator's methods |
| `Base64Url`, `JwksCache`, `CacheProtocol` | the encoding, the plugin's key cache, and cache and rotator together |
| `Claims`, `Tokens`, `Plugin`, `Sidecar`, `Readings`, `IssueAccept`, `TokenSoundness`, `LawWitness` | minting and the three token verifiers: minted tokens pass, nothing unsigned does; a model of the laws they assume |
| `GrantTypes`, `GrantSpec`, `AuthServer` | the authorization server's tables and endpoints: specification functions, and the handlers statement by statement |
| `GrantRuns`, `GrantEffects`, `GrantLineage`, `GrantTrace`, `GrantTheorems`, `GrantOrigins` | runs of the server and what they keep: lineages, provenance, constancy, revocation |
| `GrantAnswers`, `GrantFrames`, `GrantFlow` | what the answers say and whom the server lets in; what each request uses up and what it leaves alone; the flow that succeeds |
| `JanitorTransparency` | a run with sweeps simulates the run without them |
| `ExchangeInterleaving` | concurrent token exchanges, one store statement at a time |
| `Cipher` | the versioned cipher for secrets at rest, its key table and reboots |
| `RateLimiter` | the per-IP limiter with eviction against a plain counter |
| `EndToEnd` | the cores put together |

How the models are built:

- State the source changes in place is a class with `modifies` clauses (`Rotator`, `JwksCache`,
  `Limiter`, `Store`, `Server`). Each method is proved equal to a specification function, and the
  theorems about runs are about those functions. `RotateIsARun` and `StatementsMatchHandlers` tie the
  statement-level protocols to the methods.
- A lineage is named by the session it starts with. The history kept beside the tables (`GrantRuns`)
  records registrations, authorize requests, issued codes and grants; `RunIsAccounted` proves that each
  record goes back to an event of the run, so the theorems speak of events and not only of records.
- The handlers ignore the errors of their deletes, so a spent row may survive. Provenance, constancy,
  identity and janitor transparency are proved of all runs; only linear use and revocation need the
  deletes to succeed, and say so as a premise (`AllDeletesOk`).
- Hash functions, AES-GCM, Ed25519, RSA, JSON and URL parsing are parameters. Only these laws are used:
  opening a sealed text gives it back, a signature by a key verifies under its public half, JSON decodes
  what it encoded; for refusals, that only sealed texts open (sealing adds 16 bytes), that only a key's own
  signatures verify, and that no hash is empty.
  `LawWitness.LawsCanHold` shows that those of JSON, signatures and encryption can all hold at once.
- Random values are parameters of each request, assumed not to have been drawn before. Every store
  statement carries a flag saying whether it succeeds.

Results that differ from what one might expect:

- `KeyTheorems.PublishedSetBound` is false without the premise that no rotation was torn. A crash between
  the two status updates of a rotation leaves a retiring key without a successor; `KeyWitness.TornRotationExceedsBound`
  is such a run under the default configuration. `RetiringBoundAlways` is what holds of every run: one key
  more for each such crash whose deadline has not passed. `TornRotationStopsMinting` is the other
  consequence: no key is read again before a restart.
- `KeyTheorems.CoverageIsExact`: the 3539 s premise of key continuity comes from an exact condition on
  the rotation's clock reading.
- `RateLimiter.AtMostTwiceTheLimit` gives twice the limit less one, and that is attained.
- `Cipher.LegacyRoundTrip`: a legacy blob that happens to read as versioned does not decrypt, and for
  every key and plaintext there is a nonce that makes one.
- `GrantTheorems.SecondRedemption`: a code is redeemed again exactly when its delete failed, since the
  handlers ignore the error of that statement; and `ExchangeInterleaving.BothServed`: two exchanges that
  both looked up before the delete are both served.
- `JanitorTransparency.SweepSpoilsExactly`: a sweep spoils a redemption only when both fall on the very
  instant the row expires, a whole second.

Where documentation and code differ the model follows the code: `next` keys are published
(sidecar/internal/store/repos.go:109), codes live 60 s (sidecar/internal/as/callback.go:165), `aud` is the
public base plus a slash (sidecar/internal/tokens/issuer.go:62).

## Model

| member | source | states |
|---|---|---|
| `KeyTheorems.KeyContinuity` | sidecar/internal/keys/rotator.go:67-114 | in every interleaving of boot, rotation, janitor and two-step minting, a signed token the plugin's clock test accepts has its key published, given at most 3539 s from the retiring rotation's clock reading to signing |
| `KeyTheorems.CoverageIsExact` | sidecar/internal/keys/rotator.go:84-97 | after a retirement the key stays published for every instant the token is accepted, in every continuation, if and only if the deadline written by that rotation lies beyond exp + 60 |
| `KeyTheorems.MissingKeyIsPastDeadline` | sidecar/internal/store/repos.go:157-166 | a signed token's key is missing only when a rotation retired it and that rotation's deadline has passed |
| `KeyTheorems.RetirementIsFinal` | sidecar/internal/keys/rotator.go:84-97 | once retired, a key keeps the clock reading it was retired with for the rest of every run |
| `KeyTheorems.LifecycleStep` | sidecar/internal/keys/rotator.go:35-114 | a step moves a key one stage along next, active, retiring, deleted or leaves it; only `Ensure` skips next |
| `KeyTheorems.Lifecycle` | sidecar/internal/keys/rotator.go:35-114 | in every run, failed statements and restarts included, there is at most one active and one next key and no key moves back |
| `KeyTheorems.PromotionWaited` | sidecar/internal/keys/rotator.go:84-97 | a key about to be promoted has sat in the table as next for more than the overlap, up to the second of rounding |
| `KeyTheorems.TornRotationStopsMinting` | sidecar/internal/keys/rotator.go:84-97 | with no active key and no status update due, no request reads a signing key again until a restart |
| `KeyTheorems.AbortBeforePromoteIsStuck` | sidecar/internal/keys/rotator.go:84-97 | a failure between the two status updates leads to exactly that situation |
| `KeyTheorems.RetiringBound` | sidecar/internal/keys/rotator.go:84-113 | right after a cleanup at most floor((TTL + 1 h) / overlap) + 1 retiring keys come from completed rotations |
| `KeyTheorems.RetiringBoundAlways` | sidecar/internal/keys/rotator.go:84-113 | in every run, right after a cleanup, that bound holds plus one for every torn rotation of the run whose deadline has not passed and one for a rotation between its two updates |
| `KeyTheorems.PublishedSetBound` | sidecar/internal/keys/rotator.go:84-113 | without a torn rotation the bound covers every retiring key |
| `KeyWitness.TornRotationExceedsBound` | sidecar/internal/keys/rotator.go:84-97 | a run under the default configuration, with one crash between the status updates, in which the bound fails |
| `KeyInvariant.StepKeepsInv` | sidecar/internal/keys/rotator.go:35-114 | every step of every actor keeps the inductive invariant behind these results |
| `Rotator.Rotator.ListSigningKeys` | sidecar/internal/store/repos.go:107-127 | a successful listing returns every row of the table exactly once, a failed one reports the error |
| `Rotator.Rotator.GetActiveSigningKey` | sidecar/internal/store/repos.go:129-144 | a successful lookup returns an active key if and only if there is one |
| `Rotator.Rotator.Scan` | sidecar/internal/keys/rotator.go:74-82 | the loop finds an active and a next key exactly when they exist |
| `Rotator.Rotator.Ensure` | sidecar/internal/keys/rotator.go:35-49 | an active key is left alone, without one a new active key is the only change, and a failed lookup, generation or insert changes nothing and is reported |
| `Rotator.EnsureIsARun` | sidecar/internal/keys/rotator.go:35-49 | whatever boot does to the table, failures included, is a run of the interleaved protocol's steps, and without a failure one without restart |
| `Rotator.Rotator.Rotate` | sidecar/internal/keys/rotator.go:67-114 | table and error after each combination of failing statements; no error when none fails |
| `Rotator.RotateIsARun` | sidecar/internal/keys/rotator.go:67-114 | whatever a rotation does to the table is a run of the interleaved protocol's steps, and without a failing statement a run without abort or restart |
| `Rotator.RotationPromotes` | sidecar/internal/keys/rotator.go:84-97 | without failures a rotation of a table with an active key succeeds and leaves exactly one active key: the waiting one if older than the overlap, otherwise the former one; a replaced key is retiring with this rotation's deadline |
| `Rotator.RotationGenerates` | sidecar/internal/keys/rotator.go:99-111 | it leaves a key waiting exactly when one stays waiting or the key then active is older than the rotation interval |
| `Rotator.RotationSparesOthers` | sidecar/internal/keys/rotator.go:67-114 | a rotation without failures leaves no expired retiring key and keeps every row it does not promote, retire or expire |
| `Base64Url.DecodeInverts` | sidecar/internal/tokens/issuer.go:84-89 | unpadded URL-safe base64 decodes to exactly the bytes encoded |
| `Base64Url.GarbageIsRejected` | plugin/jwt_verify.go:45-50 | a text with a character that is no symbol is not decoded |
| `Base64Url.SplitCompact` | plugin/jwt_verify.go:16-20 | splitting three dot-free parts joined by dots gives them back |
| `JwksCache.LastDuplicateWins` | plugin/jwks_cache.go:109-119 | the last readable entry of a kid decides its key |
| `JwksCache.EveryKeyIsDecided` | plugin/jwks_cache.go:109-119 | every key kept is decided by such an entry |
| `JwksCache.ReadableIsKept` | plugin/jwks_cache.go:109-119 | no readable kid is lost |
| `JwksCache.RsaParses` | plugin/jwks_cache.go:135-154 | an RSA entry is read as its modulus and exponent exactly when the exponent has at most four bytes |
| `JwksCache.JwksCache.Refresh` | plugin/jwks_cache.go:88-120 | a successful fetch replaces the keys by the parse of its body and stamps it; a failed one changes nothing |
| `JwksCache.JwksCache.Get` | plugin/jwks_cache.go:44-72 | fast path, guarded refetch, stale key on error, and the answer of each |
| `JwksCache.CacheRuns` | plugin/jwks_cache.go:44-72 | after any run the keys are the parse of the last successful fetch, such fetches are over 5 s apart, and a key served without a failed refresh is at most max(ttl, 5 s) old |
| `JwksCache.GetAnswersWhatItHas` | plugin/jwks_cache.go:44-72 | which key or which error `Get` answers, by what its fetch did |
| `JwksCache.StaleKeysAreServed` | plugin/jwks_cache.go:56-71 | in every history a cached key is handed out by every `Get` for it that does not fetch successfully |
| `CacheProtocol.ParseOfPublished` | sidecar/internal/keys/jwks.go:29-62 | the parse of a JWKS response holds exactly the keys of the table, each with its own material |
| `CacheProtocol.RecentCacheHolds` | plugin/jwks_cache.go:56-66 | a cache stored within the guard already holds the key of every signed token still in the table |
| `CacheProtocol.GetFindsTheKey` | plugin/jwks_cache.go:44-72 | with the overlap at least the 5 s guard plus latency plus a second, `Get` never answers key not found for a token in its acceptance window |
| `Claims.KeepAllowed` | sidecar/internal/as/callback.go:110-128 | the deleting loop leaves exactly the allowed claims |
| `Claims.Merge` | sidecar/internal/tokens/issuer.go:74-78 | the merge loop adds exactly the extra claims whose names are free |
| `Claims.SelectProfile` | sidecar/internal/as/userinfo.go:131-137 | the loop selects exactly the profile claims |
| `Claims.ExtraNeverOverrides` | sidecar/internal/tokens/issuer.go:63-78 | merging leaves every reserved claim as it was and adds no other names |
| `Claims.ProfileOfMerged` | sidecar/internal/as/userinfo.go:20-31 | the profile of merged claims is the filtered identity plus sub |
| `Tokens.MintAccessToken` | sidecar/internal/tokens/issuer.go:34-108 | the token is the signed compact form of its claims, and exists exactly when a key and randomness do |
| `Tokens.TokenDecodes` | sidecar/internal/tokens/issuer.go:79-91 | every minted token splits into three parts that decode to its header, claims and signature (section 7.1 of RFC 7515) |
| `LawWitness.LawsCanHold` | sidecar/internal/tokens/issuer.go:79-91 | the laws assumed of JSON, signatures and authenticated encryption can all hold together |
| `Plugin.CheckRequiredScopes` | plugin/mcpbouncer.go:298-313 | accepts exactly when every required scope is granted |
| `Readings.ScopesAreWordSets` | plugin/mcpbouncer.go:298-313 | with scopes written as words the plugin asks exactly that every required word is granted |
| `Readings.TrimRightTrims` | plugin/mcpbouncer.go:139-148 | trimming removes all trailing slashes and nothing else |
| `Readings.OriginsRead` | plugin/mcpbouncer.go:130-138 | forwarded headers win over the host, and HTTPS is assumed without them |
| `Readings.AudienceIsNamed` | plugin/mcpbouncer.go:325-341 | an audience is a text or a list holding it |
| `Readings.CutsTowardZero` | plugin/mcpbouncer.go:343-352 | numeric claims are cut toward zero, whatever their sign |
| `IssueAccept.PluginReads` | plugin/jwt_verify.go:16-43 | the plugin's verification of a minted token returns its claims |
| `TokenSoundness.ParsedIsVerified` | plugin/jwt_verify.go:16-43 | for any token: its claims are accepted if and only if it reads and its signature verifies under the key answered for the kid in its header |
| `TokenSoundness.ForwardsExactlyVerified` | plugin/mcpbouncer.go:175-202 | for any request: forwarded if and only if the token verifies, is for this resource now and grants the required scopes, and then as the subject and scope of its claims |
| `TokenSoundness.NothingUnsignedIsForwarded` | plugin/mcpbouncer.go:182-192 | in every reachable state of sidecar and plugin, fetches failing or not, only tokens signed by a key that has been in the sidecar's table are forwarded |
| `TokenSoundness.SidecarVerifiesExactly` | sidecar/internal/as/introspect.go:150-210 | for any token: both sidecar verifiers accept its claims if and only if it reads and its EdDSA signature verifies under the key found for its kid |
| `TokenSoundness.IntrospectionAcceptsExactly` | sidecar/internal/as/introspect.go:212-245 | for any token: introspection accepts exactly verified claims of this issuer and audience inside their strict window |
| `TokenSoundness.NothingUnsignedIsAccepted` | sidecar/internal/as/userinfo.go:78-106 | introspection and userinfo accept only tokens signed by a key in the table |
| `IssueAccept.CheckClaimsExact` | plugin/mcpbouncer.go:268-296 | the claim checks pass exactly for the same public base and nbf - 60 <= now <= exp + 60 |
| `IssueAccept.PluginAcceptsExactly` | plugin/mcpbouncer.go:130-149 | the plugin forwards a minted token on a non-OAuth path of the origin exactly when the base paths agree and the clock is in the window |
| `IssueAccept.PluginAcceptsOnEveryPath` | plugin/mcpbouncer.go:139-142 | with an explicit prefix only the clock decides |
| `IssueAccept.AutomaticPrefixBinds` | plugin/mcpbouncer.go:143-148 | in automatic mode the plugin forwards a token exactly on its own prefix up to trailing slashes and inside its window |
| `IssueAccept.TokenPathMatches` | plugin/routing.go:18-26 | the token endpoint's path matches its own suffix, whatever the prefix |
| `IssueAccept.RoutesExactly` | plugin/routing.go:18-26 | a path matches exactly when it ends in a known suffix, and the match is that suffix with what precedes it |
| `IssueAccept.SidecarAcceptsExactly` | sidecar/internal/as/introspect.go:150-246 | introspection accepts a minted token exactly for nbf <= now <= exp and returns its claims |
| `IssueAccept.VerifiersAgree` | sidecar/internal/as/introspect.go:212-243 | introspection accepts at a second exactly when the plugin's checks pass a minute before and a minute after |
| `IssueAccept.UserinfoReturnsIdentity` | sidecar/internal/as/userinfo.go:101-139 | userinfo accepts exactly for nbf <= now <= exp and returns the filtered claims plus sub |
| `Sidecar.Userinfo` | sidecar/internal/as/userinfo.go:36-140 | the handler gives the answer its specification says, loop included |
| `AuthServer.ValidateAll` | sidecar/internal/as/dcr.go:105-110 | accepts exactly when every redirect URI is valid |
| `AuthServer.ContainsString` | sidecar/internal/as/authorize.go:157-164 | finds the string exactly when it is in the list |
| `AuthServer.Report` | sidecar/internal/as/introspect.go:132-144 | reports exactly the listed claims that are present |
| `AuthServer.RefreshUpstream` | sidecar/internal/as/token.go:220-247 | the blob to store after an upstream refresh, or the refusal of strict mode |
| `AuthServer.Server.Register` | sidecar/internal/as/dcr.go:69-177 | the tables and answer of the registration endpoint |
| `GrantAnswers.RedirectsAreSafe` | sidecar/internal/as/dcr.go:36-59 | what redirect URIs validation lets through |
| `GrantAnswers.RegistrationHandsOutCredentials` | sidecar/internal/as/dcr.go:119-177 | a registration answers with the credentials on record, and they authenticate |
| `AuthServer.Server.Authorize` | sidecar/internal/as/authorize.go:20-149 | the tables and answer of the authorize endpoint |
| `GrantAnswers.AuthorizeAnswersWithSession` | sidecar/internal/as/authorize.go:105-149 | the state sent upstream is the key of the session just stored, which says what was asked |
| `AuthServer.Server.Callback` | sidecar/internal/as/callback.go:19-189 | the tables and answer of the callback, error path and failed statements included |
| `GrantAnswers.LateCallbackDropsSession` | sidecar/internal/as/callback.go:68-72 | a callback after the session's expiry is refused and removes it |
| `GrantAnswers.CallbackAnswersTheRequest` | sidecar/internal/as/callback.go:173-188 | in every run a callback redirects with exactly the code it stored, to the redirect URI and with the state of the authorize event its session came from, and a stored code is always handed out |
| `AuthServer.Server.Identify` | sidecar/internal/as/token.go:46-78 | client authentication; the client is touched as soon as it is found |
| `GrantAnswers.SecretsDecide` | sidecar/internal/as/token.go:62-76 | in every run a live client authenticates if and only if the presented secret is non-empty and hashes like the one its registration was answered with |
| `GrantAnswers.RefusedClientsChangeNothing` | sidecar/internal/as/token.go:46-78 | a request whose client is refused changes no session, code or refresh token |
| `GrantAnswers.CredentialsAgree` | sidecar/internal/as/token.go:297-313 | form credentials win, and Basic ones count exactly like them |
| `AuthServer.Server.ExchangeCode` | sidecar/internal/as/token.go:89-188 | the tables and answer of a code exchange, statement by statement |
| `GrantFrames.PresentedCodeGoes` | sidecar/internal/as/token.go:99-110 | a presented code is removed whatever the answer, and no other |
| `GrantFrames.PresentedOnce` | sidecar/internal/as/token.go:109-131 | in every run, a live code or refresh token presented once, even with a wrong verifier, redirect URI or client, is never granted again |
| `AuthServer.Server.ExchangeRefresh` | sidecar/internal/as/token.go:190-294 | the tables and answer of a refresh exchange |
| `GrantAnswers.StrictModeRefuses` | sidecar/internal/as/token.go:220-247 | an otherwise acceptable refresh is refused if and only if strict mode meets a readable blob and a failing provider |
| `GrantFrames.PresentedRefreshGoes` | sidecar/internal/as/token.go:197-218 | a presented refresh token is removed whatever the answer |
| `AuthServer.Server.Revoke` | sidecar/internal/as/revoke.go:12-97 | the tables and answer of revocation |
| `GrantAnswers.RevokesExactly` | sidecar/internal/as/revoke.go:63-96 | a revoke removes the presented token exactly when it is the owner's and not hinted to be an access token, and otherwise nothing |
| `AuthServer.Server.Introspect` | sidecar/internal/as/introspect.go:33-146 | the answer of introspection; the tables are unchanged |
| `GrantAnswers.HintsAreObeyed` | sidecar/internal/as/introspect.go:84-116 | hints are obeyed and introspection changes nothing |
| `AuthServer.Server.Tick` | sidecar/internal/store/janitor.go:21-42 | a janitor tick is its five sweeps in order (sessions, codes, refresh tokens, signing keys, stale clients), each at its own instant and each free to fail |
| `GrantAnswers.ErrorsAreStandard` | sidecar/internal/as/token.go:23-87 | the status of every error answer follows from its reason (section 5.2 of RFC 6749) |
| `GrantFrames.RequestsSpareOthers` | sidecar/internal/store/repos.go:235-366 | no request changes a session, code or refresh token it does not name |
| `GrantFrames.RequestsSpareOtherClients` | sidecar/internal/store/repos.go:203-212 | no request changes another client's row, and of its own only the time of last use |
| `GrantFrames.SweepsAreExact` | sidecar/internal/store/repos.go:272-278 | a sweep removes a row exactly when its expiry instant has come |
| `GrantFrames.StaleClientsGo` | sidecar/internal/store/repos.go:216-231 | a client registered or touched at an instant survives the sweep exactly when that is at most the limit ago |
| `GrantEffects.StepEffect` | sidecar/internal/as/token.go:89-294 | every event, whichever statements fail, only removes artefacts, opens a lineage, or makes the next artefact of a lineage from a live one |
| `GrantLineage.LinealKept` | sidecar/internal/as/token.go:99-176 | every event whose deletes succeed keeps the lineage invariant |
| `GrantTheorems.LinearLineages` | sidecar/internal/as/token.go:99-176 | in every serial run with successful deletes a lineage has at most one live artefact, nothing is spent twice and nothing spent is live (sections 4.1.2 and 6 of RFC 6749) |
| `GrantTheorems.CountNeverRises` | sidecar/internal/as/callback.go:154-173 | with successful deletes, from any reachable state on, the number of live artefacts of a lineage never rises |
| `GrantTheorems.GrantsFormAChain` | sidecar/internal/as/token.go:197-285 | with successful deletes the grants of a lineage start with its code and each later one spends the refresh token made by the one before; only the end of the chain can be live |
| `GrantTheorems.SecondRedemption` | sidecar/internal/as/token.go:109-110 | repeating a granted code exchange is granted if and only if the delete failed |
| `GrantTheorems.SecondRotation` | sidecar/internal/as/token.go:208-209 | repeating a granted refresh exchange is granted if and only if the delete failed |
| `GrantTheorems.RevokedStaysRevoked` | sidecar/internal/as/revoke.go:63-96 | with successful deletes, after the owner's revoke the lineage has no live artefact and no further grant in any continuation |
| `GrantTheorems.NonOwnerRevokeIsHarmless` | sidecar/internal/as/revoke.go:83-92 | another client's revoke changes no row and is answered like the owner's (section 2.1 of RFC 7009) |
| `GrantTheorems.IntrospectionForetellsRefresh` | sidecar/internal/as/introspect.go:86-116 | a refresh token is reported active if and only if a refresh exchange by that client at that instant would be granted, and the report describes that grant and the row's expiry (section 2.2 of RFC 7662) |
| `GrantTrace.RootedKept` | sidecar/internal/as/callback.go:154-167 | every event, whichever statements fail, keeps sessions, codes and refresh rows equal to what their authorize request and callback determine |
| `GrantFlow.FlowSucceeds` | sidecar/internal/as/token.go:89-294 | from any tables, when nothing fails and each request is in time, registration, authorize, callback, code exchange and refresh exchange succeed, each with what the answer before handed out, for the provider's subject, allowed claims and the scopes asked for |
| `GrantOrigins.RunIsAccounted` | sidecar/internal/as/authorize.go:105-122 | every registration, authorization and issue on record comes from an event of the run |
| `GrantAnswers.SubjectsAreKept` | sidecar/internal/as/callback.go:104-107 | a non-empty text subject is kept, so different ones stay different |
| `GrantOrigins.Provenance` | sidecar/internal/as/token.go:112-138 | in every run, failed deletes and replays included, every code grant goes back to an authorize event by the same client with the same registered, valid redirect URI, the scopes granted and the matching S256 challenge (section 4.6 of RFC 7636), at most 660 s plus the callback's duration earlier |
| `GrantOrigins.RefreshChainConstancy` | sidecar/internal/as/token.go:163-172 | in every run, failed deletes included, every live refresh row and every grant carries sub, client, scopes, resource and claims of its originating code, which one callback event issued |
| `GrantOrigins.OriginIsInherited` | sidecar/internal/as/token.go:197-285 | every grant makes a new refresh token whose originating code is the code spent or that of the refresh token spent |
| `GrantOrigins.UpstreamTokenIsLatest` | sidecar/internal/as/token.go:220-247 | when encryption succeeds, in every run, failed deletes included, every live blob decrypts to the latest non-empty upstream token received along its own chain from the callback on, and is empty if there was none |
| `JanitorTransparency.ErasedRun` | sidecar/internal/store/janitor.go:21-36 | the simulation between a run and the run without its sweeps |
| `JanitorTransparency.JanitorIsTransparent` | sidecar/internal/store/janitor.go:21-36 | erasing all sweeps of sessions, codes and refresh tokens leaves a run that hands out the same codes and tokens in the same order, whichever statements fail |
| `JanitorTransparency.SweepSpoilsExactly` | sidecar/internal/store/repos.go:320-326 | a sweep of codes spoils a redemption if and only if both fall on the instant of expiry |
| `ExchangeInterleaving.MintersLookedUpFirst` | sidecar/internal/as/token.go:99-110 | in every interleaving an exchange that minted looked its row up before the row's delete completed |
| `ExchangeInterleaving.LateLookupNeverMints` | sidecar/internal/as/token.go:197-209 | an exchange that had not looked up when the delete completed never mints, in any continuation |
| `ExchangeInterleaving.BothServed` | sidecar/internal/as/token.go:99-110 | for every code row and two exchanges that meet its conditions there is a run from the empty store in which the one code is redeemed twice |
| `ExchangeInterleaving.StatementsMatchHandlers` | sidecar/internal/as/token.go:112-160 | the checks between the statements decide exactly as the handlers' specification |
| `Cipher.ParseInvertsPrint` | sidecar/internal/crypto/aesgcm.go:165-176 | parsing the layout gives back id, nonce and ciphertext |
| `Cipher.PrintInvertsParse` | sidecar/internal/crypto/aesgcm.go:218-240 | every blob that parses is the layout of what it parses to |
| `Cipher.DecryptsForeign` | sidecar/internal/crypto/aesgcm.go:180-209 | a cipher that knows the material decrypts what another encrypted |
| `Cipher.DecryptsOnlySealed` | sidecar/internal/crypto/aesgcm.go:180-209 | nothing but what was sealed under the key a blob names, or under the bootstrap key, decrypts |
| `Cipher.LegacyRoundTrip` | sidecar/internal/crypto/aesgcm.go:180-209 | a legacy blob decrypts to its plaintext if and only if it does not parse as versioned |
| `Cipher.LegacyCollision` | sidecar/internal/crypto/aesgcm.go:180-209 | for every key and plaintext some nonce makes it parse and fail |
| `Cipher.LoadRows` | sidecar/internal/crypto/aesgcm.go:125-144 | loading succeeds if and only if all ids and materials are valid and exactly one row is active, in any row order |
| `Cipher.NewCipherWithStore` | sidecar/internal/crypto/aesgcm.go:90-145 | an empty table is seeded, any other is loaded and left unchanged, with every error case |
| `Cipher.Store.InsertEncryptionKey` | sidecar/internal/store/repos.go:467-479 | an insert succeeds exactly for a new id and then is the only change |
| `Cipher.MaterialPersists` | sidecar/internal/store/repos.go:467-490 | inserts and status changes never change stored material |
| `Cipher.CipherAcrossReboots` | sidecar/internal/crypto/aesgcm.go:148-209 | every blob of any boot decrypts in every later successful boot, whatever key inserts and status changes came between |
| `RateLimiter.Limiter.Handle` | sidecar/internal/httpx/ratelimit.go:82-118 | the verdict, the new buckets and the exact rounding of Retry-After |
| `RateLimiter.Limiter.Collect` | sidecar/internal/httpx/ratelimit.go:141-160 | the loop removes exactly the stale buckets |
| `RateLimiter.CollectionForgetsTheIdle` | sidecar/internal/httpx/ratelimit.go:149-156 | after a collection exactly the buckets used within two windows of its tick remain |
| `RateLimiter.LimiterRefinesCounter` | sidecar/internal/httpx/ratelimit.go:82-160 | the evicting limiter admits exactly what the counter without eviction admits, for ordered requests and ticks at most a window and a nanosecond ahead of later ones |
| `RateLimiter.OthersDoNotCount` | sidecar/internal/httpx/ratelimit.go:82-118 | in every history, erasing the requests of all other IPs changes none of an IP's verdicts |
| `RateLimiter.OvertakingTickForgets` | sidecar/internal/httpx/ratelimit.go:149-155 | a nanosecond more and the verdicts differ |
| `RateLimiter.AtMostTwiceTheLimit` | sidecar/internal/httpx/ratelimit.go:82-118 | an IP gets at most 2 * limit - 1 requests through in any half-open interval of one window |
| `RateLimiter.BoundIsAttained` | sidecar/internal/httpx/ratelimit.go:82-118 | that bound is attained for every limit |
| `EndToEnd.TokenWorksUntilItExpires` | plugin/mcpbouncer.go:175-202 | in every reachable state of sidecar and plugin, a signed token is forwarded as its grantee on every non-OAuth path exactly until 60 s after exp |
| `EndToEnd.IntrospectionOfMinted` | sidecar/internal/as/introspect.go:118-145 | in every run of the key protocol a signed access token is active to the client it was minted for, and to no other, exactly until exp; the report is its reserved claims but nbf, and no identity claim |
| `EndToEnd.IdentityRoundTrip` | sidecar/internal/as/userinfo.go:101-139 | for every grant of every run, failed deletes included, and every token signed for it in any run of the key protocol, userinfo answers exactly until exp with the allowed claims of the identity that the callback issuing its code received, plus sub |

## Left out

- HTTP routing, CORS, proxying, status recording, server wiring and shutdown: plumbing around the modelled decisions.
- SQL, migrations and connections: tables are maps whose primary key rejects a second insert, and each statement is atomic.
- The cryptography itself, PEM and X.509 encoding and key generation: parameters with laws.
- JSON text, float64 rounding of numbers and UTF-8: JSON is a lossless codec, numbers are decimals (exact for seconds below 2^53) and unbounded, strings are sequences of characters.
- Unsupported grant types, methods other than POST, unreadable forms and bodies, the initial-access-token guard of registration: requests refused before any table but `last_used_at` is touched.
- Upstream network calls: each call is a failure or an answer chosen freely per request.
- Metadata documents, metrics, audit and trace logs, configuration parsing, X-Forwarded-For parsing.
- Base64 variants accepted for configured key material (`decodeKeyMaterial`): boot takes the decoded bytes.
- Comparison of `Resource` at the token endpoint: the code makes none, so nothing is claimed about it.
- Liveness of minting between the two status updates of a rotation: only safety is claimed there.
- GrantTheorems.LinearLineages: serial runs with successful deletes only; concurrent exchanges are `ExchangeInterleaving`.
- KeyTheorems.PublishedSetBound: stated for runs without a torn rotation; the converse is not claimed, since a torn rotation need not exceed the bound.
- JanitorTransparency.JanitorIsTransparent: covers issued codes and granted tokens; which error a refused request gets, and the error redirect of a callback, do change with a sweep.
- CacheProtocol.GetFindsTheKey: one sidecar lifetime, because a key inserted at boot is active at once and a plugin that fetched just before cannot know it.
