/** Serial runs of the authorization server, with the history the claims about lineages speak of.

    A lineage is named by the session it starts with: the session becomes a code, the code a refresh
    token, and every refresh token another one. */
module GrantRuns {
  import opened Clock
  import opened Wrappers
  import opened Claims
  import opened GrantTypes
  import opened GrantSpec
  import Tokens
  import Cipher

  type Lineage = string

  /** A registration: the redirect URIs asked for and the secret handed out. */
  datatype Registration = Registration(redirectURIs: seq<string>, secret: string)

  /** An authorize request that created a session. */
  datatype Authorization = Authorization(
    clientID: string, redirectURI: string, codeChallenge: string, scopes: string, resource: string, state: string,
    at: Instant, registered: seq<string>)

  /** A code a callback inserted: the session it came from, its row, the callback's two clock readings
      and the upstream identity. */
  datatype Issue = Issue(lineage: Lineage, row: Code, at: Instant, later: Instant, identity: Claims)

  datatype Artefact = SessionOf(state: string) | CodeOf(code: string) | RefreshOf(hash: string)

  /** The code a refresh token descends from, and that code's lineage. */
  datatype Origin = Origin(code: string, lineage: Lineage)

  /** A token response: the artefact spent, the refresh token made, for whom and how it was asked for. */
  datatype Grant = Grant(
    spent: Artefact, made: Artefact, origin: Origin, at: Instant, client: string, access: Tokens.Grantee,
    redirectURI: string, verifier: string)

  /** Codes and refresh tokens ever stored, by key, with their origin; and for each the latest upstream
      refresh token received on the way to it, if there was one. */
  datatype History = History(
    registrations: map<string, Registration>,
    authorized: map<Lineage, Authorization>,
    issued: map<string, Issue>,
    refreshOf: map<string, Origin>,
    upstream: map<Artefact, Bytes>,
    grants: seq<Grant>)

  datatype State = State(t: Tables, clock: Instant, h: History)

  datatype Event = Event(now: Instant, op: Op)

  const EMPTY: Tables := Tables(map[], map[], map[], map[])

  function Initial(clock: Instant): State {
    State(EMPTY, clock, History(map[], map[], map[], map[], map[], []))
  }

  /** The random values of a request have not been drawn before. */
  predicate FreshDraws(env: Env, h: History, op: Op) {
    match op
    case Register(_, _, clientID, _) => clientID !in h.registrations
    case Authorize(_, _, _, _, _, _, _, _, _, upstreamState, _) =>
      upstreamState.Some? ==> upstreamState.value !in h.authorized
    case Callback(_, _, _, _, _, _, localCode, _) => localCode.Some? ==> localCode.value !in h.issued
    case ExchangeCode(_, _, _, _, _, _, refresh) => refresh.Some? ==> env.hash(refresh.value) !in h.refreshOf
    case ExchangeRefresh(_, _, _, _, _, _, refresh, _) => refresh.Some? ==> env.hash(refresh.value) !in h.refreshOf
    case _ => true
  }

  function Elapsed(op: Op): nat {
    match op
    case Callback(_, _, _, _, _, _, _, elapsed) => elapsed
    case ExchangeRefresh(_, _, _, _, _, _, _, elapsed) => elapsed
    case _ => 0
  }

  predicate Enabled(env: Env, s: State, ev: Event) {
    s.clock <= ev.now && FreshDraws(env, s.h, ev.op)
  }

  function OriginOfCode(h: History, code: string): Origin {
    if code in h.issued then Origin(code, h.issued[code].lineage) else Origin(code, "")
  }

  function OriginOfRefresh(h: History, hash: string): Origin {
    if hash in h.refreshOf then h.refreshOf[hash] else Origin("", "")
  }

  /** A new artefact's latest upstream token: the one just received, or else that of the artefact spent. */
  function Passed(upstream: map<Artefact, Bytes>, spent: Artefact, made: Artefact, received: Bytes): map<Artefact, Bytes> {
    if received != [] then upstream[made := received]
    else if spent in upstream then upstream[made := upstream[spent]]
    else upstream - {made}
  }

  /** A callback that inserted a code row. */
  predicate Issues(t: Tables, t': Tables, op: Op) {
    op.Callback? && op.localCode.Some? && op.localCode.value !in t.codes && op.localCode.value in t'.codes
  }

  /** This refresh exchange asked the provider and got a new refresh token: only when the stored blob
      decrypted. */
  predicate Receives(env: Env, t: Tables, now: Instant, op: Op) {
    && op.ExchangeRefresh? && op.token != "" && op.io.lookup
    && env.hash(op.token) in t.refreshes
    && Authenticate(env, t, op.io, op.creds).Ok?
    && RefreshAccepts(t.refreshes[env.hash(op.token)], Authenticate(env, t, op.io, op.creds).value, now)
    && t.refreshes[env.hash(op.token)].upstreamEnc != []
    && Cipher.Decrypt(env.aead, env.cipher, t.refreshes[env.hash(op.token)].upstreamEnc).Ok?
    && op.call.Answered? && op.call.answer.refreshToken != []
  }

  function Received(env: Env, t: Tables, now: Instant, op: Op): Bytes {
    if Receives(env, t, now, op) then op.call.answer.refreshToken else []
  }

  /** What a registration's answer tells the client is what is on record. */
  function Registrations(h: History, op: Op, r: Response): map<string, Registration> {
    if op.Register? && r.Created? then h.registrations[r.clientID := Registration(op.redirectURIs, r.secret)]
    else h.registrations
  }

  /** An authorize request as made, with the defaults for what it leaves out. */
  function Asked(env: Env, op: Op, at: Instant, registered: seq<string>): Authorization
    requires op.Authorize?
  {
    Authorization(op.clientID, op.redirectURI, op.codeChallenge, if op.scope == "" then env.scopes else op.scope,
                  env.resource, op.state, at, registered)
  }

  /** What the history gains from an event, given the tables before it and its outcome. */
  function Recorded(env: Env, s: State, ev: Event, o: Outcome): History {
    Lineages(env, s, ev, o).(registrations := Registrations(s.h, ev.op, o.r))
  }

  function Lineages(env: Env, s: State, ev: Event, o: Outcome): History {
    var h, op := s.h, ev.op;
    if op.Authorize? && op.upstreamState.Some? && op.upstreamState.value in o.t.sessions &&
            op.upstreamState.value !in s.t.sessions && op.clientID in s.t.clients then
      h.(authorized := h.authorized[op.upstreamState.value :=
           Asked(env, op, ev.now, s.t.clients[op.clientID].redirectURIs)])
    else if Issues(s.t, o.t, op) && op.call.Answered? then
      var code, up := op.localCode.value, op.call.answer;
      h.(issued := h.issued[code := Issue(op.state, o.t.codes[code], ev.now, ev.now + op.elapsed, up.identity)],
         upstream := Passed(h.upstream, SessionOf(op.state), CodeOf(code), up.refreshToken))
    else if op.ExchangeCode? && o.r.Granted? then
      Granting(env, h, ev, o.r, CodeOf(op.code), OriginOfCode(h, op.code), op.redirectURI, op.verifier, [])
    else if op.ExchangeRefresh? && o.r.Granted? then
      var hash := env.hash(op.token);
      Granting(env, h, ev, o.r, RefreshOf(hash), OriginOfRefresh(h, hash), "", "", Received(env, s.t, ev.now, op))
    else h
  }

  /** The record of a grant that spent one artefact and made a refresh token. */
  function Granting(env: Env, h: History, ev: Event, r: Response, spent: Artefact, origin: Origin,
                    redirectURI: string, verifier: string, received: Bytes): History
    requires r.Granted? && (ev.op.ExchangeCode? || ev.op.ExchangeRefresh?)
  {
    var made := env.hash(r.refresh);
    h.(refreshOf := h.refreshOf[made := origin],
       upstream := Passed(h.upstream, spent, RefreshOf(made), received),
       grants := h.grants + [Grant(spent, RefreshOf(made), origin, ev.now, ClientIn(ev.op.creds), r.access,
                                   redirectURI, verifier)])
  }

  function ClientIn(creds: Credentials): string {
    if Extracted(creds).Some? then Extracted(creds).value.0 else ""
  }

  function Step(env: Env, s: State, ev: Event): State {
    var o := Handle(env, s.t, ev.now, ev.op);
    State(o.t, ev.now + Elapsed(ev.op), Recorded(env, s, ev, o))
  }

  predicate Runs(env: Env, s: State, evs: seq<Event>)
    decreases |evs|
  {
    evs == [] || (Enabled(env, s, evs[0]) && Runs(env, Step(env, s, evs[0]), evs[1..]))
  }

  function AfterRun(env: Env, s: State, evs: seq<Event>): State
    decreases |evs|
  {
    if evs == [] then s else AfterRun(env, Step(env, s, evs[0]), evs[1..])
  }

  // ---------- Liveness of artefacts ----------

  predicate Live(t: Tables, a: Artefact) {
    match a
    case SessionOf(state) => state in t.sessions
    case CodeOf(code) => code in t.codes
    case RefreshOf(hash) => hash in t.refreshes
  }

  function LineageOf(h: History, a: Artefact): Option<Lineage> {
    match a
    case SessionOf(state) => if state in h.authorized then Some(state) else None
    case CodeOf(code) => if code in h.issued then Some(h.issued[code].lineage) else None
    case RefreshOf(hash) => if hash in h.refreshOf then Some(h.refreshOf[hash].lineage) else None
  }

  /** The deletes of single-use rows succeed. */
  predicate DeletesOk(op: Op) {
    op.Callback? || op.ExchangeCode? || op.ExchangeRefresh? || op.Revoke? ==> op.io.delete
  }

  predicate AllDeletesOk(evs: seq<Event>) {
    forall i | 0 <= i < |evs| :: DeletesOk(evs[i].op)
  }

  /** A session row that says what an authorize request asked. */
  ghost predicate FromAuthorize(row: Session, a: Authorization) {
    && row.clientID == a.clientID && row.redirectURI == a.redirectURI && row.scopes == a.scopes
    && row.resource == a.resource && row.originalState == a.state
    && row.codeChallenge == a.codeChallenge && row.challengeMethod == "S256"
    && row.expiresAt == Unix(a.at + Seconds(600))
  }
}
