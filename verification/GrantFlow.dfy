/** The flow a well-behaved client goes through succeeds: registration, authorize, callback, code
    exchange, refresh exchange, each using exactly what the answers before it handed out. */
module GrantFlow {
  import opened Clock
  import opened Wrappers
  import opened Claims
  import opened GrantTypes
  import opened GrantSpec
  import opened GrantRuns
  import opened GrantEffects
  import Tokens

  const ALL_OK: Io := Io(true, true, true, true, true)

  /** What the client chooses and what is drawn for it on the way. */
  datatype Plan = Plan(
    uris: seq<string>, id: string, secret: string,
    uri: string, challenge: string, verifier: string, state: string, scope: string, upstreamState: string,
    upstreamCode: string, answer: Upstream, nonce: Option<Bytes>, code: string, elapsed: nat,
    first: string, second: string)

  /** The client registers valid redirect URIs, uses one of them, and knows the verifier of its challenge;
      encryption works if the provider sent a refresh token. */
  ghost predicate Sound(env: Env, p: Plan) {
    && p.uri in p.uris && (forall u | u in p.uris :: ValidRedirect(env, u)) && env.parses(p.uri)
    && p.id != "" && p.secret != "" && p.uri != "" && p.challenge != "" && p.verifier != "" && p.code != ""
    && p.upstreamState != "" && p.upstreamCode != "" && p.first != ""
    && env.s256(p.verifier) == p.challenge
    && (p.answer.refreshToken != [] ==> Sealed(env, p.nonce, p.answer.refreshToken).Some?)
  }

  function Creds(p: Plan): Credentials {
    Credentials(p.id, p.secret, None)
  }

  function Registering(p: Plan): Op {
    Register(ALL_OK, p.uris, p.id, p.secret)
  }

  function Authorizing(p: Plan): Op {
    Authorize(ALL_OK, "code", p.id, p.uri, p.challenge, "S256", p.state, p.scope, true, Some(p.upstreamState), true)
  }

  function CallingBack(p: Plan): Op {
    Callback(ALL_OK, "", p.upstreamCode, p.upstreamState, Answered(p.answer), p.nonce, Some(p.code), p.elapsed)
  }

  function Exchanging(p: Plan): Op {
    ExchangeCode(ALL_OK, Creds(p), p.code, p.uri, p.verifier, true, Some(p.first))
  }

  function Refreshing(p: Plan, call: UpstreamCall, nonce: Option<Bytes>): Op {
    ExchangeRefresh(ALL_OK, Creds(p), p.first, call, nonce, true, Some(p.second), 0)
  }

  /** Whom the tokens are for: the provider's subject and allowed claims, the scopes asked for. */
  function Promised(env: Env, p: Plan): Tokens.Grantee {
    Tokens.Grantee(SubOf(p.answer.identity), if p.scope == "" then env.scopes else p.scope, p.id,
                   Only(p.answer.identity, ALLOWED))
  }

  // ---------- Step by step ----------

  lemma Registers(env: Env, t: Tables, now: Instant, p: Plan)
    requires Sound(env, p) && p.id !in t.clients
    ensures var o := Handle(env, t, now, Registering(p));
      && o.r == Created(p.id, p.secret)
      && Knows(env, o.t, p) && o.t.sessions == t.sessions && o.t.codes == t.codes && o.t.refreshes == t.refreshes
  {}

  /** The client's row, as far as later requests look at it. */
  ghost predicate Knows(env: Env, t: Tables, p: Plan) {
    p.id in t.clients && t.clients[p.id].secretHash == env.hash(p.secret) && t.clients[p.id].redirectURIs == p.uris
  }

  lemma Authorizes(env: Env, t: Tables, now: Instant, p: Plan)
    requires Sound(env, p) && Knows(env, t, p) && p.upstreamState !in t.sessions
    ensures var o := Handle(env, t, now, Authorizing(p));
      && o.r == RedirectUpstream(p.upstreamState) && Knows(env, o.t, p)
      && o.t.codes == t.codes && o.t.refreshes == t.refreshes
      && p.upstreamState in o.t.sessions
      && FromAuthorize(o.t.sessions[p.upstreamState], Asked(env, Authorizing(p), now, p.uris))
  {}

  lemma CallsBack(env: Env, t: Tables, asked: Instant, now: Instant, p: Plan)
    requires Sound(env, p) && Knows(env, t, p) && p.code !in t.codes && p.upstreamState in t.sessions
    requires FromAuthorize(t.sessions[p.upstreamState], Asked(env, Authorizing(p), asked, p.uris))
    requires now <= asked + Seconds(599)
    ensures var o := Handle(env, t, now, CallingBack(p));
      && o.r == RedirectWithCode(p.uri, p.code, p.state) && Knows(env, o.t, p) && o.t.refreshes == t.refreshes
      && p.code in o.t.codes && HasCode(env, p, o.t.codes[p.code], now)
  {
    NotExpired(now, asked, 600);
  }

  lemma NotExpired(now: Instant, start: Instant, ttl: nat)
    requires now <= start + Seconds(ttl - 1)
    ensures !After(now, Unix(start + Seconds(ttl)))
  {}

  ghost predicate HasCode(env: Env, p: Plan, row: Code, called: Instant) {
    && CodeGrantee(row) == Promised(env, p) && row.redirectURI == p.uri && row.codeChallenge == p.challenge
    && row.challengeMethod == "S256" && row.expiresAt == Unix(called + p.elapsed + Seconds(60))
  }

  lemma Exchanges(env: Env, t: Tables, called: Instant, now: Instant, p: Plan)
    requires Sound(env, p) && Knows(env, t, p) && env.hash(p.first) !in t.refreshes && p.code in t.codes
    requires HasCode(env, p, t.codes[p.code], called) && now <= called + p.elapsed + Seconds(59)
    ensures var o := Handle(env, t, now, Exchanging(p));
      && o.r == Granted(Promised(env, p), p.first, Promised(env, p).scopes) && Knows(env, o.t, p)
      && env.hash(p.first) in o.t.refreshes && o.t.refreshes.Keys == t.refreshes.Keys + {env.hash(p.first)}
      && RefreshGrantee(o.t.refreshes[env.hash(p.first)]) == Promised(env, p)
      && o.t.refreshes[env.hash(p.first)].expiresAt == Unix(now + env.refreshTTL)
  {
    NotExpired(now, called + p.elapsed, 60);
    assert Authenticate(env, t, ALL_OK, Creds(p)) == Ok(p.id);
  }

  lemma Refreshes(env: Env, t: Tables, granted: Instant, now: Instant, p: Plan, call: UpstreamCall, nonce: Option<Bytes>)
    requires Sound(env, p) && Knows(env, t, p) && env.hash(p.second) !in t.refreshes && env.hash(p.first) in t.refreshes
    requires RefreshGrantee(t.refreshes[env.hash(p.first)]) == Promised(env, p)
    requires t.refreshes[env.hash(p.first)].expiresAt == Unix(granted + env.refreshTTL)
    requires now <= granted + env.refreshTTL - Seconds(1) && (env.strictUpstream ==> call.Answered?)
    ensures Handle(env, t, now, Refreshing(p, call, nonce)).r
         == Granted(Promised(env, p), p.second, Promised(env, p).scopes)
  {
    assert !After(now, Unix(granted + env.refreshTTL));
    assert Authenticate(env, t, ALL_OK, Creds(p)) == Ok(p.id);
  }

  // ---------- The whole flow ----------

  /** The answers to a list of timed requests, one after the other. */
  function Answers(env: Env, t: Tables, evs: seq<Event>): seq<Response>
    decreases |evs|
  {
    if evs == [] then []
    else
      var o := Handle(env, t, evs[0].now, evs[0].op);
      [o.r] + Answers(env, o.t, evs[1..])
  }

  lemma AnswersCons(env: Env, t: Tables, ev: Event, rest: seq<Event>, r: Response, rs: seq<Response>)
    requires Handle(env, t, ev.now, ev.op).r == r && Answers(env, Handle(env, t, ev.now, ev.op).t, rest) == rs
    ensures Answers(env, t, [ev] + rest) == [r] + rs
  {
    assert ([ev] + rest)[0] == ev && ([ev] + rest)[1..] == rest;
  }

  /** When the five requests come. */
  datatype Times = Times(register: Instant, authorize: Instant, callback: Instant, exchange: Instant, refresh: Instant)

  /** Each in time for the answer before it. */
  predicate InTime(env: Env, p: Plan, at: Times) {
    && at.callback <= at.authorize + Seconds(599) && at.exchange <= at.callback + p.elapsed + Seconds(59)
    && at.refresh <= at.exchange + env.refreshTTL - Seconds(1)
  }

  /** The provider's answer to the refresh, which must come only in strict mode. */
  datatype Second = Second(call: UpstreamCall, nonce: Option<Bytes>)

  function TokenRequests(p: Plan, at: Times, again: Second): seq<Event> {
    [Event(at.exchange, Exchanging(p))] + ([Event(at.refresh, Refreshing(p, again.call, again.nonce))] + [])
  }

  function Flow(p: Plan, at: Times, again: Second): seq<Event> {
    [Event(at.register, Registering(p))] + ([Event(at.authorize, Authorizing(p))] +
    ([Event(at.callback, CallingBack(p))] + TokenRequests(p, at, again)))
  }

  function Grants(env: Env, p: Plan): seq<Response> {
    [Granted(Promised(env, p), p.first, Promised(env, p).scopes)] +
    ([Granted(Promised(env, p), p.second, Promised(env, p).scopes)] + [])
  }

  lemma TokensFlow(env: Env, t: Tables, p: Plan, at: Times, again: Second)
    requires Sound(env, p) && Knows(env, t, p) && InTime(env, p, at) && (env.strictUpstream ==> again.call.Answered?)
    requires env.hash(p.first) !in t.refreshes && env.hash(p.second) !in t.refreshes
    requires env.hash(p.first) != env.hash(p.second)
    requires p.code in t.codes && HasCode(env, p, t.codes[p.code], at.callback)
    ensures Answers(env, t, TokenRequests(p, at, again)) == Grants(env, p)
  {
    var exchange, refresh := Event(at.exchange, Exchanging(p)), Event(at.refresh, Refreshing(p, again.call, again.nonce));
    var t' := Exchanged(env, t, p, at);
    Refreshes(env, t', at.exchange, at.refresh, p, again.call, again.nonce);
    AnswersCons(env, t', refresh, [], Granted(Promised(env, p), p.second, Promised(env, p).scopes), []);
    AnswersCons(env, t, exchange, [refresh] + [], Granted(Promised(env, p), p.first, Promised(env, p).scopes),
                [Granted(Promised(env, p), p.second, Promised(env, p).scopes)] + []);
  }

  lemma Exchanged(env: Env, t: Tables, p: Plan, at: Times) returns (t': Tables)
    requires Sound(env, p) && Knows(env, t, p) && InTime(env, p, at)
    requires env.hash(p.first) !in t.refreshes && env.hash(p.second) !in t.refreshes
    requires env.hash(p.first) != env.hash(p.second)
    requires p.code in t.codes && HasCode(env, p, t.codes[p.code], at.callback)
    ensures var o := Handle(env, t, at.exchange, Exchanging(p));
      o.t == t' && o.r == Granted(Promised(env, p), p.first, Promised(env, p).scopes)
    ensures Knows(env, t', p) && env.hash(p.second) !in t'.refreshes && env.hash(p.first) in t'.refreshes
    ensures RefreshGrantee(t'.refreshes[env.hash(p.first)]) == Promised(env, p)
    ensures t'.refreshes[env.hash(p.first)].expiresAt == Unix(at.exchange + env.refreshTTL)
  {
    Exchanges(env, t, at.callback, at.exchange, p);
    t' := Handle(env, t, at.exchange, Exchanging(p)).t;
  }

  /** Nothing drawn for the plan is taken. */
  ghost predicate Unused(env: Env, t: Tables, p: Plan) {
    && p.id !in t.clients && p.upstreamState !in t.sessions && p.code !in t.codes
    && env.hash(p.first) !in t.refreshes && env.hash(p.second) !in t.refreshes && env.hash(p.first) != env.hash(p.second)
  }

  lemma SignIn(env: Env, t: Tables, p: Plan, at: Times) returns (t1: Tables, t2: Tables, t3: Tables)
    requires Sound(env, p) && Unused(env, t, p) && InTime(env, p, at)
    ensures var o := Handle(env, t, at.register, Registering(p)); o.t == t1 && o.r == Created(p.id, p.secret)
    ensures var o := Handle(env, t1, at.authorize, Authorizing(p)); o.t == t2 && o.r == RedirectUpstream(p.upstreamState)
    ensures var o := Handle(env, t2, at.callback, CallingBack(p));
      o.t == t3 && o.r == RedirectWithCode(p.uri, p.code, p.state)
    ensures Knows(env, t3, p) && t3.refreshes == t.refreshes
    ensures p.code in t3.codes && HasCode(env, p, t3.codes[p.code], at.callback)
  {
    Registers(env, t, at.register, p);
    t1 := Handle(env, t, at.register, Registering(p)).t;
    Authorizes(env, t1, at.authorize, p);
    t2 := Handle(env, t1, at.authorize, Authorizing(p)).t;
    CallsBack(env, t2, at.authorize, at.callback, p);
    t3 := Handle(env, t2, at.callback, CallingBack(p)).t;
  }

  /** From any tables: when every statement succeeds, the provider answers, and each request comes in time
      (599 s to the callback, 59 s from it to the exchange, a second less than the refresh lifetime to the
      refresh), each answer hands out what the next request needs, and both exchanges are granted for the
      provider's subject, its allowed claims, and the scopes asked for. */
  lemma FlowSucceeds(env: Env, t: Tables, p: Plan, at: Times, again: Second)
    requires Sound(env, p) && Unused(env, t, p) && InTime(env, p, at) && (env.strictUpstream ==> again.call.Answered?)
    ensures Answers(env, t, Flow(p, at, again)) ==
      [Created(p.id, p.secret)] + ([RedirectUpstream(p.upstreamState)] +
      ([RedirectWithCode(p.uri, p.code, p.state)] + Grants(env, p)))
  {
    var t1, t2, t3 := SignIn(env, t, p, at);
    var rest, callback, authorize := TokenRequests(p, at, again), Event(at.callback, CallingBack(p)),
                                     Event(at.authorize, Authorizing(p));
    TokensFlow(env, t3, p, at, again);
    AnswersCons(env, t2, callback, rest, RedirectWithCode(p.uri, p.code, p.state), Grants(env, p));
    AnswersCons(env, t1, authorize, [callback] + rest, RedirectUpstream(p.upstreamState),
                [RedirectWithCode(p.uri, p.code, p.state)] + Grants(env, p));
    AnswersCons(env, t, Event(at.register, Registering(p)), [authorize] + ([callback] + rest), Created(p.id, p.secret),
                [RedirectUpstream(p.upstreamState)] + ([RedirectWithCode(p.uri, p.code, p.state)] + Grants(env, p)));
  }
}
