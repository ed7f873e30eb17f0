/** What each request uses up, and what it must leave alone. */
module GrantFrames {
  import opened Clock
  import opened Wrappers
  import opened GrantTypes
  import opened GrantSpec
  import opened GrantRuns
  import opened GrantEffects
  import opened GrantTrace

  // ---------- A presented code or refresh token is used up ----------

  /** The client authenticates, the parameters are there, and lookup and delete succeed. */
  predicate Presents(env: Env, t: Tables, op: Op) {
    && (op.ExchangeCode? || op.ExchangeRefresh?)
    && Authenticate(env, t, op.io, op.creds).Ok? && op.io.lookup && op.io.delete
    && (op.ExchangeCode? ==> op.code != "" && op.redirectURI != "" && op.verifier != "")
    && (op.ExchangeRefresh? ==> op.token != "")
  }

  function Presented(env: Env, op: Op): Artefact
    requires op.ExchangeCode? || op.ExchangeRefresh?
  {
    match op
    case ExchangeCode(_, _, code, _, _, _, _) => CodeOf(code)
    case ExchangeRefresh(_, _, token, _, _, _, _, _) => RefreshOf(env.hash(token))
  }

  lemma PresentedCodeGoes(env: Env, t: Tables, now: Instant, op: Op)
    requires op.ExchangeCode? && Presents(env, t, op)
    ensures HandleToken(env, t, now, op).t.codes == t.codes - {op.code}
  {
    TouchKeepsRest(t, op.io, op.creds, now);
  }

  lemma PresentedRefreshGoes(env: Env, t: Tables, now: Instant, op: Op)
    requires op.ExchangeRefresh? && Presents(env, t, op)
    requires op.refresh.Some? ==> env.hash(op.refresh.value) != env.hash(op.token)
    ensures env.hash(op.token) !in HandleToken(env, t, now, op).t.refreshes
  {
    TouchKeepsRest(t, op.io, op.creds, now);
  }

  /** Stored once, and not any more. */
  ghost predicate Used(s: State, x: Artefact) {
    LineageOf(s.h, x).Some? && !Live(s.t, x)
  }

  lemma StepKeepsUsed(env: Env, s: State, ev: Event, x: Artefact)
    requires Trail(env, s) && Enabled(env, s, ev) && Used(s, x)
    ensures Trail(env, Step(env, s, ev)) && Used(Step(env, s, ev), x)
  {
    StepKeepsTrail(env, s, ev);
    EffectKeepsUsed(env, s, ev, Step(env, s, ev), x);
  }

  lemma EffectKeepsUsed(env: Env, s: State, ev: Event, s': State, x: Artefact)
    requires Effect(env, s, ev, s') && Used(s, x)
    ensures Used(s', x)
  {}

  lemma {:induction false} RunKeepsUsed(env: Env, s: State, evs: seq<Event>, x: Artefact)
    requires Trail(env, s) && Runs(env, s, evs) && Used(s, x)
    ensures Used(AfterRun(env, s, evs), x)
    decreases |evs|
  {
    if evs != [] {
      StepKeepsUsed(env, s, evs[0], x);
      RunKeepsUsed(env, Step(env, s, evs[0]), evs[1..], x);
    }
  }

  lemma PresentedIsUsed(env: Env, s: State, ev: Event)
    requires Trail(env, s) && Enabled(env, s, ev) && Presents(env, s.t, ev.op) && Live(s.t, Presented(env, ev.op))
    ensures Used(Step(env, s, ev), Presented(env, ev.op))
  {
    RootedIsDrawn(s);
    StepKeepsTrail(env, s, ev);
    if ev.op.ExchangeCode? { PresentedCodeGoes(env, s.t, ev.now, ev.op); }
    else { PresentedRefreshGoes(env, s.t, ev.now, ev.op); }
  }

  lemma UsedIsRefused(env: Env, t: Tables, now: Instant, op: Op)
    requires (op.ExchangeCode? || op.ExchangeRefresh?) && !Live(t, Presented(env, op))
    ensures !HandleToken(env, t, now, op).r.Granted?
  {
    TouchKeepsRest(t, op.io, op.creds, now);
  }

  /** Presenting a live code or refresh token uses it up, whatever the answer: a wrong verifier, redirect
      URI or client, an expired row, a failed mint. In no continuation of the run is it granted again. */
  lemma PresentedOnce(env: Env, clock: Instant, evs: seq<Event>, s: State, ev: Event, later: seq<Event>, again: Event)
    requires Reaches(env, clock, evs, s) && Enabled(env, s, ev)
    requires Presents(env, s.t, ev.op) && Live(s.t, Presented(env, ev.op))
    requires Runs(env, Step(env, s, ev), later)
    requires (again.op.ExchangeCode? || again.op.ExchangeRefresh?) && Presented(env, again.op) == Presented(env, ev.op)
    ensures var t' := AfterRun(env, Step(env, s, ev), later).t;
      !Live(t', Presented(env, ev.op)) && !HandleToken(env, t', again.now, again.op).r.Granted?
  {
    ReachedTrail(env, clock, evs, s);
    PresentedIsUsed(env, s, ev);
    StepKeepsTrail(env, s, ev);
    RunKeepsUsed(env, Step(env, s, ev), later, Presented(env, ev.op));
    UsedIsRefused(env, AfterRun(env, Step(env, s, ev), later).t, again.now, again.op);
  }

  // ---------- Other rows ----------

  /** The artefacts a request names: the one it looks up and the one it would store. */
  function Names(env: Env, op: Op): set<Artefact> {
    match op
    case Authorize(_, _, _, _, _, _, _, _, _, state, _) => if state.Some? then {SessionOf(state.value)} else {}
    case Callback(_, _, _, state, _, _, code, _) =>
      {SessionOf(state)} + if code.Some? then {CodeOf(code.value)} else {}
    case ExchangeCode(_, _, _, _, _, _, refresh) =>
      {Presented(env, op)} + if refresh.Some? then {RefreshOf(env.hash(refresh.value))} else {}
    case ExchangeRefresh(_, _, _, _, _, _, refresh, _) =>
      {Presented(env, op)} + if refresh.Some? then {RefreshOf(env.hash(refresh.value))} else {}
    case Revoke(_, _, token, _) => {RefreshOf(env.hash(token))}
    case _ => {}
  }

  ghost predicate SameRow(t: Tables, t': Tables, x: Artefact) {
    match x
    case SessionOf(k) => Find(t'.sessions, k) == Find(t.sessions, k)
    case CodeOf(k) => Find(t'.codes, k) == Find(t.codes, k)
    case RefreshOf(k) => Find(t'.refreshes, k) == Find(t.refreshes, k)
  }

  lemma CallbackSparesOthers(t: Tables, op: Op, v: Verdict<Code>, x: Artefact)
    requires op.Callback? && (v.Make? ==> op.localCode.Some?)
    requires x != SessionOf(op.state) && (op.localCode.Some? ==> x != CodeOf(op.localCode.value))
    ensures SameRow(t, CallbackTables(t, op, v).t, x)
  {}

  lemma CodeSparesOthers(t: Tables, op: Op, v: Verdict<Refresh>, hash: string, x: Artefact)
    requires op.ExchangeCode? && x != CodeOf(op.code) && (v.Make? ==> x != RefreshOf(hash))
    ensures SameRow(t, CodeTables(t, op, v, hash).t, x)
  {}

  lemma RefreshSparesOthers(t: Tables, op: Op, v: Verdict<Refresh>, spent: string, hash: string, x: Artefact)
    requires op.ExchangeRefresh? && x != RefreshOf(spent) && (v.Make? ==> x != RefreshOf(hash))
    ensures SameRow(t, RefreshTables(t, op, v, spent, hash).t, x)
  {}

  lemma TokenSparesOthers(env: Env, t: Tables, now: Instant, op: Op, x: Artefact)
    requires (op.ExchangeCode? || op.ExchangeRefresh?) && x !in Names(env, op)
    ensures SameRow(t, HandleToken(env, t, now, op).t, x)
  {
    var t1 := TouchedBy(t, op.io, op.creds, now);
    TouchKeepsRest(t, op.io, op.creds, now);
    var who := Authenticate(env, t, op.io, op.creds);
    if who.Ok? && op.ExchangeCode? {
      CodeMakes(env, Find(t1.codes, op.code), now, op, who.value);
      CodeSparesOthers(t1, op, CodeVerdict(env, Find(t1.codes, op.code), now, op, who.value), NewHash(env, op.refresh), x);
    } else if who.Ok? {
      var spent := env.hash(op.token);
      RefreshMakes(env, Find(t1.refreshes, spent), now, op, who.value);
      RefreshSparesOthers(t1, op, RefreshVerdict(env, Find(t1.refreshes, spent), now, op, who.value), spent,
                          NewHash(env, op.refresh), x);
    }
  }

  /** No request changes a session, code or refresh token it does not name; introspection and registration
      change none. */
  lemma RequestsSpareOthers(env: Env, t: Tables, now: Instant, op: Op, x: Artefact)
    requires !op.CleanSessions? && !op.CleanCodes? && !op.CleanRefreshes? && x !in Names(env, op)
    ensures SameRow(t, Handle(env, t, now, op).t, x)
  {
    if op.Authorize? {
      AuthorizeChange(env, t, now, op);
    } else if op.Callback? {
      CallbackMakes(env, Find(t.sessions, op.state), now, op);
      CallbackSparesOthers(t, op, CallbackVerdict(env, Find(t.sessions, op.state), now, op), x);
    } else if op.ExchangeCode? || op.ExchangeRefresh? {
      TokenSparesOthers(env, t, now, op, x);
    }
  }

  // ---------- Sweeps ----------

  /** A sweep removes a row exactly when its expiry instant has come, and keeps the others as they are. */
  lemma SweepsAreExact(t: Tables, now: Instant)
    ensures var t' := Clean(t, now, CleanSessions);
      Sub(t'.sessions, t.sessions) && t' == t.(sessions := t'.sessions) &&
      forall k | k in t.sessions :: k in t'.sessions <==> now < Seconds(t.sessions[k].expiresAt)
    ensures var t' := Clean(t, now, CleanCodes);
      Sub(t'.codes, t.codes) && t' == t.(codes := t'.codes) &&
      forall k | k in t.codes :: k in t'.codes <==> now < Seconds(t.codes[k].expiresAt)
    ensures var t' := Clean(t, now, CleanRefreshes);
      Sub(t'.refreshes, t.refreshes) && t' == t.(refreshes := t'.refreshes) &&
      forall k | k in t.refreshes :: k in t'.refreshes <==> now < Seconds(t.refreshes[k].expiresAt)
  {
    forall e ensures Gone(e, now) <==> Seconds(e) <= now { UnixAtLeast(now, e); }
  }

  /** A request that registers or touches a client, the statements for that succeeding. */
  predicate Uses(env: Env, t: Tables, at: Instant, op: Op, id: string) {
    match op
    case Register(_, _, clientID, _) => clientID == id && HandleRegister(env, t, at, op).r.Created?
    case Authorize(_, _, clientID, _, _, _, _, _, _, _, _) =>
      clientID == id && id in t.clients && AuthorizeObjection(op).None? && op.io.client && op.io.touch
    case ExchangeCode(_, _, _, _, _, _, _) =>
      Extracted(op.creds).Some? && Extracted(op.creds).value.0 == id && id in t.clients && op.io.client && op.io.touch
    case ExchangeRefresh(_, _, _, _, _, _, _, _) =>
      Extracted(op.creds).Some? && Extracted(op.creds).value.0 == id && id in t.clients && op.io.client && op.io.touch
    case _ => false
  }

  /** A client last used at `at` survives the sweep of stale clients exactly when that is no more than
      `olderThan` ago, in whole seconds. (The second zero of the epoch stands for "never used".) */
  lemma StaleClientsGo(env: Env, t: Tables, at: Instant, op: Op, id: string, now: Instant, olderThan: Duration)
    requires Uses(env, t, at, op, id) && Unix(at) != 0
    ensures var t' := Handle(env, t, at, op).t;
      id in t'.clients &&
      (id in Clean(t', now, CleanClients(olderThan)).clients <==> Unix(now - olderThan) <= Unix(at))
  {
    if op.ExchangeCode? || op.ExchangeRefresh? { ExchangeKeepsClients(env, t, at, op); }
  }

  /** Only the time of last use may differ. */
  predicate Restamped(c: Client, c': Client) {
    c'.(lastUsedAt := c.lastUsedAt) == c
  }

  lemma RegisterSparesClients(env: Env, t: Tables, now: Instant, op: Op, id: string)
    requires op.Register? && id in t.clients
    ensures var t' := HandleRegister(env, t, now, op).t; id in t'.clients && t'.clients[id] == t.clients[id]
  {}

  lemma AuthorizeSparesClients(env: Env, t: Tables, now: Instant, op: Op, id: string)
    requires op.Authorize? && id in t.clients
    ensures var t' := HandleAuthorize(env, t, now, op).t;
      id in t'.clients && Restamped(t.clients[id], t'.clients[id]) &&
      (!Uses(env, t, now, op, id) ==> t'.clients[id] == t.clients[id])
  {
    if AuthorizeObjection(op).None? && op.io.client && op.clientID in t.clients {
      var t1 := Touched(t, op.io, op.clientID, now);
      InsertKeepsClients(t1, op, AuthorizeSession(env, t.clients[op.clientID], now, op));
    }
  }

  lemma ExchangeSparesClients(env: Env, t: Tables, now: Instant, op: Op, id: string)
    requires (op.ExchangeCode? || op.ExchangeRefresh?) && id in t.clients
    ensures var t' := HandleToken(env, t, now, op).t;
      id in t'.clients && Restamped(t.clients[id], t'.clients[id]) &&
      (!Uses(env, t, now, op, id) ==> t'.clients[id] == t.clients[id])
  {
    ExchangeKeepsClients(env, t, now, op);
  }

  /** No other client's row changes at all, and of the one used only the time of last use. */
  lemma RequestsSpareOtherClients(env: Env, t: Tables, now: Instant, op: Op, id: string)
    requires id in t.clients && !op.CleanClients?
    ensures var t' := Handle(env, t, now, op).t;
      id in t'.clients && Restamped(t.clients[id], t'.clients[id]) &&
      (!Uses(env, t, now, op, id) ==> t'.clients[id] == t.clients[id])
  {
    if op.Register? { RegisterSparesClients(env, t, now, op, id); }
    else if op.Authorize? { AuthorizeSparesClients(env, t, now, op, id); }
    else if op.ExchangeCode? || op.ExchangeRefresh? { ExchangeSparesClients(env, t, now, op, id); }
    else if op.Callback? { CallbackKeepsClients(env, t, now, op); }
  }
}
