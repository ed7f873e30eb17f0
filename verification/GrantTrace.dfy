/** Where every row of a lineage comes from: the registration, the authorize request and the callback
    that made it. */
module GrantTrace {
  import opened Clock
  import opened Wrappers
  import opened Claims
  import opened GrantTypes
  import opened GrantSpec
  import opened GrantRuns
  import opened GrantEffects

  // ---------- Clients ----------

  /** Registered redirect URIs have passed validation. */
  ghost predicate RegistrationsOk(env: Env, h: History) {
    forall id, u | id in h.registrations && u in h.registrations[id].redirectURIs :: ValidRedirect(env, u)
  }

  /** A client row carries the redirect URIs it was registered with, and the hash of the secret its
      registration was answered with. */
  ghost predicate ClientsOk(env: Env, t: Tables, h: History) {
    forall id | id in t.clients ::
      id in h.registrations && t.clients[id].redirectURIs == h.registrations[id].redirectURIs &&
      t.clients[id].secretHash == env.hash(h.registrations[id].secret)
  }

  /** Client rows are removed or re-stamped, but never re-registered. */
  ghost predicate SameClients(t: Tables, t': Tables) {
    forall id | id in t'.clients ::
      id in t.clients && t'.clients[id].redirectURIs == t.clients[id].redirectURIs &&
      t'.clients[id].secretHash == t.clients[id].secretHash
  }

  lemma OnlyRegisterAddsClients(env: Env, t: Tables, now: Instant, op: Op)
    requires !op.Register?
    ensures SameClients(t, Handle(env, t, now, op).t)
  {
    if op.ExchangeCode? || op.ExchangeRefresh? {
      ExchangeKeepsClients(env, t, now, op);
    } else if op.Authorize? {
      AuthorizeKeepsClients(env, t, now, op);
    } else if op.Callback? {
      CallbackKeepsClients(env, t, now, op);
    } else if op.Revoke? || op.Introspect? {
      ReadsKeepClients(env, t, now, op);
    }
  }

  lemma ReadsKeepClients(env: Env, t: Tables, now: Instant, op: Op)
    requires op.Revoke? || op.Introspect?
    ensures Handle(env, t, now, op).t.clients == t.clients
  {}

  lemma AuthorizeKeepsClients(env: Env, t: Tables, now: Instant, op: Op)
    requires op.Authorize?
    ensures SameClients(t, HandleAuthorize(env, t, now, op).t)
  {
    if AuthorizeObjection(op).None? && op.io.client && op.clientID in t.clients {
      var t1 := Touched(t, op.io, op.clientID, now);
      InsertKeepsClients(t1, op, AuthorizeSession(env, t.clients[op.clientID], now, op));
    }
  }

  lemma InsertKeepsClients(t: Tables, op: Op, made: Result<(string, Session), Response>)
    requires op.Authorize?
    ensures AuthorizeTables(t, op, made).t.clients == t.clients
  {}

  lemma CallbackKeepsClients(env: Env, t: Tables, now: Instant, op: Op)
    requires op.Callback?
    ensures HandleCallback(env, t, now, op).t.clients == t.clients
  {}

  lemma ExchangeKeepsClients(env: Env, t: Tables, now: Instant, op: Op)
    requires op.ExchangeCode? || op.ExchangeRefresh?
    ensures HandleToken(env, t, now, op).t.clients == TouchedBy(t, op.io, op.creds, now).clients
  {
    var t1 := TouchedBy(t, op.io, op.creds, now);
    var who := Authenticate(env, t, op.io, op.creds);
    if who.Ok? && op.ExchangeCode? {
      CodeMakes(env, Find(t1.codes, op.code), now, op, who.value);
      CodeApplied(t1, op, CodeVerdict(env, Find(t1.codes, op.code), now, op, who.value), NewHash(env, op.refresh));
    } else if who.Ok? {
      var hash := env.hash(op.token);
      RefreshMakes(env, Find(t1.refreshes, hash), now, op, who.value);
      RefreshApplied(t1, op, RefreshVerdict(env, Find(t1.refreshes, hash), now, op, who.value), hash, NewHash(env, op.refresh));
    }
  }

  lemma ClientsKept(env: Env, s: State, ev: Event)
    requires Enabled(env, s, ev) && RegistrationsOk(env, s.h) && ClientsOk(env, s.t, s.h)
    ensures var s' := Step(env, s, ev); RegistrationsOk(env, s'.h) && ClientsOk(env, s'.t, s'.h)
  {
    if ev.op.Register? {
      assert Handle(env, s.t, ev.now, ev.op) == HandleRegister(env, s.t, ev.now, ev.op);
    } else {
      OnlyRegisterAddsClients(env, s.t, ev.now, ev.op);
    }
  }

  // ---------- Authorize requests and sessions ----------

  ghost predicate AuthorizedOk(s: State) {
    forall l | l in s.h.authorized ::
      var a := s.h.authorized[l];
      a.clientID in s.h.registrations && a.registered == s.h.registrations[a.clientID].redirectURIs &&
      a.redirectURI in a.registered && a.at <= s.clock
  }

  /** A live session is its authorize request. */
  ghost predicate SessionsOk(s: State) {
    forall l | l in s.t.sessions :: l in s.h.authorized && FromAuthorize(s.t.sessions[l], s.h.authorized[l])
  }

  // ---------- Codes ----------

  /** An issued code repeats its authorize request and carries the filtered upstream identity. */
  ghost predicate FromCallback(i: Issue, a: Authorization) {
    && a.at <= i.at <= a.at + Seconds(600) && i.at <= i.later
    && i.row.clientID == a.clientID && i.row.redirectURI == a.redirectURI && i.row.scopes == a.scopes
    && i.row.resource == a.resource
    && i.row.codeChallenge == a.codeChallenge && i.row.challengeMethod == "S256"
    && i.row.expiresAt == Unix(i.later + Seconds(60))
    && i.row.sub == SubOf(i.identity) && i.row.claims == Only(i.identity, ALLOWED)
  }

  ghost predicate IssuedOk(h: History) {
    forall c | c in h.issued ::
      h.issued[c].lineage in h.authorized && FromCallback(h.issued[c], h.authorized[h.issued[c].lineage])
  }

  ghost predicate IssuedBefore(s: State) {
    forall c | c in s.h.issued :: s.h.issued[c].later <= s.clock
  }

  ghost predicate CodesOk(s: State) {
    forall c | c in s.t.codes :: c in s.h.issued && s.h.issued[c].row == s.t.codes[c]
  }

  // ---------- Refresh tokens and grants ----------

  /** A refresh row says what the originating code said. */
  ghost predicate SameGrantee(row: Refresh, origin: Code) {
    && row.sub == origin.sub && row.clientID == origin.clientID && row.scopes == origin.scopes
    && row.resource == origin.resource && row.claims == origin.claims
  }

  /** The origin is a code issued in that lineage. */
  ghost predicate OriginOk(h: History, o: Origin) {
    o.code in h.issued && h.issued[o.code].lineage == o.lineage
  }

  ghost predicate RefreshesOk(s: State) {
    forall k | k in s.t.refreshes ::
      k in s.h.refreshOf && OriginOk(s.h, s.h.refreshOf[k]) &&
      SameGrantee(s.t.refreshes[k], s.h.issued[s.h.refreshOf[k].code].row)
  }

  /** A grant names the identity of the originating code; a code grant also met its conditions. */
  ghost predicate GrantOk(env: Env, g: Grant, i: Issue) {
    && g.access == CodeGrantee(i.row) && g.client == i.row.clientID && i.later <= g.at
    && (g.spent.CodeOf? ==>
          g.spent.code == g.origin.code && CodeAccepts(env, i.row, g.client, g.redirectURI, g.verifier, g.at))
  }

  ghost predicate GrantsOk(env: Env, h: History) {
    forall n | 0 <= n < |h.grants| ::
      OriginOk(h, h.grants[n].origin) && GrantOk(env, h.grants[n], h.issued[h.grants[n].origin.code])
  }

  ghost predicate Rooted(s: State) {
    AuthorizedOk(s) && SessionsOk(s) && IssuedOk(s.h) && IssuedBefore(s) && CodesOk(s) && RefreshesOk(s)
  }

  // ---------- Every step keeps the trace ----------

  lemma QuietKeeps(s: State, s': State)
    requires Rooted(s) && Quiet(s, s')
    requires s.clock <= s'.clock && Sub(s.h.registrations, s'.h.registrations)
    ensures Rooted(s')
  {}

  lemma OpensKeeps(env: Env, s: State, ev: Event, s': State)
    requires Rooted(s) && ClientsOk(env, s.t, s.h) && Opens(env, s, ev, s')
    requires s.clock <= ev.now <= s'.clock
    ensures Rooted(s')
  {}

  lemma ExpiryBound(now: Instant, start: Instant, ttl: nat)
    requires !After(now, Unix(start + Seconds(ttl)))
    ensures now <= start + Seconds(ttl)
  {}

  lemma NewIssue(env: Env, s: State, ev: Event, s': State, a: Authorization)
    requires Codes(env, s, ev, s') && FromAuthorize(s.t.sessions[ev.op.state], a) && a.at <= ev.now
    ensures var code := ev.op.localCode.value; code in s'.h.issued && FromCallback(s'.h.issued[code], a)
  {
    ExpiryBound(ev.now, a.at, 600);
  }

  lemma CodesIssues(env: Env, s: State, ev: Event, s': State)
    requires AuthorizedOk(s) && SessionsOk(s) && IssuedOk(s.h) && Codes(env, s, ev, s') && s.clock <= ev.now
    ensures IssuedOk(s'.h)
  {
    NewIssue(env, s, ev, s', s.h.authorized[ev.op.state]);
    var code := ev.op.localCode.value;
    assert s'.h.issued == s.h.issued[code := s'.h.issued[code]];
  }

  lemma CodesKeepsRows(env: Env, s: State, ev: Event, s': State)
    requires SessionsOk(s) && CodesOk(s) && RefreshesOk(s) && Codes(env, s, ev, s')
    ensures SessionsOk(s') && CodesOk(s') && RefreshesOk(s')
  {}

  lemma CodesKeeps(env: Env, s: State, ev: Event, s': State)
    requires Rooted(s) && Codes(env, s, ev, s')
    requires s.clock <= ev.now && s'.clock == ev.now + ev.op.elapsed
    ensures Rooted(s')
  {
    CodesIssues(env, s, ev, s');
    CodesKeepsRows(env, s, ev, s');
  }

  lemma RedeemsKeeps(env: Env, s: State, ev: Event, s': State)
    requires Rooted(s) && Redeems(env, s, ev, s') && s.clock <= s'.clock
    ensures Rooted(s')
  {}

  lemma RotatesKeeps(env: Env, s: State, ev: Event, s': State)
    requires Rooted(s) && Rotates(env, s, ev, s') && s.clock <= s'.clock
    ensures Rooted(s')
  {}

  lemma RegistrationsGrow(env: Env, s: State, ev: Event)
    requires Enabled(env, s, ev)
    ensures Sub(s.h.registrations, Step(env, s, ev).h.registrations)
  {}

  lemma RootedKept(env: Env, s: State, ev: Event)
    requires Enabled(env, s, ev) && Rooted(s) && ClientsOk(env, s.t, s.h) && Effect(env, s, ev, Step(env, s, ev))
    ensures Rooted(Step(env, s, ev))
  {
    var s' := Step(env, s, ev);
    RegistrationsGrow(env, s, ev);
    if Quiet(s, s') { QuietKeeps(s, s'); }
    else if Opens(env, s, ev, s') { OpensKeeps(env, s, ev, s'); }
    else if Codes(env, s, ev, s') { CodesKeeps(env, s, ev, s'); }
    else if Redeems(env, s, ev, s') { RedeemsKeeps(env, s, ev, s'); }
    else { RotatesKeeps(env, s, ev, s'); }
  }

  // ---------- Grants ----------

  lemma RedeemGrantOk(env: Env, s: State, ev: Event, s': State)
    requires GrantsOk(env, s.h) && CodesOk(s) && IssuedBefore(s) && s.clock <= ev.now && Redeems(env, s, ev, s')
    ensures GrantsOk(env, s'.h)
  {}

  lemma RotateGrantOk(env: Env, s: State, ev: Event, s': State)
    requires GrantsOk(env, s.h) && RefreshesOk(s) && IssuedBefore(s) && s.clock <= ev.now && Rotates(env, s, ev, s')
    ensures GrantsOk(env, s'.h)
  {}

  /** A callback issues a code never drawn before, so old grants keep their origin. */
  lemma CodesGrantsOk(env: Env, s: State, ev: Event, s': State)
    requires GrantsOk(env, s.h) && Codes(env, s, ev, s')
    ensures GrantsOk(env, s'.h)
  {}

  lemma GrantsKept(env: Env, s: State, ev: Event)
    requires GrantsOk(env, s.h) && Rooted(s) && Enabled(env, s, ev)
    requires Effect(env, s, ev, Step(env, s, ev))
    ensures GrantsOk(env, Step(env, s, ev).h)
  {
    var s' := Step(env, s, ev);
    if Codes(env, s, ev, s') { CodesGrantsOk(env, s, ev, s'); }
    else if Redeems(env, s, ev, s') { RedeemGrantOk(env, s, ev, s'); }
    else if Rotates(env, s, ev, s') { RotateGrantOk(env, s, ev, s'); }
  }

  // ---------- Whole runs ----------

  /** The trace back to registration, authorize request and callback. No store statement need succeed. */
  ghost predicate Trail(env: Env, s: State) {
    RegistrationsOk(env, s.h) && ClientsOk(env, s.t, s.h) && Rooted(s) && GrantsOk(env, s.h)
  }

  lemma RootedIsDrawn(s: State)
    requires Rooted(s)
    ensures Drawn(s)
  {}

  lemma StepKeepsTrail(env: Env, s: State, ev: Event)
    requires Trail(env, s) && Enabled(env, s, ev)
    ensures Trail(env, Step(env, s, ev)) && Effect(env, s, ev, Step(env, s, ev))
  {
    RootedIsDrawn(s);
    StepEffect(env, s, ev);
    ClientsKept(env, s, ev);
    RootedKept(env, s, ev);
    GrantsKept(env, s, ev);
  }

  /** Induction over runs: what every step keeps, and a preorder every step respects. */
  lemma {:induction false} RunInduction(env: Env, s: State, evs: seq<Event>, ok: Op -> bool,
                                        inv: State -> bool, rel: (State, State) -> bool)
    requires forall x, ev | inv(x) && Enabled(env, x, ev) && ok(ev.op) ::
      inv(Step(env, x, ev)) && rel(x, Step(env, x, ev))
    requires forall x | inv(x) :: rel(x, x)
    requires forall x, y, z | rel(x, y) && rel(y, z) :: rel(x, z)
    requires inv(s) && Runs(env, s, evs) && forall i | 0 <= i < |evs| :: ok(evs[i].op)
    ensures inv(AfterRun(env, s, evs)) && rel(s, AfterRun(env, s, evs))
    decreases |evs|
  {
    if evs != [] {
      RunInduction(env, Step(env, s, evs[0]), evs[1..], ok, inv, rel);
    }
  }

  /** A run from the empty tables. */
  ghost predicate Reaches(env: Env, clock: Instant, evs: seq<Event>, s: State) {
    Runs(env, Initial(clock), evs) && s == AfterRun(env, Initial(clock), evs)
  }

  lemma ReachedTrail(env: Env, clock: Instant, evs: seq<Event>, s: State)
    requires Reaches(env, clock, evs, s)
    ensures Trail(env, s)
  {
    var inv := x => Trail(env, x);
    forall x, ev | inv(x) && Enabled(env, x, ev) ensures inv(Step(env, x, ev)) {
      StepKeepsTrail(env, x, ev);
    }
    RunInduction(env, Initial(clock), evs, _ => true, inv, (x, y) => true);
  }
}
