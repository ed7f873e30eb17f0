/** Every event, boiled down: it either only removes artefacts, or moves one lineage one stage on. */
module GrantEffects {
  import opened Clock
  import opened Wrappers
  import opened GrantTypes
  import opened GrantSpec
  import opened GrantRuns

  ghost predicate Sub<K, V>(a: map<K, V>, b: map<K, V>) {
    forall k | k in a :: k in b && a[k] == b[k]
  }

  ghost predicate Quiet(s: State, s': State) {
    && Sub(s'.t.sessions, s.t.sessions) && Sub(s'.t.codes, s.t.codes) && Sub(s'.t.refreshes, s.t.refreshes)
    && s'.h == s.h.(registrations := s'.h.registrations)
  }

  /** A delete whose error is ignored. */
  function Dropped<V>(m: map<string, V>, k: string, ok: bool): map<string, V> {
    if ok then m - {k} else m
  }

  ghost predicate Opens(env: Env, s: State, ev: Event, s': State) {
    && ev.op.Authorize? && ev.op.upstreamState.Some?
    && var state := ev.op.upstreamState.value;
    && state !in s.h.authorized && ev.op.clientID in s.t.clients
    && ev.op.redirectURI in s.t.clients[ev.op.clientID].redirectURIs
    && state in s'.t.sessions
    && var row, a := s'.t.sessions[state], Asked(env, ev.op, ev.now, s.t.clients[ev.op.clientID].redirectURIs);
    && FromAuthorize(row, a)
    && s'.t.sessions == s.t.sessions[state := row]
    && s'.t.codes == s.t.codes && s'.t.refreshes == s.t.refreshes
    && s'.h == s.h.(authorized := s.h.authorized[state := a])
  }

  ghost predicate Codes(env: Env, s: State, ev: Event, s': State) {
    && ev.op.Callback? && ev.op.localCode.Some? && ev.op.call.Answered?
    && var state, code, up := ev.op.state, ev.op.localCode.value, ev.op.call.answer;
    && state in s.t.sessions && !After(ev.now, s.t.sessions[state].expiresAt)
    && code !in s.h.issued && code in s'.t.codes
    && var row := s'.t.codes[code];
    && row == CodeFor(env, s.t.sessions[state], up, row.upstreamEnc, ev.now + ev.op.elapsed)
    && Some(row.upstreamEnc) == (if up.refreshToken == [] then Some([]) else Sealed(env, ev.op.nonce, up.refreshToken))
    && s'.t.sessions == Dropped(s.t.sessions, state, ev.op.io.delete)
    && s'.t.codes == s.t.codes[code := row] && s'.t.refreshes == s.t.refreshes
    && s'.h == s.h.(
         issued := s.h.issued[code := Issue(state, row, ev.now, ev.now + ev.op.elapsed, up.identity)],
         upstream := Passed(s.h.upstream, SessionOf(state), CodeOf(code), up.refreshToken))
  }

  ghost predicate Redeems(env: Env, s: State, ev: Event, s': State) {
    && ev.op.ExchangeCode? && ev.op.refresh.Some?
    && var code, hash := ev.op.code, env.hash(ev.op.refresh.value);
    && code in s.t.codes && hash !in s.h.refreshOf
    && var row := s.t.codes[code];
    && CodeAccepts(env, row, ClientIn(ev.op.creds), ev.op.redirectURI, ev.op.verifier, ev.now)
    && s'.t.codes == Dropped(s.t.codes, code, ev.op.io.delete) && s'.t.sessions == s.t.sessions
    && s'.t.refreshes == s.t.refreshes[hash :=
         Refresh(row.sub, row.resource, row.clientID, row.claims, row.upstreamEnc, row.scopes,
                 Unix(ev.now + env.refreshTTL))]
    && s'.h == s.h.(
         refreshOf := s.h.refreshOf[hash := OriginOfCode(s.h, code)],
         upstream := Passed(s.h.upstream, CodeOf(code), RefreshOf(hash), []),
         grants := s.h.grants + [Grant(CodeOf(code), RefreshOf(hash), OriginOfCode(s.h, code), ev.now,
                                       ClientIn(ev.op.creds), CodeGrantee(row), ev.op.redirectURI, ev.op.verifier)])
  }

  ghost predicate Rotates(env: Env, s: State, ev: Event, s': State) {
    && ev.op.ExchangeRefresh? && ev.op.refresh.Some?
    && var spent, hash := env.hash(ev.op.token), env.hash(ev.op.refresh.value);
    && spent in s.t.refreshes && hash !in s.h.refreshOf
    && var row := s.t.refreshes[spent];
    && Authenticate(env, s.t, ev.op.io, ev.op.creds).Ok? && ev.op.token != "" && ev.op.io.lookup
    && RefreshAccepts(row, ClientIn(ev.op.creds), ev.now)
    && hash in s'.t.refreshes
    && var enc := s'.t.refreshes[hash].upstreamEnc;
    && UpstreamRefreshed(env, row.upstreamEnc, ev.op.call, ev.op.nonce) == Some(enc)
    && s'.t.refreshes == Dropped(s.t.refreshes, spent, ev.op.io.delete)[hash :=
         row.(upstreamEnc := enc, expiresAt := Unix(ev.now + ev.op.elapsed + env.refreshTTL))]
    && s'.t.sessions == s.t.sessions && s'.t.codes == s.t.codes
    && s'.h == s.h.(
         refreshOf := s.h.refreshOf[hash := OriginOfRefresh(s.h, spent)],
         upstream := Passed(s.h.upstream, RefreshOf(spent), RefreshOf(hash), Received(env, s.t, ev.now, ev.op)),
         grants := s.h.grants + [Grant(RefreshOf(spent), RefreshOf(hash), OriginOfRefresh(s.h, spent), ev.now,
                                       ClientIn(ev.op.creds), RefreshGrantee(row), "", "")])
  }

  ghost predicate Effect(env: Env, s: State, ev: Event, s': State) {
    Quiet(s, s') || Opens(env, s, ev, s') || Codes(env, s, ev, s') || Redeems(env, s, ev, s') || Rotates(env, s, ev, s')
  }

  /** Live artefacts have been drawn: their keys are in the history. */
  ghost predicate Drawn(s: State) {
    && s.t.sessions.Keys <= s.h.authorized.Keys
    && s.t.codes.Keys <= s.h.issued.Keys
    && s.t.refreshes.Keys <= s.h.refreshOf.Keys
  }

  // ---------- Endpoint by endpoint, on the tables ----------

  ghost predicate Fewer(t: Tables, t': Tables) {
    Sub(t'.sessions, t.sessions) && Sub(t'.codes, t.codes) && Sub(t'.refreshes, t.refreshes)
  }

  lemma AuthorizeChange(env: Env, t: Tables, now: Instant, op: Op)
    requires op.Authorize?
    ensures var t' := HandleAuthorize(env, t, now, op).t;
      && t'.codes == t.codes && t'.refreshes == t.refreshes
      && (t'.sessions == t.sessions ||
          (&& op.upstreamState.Some? && op.upstreamState.value !in t.sessions
           && op.clientID in t.clients && op.redirectURI in t.clients[op.clientID].redirectURIs
           && op.upstreamState.value in t'.sessions
           && var row := t'.sessions[op.upstreamState.value];
           && t'.sessions == t.sessions[op.upstreamState.value := row]
           && FromAuthorize(row, Asked(env, op, now, t.clients[op.clientID].redirectURIs))))
  {}

  /** A callback makes a code row only from a session it found in time. */
  lemma CallbackMakes(env: Env, found: Option<Session>, now: Instant, op: Op)
    requires op.Callback?
    ensures var v := CallbackVerdict(env, found, now, op);
      v.Make? ==>
        && op.localCode.Some? && op.call.Answered? && found.Some? && !After(now, found.value.expiresAt)
        && var up := op.call.answer;
        && v.row == CodeFor(env, found.value, up, v.row.upstreamEnc, now + op.elapsed)
        && Some(v.row.upstreamEnc) == (if up.refreshToken == [] then Some([]) else Sealed(env, op.nonce, up.refreshToken))
  {}

  lemma CallbackApplied(t: Tables, op: Op, v: Verdict<Code>)
    requires op.Callback? && (v.Make? ==> op.localCode.Some?)
    ensures var t' := CallbackTables(t, op, v).t;
      t'.refreshes == t.refreshes &&
      if Issues(t, t', op)
      then v.Make? && t'.sessions == Dropped(t.sessions, op.state, op.io.delete) &&
           t'.codes == t.codes[op.localCode.value := v.row]
      else Fewer(t, t') && t'.codes == t.codes
  {}

  lemma CallbackChange(env: Env, t: Tables, now: Instant, op: Op)
    requires op.Callback?
    ensures var t' := HandleCallback(env, t, now, op).t;
      t'.refreshes == t.refreshes &&
      if !Issues(t, t', op) then Fewer(t, t') && t'.codes == t.codes
      else
        && op.call.Answered? && op.state in t.sessions && !After(now, t.sessions[op.state].expiresAt)
        && var code, up := op.localCode.value, op.call.answer;
        && var row := t'.codes[code];
        && row == CodeFor(env, t.sessions[op.state], up, row.upstreamEnc, now + op.elapsed)
        && Some(row.upstreamEnc) == (if up.refreshToken == [] then Some([]) else Sealed(env, op.nonce, up.refreshToken))
        && t'.sessions == Dropped(t.sessions, op.state, op.io.delete) && t'.codes == t.codes[code := row]
  {
    var v := CallbackVerdict(env, Find(t.sessions, op.state), now, op);
    CallbackMakes(env, Find(t.sessions, op.state), now, op);
    CallbackApplied(t, op, v);
  }

  /** A code exchange makes a refresh row only from a code row that passes the checks. */
  lemma CodeMakes(env: Env, found: Option<Code>, now: Instant, op: Op, client: string)
    requires op.ExchangeCode?
    ensures var v := CodeVerdict(env, found, now, op, client);
      if v.Make? then
        && op.refresh.Some? && found.Some?
        && CodeAccepts(env, found.value, client, op.redirectURI, op.verifier, now)
        && v.r == Granted(CodeGrantee(found.value), op.refresh.value, found.value.scopes)
        && v.row == Refresh(found.value.sub, found.value.resource, found.value.clientID, found.value.claims,
                            found.value.upstreamEnc, found.value.scopes, Unix(now + env.refreshTTL))
      else !v.r.Granted?
  {}

  lemma CodeApplied(t: Tables, op: Op, v: Verdict<Refresh>, hash: string)
    requires op.ExchangeCode? && (v.Make? <==> v.r.Granted?)
    ensures var o := CodeTables(t, op, v, hash);
      o.t.sessions == t.sessions && o.t.clients == t.clients &&
      if o.r.Granted?
      then v.Make? && o.r == v.r && o.t.codes == Dropped(t.codes, op.code, op.io.delete) &&
           o.t.refreshes == t.refreshes[hash := v.row]
      else Fewer(t, o.t)
  {}

  lemma RedeemChange(env: Env, t: Tables, now: Instant, op: Op, client: string)
    requires op.ExchangeCode?
    ensures var o := RedeemCode(env, t, now, op, client);
      o.t.sessions == t.sessions &&
      if !o.r.Granted? then Fewer(t, o.t)
      else
        && op.refresh.Some? && o.r.refresh == op.refresh.value && op.code in t.codes
        && var row := t.codes[op.code];
        && CodeAccepts(env, row, client, op.redirectURI, op.verifier, now)
        && o.r.access == CodeGrantee(row) && o.t.codes == Dropped(t.codes, op.code, op.io.delete)
        && o.t.refreshes == t.refreshes[env.hash(op.refresh.value) :=
             Refresh(row.sub, row.resource, row.clientID, row.claims, row.upstreamEnc, row.scopes,
                     Unix(now + env.refreshTTL))]
  {
    CodeMakes(env, Find(t.codes, op.code), now, op, client);
    CodeApplied(t, op, CodeVerdict(env, Find(t.codes, op.code), now, op, client), NewHash(env, op.refresh));
  }

  /** A refresh exchange makes the next row only from a row that passes the checks. */
  lemma RefreshMakes(env: Env, found: Option<Refresh>, now: Instant, op: Op, client: string)
    requires op.ExchangeRefresh?
    ensures var v := RefreshVerdict(env, found, now, op, client);
      if v.Make? then
        && op.token != "" && op.io.lookup && op.refresh.Some? && found.Some?
        && RefreshAccepts(found.value, client, now)
        && UpstreamRefreshed(env, found.value.upstreamEnc, op.call, op.nonce) == Some(v.row.upstreamEnc)
        && v.r == Granted(RefreshGrantee(found.value), op.refresh.value, found.value.scopes)
        && v.row == found.value.(upstreamEnc := v.row.upstreamEnc, expiresAt := Unix(now + op.elapsed + env.refreshTTL))
      else !v.r.Granted?
  {}

  lemma RefreshApplied(t: Tables, op: Op, v: Verdict<Refresh>, spent: string, hash: string)
    requires op.ExchangeRefresh? && (v.Make? <==> v.r.Granted?)
    ensures var o := RefreshTables(t, op, v, spent, hash);
      o.t.sessions == t.sessions && o.t.clients == t.clients && o.t.codes == t.codes &&
      if o.r.Granted?
      then v.Make? && o.r == v.r && o.t.refreshes == Dropped(t.refreshes, spent, op.io.delete)[hash := v.row]
      else Fewer(t, o.t)
  {}

  lemma RotateChange(env: Env, t: Tables, now: Instant, op: Op, client: string)
    requires op.ExchangeRefresh?
    ensures var o := RotateRefresh(env, t, now, op, client);
      var spent := env.hash(op.token);
      o.t.sessions == t.sessions && o.t.codes == t.codes &&
      if !o.r.Granted? then Fewer(t, o.t)
      else
        && op.token != "" && op.io.lookup
        && op.refresh.Some? && o.r.refresh == op.refresh.value && spent in t.refreshes
        && var row, hash := t.refreshes[spent], env.hash(op.refresh.value);
        && RefreshAccepts(row, client, now) && o.r.access == RefreshGrantee(row)
        && hash in o.t.refreshes
        && var enc := o.t.refreshes[hash].upstreamEnc;
        && UpstreamRefreshed(env, row.upstreamEnc, op.call, op.nonce) == Some(enc)
        && o.t.refreshes == Dropped(t.refreshes, spent, op.io.delete)[hash :=
             row.(upstreamEnc := enc, expiresAt := Unix(now + op.elapsed + env.refreshTTL))]
  {
    var spent := env.hash(op.token);
    RefreshMakes(env, Find(t.refreshes, spent), now, op, client);
    RefreshApplied(t, op, RefreshVerdict(env, Find(t.refreshes, spent), now, op, client), spent, NewHash(env, op.refresh));
  }

  lemma TouchKeepsRest(t: Tables, io: Io, creds: Credentials, now: Instant)
    ensures var t1 := TouchedBy(t, io, creds, now);
      t1.sessions == t.sessions && t1.codes == t.codes && t1.refreshes == t.refreshes
  {}

  lemma AuthenticatedClient(env: Env, t: Tables, io: Io, creds: Credentials)
    requires Authenticate(env, t, io, creds).Ok?
    ensures Authenticate(env, t, io, creds).value == ClientIn(creds)
  {}

  lemma CleanChange(t: Tables, now: Instant, op: Op)
    ensures Fewer(t, Clean(t, now, op))
  {}

  lemma RevokeChange(env: Env, t: Tables, op: Op)
    requires op.Revoke?
    ensures Fewer(t, HandleRevoke(env, t, op).t)
  {}

  // ---------- The effect of a step ----------

  lemma AuthorizeEffect(env: Env, s: State, ev: Event)
    requires ev.op.Authorize? && Enabled(env, s, ev) && Drawn(s)
    ensures Effect(env, s, ev, Step(env, s, ev))
  {
    var s' := Step(env, s, ev);
    assert Handle(env, s.t, ev.now, ev.op) == HandleAuthorize(env, s.t, ev.now, ev.op);
    AuthorizeChange(env, s.t, ev.now, ev.op);
    if s'.t.sessions == s.t.sessions {
      assert Quiet(s, s');
    } else {
      assert Opens(env, s, ev, s');
    }
  }

  lemma CallbackEffect(env: Env, s: State, ev: Event)
    requires ev.op.Callback? && Enabled(env, s, ev) && Drawn(s)
    ensures Effect(env, s, ev, Step(env, s, ev))
  {
    var s' := Step(env, s, ev);
    assert Handle(env, s.t, ev.now, ev.op) == HandleCallback(env, s.t, ev.now, ev.op);
    CallbackChange(env, s.t, ev.now, ev.op);
    if Issues(s.t, s'.t, ev.op) {
      assert Codes(env, s, ev, s');
    } else {
      assert Quiet(s, s');
    }
  }

  lemma ExchangeCodeEffect(env: Env, s: State, ev: Event)
    requires ev.op.ExchangeCode? && Enabled(env, s, ev) && Drawn(s)
    ensures Effect(env, s, ev, Step(env, s, ev))
  {
    var s', op := Step(env, s, ev), ev.op;
    assert Handle(env, s.t, ev.now, op) == HandleToken(env, s.t, ev.now, op);
    TouchKeepsRest(s.t, op.io, op.creds, ev.now);
    if Authenticate(env, s.t, op.io, op.creds).Ok? {
      AuthenticatedClient(env, s.t, op.io, op.creds);
      RedeemChange(env, TouchedBy(s.t, op.io, op.creds, ev.now), ev.now, op, ClientIn(op.creds));
    }
    if HandleToken(env, s.t, ev.now, op).r.Granted? {
      assert Redeems(env, s, ev, s');
    } else {
      assert Quiet(s, s');
    }
  }

  lemma ExchangeRefreshEffect(env: Env, s: State, ev: Event)
    requires ev.op.ExchangeRefresh? && Enabled(env, s, ev) && Drawn(s)
    ensures Effect(env, s, ev, Step(env, s, ev))
  {
    var s', op := Step(env, s, ev), ev.op;
    assert Handle(env, s.t, ev.now, op) == HandleToken(env, s.t, ev.now, op);
    TouchKeepsRest(s.t, op.io, op.creds, ev.now);
    if Authenticate(env, s.t, op.io, op.creds).Ok? {
      AuthenticatedClient(env, s.t, op.io, op.creds);
      RotateChange(env, TouchedBy(s.t, op.io, op.creds, ev.now), ev.now, op, ClientIn(op.creds));
    }
    if HandleToken(env, s.t, ev.now, op).r.Granted? {
      assert Rotates(env, s, ev, s');
    } else {
      assert Quiet(s, s');
    }
  }

  lemma OtherEffect(env: Env, s: State, ev: Event)
    requires !ev.op.Authorize? && !ev.op.Callback? && !ev.op.ExchangeCode? && !ev.op.ExchangeRefresh?
    ensures Quiet(s, Step(env, s, ev))
  {
    if ev.op.Revoke? {
      assert Handle(env, s.t, ev.now, ev.op) == HandleRevoke(env, s.t, ev.op);
      RevokeChange(env, s.t, ev.op);
    } else if ev.op.Introspect? {
      assert Handle(env, s.t, ev.now, ev.op) == HandleIntrospect(env, s.t, ev.now, ev.op);
    } else if ev.op.Register? {
      assert Handle(env, s.t, ev.now, ev.op) == HandleRegister(env, s.t, ev.now, ev.op);
    } else {
      CleanChange(s.t, ev.now, ev.op);
    }
  }

  lemma StepEffect(env: Env, s: State, ev: Event)
    requires Enabled(env, s, ev) && Drawn(s)
    ensures Effect(env, s, ev, Step(env, s, ev))
  {
    if ev.op.Authorize? { AuthorizeEffect(env, s, ev); }
    else if ev.op.Callback? { CallbackEffect(env, s, ev); }
    else if ev.op.ExchangeCode? { ExchangeCodeEffect(env, s, ev); }
    else if ev.op.ExchangeRefresh? { ExchangeRefreshEffect(env, s, ev); }
    else { OtherEffect(env, s, ev); }
  }
}
