/** The janitor's sweeps of sessions, codes and refresh tokens are invisible: a run without them issues
    the same codes and grants the same tokens. No store statement is assumed to succeed here. */
module JanitorTransparency {
  import opened Clock
  import opened Wrappers
  import opened GrantTypes
  import opened GrantSpec
  import opened GrantRuns
  import opened GrantEffects

  predicate Sweeps(op: Op) {
    op.CleanSessions? || op.CleanCodes? || op.CleanRefreshes?
  }

  /** Requests, as opposed to janitor statements. */
  predicate Serves(op: Op) {
    !Sweeps(op) && !op.CleanClients?
  }

  function Erase(evs: seq<Event>): seq<Event> {
    if evs == [] then []
    else (if Sweeps(evs[0].op) then [] else [evs[0]]) + Erase(evs[1..])
  }

  /** An answer that hands out a code or tokens. */
  predicate Success(r: Response) {
    r.RedirectWithCode? || r.Granted?
  }

  /** The codes and tokens a run hands out, in order. */
  function Successes(env: Env, s: State, evs: seq<Event>): seq<Response>
    decreases |evs|
  {
    if evs == [] then []
    else
      var r := Handle(env, s.t, evs[0].now, evs[0].op).r;
      (if Success(r) then [r] else []) + Successes(env, Step(env, s, evs[0]), evs[1..])
  }

  // ---------- The simulation relation ----------

  /** `m'` has the rows of `m`, and besides only rows that expired by the instant `b`. */
  ghost predicate Over<V>(m: map<string, V>, m': map<string, V>, expiry: V -> int, b: Instant) {
    Sub(m, m') && forall k | k in m' && k !in m :: Seconds(expiry(m'[k])) <= b
  }

  function SessionExpiry(row: Session): int { row.expiresAt }
  function CodeExpiry(row: Code): int { row.expiresAt }
  function RefreshExpiry(row: Refresh): int { row.expiresAt }

  ghost predicate Covers(t: Tables, u: Tables, b: Instant) {
    && t.clients == u.clients
    && Over(t.sessions, u.sessions, SessionExpiry, b)
    && Over(t.codes, u.codes, CodeExpiry, b)
    && Over(t.refreshes, u.refreshes, RefreshExpiry, b)
  }

  /** Both outcomes are the same success, or neither is one; and the tables stay related. */
  ghost predicate Matches(o: Outcome, p: Outcome, b: Instant) {
    Covers(o.t, p.t, b) && (Success(o.r) || Success(p.r) ==> p.r == o.r)
  }

  // ---------- Authorize ----------

  lemma AuthorizeInserts(t: Tables, u: Tables, op: Op, made: Result<(string, Session), Response>, b: Instant)
    requires op.Authorize? && Covers(t, u, b) && (made.Ok? ==> made.value.0 !in u.sessions)
    requires made.Err? ==> !Success(made.error)
    ensures var o, p := AuthorizeTables(t, op, made), AuthorizeTables(u, op, made);
      Matches(o, p, b) && (made.Ok? ==> (made.value.0 in o.t.sessions <==> made.value.0 in p.t.sessions))
  {}

  lemma TouchCovers(t: Tables, u: Tables, io: Io, id: string, now: Instant, b: Instant)
    requires Covers(t, u, b)
    ensures Covers(Touched(t, io, id, now), Touched(u, io, id, now), b)
  {}

  lemma AuthorizeMatches(env: Env, t: Tables, u: Tables, now: Instant, op: Op, b: Instant)
    requires op.Authorize? && Covers(t, u, b)
    requires op.upstreamState.Some? ==> op.upstreamState.value !in u.sessions
    ensures var o, p := HandleAuthorize(env, t, now, op), HandleAuthorize(env, u, now, op);
      Matches(o, p, b) &&
      (op.upstreamState.Some? ==> (op.upstreamState.value in o.t.sessions <==> op.upstreamState.value in p.t.sessions))
  {
    if AuthorizeObjection(op).None? && op.io.client && op.clientID in t.clients {
      var made := AuthorizeSession(env, t.clients[op.clientID], now, op);
      TouchCovers(t, u, op.io, op.clientID, now, b);
      AuthorizeInserts(Touched(t, op.io, op.clientID, now), Touched(u, op.io, op.clientID, now), op, made, b);
    }
  }

  // ---------- Callback and token endpoint ----------

  /** The verdicts on two lookups, the first of which may have missed an expired row: the same, or two
      refusals of which only the second can delete the row. Refusals are never successes. */
  ghost predicate Agree<V>(v: Verdict<V>, w: Verdict<V>, found: bool) {
    && (!v.Make? ==> !Success(v.r))
    && (v == w || (!found && v.Leave? && !w.Make? && !Success(w.r)))
  }

  lemma CallbackVerdicts(env: Env, t: Tables, u: Tables, now: Instant, op: Op, b: Instant)
    requires op.Callback? && Over(t.sessions, u.sessions, SessionExpiry, b) && b < now
    ensures Agree(CallbackVerdict(env, Find(t.sessions, op.state), now, op),
                  CallbackVerdict(env, Find(u.sessions, op.state), now, op), op.state in t.sessions)
  {}

  lemma CodeVerdicts(env: Env, t: Tables, u: Tables, now: Instant, op: Op, client: string, b: Instant)
    requires op.ExchangeCode? && Over(t.codes, u.codes, CodeExpiry, b) && b < now
    ensures Agree(CodeVerdict(env, Find(t.codes, op.code), now, op, client),
                  CodeVerdict(env, Find(u.codes, op.code), now, op, client), op.code in t.codes)
  {}

  lemma RefreshVerdicts(env: Env, t: Tables, u: Tables, now: Instant, op: Op, client: string, b: Instant)
    requires op.ExchangeRefresh? && Over(t.refreshes, u.refreshes, RefreshExpiry, b) && b < now
    ensures var hash := env.hash(op.token);
      Agree(RefreshVerdict(env, Find(t.refreshes, hash), now, op, client),
            RefreshVerdict(env, Find(u.refreshes, hash), now, op, client), hash in t.refreshes)
  {}

  lemma DropSession(t: Tables, u: Tables, io: Io, k: string, b: Instant)
    requires Covers(t, u, b)
    ensures Covers(WithoutSession(t, io, k), WithoutSession(u, io, k), b)
    ensures k !in t.sessions ==> Covers(t, WithoutSession(u, io, k), b)
  {}

  lemma DropCode(t: Tables, u: Tables, k: string, b: Instant)
    requires Covers(t, u, b)
    ensures Covers(t.(codes := t.codes - {k}), u.(codes := u.codes - {k}), b)
    ensures k !in t.codes ==> Covers(t, u.(codes := u.codes - {k}), b)
  {}

  lemma DropRefresh(t: Tables, u: Tables, k: string, b: Instant)
    requires Covers(t, u, b)
    ensures Covers(t.(refreshes := t.refreshes - {k}), u.(refreshes := u.refreshes - {k}), b)
    ensures k !in t.refreshes ==> Covers(t, u.(refreshes := u.refreshes - {k}), b)
  {}

  lemma AddCode(t: Tables, u: Tables, k: string, row: Code, b: Instant)
    requires Covers(t, u, b)
    ensures Covers(t.(codes := t.codes[k := row]), u.(codes := u.codes[k := row]), b)
  {}

  lemma StoredMatches(t: Tables, u: Tables, io: Io, hash: string, row: Refresh, r: Response, b: Instant)
    requires Covers(t, u, b) && hash !in u.refreshes
    ensures Matches(Stored(t, io, hash, row, r), Stored(u, io, hash, row, r), b)
  {}

  lemma CallbackApplies(t: Tables, u: Tables, op: Op, v: Verdict<Code>, w: Verdict<Code>, b: Instant)
    requires op.Callback? && Covers(t, u, b) && Agree(v, w, op.state in t.sessions)
    requires (v.Make? ==> op.localCode.Some?) && (op.localCode.Some? ==> op.localCode.value !in u.codes)
    ensures var o, p := CallbackTables(t, op, v), CallbackTables(u, op, w);
      Matches(o, p, b) && (op.localCode.Some? ==> (op.localCode.value in o.t.codes <==> op.localCode.value in p.t.codes))
  {
    DropSession(t, u, op.io, op.state, b);
    if v.Make? {
      var code := op.localCode.value;
      AddCode(t, u, code, v.row, b);
      DropSession(t.(codes := t.codes[code := v.row]), u.(codes := u.codes[code := v.row]), op.io, op.state, b);
    }
  }

  lemma CodeApplies(t: Tables, u: Tables, op: Op, v: Verdict<Refresh>, w: Verdict<Refresh>, hash: string, b: Instant)
    requires op.ExchangeCode? && Covers(t, u, b) && Agree(v, w, op.code in t.codes)
    requires v.Make? ==> hash !in u.refreshes
    ensures Matches(CodeTables(t, op, v, hash), CodeTables(u, op, w, hash), b)
  {
    DropCode(t, u, op.code, b);
    if v.Make? {
      StoredMatches(t, u, op.io, hash, v.row, v.r, b);
      StoredMatches(t.(codes := t.codes - {op.code}), u.(codes := u.codes - {op.code}), op.io, hash, v.row, v.r, b);
    }
  }

  lemma RefreshApplies(t: Tables, u: Tables, op: Op, v: Verdict<Refresh>, w: Verdict<Refresh>, spent: string,
                       hash: string, b: Instant)
    requires op.ExchangeRefresh? && Covers(t, u, b) && Agree(v, w, spent in t.refreshes)
    requires v.Make? ==> hash !in u.refreshes
    ensures Matches(RefreshTables(t, op, v, spent, hash), RefreshTables(u, op, w, spent, hash), b)
  {
    DropRefresh(t, u, spent, b);
    if v.Make? {
      StoredMatches(t, u, op.io, hash, v.row, v.r, b);
      StoredMatches(t.(refreshes := t.refreshes - {spent}), u.(refreshes := u.refreshes - {spent}), op.io, hash, v.row, v.r, b);
    }
  }

  lemma CallbackMatches(env: Env, t: Tables, u: Tables, now: Instant, op: Op, b: Instant)
    requires op.Callback? && Covers(t, u, b) && b < now
    requires op.localCode.Some? ==> op.localCode.value !in u.codes
    ensures var o, p := HandleCallback(env, t, now, op), HandleCallback(env, u, now, op);
      Matches(o, p, b) && (op.localCode.Some? ==> (op.localCode.value in o.t.codes <==> op.localCode.value in p.t.codes))
  {
    CallbackVerdicts(env, t, u, now, op, b);
    CallbackApplies(t, u, op, CallbackVerdict(env, Find(t.sessions, op.state), now, op),
                    CallbackVerdict(env, Find(u.sessions, op.state), now, op), b);
  }

  lemma TouchedByCovers(t: Tables, u: Tables, io: Io, creds: Credentials, now: Instant, b: Instant)
    requires Covers(t, u, b)
    ensures Covers(TouchedBy(t, io, creds, now), TouchedBy(u, io, creds, now), b)
    ensures TouchedBy(u, io, creds, now).refreshes == u.refreshes
  {
    if Extracted(creds).Some? { TouchCovers(t, u, io, Extracted(creds).value.0, now, b); }
  }

  lemma RedeemMatches(env: Env, t: Tables, u: Tables, now: Instant, op: Op, client: string, b: Instant)
    requires op.ExchangeCode? && Covers(t, u, b) && b < now
    requires op.refresh.Some? ==> env.hash(op.refresh.value) !in u.refreshes
    ensures Matches(RedeemCode(env, t, now, op, client), RedeemCode(env, u, now, op, client), b)
  {
    CodeVerdicts(env, t, u, now, op, client, b);
    CodeApplies(t, u, op, CodeVerdict(env, Find(t.codes, op.code), now, op, client),
                CodeVerdict(env, Find(u.codes, op.code), now, op, client), NewHash(env, op.refresh), b);
  }

  lemma RotateMatches(env: Env, t: Tables, u: Tables, now: Instant, op: Op, client: string, b: Instant)
    requires op.ExchangeRefresh? && Covers(t, u, b) && b < now
    requires op.refresh.Some? ==> env.hash(op.refresh.value) !in u.refreshes
    ensures Matches(RotateRefresh(env, t, now, op, client), RotateRefresh(env, u, now, op, client), b)
  {
    var spent := env.hash(op.token);
    RefreshVerdicts(env, t, u, now, op, client, b);
    RefreshApplies(t, u, op, RefreshVerdict(env, Find(t.refreshes, spent), now, op, client),
                   RefreshVerdict(env, Find(u.refreshes, spent), now, op, client), spent, NewHash(env, op.refresh), b);
  }

  lemma AuthenticateAlike(env: Env, t: Tables, u: Tables, io: Io, creds: Credentials)
    requires t.clients == u.clients
    ensures Authenticate(env, t, io, creds) == Authenticate(env, u, io, creds)
    ensures Authenticate(env, t, io, creds).Err? ==> !Success(Authenticate(env, t, io, creds).error)
  {}

  lemma ExchangeCodeMatches(env: Env, t: Tables, u: Tables, now: Instant, op: Op, b: Instant)
    requires op.ExchangeCode? && Covers(t, u, b) && b < now
    requires op.refresh.Some? ==> env.hash(op.refresh.value) !in u.refreshes
    ensures Matches(HandleToken(env, t, now, op), HandleToken(env, u, now, op), b)
  {
    TouchedByCovers(t, u, op.io, op.creds, now, b);
    AuthenticateAlike(env, t, u, op.io, op.creds);
    var who := Authenticate(env, t, op.io, op.creds);
    if who.Ok? {
      RedeemMatches(env, TouchedBy(t, op.io, op.creds, now), TouchedBy(u, op.io, op.creds, now), now, op, who.value, b);
    }
  }

  lemma ExchangeRefreshMatches(env: Env, t: Tables, u: Tables, now: Instant, op: Op, b: Instant)
    requires op.ExchangeRefresh? && Covers(t, u, b) && b < now
    requires op.refresh.Some? ==> env.hash(op.refresh.value) !in u.refreshes
    ensures Matches(HandleToken(env, t, now, op), HandleToken(env, u, now, op), b)
  {
    TouchedByCovers(t, u, op.io, op.creds, now, b);
    AuthenticateAlike(env, t, u, op.io, op.creds);
    var who := Authenticate(env, t, op.io, op.creds);
    if who.Ok? {
      RotateMatches(env, TouchedBy(t, op.io, op.creds, now), TouchedBy(u, op.io, op.creds, now), now, op, who.value, b);
    }
  }

  // ---------- The other requests ----------

  lemma RevokeMatches(env: Env, t: Tables, u: Tables, op: Op, b: Instant)
    requires op.Revoke? && Covers(t, u, b)
    ensures Matches(HandleRevoke(env, t, op), HandleRevoke(env, u, op), b)
  {
    DropRefresh(t, u, env.hash(op.token), b);
  }

  lemma IntrospectMatches(env: Env, t: Tables, u: Tables, now: Instant, op: Op, b: Instant)
    requires op.Introspect? && Covers(t, u, b)
    ensures Matches(HandleIntrospect(env, t, now, op), HandleIntrospect(env, u, now, op), b)
  {}

  lemma RegisterMatches(env: Env, t: Tables, u: Tables, now: Instant, op: Op, b: Instant)
    requires op.Register? && Covers(t, u, b)
    ensures var o, p := HandleRegister(env, t, now, op), HandleRegister(env, u, now, op);
      Matches(o, p, b) && o.r == p.r
  {}

  lemma CleanClientsMatches(t: Tables, u: Tables, now: Instant, op: Op, b: Instant)
    requires op.CleanClients? && Covers(t, u, b)
    ensures Covers(Clean(t, now, op), Clean(u, now, op), b)
  {}

  /** A sweep removes only rows that expired by the start of its second. */
  lemma SweepCovers(t: Tables, u: Tables, now: Instant, op: Op, b: Instant, b': Instant)
    requires Sweeps(op) && Covers(t, u, b) && b <= b' && Seconds(Unix(now)) <= b'
    ensures Covers(Clean(t, now, op), u, b')
  {}

  // ---------- One event on both sides ----------

  /** What an outcome must agree on for the history to record the same. */
  ghost predicate SameRecord(env: Env, t: Tables, u: Tables, now: Instant, op: Op, o: Outcome, p: Outcome) {
    && (Success(o.r) || Success(p.r) ==> p.r == o.r)
    && (op.Register? ==> p.r == o.r)
    && (op.Authorize? && op.upstreamState.Some? ==>
          (op.upstreamState.value in o.t.sessions <==> op.upstreamState.value in p.t.sessions))
    && (op.Callback? && op.localCode.Some? ==> (op.localCode.value in o.t.codes <==> op.localCode.value in p.t.codes))
    && (Receives(env, t, now, op) <==> Receives(env, u, now, op))
  }

  /** The values an enabled event draws are in neither table. */
  ghost predicate Untaken(env: Env, u: Tables, op: Op) {
    && (op.Authorize? && op.upstreamState.Some? ==> op.upstreamState.value !in u.sessions)
    && (op.Callback? && op.localCode.Some? ==> op.localCode.value !in u.codes)
    && ((op.ExchangeCode? || op.ExchangeRefresh?) && op.refresh.Some? ==> env.hash(op.refresh.value) !in u.refreshes)
  }

  lemma ReceivesAlike(env: Env, t: Tables, u: Tables, now: Instant, op: Op, b: Instant)
    requires Covers(t, u, b) && (op.ExchangeRefresh? ==> b < now)
    ensures Receives(env, t, now, op) <==> Receives(env, u, now, op)
  {
    if op.ExchangeRefresh? { AuthenticateAlike(env, t, u, op.io, op.creds); }
  }

  lemma EventMatches(env: Env, t: Tables, u: Tables, now: Instant, op: Op, b: Instant)
    requires Covers(t, u, b) && Untaken(env, u, op) && !Sweeps(op) && (Serves(op) ==> b < now)
    ensures var o, p := Handle(env, t, now, op), Handle(env, u, now, op);
      Covers(o.t, p.t, b) && SameRecord(env, t, u, now, op, o, p)
  {
    ReceivesAlike(env, t, u, now, op, b);
    match op
    case Register(_, _, _, _) => RegisterMatches(env, t, u, now, op, b);
    case Authorize(_, _, _, _, _, _, _, _, _, _, _) => AuthorizeMatches(env, t, u, now, op, b);
    case Callback(_, _, _, _, _, _, _, _) => CallbackMatches(env, t, u, now, op, b);
    case ExchangeCode(_, _, _, _, _, _, _) => ExchangeCodeMatches(env, t, u, now, op, b);
    case ExchangeRefresh(_, _, _, _, _, _, _, _) => ExchangeRefreshMatches(env, t, u, now, op, b);
    case Revoke(_, _, _, _) => RevokeMatches(env, t, u, op, b);
    case Introspect(_, _, _, _, _) => IntrospectMatches(env, t, u, now, op, b);
    case CleanClients(_) => CleanClientsMatches(t, u, now, op, b);
  }

  lemma AuthorizeRecorded(env: Env, s: State, v: State, ev: Event, o: Outcome, p: Outcome, b: Instant)
    requires ev.op.Authorize?
    requires s.h == v.h && s.t.clients == v.t.clients && Over(o.t.sessions, p.t.sessions, SessionExpiry, b)
    requires ev.op.upstreamState.Some? ==>
      var k := ev.op.upstreamState.value;
      k !in s.t.sessions && k !in v.t.sessions && (k in o.t.sessions <==> k in p.t.sessions)
    ensures Lineages(env, s, ev, o) == Lineages(env, v, ev, p)
  {}

  lemma CallbackRecorded(env: Env, s: State, v: State, ev: Event, o: Outcome, p: Outcome, b: Instant)
    requires ev.op.Callback?
    requires s.h == v.h && Over(o.t.codes, p.t.codes, CodeExpiry, b)
    requires ev.op.localCode.Some? ==>
      var k := ev.op.localCode.value;
      k !in s.t.codes && k !in v.t.codes && (k in o.t.codes <==> k in p.t.codes)
    ensures Lineages(env, s, ev, o) == Lineages(env, v, ev, p)
  {}

  lemma ExchangeRecorded(env: Env, s: State, v: State, ev: Event, o: Outcome, p: Outcome, b: Instant)
    requires ev.op.ExchangeCode? || ev.op.ExchangeRefresh?
    requires s.h == v.h && (Success(o.r) || Success(p.r) ==> p.r == o.r)
    requires Receives(env, s.t, ev.now, ev.op) <==> Receives(env, v.t, ev.now, ev.op)
    ensures Lineages(env, s, ev, o) == Lineages(env, v, ev, p)
  {}

  lemma RecordsAlike(env: Env, s: State, v: State, ev: Event, o: Outcome, p: Outcome, b: Instant)
    requires s.h == v.h && Covers(s.t, v.t, b) && Covers(o.t, p.t, b) && Untaken(env, v.t, ev.op)
    requires SameRecord(env, s.t, v.t, ev.now, ev.op, o, p)
    ensures Recorded(env, s, ev, o) == Recorded(env, v, ev, p)
  {
    if ev.op.Authorize? { AuthorizeRecorded(env, s, v, ev, o, p, b); }
    else if ev.op.Callback? { CallbackRecorded(env, s, v, ev, o, p, b); }
    else if ev.op.ExchangeCode? || ev.op.ExchangeRefresh? { ExchangeRecorded(env, s, v, ev, o, p, b); }
  }

  // ---------- Whole runs ----------

  /** `v` is `s` without the sweeps so far. */
  ghost predicate Simulates(s: State, v: State, b: Instant) {
    s.h == v.h && v.clock <= s.clock && Covers(s.t, v.t, b) && Drawn(v)
  }

  lemma DrawnKept(env: Env, s: State, ev: Event)
    requires Drawn(s) && Enabled(env, s, ev)
    ensures Drawn(Step(env, s, ev))
  {
    StepEffect(env, s, ev);
  }

  lemma SweepStep(env: Env, s: State, v: State, ev: Event, b: Instant)
    requires Simulates(s, v, b) && Sweeps(ev.op) && s.clock <= ev.now
    ensures Simulates(Step(env, s, ev), v, Max(b, Seconds(Unix(ev.now))))
    ensures !Success(Handle(env, s.t, ev.now, ev.op).r)
  {
    SweepCovers(s.t, v.t, ev.now, ev.op, b, Max(b, Seconds(Unix(ev.now))));
  }

  lemma DrawsUntaken(env: Env, v: State, op: Op)
    requires Drawn(v) && FreshDraws(env, v.h, op)
    ensures Untaken(env, v.t, op)
  {}

  lemma EventStep(env: Env, s: State, v: State, ev: Event, b: Instant)
    requires Simulates(s, v, b) && !Sweeps(ev.op) && Enabled(env, s, ev) && (Serves(ev.op) ==> b < ev.now)
    ensures Enabled(env, v, ev) && Simulates(Step(env, s, ev), Step(env, v, ev), b)
    ensures var r, r' := Handle(env, s.t, ev.now, ev.op).r, Handle(env, v.t, ev.now, ev.op).r;
      Success(r) || Success(r') ==> r == r'
  {
    DrawsUntaken(env, v, ev.op);
    EventMatches(env, s.t, v.t, ev.now, ev.op, b);
    RecordsAlike(env, s, v, ev, Handle(env, s.t, ev.now, ev.op), Handle(env, v.t, ev.now, ev.op), b);
    DrawnKept(env, v, ev);
  }

  /** Every request is later than the start of the second of every sweep before it: a strictly later
      instant will do, and even the same instant when it is not a whole second. */
  ghost predicate Apart(evs: seq<Event>) {
    forall i, j | 0 <= i < j < |evs| && Sweeps(evs[i].op) && Serves(evs[j].op) :: Seconds(Unix(evs[i].now)) < evs[j].now
  }

  ghost predicate AllAfter(evs: seq<Event>, b: Instant) {
    forall j | 0 <= j < |evs| && Serves(evs[j].op) :: b < evs[j].now
  }

  lemma {:induction false} ErasedRun(env: Env, s: State, v: State, evs: seq<Event>, b: Instant)
    requires Simulates(s, v, b) && Runs(env, s, evs) && AllAfter(evs, b) && Apart(evs)
    ensures Runs(env, v, Erase(evs))
    ensures AfterRun(env, v, Erase(evs)).h == AfterRun(env, s, evs).h
    ensures Successes(env, v, Erase(evs)) == Successes(env, s, evs)
    decreases |evs|
  {
    if evs != [] {
      var ev, rest := evs[0], evs[1..];
      assert AllAfter(rest, b) && Apart(rest);
      if Sweeps(ev.op) {
        SweepStep(env, s, v, ev, b);
        assert AllAfter(rest, Max(b, Seconds(Unix(ev.now))));
        ErasedRun(env, Step(env, s, ev), v, rest, Max(b, Seconds(Unix(ev.now))));
        assert Erase(evs) == Erase(rest);
      } else {
        EventStep(env, s, v, ev, b);
        ErasedRun(env, Step(env, s, ev), Step(env, v, ev), rest, b);
        assert Erase(evs)[0] == ev && Erase(evs)[1..] == Erase(rest);
      }
    }
  }

  lemma {:induction false} RunsLater(env: Env, s: State, evs: seq<Event>, j: nat)
    requires Runs(env, s, evs) && j < |evs|
    ensures s.clock <= evs[j].now
    decreases j
  {
    if j > 0 { RunsLater(env, Step(env, s, evs[0]), evs[1..], j - 1); }
  }

  /** Erasing every sweep of sessions, codes and refresh tokens from a run leaves a run that hands out
      exactly the same codes and tokens in the same order, and ends with the same history. */
  lemma JanitorIsTransparent(env: Env, clock: Instant, evs: seq<Event>)
    requires Runs(env, Initial(clock), evs) && Apart(evs)
    ensures Runs(env, Initial(clock), Erase(evs))
    ensures Successes(env, Initial(clock), Erase(evs)) == Successes(env, Initial(clock), evs)
    ensures AfterRun(env, Initial(clock), Erase(evs)).h == AfterRun(env, Initial(clock), evs).h
  {
    forall j | 0 <= j < |evs| ensures clock - 1 < evs[j].now { RunsLater(env, Initial(clock), evs, j); }
    ErasedRun(env, Initial(clock), Initial(clock), evs, clock - 1);
  }

  /** A redemption depends on its own code row alone, as far as the codes table goes. */
  lemma RedeemsFromRow(env: Env, t: Tables, u: Tables, now: Instant, op: Op, client: string)
    requires op.ExchangeCode? && RedeemCode(env, t, now, op, client).r.Granted?
    requires u.refreshes == t.refreshes && Sub(u.codes, t.codes)
    ensures op.code in t.codes && !After(now, t.codes[op.code].expiresAt)
    ensures RedeemCode(env, u, now, op, client).r.Granted? <==> op.code in u.codes
  {
    CodeMakes(env, Find(t.codes, op.code), now, op, client);
    CodeApplied(t, op, CodeVerdict(env, Find(t.codes, op.code), now, op, client), NewHash(env, op.refresh));
  }

  /** How sharp this is: a sweep of codes before a grantable redemption spoils it exactly when sweep and
      redemption fall on the very instant at which the row expires. */
  lemma SweepSpoilsExactly(env: Env, t: Tables, swept: Instant, now: Instant, op: Op)
    requires op.ExchangeCode? && swept <= now && HandleToken(env, t, now, op).r.Granted?
    ensures op.code in t.codes
    ensures HandleToken(env, Clean(t, swept, CleanCodes), now, op).r.Granted? <==>
      !(swept == now == Seconds(t.codes[op.code].expiresAt))
  {
    var u, client := Clean(t, swept, CleanCodes), ClientIn(op.creds);
    AuthenticateAlike(env, t, u, op.io, op.creds);
    AuthenticatedClient(env, t, op.io, op.creds);
    TouchKeepsRest(t, op.io, op.creds, now);
    TouchKeepsRest(u, op.io, op.creds, now);
    RedeemsFromRow(env, TouchedBy(t, op.io, op.creds, now), TouchedBy(u, op.io, op.creds, now), now, op, client);
    UnixAtLeast(swept, t.codes[op.code].expiresAt);
  }
}
