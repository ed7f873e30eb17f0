/** What holds of every serial run of the authorization server whose deletes succeed. */
module GrantTheorems {
  import opened Clock
  import opened Wrappers
  import opened GrantTypes
  import opened GrantSpec
  import opened GrantRuns
  import opened GrantEffects
  import opened GrantLineage
  import opened GrantTrace

  ghost predicate Inv(env: Env, s: State) {
    Lineal(s) && Trail(env, s)
  }

  lemma StepKeepsInv(env: Env, s: State, ev: Event)
    requires Inv(env, s) && Enabled(env, s, ev) && DeletesOk(ev.op)
    ensures Inv(env, Step(env, s, ev)) && Effect(env, s, ev, Step(env, s, ev))
  {
    StepKeepsTrail(env, s, ev);
    RootedIsDrawn(s);
    LinealKept(env, s, ev);
  }

  lemma InitialInv(env: Env, clock: Instant)
    ensures Inv(env, Initial(clock))
  {
    forall l ensures Linked(Of(Initial(clock).h.grants, l)) {}
  }

  lemma ReachedInv(env: Env, clock: Instant, evs: seq<Event>, s: State)
    requires Reaches(env, clock, evs, s) && AllDeletesOk(evs)
    ensures Inv(env, s)
  {
    InitialInv(env, clock);
    var inv := x => Inv(env, x);
    forall x, ev | inv(x) && Enabled(env, x, ev) && DeletesOk(ev.op) ensures inv(Step(env, x, ev)) {
      StepKeepsInv(env, x, ev);
    }
    RunInduction(env, Initial(clock), evs, DeletesOk, inv, (x, y) => true);
  }

  // ---------- Linear lineages ----------

  function LiveOf(s: State, l: Lineage): set<Artefact> {
    (set k | k in s.t.sessions && LineageOf(s.h, SessionOf(k)) == Some(l) :: SessionOf(k)) +
    (set k | k in s.t.codes && LineageOf(s.h, CodeOf(k)) == Some(l) :: CodeOf(k)) +
    (set k | k in s.t.refreshes && LineageOf(s.h, RefreshOf(k)) == Some(l) :: RefreshOf(k))
  }

  lemma InLiveOf(s: State, l: Lineage, x: Artefact)
    ensures x in LiveOf(s, l) <==> Live(s.t, x) && LineageOf(s.h, x) == Some(l)
  {}

  function Count(s: State, l: Lineage): nat {
    |LiveOf(s, l)|
  }

  lemma AtMostOne(s: State, l: Lineage)
    requires Linear(s)
    ensures Count(s, l) <= 1
  {
    var live := LiveOf(s, l);
    if live != {} {
      var x :| x in live;
      forall y | y in live ensures y == x {
        InLiveOf(s, l, x);
        InLiveOf(s, l, y);
      }
      assert live == {x};
    }
  }

  lemma ChainEnd(s: State, l: Lineage, k: string)
    requires Owned(s) && Chained(s) && RefreshOf(k) in LiveOf(s, l)
    ensures var c := Of(s.h.grants, l); |c| > 0 && c[|c| - 1].made == RefreshOf(k)
  {
    assert Live(s.t, RefreshOf(k)) && LineageOf(s.h, RefreshOf(k)) == Some(l);
    assert Frontier(s, RefreshOf(k), l);
  }

  /** In every run, every lineage has at most one live artefact, nothing is spent twice, and nothing
      spent is still live. */
  lemma LinearLineages(env: Env, clock: Instant, evs: seq<Event>, s: State, l: Lineage)
    requires Reaches(env, clock, evs, s) && AllDeletesOk(evs)
    ensures Count(s, l) <= 1
    ensures forall i | 0 <= i < |s.h.grants| :: !Live(s.t, s.h.grants[i].spent)
    ensures forall i, j | 0 <= i < j < |s.h.grants| :: s.h.grants[i].spent != s.h.grants[j].spent
  {
    ReachedInv(env, clock, evs, s);
    AtMostOne(s, l);
    forall i | 0 <= i < |s.h.grants| ensures !Live(s.t, s.h.grants[i].spent) {
      assert SpentOne(s, s.h.grants[i]);
    }
  }

  /** In every run, the grants of a lineage start with a code and then follow one chain of refresh
      tokens, whose end is the only refresh token of the lineage that can still be live. */
  lemma GrantsFormAChain(env: Env, clock: Instant, evs: seq<Event>, s: State, l: Lineage, k: string)
    requires Reaches(env, clock, evs, s) && AllDeletesOk(evs)
    ensures Linked(Of(s.h.grants, l))
    ensures RefreshOf(k) in LiveOf(s, l) ==>
      var c := Of(s.h.grants, l); |c| > 0 && c[|c| - 1].made == RefreshOf(k)
  {
    ReachedInv(env, clock, evs, s);
    if RefreshOf(k) in LiveOf(s, l) { ChainEnd(s, l, k); }
  }

  // ---------- The count never rises ----------

  /** A lineage started before `s` has no more live artefacts in `s'`, and no grants from nothing. */
  ghost predicate Fell(s: State, s': State, l: Lineage) {
    && l in s'.h.authorized && Count(s', l) <= Count(s, l)
    && (Count(s, l) == 0 ==> Of(s'.h.grants, l) == Of(s.h.grants, l))
  }

  ghost predicate NoneLive(s: State, l: Lineage) {
    forall x | Live(s.t, x) :: LineageOf(s.h, x) != Some(l)
  }

  lemma EmptyIsNoneLive(s: State, l: Lineage)
    ensures LiveOf(s, l) == {} <==> NoneLive(s, l)
  {
    forall x ensures x in LiveOf(s, l) <==> Live(s.t, x) && LineageOf(s.h, x) == Some(l) { InLiveOf(s, l, x); }
    if LiveOf(s, l) != {} {
      var x :| x in LiveOf(s, l);
      assert Live(s.t, x);
    }
  }

  lemma SameGrants(gs: seq<Grant>, gs': seq<Grant>, l: Lineage)
    requires |gs'| == |gs| + 1 && gs'[..|gs|] == gs && gs'[|gs|].origin.lineage != l
    ensures Of(gs', l) == Of(gs, l)
  {}

  lemma NothingFromNothing(s: State, s': State, l: Lineage)
    requires Moved(s, s') && l in s.h.authorized && NoneLive(s, l)
    ensures NoneLive(s', l) && Of(s'.h.grants, l) == Of(s.h.grants, l)
  {
    if !Shrinks(s, s') && !(exists m :: Starts(s, s', m)) {
      var a, b :| Moves(s, s', a, b);
      if !a.SessionOf? { SameGrants(s.h.grants, s'.h.grants, l); }
    }
  }

  lemma MovedCount(s: State, s': State, l: Lineage)
    requires Moved(s, s') && Linear(s') && l in s.h.authorized
    ensures Fell(s, s', l)
  {
    AtMostOne(s', l);
    EmptyIsNoneLive(s, l);
    EmptyIsNoneLive(s', l);
    if LiveOf(s, l) == {} { NothingFromNothing(s, s', l); }
  }

  lemma StepCount(env: Env, s: State, ev: Event, l: Lineage)
    requires Inv(env, s) && Enabled(env, s, ev) && DeletesOk(ev.op) && l in s.h.authorized
    ensures Inv(env, Step(env, s, ev)) && Fell(s, Step(env, s, ev), l)
  {
    StepKeepsInv(env, s, ev);
    RootedIsDrawn(s);
    EffectMoves(env, s, ev, Step(env, s, ev));
    MovedCount(s, Step(env, s, ev), l);
  }

  lemma FellIsAPreorder(l: Lineage)
    ensures forall x: State | l in x.h.authorized :: Fell(x, x, l)
    ensures forall x, y, z | Fell(x, y, l) && Fell(y, z, l) :: Fell(x, z, l)
  {}

  lemma RunCount(env: Env, s: State, evs: seq<Event>, l: Lineage)
    requires Inv(env, s) && Runs(env, s, evs) && AllDeletesOk(evs) && l in s.h.authorized
    ensures Fell(s, AfterRun(env, s, evs), l)
  {
    var inv := x => Inv(env, x) && l in x.h.authorized;
    var rel := (x, y) => Fell(x, y, l);
    forall x, ev | inv(x) && Enabled(env, x, ev) && DeletesOk(ev.op)
      ensures inv(Step(env, x, ev)) && rel(x, Step(env, x, ev))
    {
      StepCount(env, x, ev, l);
    }
    FellIsAPreorder(l);
    RunInduction(env, s, evs, DeletesOk, inv, rel);
  }

  /** From any reachable state on, the number of live artefacts of a lineage never rises. */
  lemma CountNeverRises(env: Env, clock: Instant, evs: seq<Event>, s: State, later: seq<Event>, l: Lineage)
    requires Reaches(env, clock, evs, s) && AllDeletesOk(evs) && l in s.h.authorized
    requires Runs(env, s, later) && AllDeletesOk(later)
    ensures Count(AfterRun(env, s, later), l) <= Count(s, l)
  {
    ReachedInv(env, clock, evs, s);
    RunCount(env, s, later, l);
  }

  // ---------- Revocation and introspection ----------

  /** An owner's revoke of a live refresh token, with any hint but `access_token`, whose store
      statements succeed. */
  predicate OwnerRevokes(env: Env, t: Tables, op: Op) {
    && op.Revoke? && op.hint != "access_token" && op.token != "" && op.io.lookup && op.io.delete
    && env.hash(op.token) in t.refreshes
    && Authenticate(env, t, op.io, op.creds) == Ok(t.refreshes[env.hash(op.token)].clientID)
  }

  lemma RevokeEmpties(env: Env, s: State, ev: Event, l: Lineage)
    requires Linear(s) && OwnerRevokes(env, s.t, ev.op) && LineageOf(s.h, RefreshOf(env.hash(ev.op.token))) == Some(l)
    ensures var s' := Step(env, s, ev); LiveOf(s', l) == {} && s'.h.grants == s.h.grants
  {
    var hash, s' := env.hash(ev.op.token), Step(env, s, ev);
    assert Handle(env, s.t, ev.now, ev.op) == HandleRevoke(env, s.t, ev.op);
    assert s'.t == s.t.(refreshes := s.t.refreshes - {hash}) && s'.h == s.h;
    forall x ensures x !in LiveOf(s', l) {
      InLiveOf(s', l, x);
      assert Live(s.t, RefreshOf(hash));
    }
  }

  lemma RevokeStep(env: Env, s: State, revoke: Event, l: Lineage)
    requires Inv(env, s) && Enabled(env, s, revoke) && OwnerRevokes(env, s.t, revoke.op)
    requires LineageOf(s.h, RefreshOf(env.hash(revoke.op.token))) == Some(l)
    ensures var s1 := Step(env, s, revoke);
      Inv(env, s1) && l in s1.h.authorized && Count(s1, l) == 0 && s1.h.grants == s.h.grants
  {
    RevokeEmpties(env, s, revoke, l);
    assert Live(s.t, RefreshOf(env.hash(revoke.op.token)));
    StepCount(env, s, revoke, l);
  }

  /** After the owner's revoke, in every continuation of the run, the token's lineage has no live
      artefact and not one more grant. */
  lemma RevokedStaysRevoked(env: Env, clock: Instant, evs: seq<Event>, s: State, revoke: Event, later: seq<Event>, l: Lineage)
    requires Reaches(env, clock, evs, s) && AllDeletesOk(evs) && Enabled(env, s, revoke) && OwnerRevokes(env, s.t, revoke.op)
    requires LineageOf(s.h, RefreshOf(env.hash(revoke.op.token))) == Some(l)
    requires Runs(env, Step(env, s, revoke), later) && AllDeletesOk(later)
    ensures var s' := AfterRun(env, Step(env, s, revoke), later);
      Count(s', l) == 0 && Of(s'.h.grants, l) == Of(s.h.grants, l)
  {
    ReachedInv(env, clock, evs, s);
    RevokeStep(env, s, revoke, l);
    RunCount(env, Step(env, s, revoke), later, l);
  }

  /** Anyone else's revoke is answered alike and changes no row. */
  lemma NonOwnerRevokeIsHarmless(env: Env, t: Tables, op: Op, owner: Op)
    requires op.Revoke? && op.token != "" && Authenticate(env, t, op.io, op.creds).Ok?
    requires OwnerRevokes(env, t, owner) && owner.token == op.token
    requires Authenticate(env, t, op.io, op.creds) != Authenticate(env, t, owner.io, owner.creds)
    ensures HandleRevoke(env, t, op).t == t && HandleRevoke(env, t, op).r == HandleRevoke(env, t, owner).r
  {}

  /** A refresh exchange of the same token by the same client in which nothing outside the row fails. */
  predicate WouldSucceed(env: Env, t: Tables, x: Op, op: Op) {
    && op.Introspect? && x.ExchangeRefresh? && x.token == op.token && x.creds == op.creds
    && x.io.client == op.io.client && x.io.lookup && x.io.insert && x.minted && x.refresh.Some?
    && env.hash(x.refresh.value) !in t.refreshes
    && (!env.strictUpstream || x.call.Answered?)
  }

  /** Introspection, with any hint but `access_token`, calls a refresh token active exactly when a
      refresh exchange by that client at that instant would be granted, and describes that grant. */
  lemma IntrospectionForetellsRefresh(env: Env, t: Tables, now: Instant, op: Op, x: Op)
    requires WouldSucceed(env, t, x, op) && op.hint != "access_token" && op.io.lookup
    ensures var seen, got := HandleIntrospect(env, t, now, op).r, HandleToken(env, t, now, x).r;
      && (seen.ActiveRefresh? <==> got.Granted?)
      && (seen.ActiveRefresh? ==>
            && seen.sub == got.access.sub && seen.clientID == got.access.clientID && seen.scope == got.access.scopes
            && seen.exp == t.refreshes[env.hash(op.token)].expiresAt)
  {}

  // ---------- Why the deletes must succeed ----------

  /** The same token request, with another fresh refresh token. */
  function Again(op: Op, refresh: string): Op
    requires op.ExchangeCode? || op.ExchangeRefresh?
  {
    match op
    case ExchangeCode(io, creds, code, uri, verifier, minted, _) =>
      ExchangeCode(io, creds, code, uri, verifier, minted, Some(refresh))
    case ExchangeRefresh(io, creds, token, call, nonce, minted, _, elapsed) =>
      ExchangeRefresh(io, creds, token, call, nonce, minted, Some(refresh), elapsed)
  }

  lemma RedeemAgain(env: Env, t: Tables, u: Tables, now: Instant, op: Op, client: string, again: string)
    requires op.ExchangeCode? && RedeemCode(env, t, now, op, client).r.Granted?
    requires u.codes == Dropped(t.codes, op.code, op.io.delete) && env.hash(again) !in u.refreshes
    ensures RedeemCode(env, u, now, Again(op, again), client).r.Granted? <==> !op.io.delete
  {
    CodeMakes(env, Find(t.codes, op.code), now, op, client);
    CodeApplied(t, op, CodeVerdict(env, Find(t.codes, op.code), now, op, client), NewHash(env, op.refresh));
  }

  lemma RotateAgain(env: Env, t: Tables, u: Tables, now: Instant, op: Op, client: string, again: string)
    requires op.ExchangeRefresh? && RotateRefresh(env, t, now, op, client).r.Granted?
    requires Find(u.refreshes, env.hash(op.token)) == if op.io.delete then None else Find(t.refreshes, env.hash(op.token))
    requires env.hash(again) !in u.refreshes
    ensures RotateRefresh(env, u, now, Again(op, again), client).r.Granted? <==> !op.io.delete
  {
    var spent := env.hash(op.token);
    RefreshMakes(env, Find(t.refreshes, spent), now, op, client);
    RefreshApplied(t, op, RefreshVerdict(env, Find(t.refreshes, spent), now, op, client), spent, NewHash(env, op.refresh));
  }

  /** Neither the touch nor the exchange changes how a client authenticates. */
  lemma AuthenticatesAgain(env: Env, t: Tables, u: Tables, io: Io, creds: Credentials, now: Instant)
    requires u.clients == TouchedBy(t, io, creds, now).clients
    ensures Authenticate(env, u, io, creds) == Authenticate(env, t, io, creds)
  {}

  /** After a granted code exchange, the same request made again is granted exactly when the delete of
      the code row failed. */
  lemma SecondRedemption(env: Env, t: Tables, now: Instant, op: Op, again: string)
    requires op.ExchangeCode? && HandleToken(env, t, now, op).r.Granted?
    requires env.hash(again) !in HandleToken(env, t, now, op).t.refreshes
    ensures HandleToken(env, HandleToken(env, t, now, op).t, now, Again(op, again)).r.Granted? <==> !op.io.delete
  {
    var client := ClientIn(op.creds);
    var t1, u := TouchedBy(t, op.io, op.creds, now), HandleToken(env, t, now, op).t;
    AuthenticatedClient(env, t, op.io, op.creds);
    RedeemChange(env, t1, now, op, client);
    CodeApplied(t1, op, CodeVerdict(env, Find(t1.codes, op.code), now, op, client), NewHash(env, op.refresh));
    AuthenticatesAgain(env, t, u, op.io, op.creds, now);
    TouchKeepsRest(u, op.io, op.creds, now);
    RedeemAgain(env, t1, TouchedBy(u, op.io, op.creds, now), now, op, client, again);
  }

  /** The same of a refresh exchange. */
  lemma SecondRotation(env: Env, t: Tables, now: Instant, op: Op, again: string)
    requires op.ExchangeRefresh? && HandleToken(env, t, now, op).r.Granted?
    requires env.hash(op.refresh.value) != env.hash(op.token)
    requires env.hash(again) !in HandleToken(env, t, now, op).t.refreshes
    ensures HandleToken(env, HandleToken(env, t, now, op).t, now, Again(op, again)).r.Granted? <==> !op.io.delete
  {
    var client := ClientIn(op.creds);
    var t1, u := TouchedBy(t, op.io, op.creds, now), HandleToken(env, t, now, op).t;
    AuthenticatedClient(env, t, op.io, op.creds);
    RotateChange(env, t1, now, op, client);
    RefreshApplied(t1, op, RefreshVerdict(env, Find(t1.refreshes, env.hash(op.token)), now, op, client),
                   env.hash(op.token), NewHash(env, op.refresh));
    AuthenticatesAgain(env, t, u, op.io, op.creds, now);
    TouchKeepsRest(u, op.io, op.creds, now);
    RotateAgain(env, t1, TouchedBy(u, op.io, op.creds, now), now, op, client, again);
  }
}
