/** Provenance of grants, constancy along refresh chains, and the identity they carry. */
module GrantOrigins {
  import opened Clock
  import opened Wrappers
  import opened Claims
  import opened GrantTypes
  import opened GrantSpec
  import opened GrantRuns
  import opened GrantEffects
  import opened GrantTrace
  import Cipher

  // ---------- The history is made of events ----------

  ghost predicate RegisteredBy(ev: Event, id: string, reg: Registration) {
    ev.op.Register? && ev.op.clientID == id && reg == Registration(ev.op.redirectURIs, ev.op.secret)
  }

  ghost predicate AuthorizedBy(env: Env, ev: Event, l: Lineage, a: Authorization) {
    ev.op.Authorize? && ev.op.upstreamState == Some(l) && a == Asked(env, ev.op, ev.now, a.registered)
  }

  ghost predicate IssuedBy(ev: Event, code: string, i: Issue) {
    && ev.op.Callback? && ev.op.state == i.lineage && ev.op.localCode == Some(code)
    && ev.now == i.at && ev.now + ev.op.elapsed == i.later
    && ev.op.call.Answered? && ev.op.call.answer.identity == i.identity
  }

  ghost predicate RegistrationsFrom(h: History, evs: seq<Event>, h': History) {
    forall id | id in h'.registrations ::
      (id in h.registrations && h.registrations[id] == h'.registrations[id]) ||
      exists i :: 0 <= i < |evs| && RegisteredBy(evs[i], id, h'.registrations[id])
  }

  ghost predicate AuthorizedFrom(env: Env, h: History, evs: seq<Event>, h': History) {
    forall l | l in h'.authorized ::
      (l in h.authorized && h.authorized[l] == h'.authorized[l]) ||
      exists i :: 0 <= i < |evs| && AuthorizedBy(env, evs[i], l, h'.authorized[l])
  }

  ghost predicate IssuedFrom(h: History, evs: seq<Event>, h': History) {
    forall c | c in h'.issued ::
      (c in h.issued && h.issued[c] == h'.issued[c]) ||
      exists i :: 0 <= i < |evs| && IssuedBy(evs[i], c, h'.issued[c])
  }

  /** The history grew only by what the events account for. */
  ghost predicate Accounted(env: Env, h: History, evs: seq<Event>, h': History) {
    RegistrationsFrom(h, evs, h') && AuthorizedFrom(env, h, evs, h') && IssuedFrom(h, evs, h')
  }

  lemma AuthorizedIsAccounted(env: Env, s: State, ev: Event, o: Outcome)
    ensures AuthorizedFrom(env, s.h, [ev], Lineages(env, s, ev, o))
  {
    assert [ev][0] == ev;
  }

  lemma IssuedIsAccounted(env: Env, s: State, ev: Event, o: Outcome)
    ensures IssuedFrom(s.h, [ev], Lineages(env, s, ev, o))
  {
    var h' := Lineages(env, s, ev, o);
    if Issues(s.t, o.t, ev.op) && ev.op.call.Answered? {
      assert IssuedBy([ev][0], ev.op.localCode.value, h'.issued[ev.op.localCode.value]);
    } else {
      assert h'.issued == s.h.issued;
    }
  }

  lemma RecordedIsAccounted(env: Env, s: State, ev: Event)
    ensures Accounted(env, s.h, [ev], Step(env, s, ev).h)
  {
    var o := Handle(env, s.t, ev.now, ev.op);
    assert [ev][0] == ev;
    AuthorizedIsAccounted(env, s, ev, o);
    IssuedIsAccounted(env, s, ev, o);
    if ev.op.Register? {
      assert o == HandleRegister(env, s.t, ev.now, ev.op);
    }
  }

  lemma AccountedTwice(env: Env, h: History, ev: Event, h1: History, evs: seq<Event>, h2: History)
    requires Accounted(env, h, [ev], h1) && Accounted(env, h1, evs, h2)
    ensures Accounted(env, h, [ev] + evs, h2)
  {
    assert ([ev] + evs)[0] == ev;
    assert forall i | 0 <= i < |evs| :: ([ev] + evs)[i + 1] == evs[i];
  }

  lemma {:induction false} RunIsAccounted(env: Env, s: State, evs: seq<Event>)
    ensures Accounted(env, s.h, evs, AfterRun(env, s, evs).h)
    decreases |evs|
  {
    if evs != [] {
      var s1 := Step(env, s, evs[0]);
      RecordedIsAccounted(env, s, evs[0]);
      RunIsAccounted(env, s1, evs[1..]);
      AccountedTwice(env, s.h, evs[0], s1.h, evs[1..], AfterRun(env, s1, evs[1..]).h);
      assert [evs[0]] + evs[1..] == evs;
    }
  }

  // ---------- Provenance ----------

  ghost predicate CallbacksWithin(evs: seq<Event>, d: nat) {
    forall i | 0 <= i < |evs| && evs[i].op.Callback? :: evs[i].op.elapsed <= d
  }

  lemma GrantTimes(env: Env, g: Grant, i: Issue, a: Authorization)
    requires FromCallback(i, a) && GrantOk(env, g, i) && g.spent.CodeOf?
    ensures a.at <= g.at <= a.at + Seconds(660) + (i.later - i.at)
    ensures g.client == a.clientID && g.redirectURI == a.redirectURI && env.s256(g.verifier) == a.codeChallenge
  {
    ExpiryBound(g.at, i.later, 60);
  }

  /** Every redeemed code goes back to an authorize request in the run, by the same client, with the
      same redirect URI, which that client had registered and validation had passed, and with the
      challenge the verifier hashes to, for the scopes asked then. When callbacks take at most `d`, the code was redeemed no later
      than 660 s + `d` after that request. This holds of replays too: no delete need have succeeded. */
  lemma Provenance(env: Env, clock: Instant, evs: seq<Event>, s: State, n: nat, d: nat)
    requires Reaches(env, clock, evs, s) && n < |s.h.grants| && s.h.grants[n].spent.CodeOf? && CallbacksWithin(evs, d)
    ensures var g := s.h.grants[n];
      g.origin.lineage in s.h.authorized &&
      var a := s.h.authorized[g.origin.lineage];
      && a.clientID in s.h.registrations
      && (exists i :: 0 <= i < |evs| && RegisteredBy(evs[i], a.clientID, s.h.registrations[a.clientID]))
      && (exists i :: 0 <= i < |evs| && AuthorizedBy(env, evs[i], g.origin.lineage, a))
      && (exists i :: 0 <= i < |evs| && evs[i].op.Callback? && evs[i].op.state == g.origin.lineage &&
                      evs[i].op.localCode == Some(g.spent.code))
      && g.client == a.clientID && g.redirectURI == a.redirectURI && g.access.scopes == a.scopes
      && a.redirectURI in s.h.registrations[a.clientID].redirectURIs && ValidRedirect(env, a.redirectURI)
      && env.s256(g.verifier) == a.codeChallenge
      && a.at <= g.at <= a.at + Seconds(660) + d
  {
    ReachedTrail(env, clock, evs, s);
    RunIsAccounted(env, Initial(clock), evs);
    var g := s.h.grants[n];
    var i := s.h.issued[g.origin.code];
    GrantTimes(env, g, i, s.h.authorized[g.origin.lineage]);
    var k :| 0 <= k < |evs| && IssuedBy(evs[k], g.origin.code, i);
  }

  // ---------- Constancy ----------

  /** The code row was issued by a callback of the run, and carries that callback's filtered identity. */
  ghost predicate IssuedInRun(evs: seq<Event>, s: State, code: string) {
    && code in s.h.issued
    && var i := s.h.issued[code];
    && (exists n :: 0 <= n < |evs| && IssuedBy(evs[n], code, i))
    && i.row.sub == SubOf(i.identity) && i.row.claims == Only(i.identity, ALLOWED)
  }

  /** Along any number of refreshes: every live refresh row and every grant says what the row of its
      originating code said, and that code was issued by a callback of the run. */
  lemma RefreshChainConstancy(env: Env, clock: Instant, evs: seq<Event>, s: State)
    requires Reaches(env, clock, evs, s)
    ensures forall k | k in s.t.refreshes ::
      k in s.h.refreshOf && IssuedInRun(evs, s, s.h.refreshOf[k].code) &&
      SameGrantee(s.t.refreshes[k], s.h.issued[s.h.refreshOf[k].code].row)
    ensures forall n | 0 <= n < |s.h.grants| ::
      IssuedInRun(evs, s, s.h.grants[n].origin.code) &&
      s.h.grants[n].access == CodeGrantee(s.h.issued[s.h.grants[n].origin.code].row)
  {
    ReachedTrail(env, clock, evs, s);
    RunIsAccounted(env, Initial(clock), evs);
    forall c | c in s.h.issued ensures IssuedInRun(evs, s, c) {}
  }

  /** A refresh token descends from the same code as the artefact spent for it. */
  lemma OriginIsInherited(env: Env, s: State, ev: Event)
    requires Trail(env, s) && Enabled(env, s, ev)
    ensures var gs, gs' := s.h.grants, Step(env, s, ev).h.grants;
      gs' == gs ||
      (|gs'| == |gs| + 1 && gs'[..|gs|] == gs &&
       var g := gs'[|gs|];
       && g.made.RefreshOf? && g.made.hash !in s.h.refreshOf
       && g.made.hash in Step(env, s, ev).h.refreshOf && Step(env, s, ev).h.refreshOf[g.made.hash] == g.origin
       && match g.spent
          case SessionOf(_) => false
          case CodeOf(c) => g.origin.code == c
          case RefreshOf(k) => k in s.h.refreshOf && g.origin == s.h.refreshOf[k])
  {
    StepKeepsTrail(env, s, ev);
    RootedIsDrawn(s);
  }

  // ---------- The upstream refresh token ----------

  /** The loaded cipher encrypts, and what it encrypts opens again. */
  ghost predicate CipherOk(env: Env) {
    && Cipher.Opens(env.aead) && Cipher.ValidKeyID(env.cipher.activeID)
    && env.cipher.activeID in env.cipher.keys
  }

  /** The request's nonce was drawn, so encryption succeeds. */
  predicate NonceOk(op: Op) {
    (op.Callback? ==> op.nonce.Some? && |op.nonce.value| == 12) &&
    (op.ExchangeRefresh? ==> op.nonce.Some? && |op.nonce.value| == 12)
  }

  /** The upstream blob a row carries; a session has none yet. */
  function Blob(t: Tables, x: Artefact): Bytes {
    match x
    case SessionOf(_) => []
    case CodeOf(c) => if c in t.codes then t.codes[c].upstreamEnc else []
    case RefreshOf(k) => if k in t.refreshes then t.refreshes[k].upstreamEnc else []
  }

  /** The blob opens to the latest upstream token received on the way to this artefact, and is empty if
      there was none. */
  ghost predicate HoldsLatest(env: Env, upstream: map<Artefact, Bytes>, x: Artefact, blob: Bytes) {
    if x in upstream then blob != [] && Cipher.Decrypt(env.aead, env.cipher, blob) == Ok(upstream[x]) else blob == []
  }

  ghost predicate Vaulted(env: Env, s: State) {
    && (forall l :: SessionOf(l) !in s.h.upstream)
    && (forall x | Live(s.t, x) :: HoldsLatest(env, s.h.upstream, x, Blob(s.t, x)))
  }

  lemma SealedOpens(env: Env, nonce: Option<Bytes>, plain: Bytes)
    requires CipherOk(env) && nonce.Some? && |nonce.value| == 12
    ensures Sealed(env, nonce, plain).Some? && Sealed(env, nonce, plain).value != []
    ensures Cipher.Decrypt(env.aead, env.cipher, Sealed(env, nonce, plain).value) == Ok(plain)
  {
    Cipher.DecryptsForeign(env.aead, env.cipher, env.cipher, nonce.value, plain);
  }

  /** One new artefact that holds its latest token; every other live one is as it was. */
  lemma VaultFrame(env: Env, s: State, s': State, made: Artefact)
    requires Vaulted(env, s) && !made.SessionOf?
    requires forall x | Live(s'.t, x) && x != made :: Live(s.t, x) && Blob(s'.t, x) == Blob(s.t, x)
    requires forall x | x != made :: x in s'.h.upstream <==> x in s.h.upstream
    requires forall x | x != made && x in s.h.upstream :: x in s'.h.upstream && s'.h.upstream[x] == s.h.upstream[x]
    requires HoldsLatest(env, s'.h.upstream, made, Blob(s'.t, made))
    ensures Vaulted(env, s')
  {
    forall x | Live(s'.t, x) ensures HoldsLatest(env, s'.h.upstream, x, Blob(s'.t, x)) {
      if x != made { assert HoldsLatest(env, s.h.upstream, x, Blob(s.t, x)); }
    }
  }

  lemma QuietKeepsVault(env: Env, s: State, s': State)
    requires Vaulted(env, s) && Quiet(s, s')
    ensures Vaulted(env, s')
  {
    forall x | Live(s'.t, x) ensures HoldsLatest(env, s'.h.upstream, x, Blob(s'.t, x)) {
      assert HoldsLatest(env, s.h.upstream, x, Blob(s.t, x));
    }
  }

  lemma OpensKeepsVault(env: Env, s: State, ev: Event, s': State)
    requires Vaulted(env, s) && Opens(env, s, ev, s')
    ensures Vaulted(env, s')
  {
    forall x | Live(s'.t, x) ensures HoldsLatest(env, s'.h.upstream, x, Blob(s'.t, x)) {
      if x != SessionOf(ev.op.upstreamState.value) { assert HoldsLatest(env, s.h.upstream, x, Blob(s.t, x)); }
    }
  }

  lemma CodesKeepsVault(env: Env, s: State, ev: Event, s': State)
    requires Vaulted(env, s) && Codes(env, s, ev, s') && CipherOk(env) && NonceOk(ev.op)
    ensures Vaulted(env, s')
  {
    SealedOpens(env, ev.op.nonce, ev.op.call.answer.refreshToken);
    VaultFrame(env, s, s', CodeOf(ev.op.localCode.value));
  }

  lemma RedeemsKeepsVault(env: Env, s: State, ev: Event, s': State)
    requires Vaulted(env, s) && Redeems(env, s, ev, s')
    ensures Vaulted(env, s')
  {
    assert HoldsLatest(env, s.h.upstream, CodeOf(ev.op.code), Blob(s.t, CodeOf(ev.op.code)));
    VaultFrame(env, s, s', RefreshOf(env.hash(ev.op.refresh.value)));
  }

  /** A refreshed blob: the new token sealed when the provider sent one, otherwise the old blob. */
  lemma RotatedHolds(env: Env, s: State, ev: Event, s': State)
    requires Vaulted(env, s) && Rotates(env, s, ev, s') && CipherOk(env) && NonceOk(ev.op)
    ensures var made := RefreshOf(env.hash(ev.op.refresh.value));
      HoldsLatest(env, s'.h.upstream, made, Blob(s'.t, made))
  {
    var spent := RefreshOf(env.hash(ev.op.token));
    assert HoldsLatest(env, s.h.upstream, spent, Blob(s.t, spent));
    AuthenticatedClient(env, s.t, ev.op.io, ev.op.creds);
    if ev.op.call.Answered? {
      SealedOpens(env, ev.op.nonce, ev.op.call.answer.refreshToken);
    }
  }

  lemma RotatesKeepsVault(env: Env, s: State, ev: Event, s': State)
    requires Vaulted(env, s) && Rotates(env, s, ev, s') && CipherOk(env) && NonceOk(ev.op)
    ensures Vaulted(env, s')
  {
    RotatedHolds(env, s, ev, s');
    VaultFrame(env, s, s', RefreshOf(env.hash(ev.op.refresh.value)));
  }

  lemma VaultKept(env: Env, s: State, ev: Event)
    requires Vaulted(env, s) && Effect(env, s, ev, Step(env, s, ev)) && CipherOk(env) && NonceOk(ev.op)
    ensures Vaulted(env, Step(env, s, ev))
  {
    var s' := Step(env, s, ev);
    if Quiet(s, s') { QuietKeepsVault(env, s, s'); }
    else if Opens(env, s, ev, s') { OpensKeepsVault(env, s, ev, s'); }
    else if Codes(env, s, ev, s') { CodesKeepsVault(env, s, ev, s'); }
    else if Redeems(env, s, ev, s') { RedeemsKeepsVault(env, s, ev, s'); }
    else { RotatesKeepsVault(env, s, ev, s'); }
  }

  lemma StepKeepsVault(env: Env, s: State, ev: Event)
    requires Trail(env, s) && Vaulted(env, s) && Enabled(env, s, ev) && CipherOk(env) && NonceOk(ev.op)
    ensures Trail(env, Step(env, s, ev)) && Vaulted(env, Step(env, s, ev))
  {
    StepKeepsTrail(env, s, ev);
    VaultKept(env, s, ev);
  }

  lemma {:induction false} RunKeepsVault(env: Env, s: State, evs: seq<Event>)
    requires Trail(env, s) && Vaulted(env, s) && Runs(env, s, evs) && CipherOk(env)
    requires forall i | 0 <= i < |evs| :: NonceOk(evs[i].op)
    ensures Vaulted(env, AfterRun(env, s, evs))
    decreases |evs|
  {
    if evs != [] {
      StepKeepsVault(env, s, evs[0]);
      RunKeepsVault(env, Step(env, s, evs[0]), evs[1..]);
    }
  }

  /** When encryption succeeds, the stored blob of every live code and refresh token decrypts to the
      latest non-empty upstream refresh token received along its own chain, from the callback on, and
      is empty if there was none. */
  lemma UpstreamTokenIsLatest(env: Env, clock: Instant, evs: seq<Event>, s: State, x: Artefact)
    requires Reaches(env, clock, evs, s) && CipherOk(env)
    requires forall i | 0 <= i < |evs| :: NonceOk(evs[i].op)
    requires Live(s.t, x)
    ensures HoldsLatest(env, s.h.upstream, x, Blob(s.t, x))
  {
    RunKeepsVault(env, Initial(clock), evs);
  }
}
