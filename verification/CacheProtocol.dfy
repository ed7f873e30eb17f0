/** The plugin's key cache against the sidecar's key rotation: a token still inside its acceptance
    window never fails because the five-second guard hides its key. */
module CacheProtocol {
  import opened Clock
  import opened Wrappers
  import opened Base64Url
  import opened KeyProtocol
  import opened KeyInvariant
  import opened KeyTheorems
  import JC = JwksCache

  /** The public half of each key pair; the kid names the pair. */
  type PublicHalf = Kid -> seq<byte>

  /** `signingKeyToJWK` */
  function ToJWK(pub: PublicHalf, kid: Kid): JC.JwkEntry {
    JC.JwkEntry("OKP", kid, "EdDSA", "Ed25519", Encode(pub(kid)), "", "")
  }

  /** A response of the JWKS endpoint: every row of the table, in any order. */
  ghost predicate Publishes(pub: PublicHalf, body: seq<JC.JwkEntry>, t: Table) {
    && (forall i | 0 <= i < |body| :: body[i].kid in t && body[i] == ToJWK(pub, body[i].kid))
    && (forall kid | kid in t :: exists i :: 0 <= i < |body| && body[i].kid == kid)
  }

  function KeyOf(pub: PublicHalf, kid: Kid): JC.PublicKey {
    JC.PublicKey(kid, "EdDSA", JC.Ed25519(pub(kid)))
  }

  ghost predicate Authentic(pub: PublicHalf, keys: JC.Keys) {
    forall kid | kid in keys :: keys[kid] == KeyOf(pub, kid)
  }

  lemma JWKParses(pub: PublicHalf, kid: Kid)
    requires |pub(kid)| == 32
    ensures JC.ParseJWKEntry(ToJWK(pub, kid)) == Some(KeyOf(pub, kid))
  {
    DecodeInverts(pub(kid));
  }

  /** The endpoint and the cache agree: a parsed response holds exactly the table's keys. */
  lemma ParseOfPublished(pub: PublicHalf, body: seq<JC.JwkEntry>, t: Table)
    requires forall k :: |pub(k)| == 32
    requires Publishes(pub, body, t)
    ensures JC.ParseAll(body).Keys == t.Keys
    ensures Authentic(pub, JC.ParseAll(body))
  {
    forall kid | kid in JC.ParseAll(body) ensures kid in t && JC.ParseAll(body)[kid] == KeyOf(pub, kid) {
      var i := JC.EveryKeyIsDecided(body, kid);
      JWKParses(pub, kid);
      JC.LastDuplicateWins(body, kid, i);
    }
    forall kid | kid in t ensures kid in JC.ParseAll(body) {
      var i :| 0 <= i < |body| && body[i].kid == kid;
      JWKParses(pub, kid);
      JC.ReadableIsKept(body, kid, i);
    }
  }

  // ---------- The combined system ----------

  /** A response the sidecar has read from its table and the plugin has not yet stored. */
  datatype Response = Response(body: seq<JC.JwkEntry>, listedAt: Instant)

  /** `listedAt` is when the cached body was read from the table. */
  datatype World = World(sidecar: State, cache: JC.Cache, listedAt: Instant, inFlight: Option<Response>)

  datatype Move =
    | Sidecar(step: Step)
    | Respond(body: seq<JC.JwkEntry>)
    | Store

  /** The sidecar answers only while it serves, the plugin refetches only past its guard, a fetch
      takes at most `latency`, and the run stays within one sidecar lifetime once a key is cached. */
  ghost predicate CanMove(c: Config, pub: PublicHalf, latency: Duration, w: World, m: Move) {
    match m
    case Sidecar(step) =>
      Enabled(c, w.sidecar, step) && (step.Restart? ==> w.cache.lastFetch.None? && w.inFlight.None?)
    case Respond(body) =>
      && Serving(w.sidecar) && w.inFlight.None?
      && JC.Older(w.cache.lastFetch, w.sidecar.clock, JC.Guard())
      && Publishes(pub, body, w.sidecar.table)
    case Store =>
      w.inFlight.Some? && w.sidecar.clock - w.inFlight.value.listedAt <= latency
  }

  ghost function Moved(c: Config, pub: PublicHalf, latency: Duration, w: World, m: Move): World
    requires CanMove(c, pub, latency, w, m)
  {
    match m
    case Sidecar(step) => w.(sidecar := Apply(c, w.sidecar, step))
    case Respond(body) => w.(inFlight := Some(Response(body, w.sidecar.clock)))
    case Store =>
      World(w.sidecar, JC.Refreshed(w.cache, Some(w.inFlight.value.body), w.sidecar.clock),
            w.inFlight.value.listedAt, None)
  }

  ghost predicate MovesRun(c: Config, pub: PublicHalf, latency: Duration, w: World, ms: seq<Move>)
    decreases |ms|
  {
    ms == [] ||
    (CanMove(c, pub, latency, w, ms[0]) && MovesRun(c, pub, latency, Moved(c, pub, latency, w, ms[0]), ms[1..]))
  }

  ghost function WorldAfter(c: Config, pub: PublicHalf, latency: Duration, w: World, ms: seq<Move>): World
    requires MovesRun(c, pub, latency, w, ms)
    decreases |ms|
  {
    if ms == [] then w else WorldAfter(c, pub, latency, Moved(c, pub, latency, w, ms[0]), ms[1..])
  }

  /** A plugin that has fetched nothing yet, beside a sidecar in any reachable state. */
  function Begin(s: State): World {
    World(s, JC.Cache(map[], None), 0, None)
  }

  // ---------- Invariant ----------

  /** Every key of the table was in a body listed at `at`, or entered as `next` at or after `at`. */
  ghost predicate Covers(kids: set<Kid>, at: Instant, s: State) {
    forall kid | kid in s.table ::
      kid in kids || (kid in s.bornNext && kid in s.insertedAt && s.insertedAt[kid] >= at)
  }

  ghost predicate WorldOk(c: Config, pub: PublicHalf, latency: Duration, w: World) {
    && Inv(c, w.sidecar)
    && (w.inFlight.Some? || w.cache.lastFetch.Some? ==> Serving(w.sidecar))
    && (w.inFlight.Some? ==>
          && w.inFlight.value.listedAt <= w.sidecar.clock
          && Authentic(pub, JC.ParseAll(w.inFlight.value.body))
          && Covers(JC.ParseAll(w.inFlight.value.body).Keys, w.inFlight.value.listedAt, w.sidecar))
    && (w.cache.lastFetch.Some? ==>
          && w.listedAt <= w.sidecar.clock && w.cache.lastFetch.value - w.listedAt <= latency
          && Covers(w.cache.keys.Keys, w.listedAt, w.sidecar))
    && Authentic(pub, w.cache.keys)
  }

  lemma StepKeepsCover(c: Config, s: State, step: Step, kids: set<Kid>, at: Instant)
    requires Enabled(c, s, step) && Serving(s) && at <= s.clock
    requires StampsOk(s) && s.table.Keys <= s.used && PcOk(c, s)
    requires Covers(kids, at, s)
    ensures Covers(kids, at, Apply(c, s, step))
  {}

  lemma StepOnward(c: Config, s: State, step: Step)
    requires Enabled(c, s, step)
    ensures s.clock <= Apply(c, s, step).clock && (Serving(s) && !step.Restart? ==> Serving(Apply(c, s, step)))
  {}

  lemma SidecarKeeps(c: Config, pub: PublicHalf, latency: Duration, w: World, step: Step)
    requires WorldOk(c, pub, latency, w) && CanMove(c, pub, latency, w, Sidecar(step))
    ensures WorldOk(c, pub, latency, Moved(c, pub, latency, w, Sidecar(step)))
  {
    StepKeepsInv(c, w.sidecar, step);
    StepOnward(c, w.sidecar, step);
    if w.inFlight.Some? {
      StepKeepsCover(c, w.sidecar, step, JC.ParseAll(w.inFlight.value.body).Keys, w.inFlight.value.listedAt);
    }
    if w.cache.lastFetch.Some? {
      StepKeepsCover(c, w.sidecar, step, w.cache.keys.Keys, w.listedAt);
    }
  }

  lemma MoveKeeps(c: Config, pub: PublicHalf, latency: Duration, w: World, m: Move)
    requires forall k :: |pub(k)| == 32
    requires WorldOk(c, pub, latency, w) && CanMove(c, pub, latency, w, m)
    ensures WorldOk(c, pub, latency, Moved(c, pub, latency, w, m))
  {
    match m
    case Sidecar(step) => SidecarKeeps(c, pub, latency, w, step);
    case Respond(body) => ParseOfPublished(pub, body, w.sidecar.table);
    case Store =>
  }

  lemma {:induction false} MovesKeep(c: Config, pub: PublicHalf, latency: Duration, w: World, ms: seq<Move>)
    requires forall k :: |pub(k)| == 32
    requires WorldOk(c, pub, latency, w) && MovesRun(c, pub, latency, w, ms)
    ensures WorldOk(c, pub, latency, WorldAfter(c, pub, latency, w, ms))
    decreases |ms|
  {
    if ms != [] {
      MoveKeeps(c, pub, latency, w, ms[0]);
      MovesKeep(c, pub, latency, Moved(c, pub, latency, w, ms[0]), ms[1..]);
    }
  }

  // ---------- No missed keys ----------

  /** If the cache was stored at most the guard ago, it already holds the key of every signed token
      whose key is still in the table. */
  lemma RecentCacheHolds(c: Config, pub: PublicHalf, latency: Duration, w: World, tok: Token)
    requires WorldOk(c, pub, latency, w) && c.overlap >= Seconds(6) + latency
    requires tok in w.sidecar.tokens && tok.kid in w.sidecar.table
    requires !JC.Older(w.cache.lastFetch, w.sidecar.clock, JC.Guard())
    ensures tok.kid in w.cache.keys
  {
    var s, kid := w.sidecar, tok.kid;
    assert kid in w.cache.keys || (kid in s.bornNext && s.insertedAt[kid] >= w.listedAt);
    if kid in s.bornNext {
      assert OlderThan(Unix(s.insertedAt[kid]), c.overlap, s.promotedAt[kid]) && s.promotedAt[kid] <= s.clock;
    }
  }

  /** Cache and rotator together: if the overlap exceeds the guard, the fetch latency and one second
      of rounding, then in every interleaving within one sidecar lifetime `Get` does not answer "key
      not found" for a token inside its acceptance window: the guarded lookup finds the key, and so
      does the lookup after a successful refetch. */
  lemma GetFindsTheKey(c: Config, pub: PublicHalf, latency: Duration, start: Instant, steps: seq<Step>,
                       ms: seq<Move>, tok: Token, response: Option<seq<JC.JwkEntry>>)
    requires forall k :: |pub(k)| == 32
    requires c.overlap >= Seconds(6) + latency
    requires Runs(c, Initial(start), steps)
    requires MovesRun(c, pub, latency, Begin(After(c, Initial(start), steps)), ms)
    requires var s := WorldAfter(c, pub, latency, Begin(After(c, Initial(start), steps)), ms).sidecar;
      && tok in s.tokens && InWindow(c, tok, s.clock)
      && (tok.kid in s.retiredAt ==> tok.signedAt - s.retiredAt[tok.kid] <= Seconds(3539))
    requires response.Some? ==>
      Publishes(pub, response.value, WorldAfter(c, pub, latency, Begin(After(c, Initial(start), steps)), ms).sidecar.table)
    ensures var w := WorldAfter(c, pub, latency, Begin(After(c, Initial(start), steps)), ms);
      && JC.SlowPath(w.cache, tok.kid, w.sidecar.clock, response, w.sidecar.clock).1 != Err(JC.KeyNotFound)
      && (response.Some? || !JC.Older(w.cache.lastFetch, w.sidecar.clock, JC.Guard()) ==>
            JC.SlowPath(w.cache, tok.kid, w.sidecar.clock, response, w.sidecar.clock).1 == Ok(KeyOf(pub, tok.kid)))
  {
    RunKeepsInv(c, Initial(start), steps);
    var w0 := Begin(After(c, Initial(start), steps));
    MovesKeep(c, pub, latency, w0, ms);
    var w := WorldAfter(c, pub, latency, w0, ms);
    if tok.kid in w.sidecar.retiredAt {
      GapCovers(c, w.sidecar.retiredAt[tok.kid], tok);
    }
    if !JC.Older(w.cache.lastFetch, w.sidecar.clock, JC.Guard()) {
      RecentCacheHolds(c, pub, latency, w, tok);
    } else if response.Some? {
      ParseOfPublished(pub, response.value, w.sidecar.table);
    }
  }

  // ---------- No invented keys ----------

  /** Cached keys, and those on their way, have been in the table. */
  ghost predicate Known(w: World) {
    && w.cache.keys.Keys <= w.sidecar.used
    && (w.inFlight.Some? ==> JC.ParseAll(w.inFlight.value.body).Keys <= w.sidecar.used)
  }

  lemma MoveKeepsKnown(c: Config, pub: PublicHalf, latency: Duration, w: World, m: Move)
    requires forall k :: |pub(k)| == 32
    requires WorldOk(c, pub, latency, w) && CanMove(c, pub, latency, w, m) && Known(w)
    ensures Known(Moved(c, pub, latency, w, m))
  {
    match m
    case Sidecar(step) => assert w.sidecar.used <= Apply(c, w.sidecar, step).used;
    case Respond(body) => ParseOfPublished(pub, body, w.sidecar.table);
    case Store =>
  }

  lemma {:induction false} MovesKeepKnown(c: Config, pub: PublicHalf, latency: Duration, w: World, ms: seq<Move>)
    requires forall k :: |pub(k)| == 32
    requires WorldOk(c, pub, latency, w) && MovesRun(c, pub, latency, w, ms) && Known(w)
    ensures Known(WorldAfter(c, pub, latency, w, ms))
    decreases |ms|
  {
    if ms != [] {
      MoveKeeps(c, pub, latency, w, ms[0]);
      MoveKeepsKnown(c, pub, latency, w, ms[0]);
      MovesKeepKnown(c, pub, latency, Moved(c, pub, latency, w, ms[0]), ms[1..]);
    }
  }
}
