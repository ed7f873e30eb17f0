/** The plugin's cache of the sidecar's public keys: a TTL, a five-second guard between refetches,
    and stale keys served while the sidecar is unreachable. */
module JwksCache {
  import opened Clock
  import opened Wrappers
  import opened Base64Url

  datatype JwkEntry = JwkEntry(kty: string, kid: string, alg: string, crv: string, x: string, n: string, e: string)

  datatype KeyMaterial = Ed25519(bytes: seq<byte>) | Rsa(n: nat, e: nat)

  datatype PublicKey = PublicKey(kid: string, alg: string, key: KeyMaterial)

  function BigEndian(b: seq<byte>): nat {
    if b == [] then 0 else BigEndian(b[..|b| - 1]) * 256 + b[|b| - 1]
  }

  /** `None` where the Go code returns an error, which `refresh` answers by skipping the entry. */
  function ParseJWKEntry(e: JwkEntry): Option<PublicKey> {
    if e.kty == "OKP" && e.crv == "Ed25519" then
      match Decode(e.x)
      case Some(x) => if |x| == 32 then Some(PublicKey(e.kid, "EdDSA", Ed25519(x))) else None
      case None => None
    else if e.kty == "RSA" then
      match (Decode(e.n), Decode(e.e))
      case (Some(n), Some(exp)) =>
        if |exp| > 4 then None else Some(PublicKey(e.kid, "RS256", Rsa(BigEndian(n), BigEndian(exp))))
      case _ => None
    else None
  }

  type Keys = map<string, PublicKey>

  /** What a response body means: later entries overwrite earlier ones, unreadable ones are skipped. */
  function ParseAll(entries: seq<JwkEntry>): Keys {
    if entries == [] then map[]
    else
      var last := entries[|entries| - 1];
      var before := ParseAll(entries[..|entries| - 1]);
      match ParseJWKEntry(last)
      case Some(pk) => before[last.kid := pk]
      case None => before
  }

  /** The last readable entry for a kid decides its key; a later unreadable duplicate does not. */
  ghost predicate Decides(entries: seq<JwkEntry>, kid: string, i: int) {
    && 0 <= i < |entries|
    && entries[i].kid == kid && ParseJWKEntry(entries[i]).Some?
    && forall j | i < j < |entries| :: entries[j].kid != kid || ParseJWKEntry(entries[j]).None?
  }

  lemma {:induction false} LastDuplicateWins(entries: seq<JwkEntry>, kid: string, i: int)
    requires Decides(entries, kid, i)
    ensures kid in ParseAll(entries) && Some(ParseAll(entries)[kid]) == ParseJWKEntry(entries[i])
  {
    var n := |entries| - 1;
    var init := entries[..n];
    if i < n {
      assert entries[n].kid != kid || ParseJWKEntry(entries[n]).None?;
      assert init[i] == entries[i];
      assert forall j | i < j < n :: init[j] == entries[j];
      LastDuplicateWins(init, kid, i);
    }
  }

  /** Conversely every key in the map is decided by some entry. */
  lemma {:induction false} EveryKeyIsDecided(entries: seq<JwkEntry>, kid: string) returns (i: int)
    requires kid in ParseAll(entries)
    ensures Decides(entries, kid, i)
  {
    var n := |entries| - 1;
    if entries[n].kid == kid && ParseJWKEntry(entries[n]).Some? {
      i := n;
    } else {
      var init := entries[..n];
      i := EveryKeyIsDecided(init, kid);
      assert entries[i] == init[i];
      assert forall j | i < j < n :: init[j] == entries[j];
    }
  }

  lemma {:induction false} ReadableIsKept(entries: seq<JwkEntry>, kid: string, i: int)
    requires 0 <= i < |entries| && entries[i].kid == kid && ParseJWKEntry(entries[i]).Some?
    ensures kid in ParseAll(entries)
  {
    var n := |entries| - 1;
    if i < n {
      assert entries[..n][i] == entries[i];
      ReadableIsKept(entries[..n], kid, i);
    }
  }

  // ---------- RSA entries ----------

  /** The base-256 digits of a number, most significant first. */
  function Digits(n: nat): seq<byte> {
    if n == 0 then [] else Digits(n / 256) + [n % 256]
  }

  lemma {:induction false} BigEndianReadsDigits(n: nat)
    ensures BigEndian(Digits(n)) == n
  {
    if n != 0 {
      BigEndianReadsDigits(n / 256);
      assert Digits(n)[..|Digits(n)| - 1] == Digits(n / 256);
    }
  }

  /** An RSA entry is read as its modulus and exponent, exactly when the exponent has at most four bytes. */
  lemma RsaParses(kid: string, alg: string, crv: string, x: string, n: nat, e: nat)
    ensures ParseJWKEntry(JwkEntry("RSA", kid, alg, crv, x, Encode(Digits(n)), Encode(Digits(e))))
         == if |Digits(e)| <= 4 then Some(PublicKey(kid, "RS256", Rsa(n, e))) else None
  {
    DecodeInverts(Digits(n));
    DecodeInverts(Digits(e));
    BigEndianReadsDigits(n);
    BigEndianReadsDigits(e);
  }

  // ---------- The cache as a value ----------

  /** `lastFetch` is `None` for Go's zero time, which is older than any duration. */
  datatype Cache = Cache(keys: Keys, lastFetch: Option<Instant>)

  predicate Older(lastFetch: Option<Instant>, now: Instant, d: Duration) {
    lastFetch.None? || now - lastFetch.value > d
  }

  function Guard(): Duration { Seconds(5) }

  datatype GetError = FetchFailed | KeyNotFound

  type Answer = Result<PublicKey, GetError>

  /** The part of `Get` under the read lock: a key found in a cache younger than its TTL. */
  function FastPath(ttl: Duration, c: Cache, kid: string, now: Instant): Option<PublicKey> {
    if kid in c.keys && !Older(c.lastFetch, now, ttl) then Some(c.keys[kid]) else None
  }

  function Lookup(c: Cache, kid: string): Answer {
    if kid in c.keys then Ok(c.keys[kid]) else Err(KeyNotFound)
  }

  function Refreshed(c: Cache, response: Option<seq<JwkEntry>>, now: Instant): Cache {
    match response
    case None => c
    case Some(body) => Cache(ParseAll(body), Some(now))
  }

  /** The part of `Get` under the write lock: the guard is read at `now`, a fetch ends at `later`. */
  function SlowPath(c: Cache, kid: string, now: Instant, response: Option<seq<JwkEntry>>, later: Instant): (Cache, Answer) {
    if !Older(c.lastFetch, now, Guard()) then (c, Lookup(c, kid))
    else if response.None? then (c, if kid in c.keys then Ok(c.keys[kid]) else Err(FetchFailed))
    else
      var c' := Refreshed(c, response, later);
      (c', Lookup(c', kid))
  }

  // ---------- The cache as the Go object ----------

  class JwksCache {
    const ttl: Duration
    var keys: Keys
    var lastFetch: Option<Instant>

    function Value(): Cache reads this { Cache(keys, lastFetch) }

    constructor (ttlSeconds: int)
      ensures Value() == Cache(map[], None)
      ensures ttl == if ttlSeconds <= 0 then Seconds(300) else Seconds(ttlSeconds)
    {
      ttl := if ttlSeconds <= 0 then Seconds(300) else Seconds(ttlSeconds);
      keys := map[];
      lastFetch := None;
    }

    method Refresh(response: Option<seq<JwkEntry>>, now: Instant) returns (ok: bool)
      modifies this
      ensures ok == response.Some? && Value() == Refreshed(old(Value()), response, now)
    {
      if response.None? { return false; }
      var body := response.value;
      var newKeys: Keys := map[];
      for i := 0 to |body|
        invariant newKeys == ParseAll(body[..i])
      {
        assert body[..i + 1][..i] == body[..i];
        var pk := ParseJWKEntry(body[i]);
        if pk.Some? {
          newKeys := newKeys[body[i].kid := pk.value];
        }
      }
      assert body[..|body|] == body;
      keys := newKeys;
      lastFetch := Some(now);
      ok := true;
    }

    method Get(kid: string, t0: Instant, t1: Instant, response: Option<seq<JwkEntry>>, t2: Instant)
      returns (answer: Answer)
      modifies this
      ensures match FastPath(ttl, old(Value()), kid, t0)
        case Some(pk) => answer == Ok(pk) && Value() == old(Value())
        case None => (Value(), answer) == SlowPath(old(Value()), kid, t1, response, t2)
    {
      var ok := kid in keys;
      var expired := Older(lastFetch, t0, ttl);
      if ok && !expired { return Ok(keys[kid]); }
      if Older(lastFetch, t1, Guard()) {
        var fetched := Refresh(response, t2);
        if !fetched {
          if kid in keys { return Ok(keys[kid]); }
          return Err(FetchFailed);
        }
      }
      if kid !in keys { return Err(KeyNotFound); }
      answer := Ok(keys[kid]);
    }
  }

  // ---------- Runs ----------

  /** Critical sections in lock order, with the clock readings taken inside them. */
  datatype Event =
    | Fast(kid: string, now: Instant)
    | Slow(kid: string, now: Instant, response: Option<seq<JwkEntry>>, later: Instant)

  datatype Fetch = Fetch(body: seq<JwkEntry>, at: Instant)

  /** A key handed out: when, from which state of the fetch history, and whether a refetch had just failed. */
  datatype Served = Served(kid: string, key: PublicKey, at: Instant, fetches: seq<Fetch>, failedRefresh: bool)

  datatype History = History(cache: Cache, clock: Instant, fetches: seq<Fetch>, served: seq<Served>)

  function Started(clock: Instant): History {
    History(Cache(map[], None), clock, [], [])
  }

  predicate Fetches(c: Cache, ev: Event) {
    ev.Slow? && Older(c.lastFetch, ev.now, Guard()) && ev.response.Some?
  }

  predicate FetchFails(c: Cache, ev: Event) {
    ev.Slow? && Older(c.lastFetch, ev.now, Guard()) && ev.response.None?
  }

  function Happen(ttl: Duration, h: History, ev: Event): History {
    match ev
    case Fast(kid, now) =>
      (match FastPath(ttl, h.cache, kid, now)
       case Some(pk) => h.(clock := now, served := h.served + [Served(kid, pk, now, h.fetches, false)])
       case None => h.(clock := now))
    case Slow(kid, now, response, later) =>
      var (c, answer) := SlowPath(h.cache, kid, now, response, later);
      var fetches := if Fetches(h.cache, ev) then h.fetches + [Fetch(response.value, later)] else h.fetches;
      var at := if Fetches(h.cache, ev) then later else now;
      var served := if answer.Ok?
                    then h.served + [Served(kid, answer.value, at, fetches, FetchFails(h.cache, ev))]
                    else h.served;
      History(c, later, fetches, served)
  }

  predicate InOrder(clock: Instant, evs: seq<Event>)
    decreases |evs|
  {
    evs == [] ||
    (clock <= evs[0].now && (evs[0].Slow? ==> evs[0].now <= evs[0].later) &&
     InOrder(if evs[0].Slow? then evs[0].later else evs[0].now, evs[1..]))
  }

  function Play(ttl: Duration, h: History, evs: seq<Event>): History
    decreases |evs|
  {
    if evs == [] then h else Play(ttl, Happen(ttl, h, evs[0]), evs[1..])
  }

  /** The cache holds exactly the parse of the last successful fetch. */
  ghost predicate Mirrors(c: Cache, fetches: seq<Fetch>) {
    if fetches == [] then c == Cache(map[], None)
    else c == Cache(ParseAll(fetches[|fetches| - 1].body), Some(fetches[|fetches| - 1].at))
  }

  /** A key handed out comes from the latest fetch before it, which is fresh unless a refetch failed. */
  ghost predicate Justified(ttl: Duration, v: Served) {
    && v.fetches != []
    && var last := v.fetches[|v.fetches| - 1];
       && v.kid in ParseAll(last.body) && ParseAll(last.body)[v.kid] == v.key
       && (!v.failedRefresh ==> v.at - last.at <= Max(ttl, Guard()))
  }

  /** Successful fetches in order, more than the guard apart. */
  ghost predicate Spread(fetches: seq<Fetch>, clock: Instant) {
    && (forall i | 0 <= i < |fetches| :: fetches[i].at <= clock)
    && (forall i, j | 0 <= i < j < |fetches| :: fetches[j].at - fetches[i].at > Guard())
  }

  ghost predicate HistoryOk(ttl: Duration, h: History) {
    && Mirrors(h.cache, h.fetches) && Spread(h.fetches, h.clock)
    && (forall i | 0 <= i < |h.served| :: Justified(ttl, h.served[i]))
  }

  predicate Timed(h: History, ev: Event) {
    h.clock <= ev.now && (ev.Slow? ==> ev.now <= ev.later)
  }

  lemma HappenSpreads(ttl: Duration, h: History, ev: Event)
    requires Mirrors(h.cache, h.fetches) && Spread(h.fetches, h.clock) && Timed(h, ev)
    ensures var h' := Happen(ttl, h, ev); Mirrors(h'.cache, h'.fetches) && Spread(h'.fetches, h'.clock)
  {
    if Fetches(h.cache, ev) {
      FetchSpreads(h, Fetch(ev.response.value, ev.later));
    } else {
      assert Happen(ttl, h, ev).fetches == h.fetches && Happen(ttl, h, ev).cache == h.cache;
    }
  }

  /** A fetch past the guard keeps fetches apart. */
  lemma FetchSpreads(h: History, f: Fetch)
    requires Mirrors(h.cache, h.fetches) && Spread(h.fetches, h.clock)
    requires h.clock <= f.at && Older(h.cache.lastFetch, f.at, Guard())
    ensures Spread(h.fetches + [f], f.at)
  {}

  lemma HappenJustifies(ttl: Duration, h: History, ev: Event)
    requires Mirrors(h.cache, h.fetches) && Timed(h, ev)
    ensures var h' := Happen(ttl, h, ev);
      h'.served == h.served || (|h'.served| == |h.served| + 1 && h'.served[..|h.served|] == h.served &&
                                Justified(ttl, h'.served[|h.served|]))
  {}

  lemma HappenKeeps(ttl: Duration, h: History, ev: Event)
    requires HistoryOk(ttl, h) && Timed(h, ev)
    ensures HistoryOk(ttl, Happen(ttl, h, ev))
  {
    var h' := Happen(ttl, h, ev);
    HappenSpreads(ttl, h, ev);
    HappenJustifies(ttl, h, ev);
    forall i | 0 <= i < |h'.served| ensures Justified(ttl, h'.served[i]) {
      if i < |h.served| { assert h'.served[i] == h.served[i]; }
    }
  }

  lemma {:induction false} PlayKeeps(ttl: Duration, h: History, evs: seq<Event>)
    requires HistoryOk(ttl, h) && InOrder(h.clock, evs)
    ensures HistoryOk(ttl, Play(ttl, h, evs))
    decreases |evs|
  {
    if evs != [] {
      HappenKeeps(ttl, h, evs[0]);
      PlayKeeps(ttl, Happen(ttl, h, evs[0]), evs[1..]);
    }
  }

  /** Refinement and staleness: after any run of critical sections on a new cache the cache equals the
      parse of the last successful fetch, successful fetches are more than five seconds apart, and
      every key handed out without a failed refetch comes from a fetch at most max(ttl, 5 s) old. */
  lemma CacheRuns(ttl: Duration, clock: Instant, evs: seq<Event>)
    requires InOrder(clock, evs)
    ensures var h := Play(ttl, Started(clock), evs);
      && Mirrors(h.cache, h.fetches)
      && (forall i, j | 0 <= i < j < |h.fetches| :: h.fetches[j].at - h.fetches[i].at > Guard())
      && (forall i | 0 <= i < |h.served| :: Justified(ttl, h.served[i]))
  {
    PlayKeeps(ttl, Started(clock), evs);
  }

  /** Which key `Get` answers, in terms of what its fetch did: with no successful fetch every cached key is
      answered, stale or not, and a missing one is an error of the kind its cause has; after a successful
      fetch exactly the keys of the new body are. */
  lemma GetAnswersWhatItHas(ttl: Duration, c: Cache, kid: string, t0: Instant, now: Instant,
                            response: Option<seq<JwkEntry>>, later: Instant)
    ensures FastPath(ttl, c, kid, t0) ==
      if kid in c.keys && c.lastFetch.Some? && t0 <= c.lastFetch.value + ttl then Some(c.keys[kid]) else None
    ensures var ev, (c', answer) := Slow(kid, now, response, later), SlowPath(c, kid, now, response, later);
      if Fetches(c, ev) then
        c' == Cache(ParseAll(response.value), Some(later)) &&
        answer == if kid in ParseAll(response.value) then Ok(ParseAll(response.value)[kid]) else Err(KeyNotFound)
      else
        c' == c &&
        answer == if kid in c.keys then Ok(c.keys[kid]) else Err(if FetchFails(c, ev) then FetchFailed else KeyNotFound)
  {}

  /** In every history: a key in the cache is handed out by every `Get` for it that does not fetch
      successfully, however old the cache is and however often fetches have failed. */
  lemma StaleKeysAreServed(ttl: Duration, clock: Instant, evs: seq<Event>, kid: string, now: Instant,
                           response: Option<seq<JwkEntry>>, later: Instant)
    requires kid in Play(ttl, Started(clock), evs).cache.keys
    requires !Fetches(Play(ttl, Started(clock), evs).cache, Slow(kid, now, response, later))
    ensures var h := Play(ttl, Started(clock), evs);
      var h' := Happen(ttl, h, Slow(kid, now, response, later));
      && |h'.served| == |h.served| + 1
      && h'.served[|h.served|].kid == kid && h'.served[|h.served|].key == h.cache.keys[kid]
  {}
}
