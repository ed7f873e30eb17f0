/** The per-IP registration rate limiter: a map of fixed-window buckets with a background collector,
    against the plain counter that never forgets a bucket. */
module RateLimiter {
  import opened Clock
  import opened Wrappers

  datatype Bucket = Bucket(tokens: int, windowStart: Instant, lastSeen: Instant)

  type Buckets = map<string, Bucket>

  // ---------- One request and one collection, as values ----------

  /** The bucket a request is charged to: the current one, or a new window. */
  function Current(limit: int, window: Duration, b: Option<Bucket>, now: Instant): Bucket {
    if b.None? || now - b.value.windowStart >= window then Bucket(limit, now, now) else b.value
  }

  function Bucketed(bs: Buckets, ip: string): Option<Bucket> {
    if ip in bs then Some(bs[ip]) else None
  }

  function Admits(limit: int, window: Duration, bs: Buckets, ip: string, now: Instant): bool {
    Current(limit, window, Bucketed(bs, ip), now).tokens > 0
  }

  function Charged(limit: int, window: Duration, bs: Buckets, ip: string, now: Instant): Buckets {
    var b := Current(limit, window, Bucketed(bs, ip), now);
    if b.tokens <= 0 then bs[ip := b] else bs[ip := b.(tokens := b.tokens - 1, lastSeen := now)]
  }

  predicate Stale(window: Duration, b: Bucket, tick: Instant) {
    b.lastSeen < tick - 2 * window
  }

  function Collected(window: Duration, bs: Buckets, tick: Instant): Buckets {
    map ip | ip in bs && !Stale(window, bs[ip], tick) :: bs[ip]
  }

  /** `Retry-After`: whole seconds left in the window, rounded up, at least one. */
  function RetryAfter(window: Duration, b: Bucket, now: Instant): int {
    var remaining := b.windowStart + window - now;
    var ceil := -Unix(-remaining);
    if ceil < 1 then 1 else ceil
  }

  // ---------- The limiter as the Go object ----------

  datatype Verdict = Forward | TooMany(retryAfter: int)

  class Limiter {
    const limit: int
    const window: Duration
    var buckets: Buckets

    constructor (limit: int, window: Duration)
      ensures this.limit == limit && this.window == window && buckets == map[]
    {
      this.limit := limit;
      this.window := window;
      buckets := map[];
    }

    method Handle(ip: string, now: Instant) returns (v: Verdict)
      modifies this
      ensures v.Forward? == Admits(limit, window, old(buckets), ip, now)
      ensures buckets == Charged(limit, window, old(buckets), ip, now)
      ensures v.TooMany? ==> v.retryAfter >= 1 && now + Seconds(v.retryAfter) >= buckets[ip].windowStart + window
      ensures v.TooMany? && v.retryAfter > 1 ==> now + Seconds(v.retryAfter - 1) < buckets[ip].windowStart + window
    {
      if ip !in buckets || now - buckets[ip].windowStart >= window {
        buckets := buckets[ip := Bucket(limit, now, now)];
      }
      var b := buckets[ip];
      if b.tokens <= 0 {
        return TooMany(RetryAfter(window, b, now));
      }
      buckets := buckets[ip := b.(tokens := b.tokens - 1, lastSeen := now)];
      v := Forward;
    }

    method Collect(tick: Instant)
      modifies this
      ensures buckets == Collected(window, old(buckets), tick)
    {
      var cutoff := tick - 2 * window;
      var rest := buckets.Keys;
      ghost var before := buckets;
      while rest != {}
        invariant rest <= before.Keys
        invariant buckets == map ip | ip in before && (ip in rest || !Stale(window, before[ip], tick)) :: before[ip]
      {
        var ip :| ip in rest;
        if buckets[ip].lastSeen < cutoff {
          buckets := buckets - {ip};
        }
        rest := rest - {ip};
      }
    }
  }

  // ---------- Histories ----------

  datatype Event = Request(ip: string, now: Instant) | Collection(tick: Instant)

  /** Requests take the lock in the order of their clock readings, and no collection's tick is more
      than one window and a nanosecond ahead of a later request. */
  predicate Timely(window: Duration, evs: seq<Event>, last: Instant, newest: Instant)
    decreases |evs|
  {
    evs == [] ||
    match evs[0]
    case Request(_, now) => last <= now && newest <= now + window + 1 && Timely(window, evs[1..], now, newest)
    case Collection(tick) => Timely(window, evs[1..], last, if newest < tick then tick else newest)
  }

  /** The verdicts of the limiter, in order, one per request. */
  function Verdicts(limit: int, window: Duration, bs: Buckets, evs: seq<Event>): seq<bool>
    decreases |evs|
  {
    if evs == [] then []
    else match evs[0]
      case Request(ip, now) =>
        [Admits(limit, window, bs, ip, now)] +
        Verdicts(limit, window, Charged(limit, window, bs, ip, now), evs[1..])
      case Collection(tick) => Verdicts(limit, window, Collected(window, bs, tick), evs[1..])
  }

  /** The same history without its collections. */
  function Uncollected(evs: seq<Event>): seq<Event> {
    if evs == [] then []
    else if evs[0].Collection? then Uncollected(evs[1..])
    else [evs[0]] + Uncollected(evs[1..])
  }

  /** Requests from `ip` admitted in the half-open interval of one window from `from`. */
  function Admitted(limit: int, window: Duration, bs: Buckets, evs: seq<Event>, ip: string, from: Instant): nat
    decreases |evs|
  {
    if evs == [] then 0
    else match evs[0]
      case Request(who, now) =>
        (if who == ip && from <= now < from + window && Admits(limit, window, bs, who, now) then 1 else 0) +
        Admitted(limit, window, Charged(limit, window, bs, who, now), evs[1..], ip, from)
      case Collection(tick) => Admitted(limit, window, Collected(window, bs, tick), evs[1..], ip, from)
  }

  // ---------- Refinement ----------

  /** `small` lacks only buckets whose window is over for every request still to come. */
  ghost predicate Simulates(window: Duration, small: Buckets, full: Buckets, last: Instant, newest: Instant) {
    && (forall ip | ip in small :: ip in full && small[ip] == full[ip])
    && (forall ip | ip in full && ip !in small :: full[ip].windowStart < newest - 2 * window)
    && (forall ip | ip in full :: full[ip].windowStart <= full[ip].lastSeen <= last)
  }

  lemma SameVerdict(limit: int, window: Duration, small: Buckets, full: Buckets, last: Instant, newest: Instant,
                    ip: string, now: Instant)
    requires window >= 0 && Simulates(window, small, full, last, newest)
    requires last <= now && newest <= now + window + 1
    ensures Admits(limit, window, small, ip, now) == Admits(limit, window, full, ip, now)
    ensures Simulates(window, Charged(limit, window, small, ip, now), Charged(limit, window, full, ip, now), now, newest)
  {
    assert Current(limit, window, Bucketed(small, ip), now) == Current(limit, window, Bucketed(full, ip), now);
  }

  /** Refinement: collecting buckets changes no verdict. */
  lemma {:induction false} CollectionIsInvisible(limit: int, window: Duration, small: Buckets, full: Buckets,
                                                 evs: seq<Event>, last: Instant, newest: Instant,
                                                 who: string, from: Instant)
    requires window >= 0 && Simulates(window, small, full, last, newest) && Timely(window, evs, last, newest)
    ensures Verdicts(limit, window, small, evs) == Verdicts(limit, window, full, Uncollected(evs))
    ensures Admitted(limit, window, small, evs, who, from) == Admitted(limit, window, full, Uncollected(evs), who, from)
    decreases |evs|
  {
    if evs != [] {
      match evs[0]
      case Request(ip, now) =>
        SameVerdict(limit, window, small, full, last, newest, ip, now);
        CollectionIsInvisible(limit, window, Charged(limit, window, small, ip, now),
                              Charged(limit, window, full, ip, now), evs[1..], now, newest, who, from);
        assert Uncollected(evs)[1..] == Uncollected(evs[1..]);
      case Collection(tick) =>
        CollectionIsInvisible(limit, window, Collected(window, small, tick), full, evs[1..], last,
                              if newest < tick then tick else newest, who, from);
    }
  }

  /** From a new limiter: for every timely history the evicting limiter admits exactly the requests
      the counter without collection admits. */
  lemma LimiterRefinesCounter(limit: int, window: Duration, evs: seq<Event>, start: Instant)
    requires window >= 0 && Timely(window, evs, start, start)
    ensures Verdicts(limit, window, map[], evs) == Verdicts(limit, window, map[], Uncollected(evs))
  {
    CollectionIsInvisible(limit, window, map[], map[], evs, start, start, "", 0);
  }

  /** How far ahead a tick may run is exact: one nanosecond more, and the collector forgets a window
      that is still open for the late request. */
  lemma OvertakingTickForgets(window: Duration)
    requires window > 0
    ensures var evs := [Request("ip", 0), Collection(window + 2 + (window - 1)), Request("ip", window - 1)];
      Verdicts(1, window, map[], evs) == [true, true] &&
      Verdicts(1, window, map[], Uncollected(evs)) == [true, false]
  {
    var r0, col, r1 := Request("ip", 0), Collection(window + 2 + (window - 1)), Request("ip", window - 1);
    var spent: Buckets := map["ip" := Bucket(0, 0, 0)];
    assert Charged(1, window, map[], "ip", 0) == spent;
    assert Collected(window, spent, col.tick) == map[];
    assert [r0, col, r1][1..] == [col, r1] && [col, r1][1..] == [r1] && [r1][1..] == [];
    assert [r0, r1][1..] == [r1];
    assert Verdicts(1, window, map[], [r1]) == [true];
    assert Verdicts(1, window, spent, [col, r1]) == [true];
    assert Verdicts(1, window, spent, [r1]) == [false];
    assert Uncollected([r1]) == [r1] && Uncollected([col, r1]) == [r1];
    assert Uncollected([r0, col, r1]) == [r0, r1];
  }

  // ---------- Admissions per interval ----------

  predicate Ordered(evs: seq<Event>, last: Instant)
    decreases |evs|
  {
    evs == [] || (evs[0].Request? && last <= evs[0].now && Ordered(evs[1..], evs[0].now))
  }

  lemma {:induction false} TimelyIsOrdered(window: Duration, evs: seq<Event>, last: Instant, newest: Instant)
    requires Timely(window, evs, last, newest)
    ensures Ordered(Uncollected(evs), last)
    decreases |evs|
  {
    if evs != [] {
      match evs[0]
      case Request(_, now) =>
        TimelyIsOrdered(window, evs[1..], now, newest);
        assert Uncollected(evs)[1..] == Uncollected(evs[1..]);
      case Collection(tick) => TimelyIsOrdered(window, evs[1..], last, if newest < tick then tick else newest);
    }
  }

  /** Two windows' worth less one: a window opened before the interval spent its first admission on
      the request that opened it. */
  function MostInOneWindow(limit: nat): nat {
    if limit == 0 then 0 else 2 * limit - 1
  }

  /** What may still be admitted in the interval, given the bucket: two windows' worth, what is left
      of the current window and one more, or only what is left of the current window. */
  function Allowance(limit: nat, window: Duration, b: Option<Bucket>, from: Instant): int {
    if b.None? || b.value.windowStart < from - window then MostInOneWindow(limit)
    else if b.value.windowStart < from then Left(b.value) + limit
    else Left(b.value)
  }

  function Left(b: Bucket): nat {
    if b.tokens < 0 then 0 else b.tokens
  }

  /** A bucket in the map has already paid for the request that opened it. */
  ghost predicate Opened(limit: int, bs: Buckets) {
    forall ip | ip in bs :: bs[ip].tokens < limit || bs[ip].tokens <= 0
  }

  lemma {:induction false} AdmissionsWithin(limit: nat, window: Duration, bs: Buckets, evs: seq<Event>,
                                            ip: string, from: Instant, last: Instant)
    requires window >= 0 && Opened(limit, bs) && Ordered(evs, last)
    ensures Admitted(limit, window, bs, evs, ip, from) <= Allowance(limit, window, Bucketed(bs, ip), from)
    decreases |evs|
  {
    if evs != [] {
      var who, now := evs[0].ip, evs[0].now;
      var bs' := Charged(limit, window, bs, who, now);
      AdmissionsWithin(limit, window, bs', evs[1..], ip, from, now);
      if who == ip && now >= from + window {
        NoneAfter(limit, window, bs', evs[1..], ip, from, now);
      }
    }
  }

  lemma {:induction false} NoneAfter(limit: int, window: Duration, bs: Buckets, evs: seq<Event>,
                                     ip: string, from: Instant, last: Instant)
    requires Ordered(evs, last) && last >= from + window
    ensures Admitted(limit, window, bs, evs, ip, from) == 0
    decreases |evs|
  {
    if evs != [] {
      NoneAfter(limit, window, Charged(limit, window, bs, evs[0].ip, evs[0].now), evs[1..], ip, from, evs[0].now);
    }
  }

  /** In any half-open interval of one window, an IP gets at most twice the limit less one through,
      however requests and collections interleave. */
  lemma AtMostTwiceTheLimit(limit: nat, window: Duration, evs: seq<Event>, start: Instant, ip: string, from: Instant)
    requires window >= 0 && Timely(window, evs, start, start)
    ensures Admitted(limit, window, map[], evs, ip, from) <= MostInOneWindow(limit)
  {
    CollectionIsInvisible(limit, window, map[], map[], evs, start, start, ip, from);
    TimelyIsOrdered(window, evs, start, start);
    AdmissionsWithin(limit, window, map[], Uncollected(evs), ip, from, start);
  }

  // ---------- One IP at a time ----------

  /** The history without the requests of other IPs. */
  function Alone(evs: seq<Event>, ip: string): seq<Event> {
    if evs == [] then []
    else (if evs[0].Request? && evs[0].ip != ip then [] else [evs[0]]) + Alone(evs[1..], ip)
  }

  /** The verdicts on one IP's requests, in order. */
  function VerdictsFor(limit: int, window: Duration, bs: Buckets, evs: seq<Event>, ip: string): seq<bool>
    decreases |evs|
  {
    if evs == [] then []
    else match evs[0]
      case Request(who, now) =>
        (if who == ip then [Admits(limit, window, bs, who, now)] else []) +
        VerdictsFor(limit, window, Charged(limit, window, bs, who, now), evs[1..], ip)
      case Collection(tick) => VerdictsFor(limit, window, Collected(window, bs, tick), evs[1..], ip)
  }

  lemma {:induction false} OwnBucketDecides(limit: int, window: Duration, bs: Buckets, cs: Buckets, evs: seq<Event>, ip: string)
    requires Bucketed(bs, ip) == Bucketed(cs, ip)
    ensures VerdictsFor(limit, window, bs, evs, ip) == VerdictsFor(limit, window, cs, Alone(evs, ip), ip)
    decreases |evs|
  {
    if evs != [] {
      match evs[0]
      case Request(who, now) =>
        var bs' := Charged(limit, window, bs, who, now);
        if who == ip {
          var cs' := Charged(limit, window, cs, who, now);
          OwnBucketDecides(limit, window, bs', cs', evs[1..], ip);
          assert Alone(evs, ip)[0] == evs[0] && Alone(evs, ip)[1..] == Alone(evs[1..], ip);
        } else {
          OwnBucketDecides(limit, window, bs', cs, evs[1..], ip);
          assert Alone(evs, ip) == Alone(evs[1..], ip);
        }
      case Collection(tick) =>
        OwnBucketDecides(limit, window, Collected(window, bs, tick), Collected(window, cs, tick), evs[1..], ip);
        assert Alone(evs, ip)[0] == evs[0] && Alone(evs, ip)[1..] == Alone(evs[1..], ip);
    }
  }

  /** In every history whatsoever, erasing the requests of all other IPs changes none of an IP's verdicts. */
  lemma OthersDoNotCount(limit: int, window: Duration, evs: seq<Event>, ip: string)
    ensures VerdictsFor(limit, window, map[], evs, ip) == VerdictsFor(limit, window, map[], Alone(evs, ip), ip)
  {
    OwnBucketDecides(limit, window, map[], map[], evs, ip);
  }

  /** Memory stays bounded by recent traffic: after a collection every bucket was used within two windows
      of its tick, and those are untouched. */
  lemma CollectionForgetsTheIdle(window: Duration, bs: Buckets, tick: Instant)
    ensures forall ip | ip in bs :: ip in Collected(window, bs, tick) <==> tick - bs[ip].lastSeen <= 2 * window
    ensures forall ip | ip in Collected(window, bs, tick) :: ip in bs && Collected(window, bs, tick)[ip] == bs[ip]
  {}

  // ---------- The bound is attained ----------

  function Burst(n: nat, now: Instant): seq<Event> {
    seq(n, _ => Request("ip", now))
  }

  /** A burst into an open window inside the interval is admitted as far as the tokens go. */
  lemma {:induction false} BurstIsAdmitted(limit: nat, window: Duration, b: Bucket, n: nat, now: Instant,
                                           more: seq<Event>, from: Instant)
    requires n <= b.tokens && now - b.windowStart < window && from <= now < from + window && b.lastSeen <= now
    ensures Admitted(limit, window, map["ip" := b], Burst(n, now) + more, "ip", from)
         == n + Admitted(limit, window, map["ip" := Bucket(b.tokens - n, b.windowStart, if n == 0 then b.lastSeen else now)],
                         more, "ip", from)
    decreases n
  {
    var evs := Burst(n, now) + more;
    if n == 0 {
      assert evs == more;
    } else {
      assert evs[0] == Request("ip", now);
      assert evs[1..] == Burst(n - 1, now) + more;
      var b' := b.(tokens := b.tokens - 1, lastSeen := now);
      assert Charged(limit, window, map["ip" := b], "ip", now) == map["ip" := b'];
      BurstIsAdmitted(limit, window, b', n - 1, now, more, from);
    }
  }

  /** One request opens a window at 0, the rest of its tokens go at its last instant, and a whole new
      window's worth follows a nanosecond later. */
  function Straddling(limit: nat, window: Duration): seq<Event>
    requires limit > 0
  {
    [Request("ip", 0)] + (Burst(limit - 1, window - 1) + ([Request("ip", window)] + (Burst(limit - 1, window) + [])))
  }

  lemma BoundIsAttained(limit: nat, window: Duration)
    requires limit > 0 && window > 1
    ensures Admitted(limit, window, map[], Straddling(limit, window), "ip", 1) == MostInOneWindow(limit)
  {
    var last := Burst(limit - 1, window) + [];
    var second := [Request("ip", window)] + last;
    var first := Burst(limit - 1, window - 1) + second;
    var evs := Straddling(limit, window);
    assert evs[1..] == first && second[1..] == last;
    var b0 := Bucket(limit - 1, 0, 0);
    assert Charged(limit, window, map[], "ip", 0) == map["ip" := b0];
    BurstIsAdmitted(limit, window, b0, limit - 1, window - 1, second, 1);
    var b1 := Bucket(0, 0, if limit == 1 then 0 else window - 1);
    var b2 := Bucket(limit - 1, window, window);
    assert Charged(limit, window, map["ip" := b1], "ip", window) == map["ip" := b2];
    BurstIsAdmitted(limit, window, b2, limit - 1, window, [], 1);
  }
}
