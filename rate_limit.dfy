/**
 * The rate-limit guard: a fixed-window counter per (client, handler) in the
 * key-value store. Every request increments its counter; the request that
 * creates the counter starts the window by setting the counter's expiry; a
 * request passes exactly when the count after its increment is within the
 * limit. The SHA-256 digest of the client address is an input.
 */
module RateLimit {
  import opened Wrappers
  import opened Backend

  /** The limit and the window length, in milliseconds, of a handler. */
  datatype RateLimitOptions = RateLimitOptions(limit: nat, windowMs: nat)

  /** The options of a handler without rate-limit metadata: 100 requests a minute. */
  const DefaultRateLimit := RateLimitOptions(100, 60 * 1000)

  function OptionsOf(meta: Option<RateLimitOptions>): RateLimitOptions {
    meta.GetOr(DefaultRateLimit)
  }

  /** The window length in seconds, as the guard divides it. */
  function WindowSeconds(o: RateLimitOptions): real {
    o.windowMs as real / 1000.0
  }

  /** A lower-case hexadecimal SHA-256 digest: 64 characters from 0-9 and a-f. */
  predicate HexDigest(d: string) {
    |d| == 64 && forall i :: 0 <= i < |d| ==> '0' <= d[i] <= '9' || 'a' <= d[i] <= 'f'
  }

  /** The counter key of a client (by digest) at a handler. */
  function RateKey(digest: string, handler: string): string {
    "rate-limit:" + digest + ":" + handler
  }

  /**
   * The cache entries, the locks and the counters share one key-value store;
   * their keys start with different letters, so no cache key the services
   * use can name a lock or a counter, and no lock can name a counter.
   */
  lemma KeyFamiliesDisjoint(a: TaskTypes.Id, b: TaskTypes.Id, digest: string, handler: string)
    ensures TaskKey(a) != LockKey(b)
    ensures TaskKey(a) != RateKey(digest, handler)
    ensures LockKey(b) != RateKey(digest, handler)
  {
    assert TaskKey(a)[0] == 't';
    assert LockKey(b)[0] == 'l';
    assert RateKey(digest, handler)[0] == 'r';
  }

  /** Different (client, handler) pairs have different counters. */
  lemma RateKeyInjective(d1: string, h1: string, d2: string, h2: string)
    requires HexDigest(d1) && HexDigest(d2)
    requires RateKey(d1, h1) == RateKey(d2, h2)
    ensures d1 == d2 && h1 == h2
  {
    assert d1 == RateKey(d1, h1)[11..75];
    assert d2 == RateKey(d2, h2)[11..75];
    assert h1 == RateKey(d1, h1)[76..];
    assert h2 == RateKey(d2, h2)[76..];
  }

  /** The current count under `key`; an absent key counts 0. */
  function CountOf(s: Snapshot, key: string): nat {
    if key in s.counters then s.counters[key].count else 0
  }

  /**
   * `incr`: the counter goes up by one and keeps its expiry; an absent key is
   * created with count 1 and no expiry. Returns the new count.
   */
  function Incr(s: Snapshot, key: string): (r: (Snapshot, nat))
    ensures r.1 == CountOf(s, key) + 1 && CountOf(r.0, key) == r.1
    ensures key in r.0.counters
    ensures r.0.counters[key].expirySeconds == (if key in s.counters then s.counters[key].expirySeconds else None)
    ensures forall k :: k != key ==> (k in r.0.counters <==> k in s.counters)
    ensures forall k :: k != key && k in s.counters ==> r.0.counters[k] == s.counters[k]
    ensures r.0 == s.(counters := r.0.counters)
  {
    var current := if key in s.counters then s.counters[key] else Counter(0, None);
    (s.(counters := s.counters[key := Counter(current.count + 1, current.expirySeconds)]), current.count + 1)
  }

  /** `expire`: an existing counter gets the expiry `seconds`. */
  function Expire(s: Snapshot, key: string, seconds: real): (r: Snapshot)
    ensures key in s.counters ==> r.counters == s.counters[key := s.counters[key].(expirySeconds := Some(seconds))]
    ensures key !in s.counters ==> r == s
    ensures r == s.(counters := r.counters)
  {
    if key in s.counters then s.(counters := s.counters[key := s.counters[key].(expirySeconds := Some(seconds))]) else s
  }

  /** What the guard decides: pass, or throw 429 with the limit and the window in seconds. */
  datatype Decision = Allowed | Rejected(limit: nat, windowSeconds: real)

  /**
   * The guard for one request of client `digest` at `handler`: the counter is
   * incremented whether or not the request passes; the increment that makes it
   * 1 also sets its expiry to the window; the request passes exactly when the
   * new count is at most the limit. No other counter and nothing else changes.
   */
  function CanActivate(s: Snapshot, meta: Option<RateLimitOptions>, digest: string, handler: string)
    : (r: (Snapshot, Decision))
    ensures var key := RateKey(digest, handler);
      && CountOf(r.0, key) == CountOf(s, key) + 1
      && (r.1 == Allowed <==> CountOf(s, key) + 1 <= OptionsOf(meta).limit)
      && (r.1.Rejected? ==> r.1 == Rejected(OptionsOf(meta).limit, WindowSeconds(OptionsOf(meta))))
      && key in r.0.counters
      && (CountOf(s, key) == 0 ==> r.0.counters[key].expirySeconds == Some(WindowSeconds(OptionsOf(meta))))
      && (CountOf(s, key) > 0 ==> r.0.counters[key].expirySeconds == s.counters[key].expirySeconds)
    ensures forall k :: k != RateKey(digest, handler) ==> (k in r.0.counters <==> k in s.counters)
    ensures forall k :: k != RateKey(digest, handler) && k in s.counters ==> r.0.counters[k] == s.counters[k]
    ensures r.0 == s.(counters := r.0.counters)
  {
    var options := OptionsOf(meta);
    var key := RateKey(digest, handler);
    var (s1, count) := Incr(s, key);
    var s2 := if count == 1 then Expire(s1, key, WindowSeconds(options)) else s1;
    if count > options.limit then (s2, Rejected(options.limit, WindowSeconds(options)))
    else (s2, Allowed)
  }

  /**
   * A request of one client at one handler leaves the count, and so the next
   * decision, of every other (client, handler) pair as it was.
   */
  lemma PairsCountIndependently(s: Snapshot, meta: Option<RateLimitOptions>, meta2: Option<RateLimitOptions>,
                                d1: string, h1: string, d2: string, h2: string)
    requires HexDigest(d1) && HexDigest(d2) && (d1, h1) != (d2, h2)
    ensures var s1 := CanActivate(s, meta, d1, h1).0;
      && CountOf(s1, RateKey(d2, h2)) == CountOf(s, RateKey(d2, h2))
      && CanActivate(s1, meta2, d2, h2).1 == CanActivate(s, meta2, d2, h2).1
  {
    if RateKey(d1, h1) == RateKey(d2, h2) {
      RateKeyInjective(d1, h1, d2, h2);
    }
  }

  /** The end of a window: the store drops the expired counter. */
  function WindowElapsed(s: Snapshot, key: string): (r: Snapshot)
    ensures key !in r.counters && CountOf(r, key) == 0
    ensures r == s.(counters := r.counters)
  {
    s.(counters := s.counters - {key})
  }

  /** `n` requests in a row of one client at one handler, with their decisions in order. */
  function Requests(s: Snapshot, meta: Option<RateLimitOptions>, digest: string, handler: string, n: nat)
    : (r: (Snapshot, seq<Decision>))
    ensures |r.1| == n
  {
    if n == 0 then (s, [])
    else
      var (s1, ds) := Requests(s, meta, digest, handler, n - 1);
      var (s2, d) := CanActivate(s1, meta, digest, handler);
      (s2, ds + [d])
  }

  /**
   * Within one window, starting from no counter, the first `limit` of `n`
   * requests pass and every later one is rejected; the counter holds `n` and
   * expires one window after the first request. Other counters keep their
   * values.
   */
  lemma {:induction false} FreshWindow(s: Snapshot, meta: Option<RateLimitOptions>, digest: string, handler: string, n: nat)
    requires RateKey(digest, handler) !in s.counters
    ensures var r := Requests(s, meta, digest, handler, n);
      var key := RateKey(digest, handler);
      && CountOf(r.0, key) == n
      && (n > 0 ==> r.0.counters[key].expirySeconds == Some(WindowSeconds(OptionsOf(meta))))
      && (forall i :: 0 <= i < n ==> (r.1[i] == Allowed <==> i < OptionsOf(meta).limit))
      && (forall k :: k != key ==> (k in r.0.counters <==> k in s.counters))
      && (forall k :: k != key && k in s.counters ==> r.0.counters[k] == s.counters[k])
  {
    if n > 0 {
      FreshWindow(s, meta, digest, handler, n - 1);
      var (s1, ds) := Requests(s, meta, digest, handler, n - 1);
      var (s2, d) := CanActivate(s1, meta, digest, handler);
      assert Requests(s, meta, digest, handler, n).1 == ds + [d];
      assert d == Allowed <==> n - 1 < OptionsOf(meta).limit;
    }
  }

  /** After the window has elapsed, the next request passes whenever the limit is not 0. */
  lemma NewWindowPasses(s: Snapshot, meta: Option<RateLimitOptions>, digest: string, handler: string)
    ensures var s1 := WindowElapsed(s, RateKey(digest, handler));
      CanActivate(s1, meta, digest, handler).1 == Allowed <==> OptionsOf(meta).limit >= 1
  {
  }
}
