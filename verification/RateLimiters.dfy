/** The inventory service's rate limiters: a counter per key whose time to live is renewed on every hit. */
module RateLimiters {
  import opened Common

  /** A counter in Redis; a key without expiry lives on. */
  datatype Entry = Entry(count: nat, expiresAt: Option<Time>)

  /** What happens to the two commands of a hit: both run and the reply arrives; nothing runs; INCR runs but
      EXPIRE does not; both run but the reply is lost. */
  datatype Fate = Fine | Lost | NotRenewed | ReplyLost

  datatype Hit = Hit(time: Time, limit: int, fate: Fate)

  /** A request that cannot be counted is let through. */
  datatype Verdict = Admitted | Rejected | LetThrough

  predicate Alive(e: Option<Entry>, now: Time) {
    e.Some? && (e.value.expiresAt.Some? ==> now < e.value.expiresAt.value)
  }

  /** INCR on a key that is missing or expired starts at 1 without an expiry. */
  function Incremented(e: Option<Entry>, now: Time): Entry {
    if Alive(e, now) then e.value.(count := e.value.count + 1) else Entry(1, None)
  }

  function AfterHit(e: Option<Entry>, h: Hit, window: int): Option<Entry> {
    match h.fate
    case Lost => e
    case NotRenewed => Some(Incremented(e, h.time))
    case _ => Some(Incremented(e, h.time).(expiresAt := Some(h.time + window)))
  }

  function Judge(e: Option<Entry>, h: Hit): Verdict {
    if h.fate != Fine then LetThrough
    else if Incremented(e, h.time).count > h.limit then Rejected
    else Admitted
  }

  /** How many of the hits on one key are admitted by their count. */
  function CountAdmitted(e: Option<Entry>, hits: seq<Hit>, window: int): nat
    decreases hits
  {
    if hits == [] then 0
    else (if Judge(e, hits[0]) == Admitted then 1 else 0) + CountAdmitted(AfterHit(e, hits[0], window), hits[1..], window)
  }

  function CountLetThrough(hits: seq<Hit>): nat {
    if hits == [] then 0 else (if hits[0].fate != Fine then 1 else 0) + CountLetThrough(hits[1..])
  }

  /** How many of the hits reach the handler, for either reason. */
  function CountServed(e: Option<Entry>, hits: seq<Hit>, window: int): nat
    decreases hits
  {
    if hits == [] then 0
    else (if Judge(e, hits[0]) != Rejected then 1 else 0) + CountServed(AfterHit(e, hits[0], window), hits[1..], window)
  }

  // ---- At most `limit` in any window ----

  /** `admitted` hits since the start of the window are still on the counter, which outlives the window. */
  predicate Remembered(e: Option<Entry>, admitted: nat, start: Time, window: int) {
    admitted == 0
    || (e.Some? && e.value.count >= admitted
        && (e.value.expiresAt.Some? ==> e.value.expiresAt.value >= start + window))
  }

  lemma {:induction false} WindowBoundFrom(
    e: Option<Entry>, hits: seq<Hit>, start: Time, window: int, limit: nat, admitted: nat)
    requires forall h :: h in hits ==> start <= h.time < start + window && h.limit <= limit
    requires Remembered(e, admitted, start, window) && admitted <= limit
    ensures admitted + CountAdmitted(e, hits, window) <= limit
    decreases hits
  {
    if hits != [] {
      var h := hits[0];
      assert h in hits;
      WindowBoundFrom(AfterHit(e, h, window), hits[1..], start, window, limit,
                      admitted + if Judge(e, h) == Admitted then 1 else 0);
    }
  }

  lemma {:induction false} ServedAdds(e: Option<Entry>, hits: seq<Hit>, window: int)
    ensures CountServed(e, hits, window) == CountAdmitted(e, hits, window) + CountLetThrough(hits)
    decreases hits
  {
    if hits != [] {
      ServedAdds(AfterHit(e, hits[0], window), hits[1..], window);
    }
  }

  /** In any half-open interval as long as the window at most `limit` hits on a key are admitted by their
      count, whatever the counter was before; only hits that could not be counted come on top. */
  lemma WindowBound(e: Option<Entry>, hits: seq<Hit>, start: Time, window: int, limit: nat)
    requires forall h :: h in hits ==> start <= h.time < start + window && h.limit <= limit
    ensures CountAdmitted(e, hits, window) <= limit
    ensures CountServed(e, hits, window) <= limit + CountLetThrough(hits)
  {
    WindowBoundFrom(e, hits, start, window, limit, 0);
    ServedAdds(e, hits, window);
  }

  /** The bound is reached: `limit` hits at once on a new key. */
  lemma {:induction false} WindowBoundReached(n: nat, limit: nat, start: Time, window: int)
    requires n <= limit && window > 0
    ensures var hits := seq(n, _ => Hit(start, limit, Fine));
            CountAdmitted(if n == limit then None else Some(Entry(limit - n, Some(start + window))), hits, window) == n
  {
    if n > 0 {
      var hits := seq(n, _ => Hit(start, limit, Fine));
      assert hits[1..] == seq(n - 1, _ => Hit(start, limit, Fine));
      WindowBoundReached(n - 1, limit, start, window);
    }
  }

  /** No pause between hits, nor before the first, is as long as the window. */
  predicate Unbroken(last: Time, hits: seq<Hit>, window: int)
    decreases hits
  {
    hits != [] ==> hits[0].time < last + window && Unbroken(hits[0].time, hits[1..], window)
  }

  /** Because every hit renews the expiry, a client over its limit that never pauses for a whole window is
      never admitted again. */
  lemma {:induction false} NoPauseNoAdmission(e: Entry, last: Time, hits: seq<Hit>, window: int, limit: int)
    requires e.count >= limit && (e.expiresAt.Some? ==> e.expiresAt.value >= last + window)
    requires Unbroken(last, hits, window)
    requires forall h :: h in hits ==> h.limit <= limit && (h.fate == Fine || h.fate == ReplyLost)
    ensures CountAdmitted(Some(e), hits, window) == 0
    decreases hits
  {
    if hits != [] {
      var h := hits[0];
      assert h in hits;
      NoPauseNoAdmission(AfterHit(Some(e), h, window).value, h.time, hits[1..], window, limit);
    }
  }

  /** On a counter past its limit whose expiry was renewed at `last`, the next counted hit is admitted exactly
      if it comes no earlier than a whole window later. */
  lemma NextHitAdmittedIff(e: Entry, last: Time, h: Hit, window: int)
    requires e.count >= h.limit >= 1 && e.expiresAt == Some(last + window) && h.fate == Fine
    ensures Judge(Some(e), h) == Admitted <==> h.time >= last + window
  {
  }

  /** So of a client past its limit no counted hit is admitted exactly if it never pauses for a window. */
  lemma {:induction false} NoPauseNoAdmissionIff(e: Entry, last: Time, hits: seq<Hit>, window: int, limit: int)
    requires e.count >= limit >= 1 && e.expiresAt == Some(last + window)
    requires forall h :: h in hits ==> h.limit == limit && h.fate == Fine
    ensures CountAdmitted(Some(e), hits, window) == 0 <==> Unbroken(last, hits, window)
    decreases hits
  {
    if hits != [] {
      var h := hits[0];
      assert h in hits;
      NextHitAdmittedIff(e, last, h, window);
      if h.time < last + window {
        NoPauseNoAdmissionIff(AfterHit(Some(e), h, window).value, h.time, hits[1..], window, limit);
      }
    }
  }

  // ---- Exactly which hits are admitted ----

  function Run(e: Option<Entry>, hits: seq<Hit>, window: int): Option<Entry> {
    if hits == [] then e else AfterHit(Run(e, hits[..|hits| - 1], window), hits[|hits| - 1], window)
  }

  /** How many hits there are at the end without a pause of a whole window between one and the next. */
  function Streak(hits: seq<Hit>, window: int): nat {
    if hits == [] then 0
    else
      var n := |hits| - 1;
      1 + if n > 0 && hits[n].time < hits[n - 1].time + window then Streak(hits[..n], window) else 0
  }

  lemma {:induction false} CounterIsStreak(hits: seq<Hit>, window: int)
    requires hits != [] && forall h :: h in hits ==> h.fate == Fine || h.fate == ReplyLost
    ensures Run(None, hits, window) == Some(Entry(Streak(hits, window), Some(hits[|hits| - 1].time + window)))
    decreases hits
  {
    var n := |hits| - 1;
    assert hits[n] in hits;
    if n > 0 {
      forall h | h in hits[..n]
        ensures h in hits
      {
      }
      CounterIsStreak(hits[..n], window);
    }
  }

  /** On a key that starts fresh, while the expiry is renewed on every hit, a counted hit is admitted exactly if
      the hits since the last pause of a whole window, itself included, are no more than its limit. */
  lemma {:induction false} AdmittedIffStreak(hits: seq<Hit>, h: Hit, window: int)
    requires h.fate == Fine && forall g :: g in hits ==> g.fate == Fine || g.fate == ReplyLost
    ensures Judge(Run(None, hits, window), h) == Admitted <==> Streak(hits + [h], window) <= h.limit
  {
    assert (hits + [h])[..|hits|] == hits;
    if hits != [] {
      CounterIsStreak(hits, window);
    }
  }

  /** What goes wrong: a lost hit leaves no trace; one whose expiry is not renewed still counts, on a counter
      that ends when it would have; every hit that cannot be counted is let through. */
  lemma FaultyHits(e: Entry, h: Hit, next: Hit, window: int)
    requires next.fate == Fine && h.time <= next.time && (e.expiresAt.Some? ==> next.time < e.expiresAt.value)
    ensures h.fate != Fine <==> Judge(Some(e), h) == LetThrough
    ensures h.fate == Lost ==> (Judge(AfterHit(Some(e), h, window), next) == Admitted <==> e.count + 1 <= next.limit)
    ensures h.fate == NotRenewed ==> (Judge(AfterHit(Some(e), h, window), next) == Admitted <==> e.count + 2 <= next.limit)
    ensures h.fate == NotRenewed && e.expiresAt.Some? ==>
              AfterHit(Some(e), h, window).value.expiresAt == e.expiresAt
  {
  }

  // ---- Many keys ----

  type Store = map<string, Entry>

  datatype Request = Request(key: string, hit: Hit)

  function At(store: Store, key: string): Option<Entry> {
    if key in store then Some(store[key]) else None
  }

  function AfterRequest(store: Store, r: Request, window: int): Store {
    var e := AfterHit(At(store, r.key), r.hit, window);
    if e == None then store else store[r.key := e.value]
  }

  function HitsOf(requests: seq<Request>, key: string): seq<Hit> {
    if requests == [] then []
    else if requests[0].key == key then [requests[0].hit] + HitsOf(requests[1..], key)
    else HitsOf(requests[1..], key)
  }

  /** How many of the requests with this key are admitted by their count. */
  function AdmittedFor(store: Store, requests: seq<Request>, key: string, window: int): nat
    decreases requests
  {
    if requests == [] then 0
    else
      var r := requests[0];
      (if r.key == key && Judge(At(store, key), r.hit) == Admitted then 1 else 0)
      + AdmittedFor(AfterRequest(store, r, window), requests[1..], key, window)
  }

  /** Keys do not influence each other. */
  lemma {:induction false} KeysAreIndependent(store: Store, requests: seq<Request>, key: string, window: int)
    ensures AdmittedFor(store, requests, key, window) == CountAdmitted(At(store, key), HitsOf(requests, key), window)
    decreases requests
  {
    if requests != [] {
      var r := requests[0];
      KeysAreIndependent(AfterRequest(store, r, window), requests[1..], key, window);
      assert At(AfterRequest(store, r, window), key)
             == if r.key == key then AfterHit(At(store, key), r.hit, window) else At(store, key);
      if r.key == key {
        var hits := HitsOf(requests, key);
        assert hits[0] == r.hit && hits[1..] == HitsOf(requests[1..], key);
      }
    }
  }

  lemma {:induction false} HitsAreRequests(requests: seq<Request>, key: string)
    ensures forall h :: h in HitsOf(requests, key) ==> Request(key, h) in requests
  {
    if requests != [] {
      HitsAreRequests(requests[1..], key);
      assert requests == [requests[0]] + requests[1..];
    }
  }

  /** The bound for each key of a store that serves many. */
  lemma KeyBound(store: Store, requests: seq<Request>, key: string, start: Time, window: int, limit: nat)
    requires forall r :: r in requests ==> start <= r.hit.time < start + window
    requires forall r :: r in requests && r.key == key ==> r.hit.limit <= limit
    ensures AdmittedFor(store, requests, key, window) <= limit
  {
    KeysAreIndependent(store, requests, key, window);
    HitsAreRequests(requests, key);
    WindowBound(At(store, key), HitsOf(requests, key), start, window, limit);
  }

  // ---- The middleware ----

  class RedisClient {
    var store: Store

    constructor ()
      ensures store == map[]
    {
      store := map[];
    }

    method Increment(key: string, now: Time, window: int, fate: Fate) returns (count: Option<int>)
      modifies this
      ensures store == AfterRequest(old(store), Request(key, Hit(now, 0, fate)), window)
      ensures count == if fate == Fine then Some(Incremented(At(old(store), key), now).count) else None
    {
      if fate == Lost {
        return None;
      }
      var before := At(store, key);
      var entry := if Alive(before, now) then Entry(before.value.count + 1, before.value.expiresAt) else Entry(1, None);
      if fate != NotRenewed {
        entry := entry.(expiresAt := Some(now + window));
      }
      store := store[key := entry];
      return if fate == Fine then Some(entry.count) else None;
    }
  }

  class RateLimiter {
    const redis: RedisClient
    const limit: int
    const window: int
    const keyPrefix := "rate_limit:"

    constructor (redis: RedisClient, limit: int, window: int)
      ensures this.redis == redis && this.limit == limit && this.window == window
    {
      this.redis, this.limit, this.window := redis, limit, window;
    }

    method Middleware(clientIP: string, now: Time, fate: Fate) returns (verdict: Verdict)
      modifies redis
      ensures var hit, key := Hit(now, limit, fate), "rate_limit:" + clientIP;
              && verdict == Judge(At(old(redis.store), key), hit)
              && redis.store == AfterRequest(old(redis.store), Request(key, hit), window)
    {
      var key := keyPrefix + clientIP;
      var count := redis.Increment(key, now, window, fate);
      if count == None {
        return LetThrough;
      }
      if count.value > limit {
        return Rejected;
      }
      return Admitted;
    }
  }

  class MethodBasedRateLimiter {
    const redis: RedisClient
    const getLimit: int
    const writeLimit: int
    const window: int
    const lower: string -> string

    constructor (redis: RedisClient, getLimit: int, writeLimit: int, window: int, lower: string -> string)
      ensures this.redis == redis && this.getLimit == getLimit && this.writeLimit == writeLimit
      ensures this.window == window && this.lower == lower
    {
      this.redis, this.getLimit, this.writeLimit, this.window, this.lower := redis, getLimit, writeLimit, window, lower;
    }

    /** Reads have the one limit, every other method the other. */
    method Middleware(clientIP: string, httpMethod: string, now: Time, fate: Fate) returns (verdict: Verdict)
      modifies redis
      ensures var limit := if httpMethod == "GET" || httpMethod == "HEAD" then getLimit else writeLimit;
              var hit, key := Hit(now, limit, fate), "rate_limit:method:" + clientIP + ":" + lower(httpMethod);
              && verdict == Judge(At(old(redis.store), key), hit)
              && redis.store == AfterRequest(old(redis.store), Request(key, hit), window)
    {
      var limit;
      if httpMethod == "GET" || httpMethod == "HEAD" {
        limit := getLimit;
      } else {
        limit := writeLimit;
      }
      var key := METHOD_PREFIX + clientIP + ":" + lower(httpMethod);
      var count := redis.Increment(key, now, window, fate);
      if count == None {
        return LetThrough;
      }
      if count.value > limit {
        return Rejected;
      }
      return Admitted;
    }
  }

  const METHOD_PREFIX := "rate_limit:method:"

  function MethodKey(clientIP: string, httpMethod: string): string {
    METHOD_PREFIX + clientIP + ":" + httpMethod
  }

  lemma LastColon(ip: string, m: string, ip': string, m': string)
    requires ':' !in m && ip + ":" + m == ip' + ":" + m'
    ensures |ip'| <= |ip|
  {
    var s := ip + ":" + m;
    assert s == ip' + ":" + m';
    assert s[|ip'|] == ':';
    forall k | |ip| < k < |s|
      ensures s[k] != ':'
    {
      assert s[k] == m[k - |ip| - 1];
    }
  }

  /** Two clients or methods never share a counter, as long as methods hold no colon. */
  lemma MethodKeysDiffer(ip: string, m: string, ip': string, m': string)
    requires ':' !in m && ':' !in m' && MethodKey(ip, m) == MethodKey(ip', m')
    ensures ip == ip' && m == m'
  {
    var a, b := ip + ":" + m, ip' + ":" + m';
    assert METHOD_PREFIX + ip + ":" + m == METHOD_PREFIX + a;
    assert METHOD_PREFIX + ip' + ":" + m' == METHOD_PREFIX + b;
    assert a == (METHOD_PREFIX + a)[|METHOD_PREFIX|..] == (METHOD_PREFIX + b)[|METHOD_PREFIX|..] == b;
    LastColon(ip, m, ip', m');
    LastColon(ip', m', ip, m);
    assert ip == a[..|ip|] && ip' == b[..|ip'|];
    assert m == a[|ip| + 1..] && m' == b[|ip'| + 1..];
  }
}
