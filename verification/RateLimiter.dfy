/** A per-key token bucket with continuous refill, a cap on tracked keys, and a
    sweep that forgets idle buckets. Rates are real numbers; time is in
    nanoseconds and read from one clock that does not go backwards. */
module RateLimiter {
  import opened Wrappers

  type Key = string
  type Nanos = int

  const SECOND: Nanos := 1_000_000_000
  const MILLISECOND: Nanos := 1_000_000

  datatype Bucket = Bucket(tokens: real, last: Nanos)
  type Table = map<Key, Bucket>

  /** rate is in tokens per second. */
  datatype Limits = Limits(rate: real, burst: real, ttl: Nanos, maxKeys: int)

  predicate Positive(l: Limits) {
    l.rate > 0.0 && l.burst > 0.0 && l.ttl > 0 && l.maxKeys > 0
  }

  datatype Answer = Answer(ok: bool, remaining: int, retryAfter: Nanos)

  function Min(a: real, b: real): real {
    if a < b then a else b
  }

  /** Tokens earned over a stretch of time. */
  function Earned(l: Limits, elapsed: Nanos): real {
    elapsed as real / SECOND as real * l.rate
  }

  function Refilled(l: Limits, b: Bucket, now: Nanos): Bucket {
    if now > b.last then Bucket(Min(l.burst, b.tokens + Earned(l, now - b.last)), now) else b
  }

  /** How long a bucket short of a whole token takes to fill it, plus a millisecond. */
  function Hint(l: Limits, tokens: real): Nanos
    requires l.rate > 0.0
  {
    ((1.0 - tokens) / l.rate * SECOND as real).Floor + MILLISECOND
  }

  /** A new key finds the table full. */
  predicate Turned(l: Limits, t: Table, key: Key) {
    key !in t && |t| >= l.maxKeys
  }

  /** The bucket a request draws on, refilled up to now. */
  function Drawn(l: Limits, t: Table, key: Key, now: Nanos): Bucket {
    Refilled(l, if key in t then t[key] else Bucket(l.burst, now), now)
  }

  /** The table and the answer after one request. */
  function Allowed(l: Limits, t: Table, key: Key, now: Nanos): (Table, Answer)
    requires l.rate > 0.0
  {
    if Turned(l, t, key) then (t, Answer(false, 0, SECOND))
    else
      var b := Drawn(l, t, key, now);
      if b.tokens >= 1.0 then
        var rest := b.tokens - 1.0;
        (t[key := b.(tokens := rest)], Answer(true, rest.Floor, 0))
      else
        (t[key := b], Answer(false, 0, Hint(l, b.tokens)))
  }

  /** Idle for the whole TTL, and full again by now. */
  predicate Forgettable(l: Limits, b: Bucket, now: Nanos) {
    b.last < now - l.ttl && Min(l.burst, b.tokens + Earned(l, now - b.last)) >= l.burst
  }

  function Swept(l: Limits, t: Table, now: Nanos): Table {
    map key | key in t && !Forgettable(l, t[key], now) :: t[key]
  }

  /** The earnings written out: rate tokens a second, a second being a thousand
      million nanoseconds. */
  lemma EarnedWrittenOut(l: Limits, elapsed: Nanos)
    ensures Earned(l, elapsed) == l.rate * elapsed as real / 1_000_000_000.0
  {
  }

  /** One request, by amounts and in nanoseconds. A new key is turned away from a
      full table for a second, and else starts with the whole burst; a known one
      has what it had and what it earned since, up to the burst. A whole token
      lets it through and is spent; less than one turns it down for as long as
      the rest takes to earn, and a millisecond. */
  predicate IsAnswered(l: Limits, t: Table, key: Key, now: Nanos, u: Table, a: Answer)
    requires l.rate > 0.0
  {
    if key !in t && |t| >= l.maxKeys then u == t && a == Answer(false, 0, 1_000_000_000)
    else
      var had := if key in t then t[key] else Bucket(l.burst, now);
      var earned := had.tokens + l.rate * (now - had.last) as real / 1_000_000_000.0;
      var tokens := if now <= had.last then had.tokens else if earned < l.burst then earned else l.burst;
      var last := if now <= had.last then had.last else now;
      if tokens >= 1.0 then
        u == t[key := Bucket(tokens - 1.0, last)] && a == Answer(true, (tokens - 1.0).Floor, 0)
      else
        && u == t[key := Bucket(tokens, last)]
        && a == Answer(false, 0, ((1.0 - tokens) / l.rate * 1_000_000_000.0).Floor + 1_000_000)
  }

  lemma DrawnWrittenOut(l: Limits, b: Bucket, now: Nanos)
    ensures var earned := b.tokens + l.rate * (now - b.last) as real / 1_000_000_000.0;
            Refilled(l, b, now) ==
            Bucket(if now <= b.last then b.tokens else if earned < l.burst then earned else l.burst,
                   if now <= b.last then b.last else now)
  {
    EarnedWrittenOut(l, now - b.last);
  }

  lemma AllowedIsAnswered(l: Limits, t: Table, key: Key, now: Nanos)
    requires l.rate > 0.0
    ensures IsAnswered(l, t, key, now, Allowed(l, t, key, now).0, Allowed(l, t, key, now).1)
  {
    DrawnWrittenOut(l, if key in t then t[key] else Bucket(l.burst, now), now);
  }

  /** A sweep forgets exactly the buckets not drawn on for longer than the TTL
      that have earned back the whole burst. */
  predicate IsSwept(l: Limits, t: Table, now: Nanos, u: Table) {
    && u.Keys <= t.Keys && (forall key :: key in u ==> u[key] == t[key])
    && forall key :: key in t ==>
         (key !in u <==> t[key].last < now - l.ttl && HasEarned(l, t[key], now))
  }

  predicate HasEarned(l: Limits, b: Bucket, now: Nanos) {
    b.tokens + l.rate * (now - b.last) as real / 1_000_000_000.0 >= l.burst
  }

  lemma SweptIsSwept(l: Limits, t: Table, now: Nanos)
    ensures IsSwept(l, t, now, Swept(l, t, now))
  {
    forall key | key in t
      ensures HasEarned(l, t[key], now) <==> t[key].tokens + Earned(l, now - t[key].last) >= l.burst
    {
      EarnedWrittenOut(l, now - t[key].last);
    }
  }

  class Limiter {
    const limits: Limits
    var buckets: Table

    /** perMinute is configured per minute and applied per second. */
    constructor (perMinute: real, burst: real, ttl: Nanos, maxKeys: int)
      requires perMinute > 0.0 && burst > 0.0 && ttl > 0 && maxKeys > 0
      ensures Positive(limits) && limits.rate * 60.0 == perMinute
      ensures limits == Limits(perMinute / 60.0, burst, ttl, maxKeys) && buckets == map[]
    {
      limits := Limits(perMinute / 60.0, burst, ttl, maxKeys);
      buckets := map[];
    }

    method Allow(key: Key, now: Nanos) returns (ok: bool, remaining: int, retryAfter: Nanos)
      requires Positive(limits)
      modifies this
      ensures (buckets, Answer(ok, remaining, retryAfter)) == Allowed(limits, old(buckets), key, now)
      ensures IsAnswered(limits, old(buckets), key, now, buckets, Answer(ok, remaining, retryAfter))
    {
      AllowedIsAnswered(limits, buckets, key, now);
      if key !in buckets {
        if |buckets| >= limits.maxKeys {
          return false, 0, SECOND;
        }
        buckets := buckets[key := Bucket(limits.burst, now)];
      }
      var b := buckets[key];
      if now - b.last > 0 {
        b := Bucket(Min(limits.burst, b.tokens + Earned(limits, now - b.last)), now);
        buckets := buckets[key := b];
      }
      assert b == Drawn(limits, old(buckets), key, now) && buckets == old(buckets)[key := b];
      if b.tokens >= 1.0 {
        b := b.(tokens := b.tokens - 1.0);
        buckets := buckets[key := b];
        assert buckets == old(buckets)[key := b];
        return true, b.tokens.Floor, 0;
      }
      return false, 0, Hint(limits, b.tokens);
    }

    method EvictExpired(now: Nanos)
      modifies this
      ensures buckets == Swept(limits, old(buckets), now)
      ensures IsSwept(limits, old(buckets), now, buckets)
    {
      ghost var before := buckets;
      Evict(now);
      SweptIsSwept(limits, before, now);
    }

    /** The loop over the buckets. */
    method Evict(now: Nanos)
      modifies this
      ensures buckets == Swept(limits, old(buckets), now)
    {
      var cutoff := now - limits.ttl;
      var rest := buckets.Keys;
      while rest != {}
        invariant rest <= buckets.Keys <= old(buckets).Keys
        invariant forall key :: key in buckets ==> buckets[key] == old(buckets)[key]
        invariant forall key :: key in old(buckets) && key !in rest ==>
                    (key in buckets <==> !Forgettable(limits, old(buckets)[key], now))
        decreases |rest|
      {
        var key :| key in rest;
        rest := rest - {key};
        var b := buckets[key];
        if b.last < cutoff {
          var projected := Min(limits.burst, b.tokens + Earned(limits, now - b.last));
          if projected >= limits.burst {
            buckets := buckets - {key};
          }
        }
      }
    }
  }

  /** A constructor call with a non-positive setting is refused. */
  method NewRateLimiter(perMinute: real, burst: real, ttl: Nanos, maxKeys: int) returns (r: Result<Limiter, string>)
    ensures r.Ok? <==> perMinute > 0.0 && burst > 0.0 && ttl > 0 && maxKeys > 0
    ensures r.Ok? ==> fresh(r.value) && r.value.buckets == map[]
                      && r.value.limits == Limits(perMinute / 60.0, burst, ttl, maxKeys)
  {
    if perMinute <= 0.0 {
      return Err("rate must be positive");
    }
    if burst <= 0.0 {
      return Err("burst must be positive");
    }
    if ttl <= 0 {
      return Err("ttl must be positive");
    }
    if maxKeys <= 0 {
      return Err("max_keys must be positive");
    }
    var l := new Limiter(perMinute, burst, ttl, maxKeys);
    return Ok(l);
  }

  // --------------------------------------------------------------------- runs

  datatype Event = Request(key: Key, at: Nanos) | Sweep(at: Nanos)

  predicate Monotone(from: Nanos, events: seq<Event>, to: Nanos) {
    && from <= to
    && (forall i :: 0 <= i < |events| ==> from <= events[i].at <= to)
    && (forall i, j :: 0 <= i < j < |events| ==> events[i].at <= events[j].at)
  }

  function Next(l: Limits, t: Table, e: Event): Table
    requires Positive(l)
  {
    match e
    case Request(key, at) => Allowed(l, t, key, at).0
    case Sweep(at) => Swept(l, t, at)
  }

  function Exec(l: Limits, t: Table, events: seq<Event>): Table
    requires Positive(l)
    decreases |events|
  {
    if events == [] then t else Exec(l, Next(l, t, events[0]), events[1..])
  }

  /** How many of a key's requests were let through. */
  function Passed(l: Limits, t: Table, events: seq<Event>, key: Key): nat
    requires Positive(l)
    decreases |events|
  {
    if events == [] then 0
    else
      (if events[0].Request? && events[0].key == key && Allowed(l, t, key, events[0].at).1.ok then 1 else 0)
      + Passed(l, Next(l, t, events[0]), events[1..], key)
  }

  predicate BucketOk(l: Limits, b: Bucket, now: Nanos) {
    0.0 <= b.tokens <= l.burst && b.last <= now
  }

  predicate TableOk(l: Limits, t: Table, now: Nanos) {
    |t| <= l.maxKeys && forall key :: key in t ==> BucketOk(l, t[key], now)
  }

  /** What a key could spend at once right now. */
  function Credit(l: Limits, t: Table, key: Key, now: Nanos): real {
    if key in t then Refilled(l, t[key], now).tokens else l.burst
  }

  lemma EarnedAdds(l: Limits, a: Nanos, b: Nanos)
    requires l.rate > 0.0
    ensures Earned(l, a + b) == Earned(l, a) + Earned(l, b)
    ensures a >= 0 ==> Earned(l, a) >= 0.0
  {
    var s := SECOND as real;
    assert (a + b) as real / s == a as real / s + b as real / s;
  }

  lemma RefilledOk(l: Limits, b: Bucket, from: Nanos, now: Nanos)
    requires Positive(l) && BucketOk(l, b, from) && from <= now
    ensures BucketOk(l, Refilled(l, b, now), now)
    ensures Refilled(l, b, now).tokens >= b.tokens
    ensures Refilled(l, b, now).tokens <= Refilled(l, b, from).tokens + Earned(l, now - from)
  {
    EarnedAdds(l, from - b.last, now - from);
    EarnedAdds(l, now - from, 0);
  }

  lemma SweptSize(l: Limits, t: Table, now: Nanos)
    ensures |Swept(l, t, now)| <= |t|
  {
    assert Swept(l, t, now).Keys <= t.Keys;
    SubsetSize(Swept(l, t, now).Keys, t.Keys);
  }

  lemma {:induction false} SubsetSize<T>(a: set<T>, b: set<T>)
    requires a <= b
    ensures |a| <= |b|
    decreases a
  {
    if a != {} {
      var x :| x in a;
      SubsetSize(a - {x}, b - {x});
    }
  }

  /** The table never tracks more than maxKeys keys, and its buckets stay within the burst. */
  lemma NextKeepsTable(l: Limits, t: Table, from: Nanos, e: Event)
    requires Positive(l) && TableOk(l, t, from) && from <= e.at
    ensures TableOk(l, Next(l, t, e), e.at)
  {
    match e
    case Request(key, at) =>
      if !Turned(l, t, key) {
        if key in t {
          RefilledOk(l, t[key], from, at);
        }
        assert |t[key := Drawn(l, t, key, at)]| <= |t| + (if key in t then 0 else 1);
      }
    case Sweep(at) =>
      SweptSize(l, t, at);
  }

  lemma {:induction false} EveryRunKeepsTable(l: Limits, from: Nanos, t: Table, events: seq<Event>, to: Nanos)
    requires Positive(l) && TableOk(l, t, from) && Monotone(from, events, to)
    ensures TableOk(l, Exec(l, t, events), to)
    decreases |events|
  {
    if events != [] {
      NextKeepsTable(l, t, from, events[0]);
      EveryRunKeepsTable(l, events[0].at, Next(l, t, events[0]), events[1..], to);
    }
  }

  lemma CreditGrows(l: Limits, t: Table, from: Nanos, key: Key, at: Nanos)
    requires Positive(l) && TableOk(l, t, from) && from <= at
    ensures Credit(l, t, key, at) <= Credit(l, t, key, from) + Earned(l, at - from)
  {
    EarnedAdds(l, at - from, 0);
    if key in t {
      RefilledOk(l, t[key], from, at);
    }
  }

  /** A request moves its own key's credit by what it lets through, and no other's. */
  lemma RequestSpends(l: Limits, t: Table, from: Nanos, asker: Key, at: Nanos, key: Key)
    requires Positive(l) && TableOk(l, t, from) && from <= at
    ensures var r := Allowed(l, t, asker, at);
            Credit(l, r.0, key, at) + (if asker == key && r.1.ok then 1.0 else 0.0) == Credit(l, t, key, at)
  {
    if asker == key && !Turned(l, t, asker) {
      var b := Drawn(l, t, asker, at);
      assert b.last >= at;
      assert Credit(l, t, key, at) == b.tokens;
    }
  }

  /** Only a full bucket is forgotten. */
  lemma SweepKeepsCredit(l: Limits, t: Table, from: Nanos, at: Nanos, key: Key)
    requires Positive(l) && TableOk(l, t, from) && from <= at
    ensures Credit(l, Swept(l, t, at), key, at) == Credit(l, t, key, at)
  {
  }

  /** One event spends credit only by letting the key's own request through. */
  lemma NextSpendsCredit(l: Limits, t: Table, from: Nanos, e: Event, key: Key)
    requires Positive(l) && TableOk(l, t, from) && from <= e.at
    ensures var passed := if e.Request? && e.key == key && Allowed(l, t, key, e.at).1.ok then 1.0 else 0.0;
            passed + Credit(l, Next(l, t, e), key, e.at) <= Credit(l, t, key, from) + Earned(l, e.at - from)
  {
    CreditGrows(l, t, from, key, e.at);
    match e
    case Request(asker, at) => RequestSpends(l, t, from, asker, at, key);
    case Sweep(at) => SweepKeepsCredit(l, t, from, at, key);
  }

  /** For any key, any table reached so far, and any stretch of a run that
      follows: what passes is bounded by the credit at its start plus what the
      stretch earns, whatever other keys and sweeps do. */
  lemma {:induction false} PassedWithinEarned(
    l: Limits, from: Nanos, t: Table, events: seq<Event>, to: Nanos, key: Key)
    requires Positive(l) && TableOk(l, t, from) && Monotone(from, events, to)
    ensures Passed(l, t, events, key) as real + Credit(l, Exec(l, t, events), key, to)
            <= Credit(l, t, key, from) + Earned(l, to - from)
    decreases |events|
  {
    if events == [] {
      CreditGrows(l, t, from, key, to);
    } else {
      var e := events[0];
      NextKeepsTable(l, t, from, e);
      NextSpendsCredit(l, t, from, e, key);
      PassedWithinEarned(l, e.at, Next(l, t, e), events[1..], to, key);
      EarnedAdds(l, e.at - from, to - e.at);
    }
  }

  lemma AtMostEarned(l: Limits, window: nat, x: real, y: real)
    requires x <= y + Earned(l, window)
    ensures x <= y + l.rate * window as real / 1_000_000_000.0
  {
    EarnedWrittenOut(l, window);
  }

  lemma PassedWithinCredit(l: Limits, from: Nanos, t: Table, events: seq<Event>, window: nat, key: Key)
    requires Positive(l) && TableOk(l, t, from) && Monotone(from, events, from + window)
    ensures Passed(l, t, events, key) as real + Credit(l, Exec(l, t, events), key, from + window)
            <= Credit(l, t, key, from) + l.rate * window as real / 1_000_000_000.0
  {
    var x, y := Spent(l, from, t, events, window, key), Credit(l, t, key, from);
    SpentWithinEarned(l, from, t, events, window, key);
    AtMostEarned(l, window, x, y);
  }

  function Spent(l: Limits, from: Nanos, t: Table, events: seq<Event>, window: nat, key: Key): real
    requires Positive(l)
  {
    Passed(l, t, events, key) as real + Credit(l, Exec(l, t, events), key, from + window)
  }

  lemma SpentWithinEarned(l: Limits, from: Nanos, t: Table, events: seq<Event>, window: nat, key: Key)
    requires Positive(l) && TableOk(l, t, from) && Monotone(from, events, from + window)
    ensures Spent(l, from, t, events, window, key) <= Credit(l, t, key, from) + Earned(l, window)
  {
    PassedWithinEarned(l, from, t, events, from + window, key);
  }

  lemma CreditIsWithinBurst(l: Limits, t: Table, now: Nanos, key: Key)
    requires Positive(l) && TableOk(l, t, now)
    ensures 0.0 <= Credit(l, t, key, now) <= l.burst
  {
    if key in t {
      RefilledOk(l, t[key], now, now);
    }
  }

  /** The rate limit: after any history, at most burst + rate * window requests of
      one key pass in a window of that length, the rate being tokens a second and
      the window nanoseconds. */
  lemma RateIsBounded(
    l: Limits, start: Nanos, history: seq<Event>, from: Nanos, events: seq<Event>, window: nat, key: Key)
    requires Positive(l) && Monotone(start, history, from) && Monotone(from, events, from + window)
    ensures var t := Exec(l, map[], history);
            && |Exec(l, t, events)| <= l.maxKeys
            && Passed(l, t, events, key) as real <= l.burst + l.rate * window as real / 1_000_000_000.0
  {
    EveryRunKeepsTable(l, start, map[], history, from);
    var t := Exec(l, map[], history);
    EveryRunKeepsTable(l, from, t, events, from + window);
    PassedWithinEarned(l, from, t, events, from + window, key);
    CreditIsWithinBurst(l, t, from, key);
    CreditIsWithinBurst(l, Exec(l, t, events), from + window, key);
    AtMostEarned(l, window, Passed(l, t, events, key) as real, l.burst);
  }

  /** And no less: a tracked key that stays quiet and tracked since its last
      request is let through exactly when the burst holds a whole token and it
      has, with what it earned, a whole token. */
  lemma EarnedTokenIsHonoured(
    l: Limits, t: Table, from: Nanos, events: seq<Event>, waited: nat, key: Key)
    requires Positive(l) && TableOk(l, t, from) && Monotone(from, events, from + waited) && Without(events, key)
    requires key in t && t[key].last == from && key in Exec(l, t, events)
    ensures Allowed(l, Exec(l, t, events), key, from + waited).1.ok <==>
              l.burst >= 1.0 && t[key].tokens + l.rate * waited as real / 1_000_000_000.0 >= 1.0
  {
    OthersLeaveTheBucket(l, from, t, events, from + waited, key);
    QuietKeyIsLetThrough(l, Exec(l, t, events), t[key], key, from, waited);
  }

  lemma QuietKeyIsLetThrough(l: Limits, z: Table, b: Bucket, key: Key, from: Nanos, waited: nat)
    requires Positive(l) && key in z && z[key] == b && b.last == from && 0.0 <= b.tokens <= l.burst
    ensures Allowed(l, z, key, from + waited).1.ok <==>
              l.burst >= 1.0 && b.tokens + l.rate * waited as real / 1_000_000_000.0 >= 1.0
  {
    EarnedWrittenOut(l, waited);
    QuietKeyDraws(l, z, b, key, from, waited);
  }

  lemma QuietKeyDraws(l: Limits, z: Table, b: Bucket, key: Key, from: Nanos, waited: nat)
    requires Positive(l) && key in z && z[key] == b && b.last == from && 0.0 <= b.tokens <= l.burst
    ensures Allowed(l, z, key, from + waited).1.ok <==> l.burst >= 1.0 && b.tokens + Earned(l, waited) >= 1.0
  {
    if waited == 0 {
      assert Earned(l, 0) == 0.0;
    }
  }

  // ------------------------------------------------------ eviction is invisible

  function Answers(l: Limits, t: Table, events: seq<Event>): seq<Answer>
    requires Positive(l)
    decreases |events|
  {
    if events == [] then []
    else
      (if events[0].Request? then [Allowed(l, t, events[0].key, events[0].at).1] else [])
      + Answers(l, Next(l, t, events[0]), events[1..])
  }

  function WithoutSweeps(events: seq<Event>): seq<Event> {
    if events == [] then []
    else (if events[0].Request? then [events[0]] else []) + WithoutSweeps(events[1..])
  }

  predicate KeysWithin(events: seq<Event>, keys: set<Key>) {
    forall i :: 0 <= i < |events| && events[i].Request? ==> events[i].key in keys
  }

  /** The swept table lacks only buckets that are full again. */
  predicate Alike(l: Limits, swept: Table, full: Table, now: Nanos) {
    && swept.Keys <= full.Keys
    && (forall key :: key in swept ==> swept[key] == full[key])
    && (forall key :: key in full && key !in swept ==> Refilled(l, full[key], now).tokens == l.burst)
  }

  lemma StaysFull(l: Limits, b: Bucket, from: Nanos, now: Nanos)
    requires Positive(l) && BucketOk(l, b, from) && from <= now && Refilled(l, b, from).tokens == l.burst
    ensures Refilled(l, b, now) == Bucket(l.burst, if now > b.last then now else b.last)
  {
    EarnedAdds(l, from - b.last, now - from);
    EarnedAdds(l, now - from, 0);
  }

  /** Requests keep the tables alike and get the same answer. */
  lemma RequestsAgree(l: Limits, swept: Table, full: Table, from: Nanos, key: Key, at: Nanos)
    requires Positive(l) && Alike(l, swept, full, from) && from <= at
    requires forall k :: k in full ==> BucketOk(l, full[k], from)
    requires !Turned(l, swept, key) && !Turned(l, full, key)
    ensures Allowed(l, swept, key, at).1 == Allowed(l, full, key, at).1
    ensures Alike(l, Allowed(l, swept, key, at).0, Allowed(l, full, key, at).0, at)
  {
    if key in full && key !in swept {
      StaysFull(l, full[key], from, at);
    }
    assert Drawn(l, swept, key, at) == Drawn(l, full, key, at);
    forall k | k in full && k !in swept && k != key
      ensures Refilled(l, full[k], at).tokens == l.burst
    {
      StaysFull(l, full[k], from, at);
    }
  }

  lemma SweepStaysAlike(l: Limits, swept: Table, full: Table, from: Nanos, at: Nanos)
    requires Positive(l) && Alike(l, swept, full, from) && from <= at
    requires forall k :: k in full ==> BucketOk(l, full[k], from)
    ensures Alike(l, Swept(l, swept, at), full, at)
  {
    forall k | k in full && k !in Swept(l, swept, at)
      ensures Refilled(l, full[k], at).tokens == l.burst
    {
      if k !in swept {
        StaysFull(l, full[k], from, at);
      }
    }
  }

  lemma RoomForKnownKeys(l: Limits, t: Table, keys: set<Key>, key: Key)
    requires t.Keys <= keys && |keys| <= l.maxKeys && key in keys
    ensures !Turned(l, t, key)
  {
    if key !in t {
      SubsetSize(t.Keys + {key}, keys);
    }
  }

  lemma {:induction false} AnswersAgree(
    l: Limits, swept: Table, full: Table, from: Nanos, events: seq<Event>, to: Nanos, keys: set<Key>)
    requires Positive(l) && Monotone(from, events, to) && KeysWithin(events, keys) && |keys| <= l.maxKeys
    requires Alike(l, swept, full, from) && full.Keys <= keys && TableOk(l, full, from)
    ensures Answers(l, swept, events) == Answers(l, full, WithoutSweeps(events))
    decreases |events|
  {
    if events != [] {
      var e := events[0];
      var u := Next(l, swept, e);
      if e.Request? {
        RoomForKnownKeys(l, swept, keys, e.key);
        RoomForKnownKeys(l, full, keys, e.key);
        RequestsAgree(l, swept, full, from, e.key, e.at);
        NextKeepsTable(l, full, from, e);
        AnswersAgree(l, u, Next(l, full, e), e.at, events[1..], to, keys);
        assert WithoutSweeps(events) == [e] + WithoutSweeps(events[1..]);
      } else {
        SweepStaysAlike(l, swept, full, from, e.at);
        forall k | k in full
          ensures BucketOk(l, full[k], e.at)
        {
          assert BucketOk(l, full[k], from);
        }
        AnswersAgree(l, u, full, e.at, events[1..], to, keys);
        assert WithoutSweeps(events) == WithoutSweeps(events[1..]);
      }
    }
  }

  /** Sweeping at arbitrary times changes no answer of any run whose keys all
      fit in the table: the cap never binds, and eviction cannot be seen. */
  lemma EvictionIsInvisible(l: Limits, from: Nanos, events: seq<Event>, to: Nanos, keys: set<Key>)
    requires Positive(l) && Monotone(from, events, to) && KeysWithin(events, keys) && |keys| <= l.maxKeys
    ensures Answers(l, map[], events) == Answers(l, map[], WithoutSweeps(events))
  {
    AnswersAgree(l, map[], map[], from, events, to, keys);
  }

  // ------------------------------------------------------------- the retry hint

  predicate Without(events: seq<Event>, key: Key) {
    forall i :: 0 <= i < |events| ==> !(events[i].Request? && events[i].key == key)
  }

  /** Nobody else's requests change a tracked key's bucket; it can only be
      forgotten, and then it was full. */
  lemma {:induction false} OthersLeaveTheBucket(
    l: Limits, from: Nanos, t: Table, events: seq<Event>, to: Nanos, key: Key)
    requires Positive(l) && TableOk(l, t, from) && Monotone(from, events, to) && Without(events, key) && key in t
    ensures var z := Exec(l, t, events);
            && (key in z ==> z[key] == t[key])
            && (key !in z ==> Refilled(l, t[key], to).tokens == l.burst)
    decreases |events|
  {
    if events != [] {
      var e := events[0];
      var u := Next(l, t, e);
      NextKeepsTable(l, t, from, e);
      assert !(e.Request? && e.key == key);
      if key in u {
        OthersLeaveTheBucket(l, e.at, u, events[1..], to, key);
      } else {
        StaysFull(l, t[key], e.at, to);
        StaysAway(l, u, events[1..], key);
      }
    }
  }

  lemma {:induction false} StaysAway(l: Limits, t: Table, events: seq<Event>, key: Key)
    requires Positive(l) && Without(events, key) && key !in t
    ensures key !in Exec(l, t, events)
    decreases |events|
  {
    if events != [] {
      assert !(events[0].Request? && events[0].key == key);
      StaysAway(l, Next(l, t, events[0]), events[1..], key);
    }
  }

  predicate StaysTracked(l: Limits, t: Table, events: seq<Event>, key: Key)
    requires Positive(l)
    decreases |events|
  {
    key in t && (events == [] || StaysTracked(l, Next(l, t, events[0]), events[1..], key))
  }

  /** The answers one key gets in a run. */
  function AnswersTo(l: Limits, t: Table, events: seq<Event>, key: Key): seq<Answer>
    requires Positive(l)
    decreases |events|
  {
    if events == [] then []
    else
      (if events[0].Request? && events[0].key == key then [Allowed(l, t, key, events[0].at).1] else [])
      + AnswersTo(l, Next(l, t, events[0]), events[1..], key)
  }

  function Own(events: seq<Event>, key: Key): seq<Event> {
    if events == [] then []
    else (if events[0].Request? && events[0].key == key then [events[0]] else []) + Own(events[1..], key)
  }

  /** Whoever else asks and whenever it is swept: while a key stays tracked, its
      answers are those it would get with the limiter to itself, and so is its
      bucket at the end. */
  lemma {:induction false} TrackedKeyIsAlone(l: Limits, t: Table, events: seq<Event>, key: Key)
    requires Positive(l) && StaysTracked(l, t, events, key)
    ensures AnswersTo(l, t, events, key) == Answers(l, map[key := t[key]], Own(events, key))
    ensures key in Exec(l, t, events)
    ensures map[key := Exec(l, t, events)[key]] == Exec(l, map[key := t[key]], Own(events, key))
    decreases |events|
  {
    if events != [] {
      var e, rest := events[0], events[1..];
      var u := Next(l, t, e);
      TrackedKeyIsAlone(l, u, rest, key);
      if e.Request? && e.key == key {
        var alone := map[key := t[key]];
        assert Drawn(l, alone, key, e.at) == Drawn(l, t, key, e.at);
        assert Next(l, alone, e) == map[key := u[key]];
        assert Own(events, key) == [e] + Own(rest, key);
        assert ([e] + Own(rest, key))[1..] == Own(rest, key);
      } else {
        assert u[key] == t[key];
        assert Own(events, key) == Own(rest, key);
      }
    }
  }

  lemma HintEarnsTheRest(l: Limits, tokens: real, waited: Nanos)
    requires Positive(l) && 0.0 <= tokens < 1.0
    ensures waited >= Hint(l, tokens) ==> tokens + Earned(l, waited) >= 1.0
    ensures waited < Hint(l, tokens) - MILLISECOND ==> tokens + Earned(l, waited) < 1.0
  {
    var s := SECOND as real;
    var need := (1.0 - tokens) / l.rate;
    assert need * l.rate == 1.0 - tokens;
    var x := need * s;
    var got := waited as real / s;
    assert got * s == waited as real;
    if waited as real >= x {
      assert got >= need;
      assert got * l.rate >= need * l.rate;
    } else {
      assert got < need;
      assert got * l.rate < need * l.rate;
    }
  }

  /** Waiting out the hint earns the missing fraction of a token, and waiting a
      millisecond less does not. */
  lemma HintIsEnough(l: Limits, tokens: real, waited: Nanos)
    requires Positive(l) && 0.0 <= tokens < 1.0
    ensures waited >= Hint(l, tokens) ==> tokens + l.rate * waited as real / 1_000_000_000.0 >= 1.0
    ensures waited < Hint(l, tokens) - 1_000_000 ==> tokens + l.rate * waited as real / 1_000_000_000.0 < 1.0
  {
    HintEarnsTheRest(l, tokens, waited);
    EarnedWrittenOut(l, waited);
  }

  /** A rejected key that stays quiet for retryAfter is let in next time exactly
      when the burst holds a whole token and the key is still tracked or can be
      tracked again. */
  lemma RetryAfterIsHonest(l: Limits, at: Nanos, t: Table, key: Key, events: seq<Event>, again: Nanos)
    requires Positive(l) && TableOk(l, t, at) && !Turned(l, t, key)
    requires !Allowed(l, t, key, at).1.ok
    requires Monotone(at, events, again) && Without(events, key)
    requires again >= at + Allowed(l, t, key, at).1.retryAfter
    ensures var z := Exec(l, Allowed(l, t, key, at).0, events);
            Allowed(l, z, key, again).1.ok <==> l.burst >= 1.0 && (key in z || |z| < l.maxKeys)
  {
    var u := Allowed(l, t, key, at).0;
    NextKeepsTable(l, t, at, Request(key, at));
    var b := u[key];
    assert b.last == at;
    EveryRunKeepsTable(l, at, u, events, again);
    OthersLeaveTheBucket(l, at, u, events, again, key);
    HintEarnsTheRest(l, b.tokens, again - at);
    var z := Exec(l, u, events);
    if key in z {
      TrackedAgain(l, b, at, z, key, again);
    }
  }

  lemma TrackedAgain(l: Limits, b: Bucket, at: Nanos, z: Table, key: Key, again: Nanos)
    requires Positive(l) && key in z && z[key] == b && b.last == at <= again
    requires 0.0 <= b.tokens <= l.burst && b.tokens + Earned(l, again - at) >= 1.0
    ensures Allowed(l, z, key, again).1.ok <==> l.burst >= 1.0
  {
    assert Refilled(l, z[key], again).tokens == Min(l.burst, b.tokens + Earned(l, again - at));
  }

  /** The last condition is not idle: a rejected key can be forgotten while it
      waits, and find the table full when it comes back on time. */
  lemma ForgottenKeyCanBeTurnedAway()
    ensures var l := Limits(1.0, 1.0, 1, 1);
            var t := Exec(l, map[], [Request("a", 0)]);
            var rejected := Allowed(l, t, "a", 0);
            var z := Exec(l, rejected.0, [Sweep(2 * SECOND), Request("b", 2 * SECOND)]);
            && Positive(l)
            && !rejected.1.ok && rejected.1.retryAfter == SECOND + MILLISECOND
            && !Allowed(l, z, "a", 2 * SECOND).1.ok
  {
    var l := Limits(1.0, 1.0, 1, 1);
    var u := map["a" := Bucket(0.0, 0)];
    var v := map["b" := Bucket(0.0, 2 * SECOND)];
    FirstRequestEmptiesTheBucket(l, "a", 0);
    OneEvent(l, map[], Request("a", 0));
    EmptyBucketIsTurnedDown(l, "a", 0);
    var events := [Sweep(2 * SECOND), Request("b", 2 * SECOND)];
    assert events[1..] == [Request("b", 2 * SECOND)];
    RefilledBucketIsForgotten(l, "a", 0);
    FirstRequestEmptiesTheBucket(l, "b", 2 * SECOND);
    OneEvent(l, map[], Request("b", 2 * SECOND));
    assert Next(l, u, events[0]) == map[];
    assert Exec(l, u, events) == v;
    assert Turned(l, v, "a");
  }

  // The events of that run, each with one token of burst and one key of room.

  lemma FirstRequestEmptiesTheBucket(l: Limits, key: Key, at: Nanos)
    requires l == Limits(1.0, 1.0, 1, 1)
    ensures Allowed(l, map[], key, at).0 == map[key := Bucket(0.0, at)]
  {
  }

  lemma EmptyBucketIsTurnedDown(l: Limits, key: Key, at: Nanos)
    requires l == Limits(1.0, 1.0, 1, 1)
    ensures var t := map[key := Bucket(0.0, at)];
            Allowed(l, t, key, at) == (t, Answer(false, 0, SECOND + MILLISECOND))
  {
    var t := map[key := Bucket(0.0, at)];
    assert t[key := Bucket(0.0, at)] == t;
  }

  lemma RefilledBucketIsForgotten(l: Limits, key: Key, at: Nanos)
    requires l == Limits(1.0, 1.0, 1, 1)
    ensures Swept(l, map[key := Bucket(0.0, at)], at + 2 * SECOND) == map[]
  {
  }

  lemma OneEvent(l: Limits, t: Table, e: Event)
    requires Positive(l)
    ensures Exec(l, t, [e]) == Next(l, t, e)
  {
    assert [e][1..] == [];
    assert Exec(l, Next(l, t, e), []) == Next(l, t, e);
  }
}
