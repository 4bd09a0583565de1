/** The fixed-window limiter on failed authentications (status 429 of RFC 6585, section 4). */
module RateLimiting {
  import opened GoText

  datatype Bucket = Bucket(count: int, reset: Time)

  type Buckets = map<string, Bucket>

  /** The bucket a call at `now` works on: a new one if there is none or the window is over. */
  function Current(buckets: Buckets, window: int, key: string, now: Time): Bucket {
    if key !in buckets || now > buckets[key].reset then Bucket(0, now + window) else buckets[key]
  }

  class AuthRateLimiter {
    const limit: int
    const window: int
    var buckets: Buckets

    ghost predicate Valid()
      reads this
    {
      limit > 0 && window > 0 && Consistent(buckets, limit)
    }

    constructor (limit: int, window: int)
      requires limit > 0 && window > 0
      ensures Valid() && this.limit == limit && this.window == window && buckets == map[]
    {
      this.limit, this.window, buckets := limit, window, map[];
    }

    /** May this failure still be answered 401? If not, `retryAfter` runs from a second clock reading to the reset. */
    method Allow(key: string, now: Time, later: Time) returns (allowed: bool, retryAfter: Time)
      requires Valid()
      modifies this
      ensures Valid()
      ensures (buckets, allowed) == Charged(old(buckets), limit, window, key, now)
      ensures retryAfter == if allowed then 0 else buckets[key].reset - later
    {
      if key !in buckets || now > buckets[key].reset {
        buckets := buckets[key := Bucket(0, now + window)];
      }
      var b := buckets[key];
      assert buckets == old(buckets)[key := b];
      if b.count >= limit {
        return false, b.reset - later;
      }
      buckets := buckets[key := b.(count := b.count + 1)];
      assert buckets == old(buckets)[key := b.(count := b.count + 1)];
      return true, 0;
    }

    method Reset(key: string)
      requires Valid()
      modifies this
      ensures Valid() && buckets == old(buckets) - {key}
    {
      buckets := buckets - {key};
    }
  }

  /** A limiter, or none when it is configured away. */
  method NewAuthRateLimiter(limit: int, window: int) returns (l: AuthRateLimiter?)
    ensures l == null <==> limit <= 0 || window <= 0
    ensures l != null ==> l.Valid() && fresh(l) && l.limit == limit && l.window == window && l.buckets == map[]
  {
    if limit <= 0 || window <= 0 {
      return null;
    }
    l := new AuthRateLimiter(limit, window);
  }

  ghost predicate Consistent(buckets: Buckets, limit: int) {
    forall key | key in buckets :: 1 <= buckets[key].count <= limit
  }

  /** One failed authentication: the new buckets, and whether it is answered 401 rather than 429. */
  function Charged(buckets: Buckets, limit: int, window: int, key: string, now: Time): (Buckets, bool) {
    var b := Current(buckets, window, key, now);
    if b.count >= limit then (buckets[key := b], false)
    else (buckets[key := b.(count := b.count + 1)], true)
  }

  /** What a request means to the limiter. */
  datatype AuthEvent =
    | Failure(key: string, time: Time)
    | Success(key: string, time: Time)
    | Exempt(time: Time)

  predicate IsAbout(e: AuthEvent, key: string) {
    !e.Exempt? && e.key == key
  }

  function Next(buckets: Buckets, limit: int, window: int, e: AuthEvent): Buckets {
    match e
    case Failure(key, now) => Charged(buckets, limit, window, key, now).0
    case Success(key, _) => buckets - {key}
    case Exempt(_) => buckets
  }

  function Run(buckets: Buckets, limit: int, window: int, events: seq<AuthEvent>): Buckets
    decreases |events|
  {
    if events == [] then buckets
    else Run(Next(buckets, limit, window, events[0]), limit, window, events[1..])
  }

  /** The event is a failure of `key` that is answered 401 (429 if not). */
  predicate IsUnauthorized(buckets: Buckets, limit: int, window: int, key: string, e: AuthEvent) {
    e.Failure? && e.key == key && Charged(buckets, limit, window, key, e.time).1
  }

  /** How many failures of `key` are answered 401 along the events. */
  function Unauthorized(buckets: Buckets, limit: int, window: int, key: string, events: seq<AuthEvent>): nat
    decreases |events|
  {
    if events == [] then 0
    else (if IsUnauthorized(buckets, limit, window, key, events[0]) then 1 else 0)
         + Unauthorized(Next(buckets, limit, window, events[0]), limit, window, key, events[1..])
  }

  ghost predicate Monotone(events: seq<AuthEvent>) {
    forall a, b | 0 <= a < b < |events| :: events[a].time <= events[b].time
  }

  ghost predicate NoSuccess(key: string, events: seq<AuthEvent>) {
    forall e | e in events :: e.Success? ==> e.key != key
  }

  lemma NextIsConsistent(buckets: Buckets, limit: int, window: int, e: AuthEvent)
    requires limit > 0 && Consistent(buckets, limit)
    ensures Consistent(Next(buckets, limit, window, e), limit)
  {
  }

  /** How many more 401s a key can get up to time `end`, if `end` is at most one window away. */
  function Budget(buckets: Buckets, limit: int, key: string, end: Time): int {
    if key !in buckets then limit
    else if buckets[key].reset >= end then limit - buckets[key].count
    else 2 * limit - buckets[key].count
  }

  lemma {:induction false} WithinBudget(buckets: Buckets, limit: int, window: int, key: string, events: seq<AuthEvent>,
                                        start: Time, end: Time)
    requires limit > 0 && window > 0 && Consistent(buckets, limit)
    requires NoSuccess(key, events) && end - start <= window
    requires forall e | e in events :: start <= e.time <= end
    ensures Unauthorized(buckets, limit, window, key, events) <= Budget(buckets, limit, key, end)
    decreases |events|
  {
    if events != [] {
      var e := events[0];
      assert e in events && forall x | x in events[1..] :: x in events;
      NextIsConsistent(buckets, limit, window, e);
      WithinBudget(Next(buckets, limit, window, e), limit, window, key, events[1..], start, end);
    }
  }

  lemma {:induction false} RunIsConsistent(buckets: Buckets, limit: int, window: int, events: seq<AuthEvent>)
    requires limit > 0 && Consistent(buckets, limit)
    ensures Consistent(Run(buckets, limit, window, events), limit)
    decreases |events|
  {
    if events != [] {
      NextIsConsistent(buckets, limit, window, events[0]);
      RunIsConsistent(Next(buckets, limit, window, events[0]), limit, window, events[1..]);
    }
  }

  /** The fixed-window bound. After any past, in any stretch of events no longer than the window and without a
      success of the key, at most 2 * limit - 1 failures of the key are answered 401; all others are answered 429. */
  lemma WindowBound(limit: int, window: int, key: string, past: seq<AuthEvent>,
                                       stretch: seq<AuthEvent>)
    requires limit > 0 && window > 0
    requires Monotone(stretch) && NoSuccess(key, stretch)
    requires stretch != [] ==> stretch[|stretch| - 1].time - stretch[0].time <= window
    ensures Unauthorized(Run(map[], limit, window, past), limit, window, key, stretch) <= 2 * limit - 1
  {
    RunIsConsistent(map[], limit, window, past);
    if stretch != [] {
      WithinBudget(Run(map[], limit, window, past), limit, window, key, stretch, stretch[0].time,
                   stretch[|stretch| - 1].time);
    }
  }

  function Repeated(e: AuthEvent, n: nat): seq<AuthEvent> {
    if n == 0 then [] else [e] + Repeated(e, n - 1)
  }

  /** Failures within the window and below the limit are all answered 401. */
  lemma {:induction false} Spend(buckets: Buckets, limit: int, window: int, key: string, now: Time, n: nat)
    requires key in buckets && now <= buckets[key].reset && buckets[key].count + n <= limit
    ensures var events := Repeated(Failure(key, now), n);
            Unauthorized(buckets, limit, window, key, events) == n
            && key in Run(buckets, limit, window, events)
            && Run(buckets, limit, window, events)[key] == Bucket(buckets[key].count + n, buckets[key].reset)
  {
    if n > 0 {
      var e := Failure(key, now);
      assert Repeated(e, n)[1..] == Repeated(e, n - 1);
      Spend(Next(buckets, limit, window, e), limit, window, key, now, n - 1);
    }
  }

  lemma {:induction false} UnauthorizedConcat(buckets: Buckets, limit: int, window: int, key: string,
                                              a: seq<AuthEvent>, b: seq<AuthEvent>)
    ensures Unauthorized(buckets, limit, window, key, a + b)
            == Unauthorized(buckets, limit, window, key, a)
               + Unauthorized(Run(buckets, limit, window, a), limit, window, key, b)
    decreases |a|
  {
    if a == [] {
      assert a + b == b;
    } else {
      assert (a + b)[0] == a[0] && (a + b)[1..] == a[1..] + b;
      UnauthorizedConcat(Next(buckets, limit, window, a[0]), limit, window, key, a[1..], b);
    }
  }

  /** The bound is attained for every limit: one failure opens a window, limit - 1 more arrive as it closes, and
      limit in the next nanosecond. */
  lemma WindowBoundIsTight(limit: int, window: int, key: string)
    returns (past: seq<AuthEvent>, stretch: seq<AuthEvent>)
    requires limit > 0 && window > 0
    ensures past == [Failure(key, 0)]
    ensures stretch == Repeated(Failure(key, window), limit - 1) + Repeated(Failure(key, window + 1), limit)
    ensures Unauthorized(Run(map[], limit, window, past), limit, window, key, stretch) == 2 * limit - 1
  {
    past := [Failure(key, 0)];
    var late, next := Repeated(Failure(key, window), limit - 1), Repeated(Failure(key, window + 1), limit);
    stretch := late + next;
    var m := Run(map[], limit, window, past);
    assert past[1..] == [];
    assert m == Run(Next(map[], limit, window, past[0]), limit, window, []);
    Spend(m, limit, window, key, window, limit - 1);
    UnauthorizedConcat(m, limit, window, key, late, next);
    var full := Run(m, limit, window, late);
    assert next[0] == Failure(key, window + 1) && next[1..] == Repeated(Failure(key, window + 1), limit - 1);
    Spend(Next(full, limit, window, next[0]), limit, window, key, window + 1, limit - 1);
  }

  /** A key that is refused stays refused, whatever else happens, up to and including its reset,
      and is answered 401 again at any time after it. */
  lemma {:induction false} RefusedUntilReset(buckets: Buckets, limit: int, window: int, key: string,
                                             events: seq<AuthEvent>, now: Time)
    requires limit > 0 && window > 0 && key in buckets && buckets[key].count >= limit
    requires NoSuccess(key, events) && forall e | e in events :: e.time <= buckets[key].reset
    ensures Unauthorized(buckets, limit, window, key, events) == 0
    ensures IsUnauthorized(Run(buckets, limit, window, events), limit, window, key, Failure(key, now))
            <==> now > buckets[key].reset
    decreases |events|
  {
    if events != [] {
      var e := events[0];
      assert e in events && forall x | x in events[1..] :: x in events;
      RefusedUntilReset(Next(buckets, limit, window, e), limit, window, key, events[1..], now);
    }
  }

  function OfKey(events: seq<AuthEvent>, key: string): seq<AuthEvent> {
    if events == [] then []
    else (if IsAbout(events[0], key) then [events[0]] else []) + OfKey(events[1..], key)
  }

  ghost predicate SameBucket(a: Buckets, b: Buckets, key: string) {
    (key in a <==> key in b) && (key in a ==> a[key] == b[key])
  }

  /** Keys do not affect each other: dropping everybody else's events changes no answer to this key. */
  lemma {:induction false} OtherKeysDoNotMatter(a: Buckets, b: Buckets, limit: int, window: int, key: string,
                                                events: seq<AuthEvent>)
    requires SameBucket(a, b, key)
    ensures Unauthorized(a, limit, window, key, events) == Unauthorized(b, limit, window, key, OfKey(events, key))
    ensures SameBucket(Run(a, limit, window, events), Run(b, limit, window, OfKey(events, key)), key)
    decreases |events|
  {
    if events != [] {
      var e := events[0];
      if IsAbout(e, key) {
        assert OfKey(events, key)[1..] == OfKey(events[1..], key);
        OtherKeysDoNotMatter(Next(a, limit, window, e), Next(b, limit, window, e), limit, window, key, events[1..]);
      } else {
        assert OfKey(events, key) == OfKey(events[1..], key);
        OtherKeysDoNotMatter(Next(a, limit, window, e), b, limit, window, key, events[1..]);
      }
    }
  }
}
