/** The authentication middleware: bearer token or basic credentials, with the limiter charged on every failure. */
module AuthMiddleware {
  import opened GoText
  import opened RateLimiting
  import T = TokenManagement

  /** `basic` is what `Request.BasicAuth` decodes; `key` identifies the client. */
  datatype Request = Request(path: string, authorization: string, basic: Option<(string, string)>, key: string)

  /** The clock readings while one request is served: by Validate, by allow, and for Retry-After. */
  datatype Clock = Clock(validate: Time, allow: Time, retry: Time)

  datatype Response = Forwarded | Unauthorized401 | TooMany429(retryAfter: Option<Time>)

  /** Position of the first `c`, or the length. */
  function FirstIndex(s: string, c: char): (i: nat)
    ensures i <= |s| && (i < |s| ==> s[i] == c) && forall k | 0 <= k < i :: s[k] != c
  {
    if s == "" || s[0] == c then 0 else 1 + FirstIndex(s[1..], c)
  }

  /** The token after a case-insensitive "Bearer" and one space. */
  function BearerToken(header: string): string {
    var sep := FirstIndex(header, ' ');
    if sep == |header| || ToLower(header[..sep]) != "bearer" then "" else TrimSpace(header[sep + 1..])
  }

  /** A header carries a token exactly if it is some spelling of "Bearer", a space, and something not blank; blanks
      around the token do not belong to it. */
  lemma BearerTokens(word: string, rest: string)
    requires ' ' !in word
    ensures BearerToken(word) == ""
    ensures BearerToken(word + " " + rest) == if ToLower(word) == "bearer" then TrimSpace(rest) else ""
  {
    hide ToLower, TrimSpace;
    var header := word + " " + rest;
    assert header[|word|] == ' ' && forall k | 0 <= k < |word| :: header[k] == word[k];
    assert FirstIndex(header, ' ') == |word|;
    assert header[..|word|] == word && header[|word| + 1..] == rest;
    assert FirstIndex(word, ' ') == |word|;
  }

  datatype Verdict = Skip | Accept | Reject

  class BasicAuthMiddleware {
    const username: string
    const password: string
    const enabled: bool
    const requireFunctionAuth: bool
    const rateLimiter: AuthRateLimiter?
    const tokenManager: T.Manager?

    constructor (username: string, password: string, enabled: bool, requireFunctionAuth: bool,
                 rateLimiter: AuthRateLimiter?, tokenManager: T.Manager?)
      ensures this.username == username && this.password == password && this.enabled == enabled
      ensures this.requireFunctionAuth == requireFunctionAuth
      ensures this.rateLimiter == rateLimiter && this.tokenManager == tokenManager
    {
      this.username, this.password, this.enabled := username, password, enabled;
      this.requireFunctionAuth, this.rateLimiter, this.tokenManager := requireFunctionAuth, rateLimiter, tokenManager;
    }

    ghost predicate Valid()
      reads rateLimiter
    {
      rateLimiter != null ==> rateLimiter.Valid()
    }

    predicate Skips(r: Request) {
      !enabled || r.path == "/healthz" || r.path == "/auth/login"
      || (!requireFunctionAuth && HasPrefix(r.path, "/function/"))
    }

    /** The requests that need credentials: with authentication enabled, all but health checks, logins, and function
        calls while those are open. */
    predicate Guarded(r: Request) {
      enabled && r.path != "/healthz" && r.path != "/auth/login" && (requireFunctionAuth || !("/function/" <= r.path))
    }

    /** Whether the request's credentials are good: the token decides alone whenever one is given and can be checked. */
    function Judge(r: Request, now: Time): Verdict
      reads tokenManager
    {
      if Skips(r) then Skip
      else if BearerToken(r.authorization) != "" && tokenManager != null then
        if T.UserOf(tokenManager.tokens, BearerToken(r.authorization), now).Some? then Accept else Reject
      else if r.basic == Some((username, password)) then Accept
      else Reject
    }

    function EventOf(r: Request, clock: Clock): AuthEvent
      reads tokenManager
    {
      match Judge(r, clock.validate)
      case Skip => Exempt(clock.allow)
      case Accept => Success(r.key, clock.allow)
      case Reject => Failure(r.key, clock.allow)
    }

    method Reset(key: string)
      requires Valid()
      modifies rateLimiter
      ensures Valid()
      ensures rateLimiter != null ==> rateLimiter.buckets == old(rateLimiter.buckets) - {key}
    {
      if rateLimiter != null {
        rateLimiter.Reset(key);
      }
    }

    /** Answers a failed authentication: 401, or 429 with Retry-After if time is left to the reset. */
    method Refuse(key: string, clock: Clock) returns (response: Response)
      requires Valid()
      modifies rateLimiter
      ensures Valid()
      ensures rateLimiter == null ==> response == Unauthorized401
      ensures rateLimiter != null ==>
                var (buckets, allowed) :=
                  Charged(old(rateLimiter.buckets), rateLimiter.limit, rateLimiter.window, key, clock.allow);
                rateLimiter.buckets == buckets
                && response == if allowed then Unauthorized401
                               else var left := buckets[key].reset - clock.retry;
                                    TooMany429(if left > 0 then Some(left) else None)
    {
      if rateLimiter == null {
        return Unauthorized401;
      }
      var allowed, retryAfter := rateLimiter.Allow(key, clock.allow, clock.retry);
      if !allowed {
        return TooMany429(if retryAfter > 0 then Some(retryAfter) else None);
      }
      return Unauthorized401;
    }

    method Handle(r: Request, clock: Clock) returns (response: Response)
      requires Valid()
      modifies rateLimiter, tokenManager
      ensures Valid()
      ensures response == Forwarded <==> old(Judge(r, clock.validate)) != Reject
      ensures rateLimiter != null ==>
                var e := old(EventOf(r, clock));
                rateLimiter.buckets == Next(old(rateLimiter.buckets), rateLimiter.limit, rateLimiter.window, e)
                && Fits(response, old(rateLimiter.buckets), rateLimiter.limit, rateLimiter.window, e)
      ensures rateLimiter == null ==> !response.TooMany429?
      ensures Guarded(r) ==>
                (response == Forwarded <==>
                   if BearerToken(r.authorization) == "" || tokenManager == null
                   then r.basic == Some((username, password))
                   else BearerToken(r.authorization) in old(tokenManager.tokens)
                        && clock.validate <= old(tokenManager.tokens[BearerToken(r.authorization)].expiresAt))
      ensures !Guarded(r) ==> response == Forwarded
      ensures rateLimiter != null ==>
                if !Guarded(r) then rateLimiter.buckets == old(rateLimiter.buckets)
                else if response == Forwarded then rateLimiter.buckets == old(rateLimiter.buckets) - {r.key}
                else rateLimiter.buckets - {r.key} == old(rateLimiter.buckets) - {r.key}
      ensures tokenManager != null ==>
                tokenManager.tokens ==
                  if Skips(r) then old(tokenManager.tokens)
                  else T.Validated(old(tokenManager.tokens), BearerToken(r.authorization), clock.validate)
    {
      hide BearerToken;
      if Skips(r) {
        return Forwarded;
      }
      var token := BearerToken(r.authorization);
      if token != "" && tokenManager != null {
        var user := tokenManager.Validate(token, clock.validate);
        if user.Some? {
          Reset(r.key);
          return Forwarded;
        }
        response := Refuse(r.key, clock);
        return;
      }
      if r.basic.None? {
        response := Refuse(r.key, clock);
        return;
      }
      if r.basic.value.0 != username || r.basic.value.1 != password {
        response := Refuse(r.key, clock);
        return;
      }
      Reset(r.key);
      return Forwarded;
    }
  }

  /** The response the limiter's state prescribes for an event. */
  predicate Fits(response: Response, buckets: Buckets, limit: int, window: int, e: AuthEvent) {
    if !e.Failure? then response == Forwarded
    else if Charged(buckets, limit, window, e.key, e.time).1 then response == Unauthorized401
    else response.TooMany429?
  }

  /** A sequence of responses to a sequence of events. */
  predicate Answers(responses: seq<Response>, buckets: Buckets, limit: int, window: int, events: seq<AuthEvent>)
    decreases |events|
  {
    if events == [] then responses == []
    else responses != [] && Fits(responses[0], buckets, limit, window, events[0])
         && Answers(responses[1..], Next(buckets, limit, window, events[0]), limit, window, events[1..])
  }

  /** How many of the responses to `key` are 401. */
  function Count401(responses: seq<Response>, events: seq<AuthEvent>, key: string): nat
    requires |responses| == |events|
  {
    if events == [] then 0
    else (if IsAbout(events[0], key) && responses[0] == Unauthorized401 then 1 else 0)
         + Count401(responses[1..], events[1..], key)
  }

  lemma {:induction false} AnswersSnoc(responses: seq<Response>, buckets: Buckets, limit: int, window: int,
                                       events: seq<AuthEvent>, response: Response, e: AuthEvent)
    requires Answers(responses, buckets, limit, window, events)
    requires Fits(response, Run(buckets, limit, window, events), limit, window, e)
    ensures Answers(responses + [response], buckets, limit, window, events + [e])
    ensures Run(buckets, limit, window, events + [e]) == Next(Run(buckets, limit, window, events), limit, window, e)
    decreases |events|
  {
    hide Fits, Next;
    if events == [] {
      assert events + [e] == [e] && responses + [response] == [response];
      assert Run(buckets, limit, window, [e]) == Run(Next(buckets, limit, window, e), limit, window, [e][1..]);
    } else {
      var rs, es := responses + [response], events + [e];
      assert rs[0] == responses[0] && rs[1..] == responses[1..] + [response];
      assert es[0] == events[0] && es[1..] == events[1..] + [e];
      AnswersSnoc(responses[1..], Next(buckets, limit, window, events[0]), limit, window, events[1..], response, e);
    }
  }

  /** Dropping the past: the rest of the responses answers the rest of the events from the state then. */
  lemma {:induction false} AnswersFrom(responses: seq<Response>, buckets: Buckets, limit: int, window: int,
                                       events: seq<AuthEvent>, n: nat)
    requires Answers(responses, buckets, limit, window, events) && n <= |events|
    ensures |responses| == |events|
    ensures Answers(responses[n..], Run(buckets, limit, window, events[..n]), limit, window, events[n..])
    decreases |events|
  {
    hide Fits, Next;
    if events == [] {
    } else if n == 0 {
      AnswersFrom(responses[1..], Next(buckets, limit, window, events[0]), limit, window, events[1..], 0);
      assert events[..0] == [] && events[0..] == events && responses[0..] == responses;
    } else {
      AnswersFrom(responses[1..], Next(buckets, limit, window, events[0]), limit, window, events[1..], n - 1);
      assert events[..n][1..] == events[1..][..n - 1];
      assert events[1..][n - 1..] == events[n..] && responses[1..][n - 1..] == responses[n..];
    }
  }

  lemma {:induction false} CountIsUnauthorized(responses: seq<Response>, buckets: Buckets, limit: int, window: int,
                                               events: seq<AuthEvent>, key: string, n: nat)
    requires |responses| == |events| && Answers(responses, buckets, limit, window, events) && n <= |events|
    ensures Count401(responses[..n], events[..n], key) == Unauthorized(buckets, limit, window, key, events[..n])
    decreases |events|
  {
    if n > 0 {
      var next := Next(buckets, limit, window, events[0]);
      CountIsUnauthorized(responses[1..], next, limit, window, events[1..], key, n - 1);
      assert events[..n][1..] == events[1..][..n - 1] && responses[..n][1..] == responses[1..][..n - 1];
    }
  }

  /** Over any interval [i, j) of a run no longer than the window, and without a success of the key in it,
      the middleware answers the key 401 at most 2 * limit - 1 times; its other failures get 429. */
  lemma IntervalBound(responses: seq<Response>, limit: int, window: int, events: seq<AuthEvent>,
                                         key: string, i: nat, j: nat)
    requires limit > 0 && window > 0 && i <= j <= |events| && |responses| == |events|
    requires Answers(responses, map[], limit, window, events)
    requires Monotone(events) && NoSuccess(key, events[i..j])
    requires i < j ==> events[j - 1].time - events[i].time <= window
    ensures Count401(responses[i..j], events[i..j], key) <= 2 * limit - 1
    ensures forall k | i <= k < j && IsAbout(events[k], key) ::
              responses[k] == Unauthorized401 || responses[k].TooMany429?
  {
    hide Unauthorized, Answers, Count401, Run;
    AnswersFrom(responses, map[], limit, window, events, i);
    var later := Run(map[], limit, window, events[..i]);
    assert events[i..][..j - i] == events[i..j] && responses[i..][..j - i] == responses[i..j];
    CountIsUnauthorized(responses[i..], later, limit, window, events[i..], key, j - i);
    WindowBound(limit, window, key, events[..i], events[i..j]);
    forall k | i <= k < j && IsAbout(events[k], key)
      ensures responses[k] == Unauthorized401 || responses[k].TooMany429?
    {
      assert events[k] == events[i..j][k - i];
      FailureIsRefused(responses, map[], limit, window, events, k);
    }
  }

  lemma FailureIsRefused(responses: seq<Response>, buckets: Buckets, limit: int, window: int,
                                            events: seq<AuthEvent>, k: nat)
    requires |responses| == |events| && k < |events| && events[k].Failure?
    requires Answers(responses, buckets, limit, window, events)
    ensures responses[k] == Unauthorized401 || responses[k].TooMany429?
  {
    AnswersFrom(responses, buckets, limit, window, events, k);
    assert responses[k..][0] == responses[k] && events[k..][0] == events[k];
  }

  /** What a token manager that only validates does to its table: expiries never change, and a token is gone exactly if
      it was presented after its expiry. */
  ghost predicate TableAfter(start: T.Tokens, now: T.Tokens, requests: seq<(Request, Clock)>, n: nat,
                             guarded: Request -> bool)
    requires n <= |requests|
  {
    forall t | t != "" ::
      (t in now <==> t in start && NeverLate(start[t].expiresAt, t, requests, n, guarded))
      && (t in now ==> now[t].expiresAt == start[t].expiresAt)
  }

  /** None of the first `n` guarded requests that carry the token came after the expiry. */
  ghost predicate NeverLate(expiry: Time, t: string, requests: seq<(Request, Clock)>, n: nat, guarded: Request -> bool)
    requires n <= |requests|
  {
    forall j | 0 <= j < n && guarded(requests[j].0) && BearerToken(requests[j].0.authorization) == t ::
      requests[j].1.validate <= expiry
  }

  lemma TableNext(start: T.Tokens, now: T.Tokens, requests: seq<(Request, Clock)>, n: nat, guarded: Request -> bool)
    requires n < |requests| && TableAfter(start, now, requests, n, guarded)
    ensures var (r, clock) := requests[n];
            var next := if guarded(r) then T.Validated(now, BearerToken(r.authorization), clock.validate) else now;
            TableAfter(start, next, requests, n + 1, guarded)
  {
    hide BearerToken;
    var (r, clock) := requests[n];
    var mine := BearerToken(r.authorization);
    var next := if guarded(r) then T.Validated(now, mine, clock.validate) else now;
    forall t | t != ""
      ensures t in next <==> t in start && NeverLate(start[t].expiresAt, t, requests, n + 1, guarded)
      ensures t in next ==> next[t].expiresAt == start[t].expiresAt
    {
      if t in start {
        assert NeverLate(start[t].expiresAt, t, requests, n + 1, guarded) <==>
               NeverLate(start[t].expiresAt, t, requests, n, guarded)
               && (guarded(r) && mine == t ==> clock.validate <= start[t].expiresAt);
      }
    }
  }

  lemma NobodyLateYet(start: T.Tokens, requests: seq<(Request, Clock)>, guarded: Request -> bool)
    ensures TableAfter(start, start, requests, 0, guarded)
  {
  }

  lemma SuccessNow(m: BasicAuthMiddleware, start: T.Tokens, requests: seq<(Request, Clock)>, n: nat)
    requires n < |requests| && TableAfter(start, Table(m), requests, n, m.Guarded)
    ensures Succeeds(m, start, requests, n) <==> m.EventOf(requests[n].0, requests[n].1).Success?
    ensures m.Guarded(requests[n].0) <==> !m.EventOf(requests[n].0, requests[n].1).Exempt?
  {
    hide BearerToken;
    var r, t := requests[n].0, BearerToken(requests[n].0.authorization);
    if m.Guarded(r) && t != "" && t in start {
      assert NeverLate(start[t].expiresAt, t, requests, n + 1, m.Guarded) <==>
             NeverLate(start[t].expiresAt, t, requests, n, m.Guarded) && requests[n].1.validate <= start[t].expiresAt;
    }
  }

  ghost function Table(m: BasicAuthMiddleware): T.Tokens
    reads m.tokenManager
  {
    if m.tokenManager == null then map[] else m.tokenManager.tokens
  }

  /** Which of the requests succeed: with a token that can be checked, if it was in the table at the start and no
      guarded request up to and including this one presented it late; otherwise, with the right name and password. */
  ghost predicate Succeeds(m: BasicAuthMiddleware, start: T.Tokens, requests: seq<(Request, Clock)>, k: nat)
    requires k < |requests|
  {
    var r := requests[k].0;
    m.Guarded(r)
    && if BearerToken(r.authorization) == "" || m.tokenManager == null then r.basic == Some((m.username, m.password))
       else var t := BearerToken(r.authorization);
            t in start && NeverLate(start[t].expiresAt, t, requests, k + 1, m.Guarded)
  }

  /** A run of the middleware is answered as its events prescribe. */
  method ServeAll(m: BasicAuthMiddleware, requests: seq<(Request, Clock)>)
    returns (responses: seq<Response>, ghost events: seq<AuthEvent>)
    requires m.Valid() && m.rateLimiter != null && m.rateLimiter.buckets == map[]
    modifies m.rateLimiter, m.tokenManager
    ensures |responses| == |events| == |requests|
    ensures Answers(responses, map[], m.rateLimiter.limit, m.rateLimiter.window, events)
    ensures forall k | 0 <= k < |requests| ::
              events[k].time == requests[k].1.allow && (events[k].Exempt? <==> m.Skips(requests[k].0))
              && (!events[k].Exempt? ==> events[k].key == requests[k].0.key)
    ensures forall k | 0 <= k < |requests| ::
              (events[k].Exempt? <==> !m.Guarded(requests[k].0))
              && (events[k].Success? <==> Succeeds(m, old(Table(m)), requests, k))
  {
    hide Fits, Next, BearerToken, TableAfter, Succeeds;
    ghost var start := Table(m);
    assert TableAfter(start, start, requests, 0, m.Guarded) by {
      NobodyLateYet(start, requests, m.Guarded);
    }
    responses, events := [], [];
    for n := 0 to |requests|
      invariant m.Valid() && |responses| == |events| == n
      invariant Answers(responses, map[], m.rateLimiter.limit, m.rateLimiter.window, events)
      invariant m.rateLimiter.buckets == Run(map[], m.rateLimiter.limit, m.rateLimiter.window, events)
      invariant forall k | 0 <= k < n ::
          events[k].time == requests[k].1.allow && (events[k].Exempt? <==> m.Skips(requests[k].0))
          && (!events[k].Exempt? ==> events[k].key == requests[k].0.key)
      invariant TableAfter(start, Table(m), requests, n, m.Guarded)
      invariant forall k | 0 <= k < n ::
          (events[k].Exempt? <==> !m.Guarded(requests[k].0))
          && (events[k].Success? <==> Succeeds(m, start, requests, k))
    {
      SuccessNow(m, start, requests, n);
      TableNext(start, Table(m), requests, n, m.Guarded);
      ghost var e := m.EventOf(requests[n].0, requests[n].1);
      var response := m.Handle(requests[n].0, requests[n].1);
      AnswersSnoc(responses, map[], m.rateLimiter.limit, m.rateLimiter.window, events, response, e);
      responses, events := responses + [response], events + [e];
    }
  }
}
