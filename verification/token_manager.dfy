/** The token table behind bearer authentication (RFC 6750, section 2.1). */
module TokenManagement {
  import opened GoText

  datatype TokenInfo = TokenInfo(username: string, issuedAt: Time, expiresAt: Time, lastSeen: Time)

  type Tokens = map<string, TokenInfo>

  /** Default lifetime, 30 minutes in nanoseconds. */
  const DEFAULT_TTL := 30 * 60 * 1_000_000_000

  function Issued(tokens: Tokens, ttl: int, token: string, username: string, now: Time): Tokens {
    tokens[token := TokenInfo(username, now, now + ttl, now)]
  }

  /** The user a token stands for at `now`, if it is still good. */
  function UserOf(tokens: Tokens, token: string, now: Time): Option<string> {
    if token == "" || token !in tokens || now > tokens[token].expiresAt then None else Some(tokens[token].username)
  }

  /** Validating removes an expired token and otherwise only refreshes when it was last seen. */
  function Validated(tokens: Tokens, token: string, now: Time): Tokens {
    if token == "" || token !in tokens then tokens
    else if now > tokens[token].expiresAt then tokens - {token}
    else tokens[token := tokens[token].(lastSeen := now)]
  }

  function Revoked(tokens: Tokens, token: string): Tokens {
    if token == "" then tokens else tokens - {token}
  }

  class Manager {
    const ttl: int
    var tokens: Tokens

    constructor (ttl: int)
      ensures this.ttl == (if ttl <= 0 then 1_800_000_000_000 else ttl) && this.ttl > 0 && tokens == map[]
    {
      this.ttl := if ttl <= 0 then DEFAULT_TTL else ttl;
      tokens := map[];
    }

    /** `random` is the random text drawn for the token, or None when the random source failed. */
    method Issue(username: string, random: Option<string>, now: Time) returns (issued: Option<(string, Time)>)
      modifies this
      ensures issued.Some? <==> random.Some?
      ensures random.None? ==> tokens == old(tokens)
      ensures random.Some? ==> issued.value == (random.value, now + ttl)
                               && tokens == Issued(old(tokens), ttl, random.value, username, now)
    {
      if random.None? {
        return None;
      }
      var token := random.value;
      var expiresAt := now + ttl;
      tokens := tokens[token := TokenInfo(username, now, expiresAt, now)];
      return Some((token, expiresAt));
    }

    method Validate(token: string, now: Time) returns (user: Option<string>)
      modifies this
      ensures user == UserOf(old(tokens), token, now) && tokens == Validated(old(tokens), token, now)
    {
      if token == "" {
        return None;
      }
      if token !in tokens {
        return None;
      }
      var info := tokens[token];
      if now > info.expiresAt {
        tokens := tokens - {token};
        return None;
      }
      tokens := tokens[token := info.(lastSeen := now)];
      return Some(info.username);
    }

    method Revoke(token: string)
      modifies this
      ensures tokens == Revoked(old(tokens), token)
    {
      if token == "" {
        return;
      }
      tokens := tokens - {token};
    }
  }

  datatype Event =
    | Issue(token: string, username: string, time: Time)
    | Validate(token: string, time: Time)
    | Revoke(token: string, time: Time)

  function Next(tokens: Tokens, ttl: int, e: Event): Tokens {
    match e
    case Issue(token, username, now) => Issued(tokens, ttl, token, username, now)
    case Validate(token, now) => Validated(tokens, token, now)
    case Revoke(token, _) => Revoked(tokens, token)
  }

  function Run(ttl: int, events: seq<Event>): Tokens {
    if events == [] then map[] else Next(Run(ttl, events[..|events| - 1]), ttl, events[|events| - 1])
  }

  /** The clock never goes back, and every issued token is new and not empty. */
  ghost predicate Sane(events: seq<Event>) {
    (forall a, b | 0 <= a < b < |events| :: events[a].time <= events[b].time)
    && (forall a | 0 <= a < |events| && events[a].Issue? :: events[a].token != "")
    && (forall a, b | 0 <= a < b < |events| && events[a].Issue? && events[b].Issue? ::
          events[a].token != events[b].token)
  }

  /** Event `i` issued the token, nothing after it revoked it, and its lifetime covers `now`. */
  ghost predicate GoodSince(events: seq<Event>, ttl: int, token: string, i: int, now: Time) {
    0 <= i < |events| && events[i].Issue? && events[i].token == token && now <= events[i].time + ttl
    && forall j | i < j < |events| :: !(events[j].Revoke? && events[j].token == token)
  }

  /** A token in the table was issued by an event and not revoked since. */
  lemma {:induction false} InTableMeansIssued(events: seq<Event>, ttl: int, token: string) returns (i: int)
    requires Sane(events) && token in Run(ttl, events)
    ensures 0 <= i < |events| && GoodSince(events, ttl, token, i, events[i].time + ttl)
    ensures Run(ttl, events)[token].expiresAt == events[i].time + ttl
    ensures Run(ttl, events)[token].username == events[i].username
  {
    var n := |events| - 1;
    var init, last := events[..n], events[n];
    if last.Issue? && last.token == token {
      i := n;
    } else {
      i := InTableMeansIssued(init, ttl, token);
    }
  }

  /** A token that is still good is in the table, however often it was validated. */
  lemma {:induction false} GoodMeansInTable(events: seq<Event>, ttl: int, token: string, i: int, now: Time)
    requires Sane(events) && GoodSince(events, ttl, token, i, now)
    requires forall e | e in events :: e.time <= now
    ensures token in Run(ttl, events) && Run(ttl, events)[token].expiresAt == events[i].time + ttl
    ensures Run(ttl, events)[token].username == events[i].username
  {
    hide Sane;
    var n := |events| - 1;
    var init, last := events[..n], events[n];
    assert last in events && forall e | e in init :: e in events;
    SanePrefix(events, i);
    if i < n {
      GoodMeansInTable(init, ttl, token, i, now);
    }
  }

  /** A sane history without its last event is sane, and that event does not reissue an older token. */
  lemma SanePrefix(events: seq<Event>, i: int)
    requires Sane(events) && 0 <= i < |events| && events[i].Issue?
    ensures Sane(events[..|events| - 1]) && events[i].token != ""
    ensures i < |events| - 1 && events[|events| - 1].Issue? ==> events[|events| - 1].token != events[i].token
  {
  }

  /** Token lifetime: at any time from now on a token is accepted exactly when it was issued, has not been revoked
      since, and its lifetime is not over; and it stands for the user it was issued to. */
  lemma AcceptedExactlyWhileGood(events: seq<Event>, ttl: int, token: string, now: Time)
    requires Sane(events) && forall e | e in events :: e.time <= now
    ensures UserOf(Run(ttl, events), token, now).Some? <==> exists i :: GoodSince(events, ttl, token, i, now)
    ensures forall i | GoodSince(events, ttl, token, i, now) ::
              UserOf(Run(ttl, events), token, now) == Some(events[i].username)
  {
    forall i | GoodSince(events, ttl, token, i, now)
      ensures UserOf(Run(ttl, events), token, now) == Some(events[i].username)
    {
      GoodMeansInTable(events, ttl, token, i, now);
    }
    if UserOf(Run(ttl, events), token, now).Some? {
      var i := InTableMeansIssued(events, ttl, token);
      assert GoodSince(events, ttl, token, i, now);
    }
  }

  /** Once an issued token is refused, it is refused forever, whatever happens next. */
  lemma RefusedForever(events: seq<Event>, more: seq<Event>, ttl: int, token: string,
                                          now: Time, later: Time)
    requires Sane(events + more) && now <= later
    requires (forall e | e in events :: e.time <= now) && (forall e | e in events + more :: e.time <= later)
    requires exists i :: 0 <= i < |events| && events[i].Issue? && events[i].token == token
    requires UserOf(Run(ttl, events), token, now).None?
    ensures UserOf(Run(ttl, events + more), token, later).None?
  {
    hide GoodSince;
    var all := events + more;
    assert all[..|events|] == events && Sane(events);
    AcceptedExactlyWhileGood(events, ttl, token, now);
    AcceptedExactlyWhileGood(all, ttl, token, later);
    var first :| 0 <= first < |events| && events[first].Issue? && events[first].token == token;
    forall i
      ensures GoodSince(all, ttl, token, i, later) ==> GoodSince(events, ttl, token, i, now)
    {
      GoodBefore(events, more, ttl, token, first, i, now, later);
    }
  }

  lemma GoodBefore(events: seq<Event>, more: seq<Event>, ttl: int, token: string, first: int, i: int,
                                      now: Time, later: Time)
    requires Sane(events + more) && now <= later
    requires 0 <= first < |events| && events[first].Issue? && events[first].token == token
    ensures GoodSince(events + more, ttl, token, i, later) ==> GoodSince(events, ttl, token, i, now)
  {
    var all := events + more;
    assert all[first] == events[first];
    assert forall j | 0 <= j < |events| :: all[j] == events[j];
  }
}
